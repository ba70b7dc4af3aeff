/** UTF-8, as sections 3 and 4 of RFC 3629 define it, and what a slice of encoded text decodes to. */
module Utf8 {
  import opened Wrappers
  import opened Orders

  type Byte = n: int | 0 <= n < 256

  type Bytes = seq<Byte>

  // ----- encoding -----

  function EncodeChar(c: char): (r: Bytes)
    ensures 1 <= |r| <= 4
    ensures c as int < 0x80 ==> r == [c as int]
    ensures c as int >= 0x80 ==> forall b | b in r :: b >= 0x80
  {
    var n := c as int;
    if n < 0x80 then [n]
    else if n < 0x800 then [0xC0 + n / 64, 0x80 + n % 64]
    else if n < 0x10000 then [0xE0 + n / 4096, 0x80 + n / 64 % 64, 0x80 + n % 64]
    else [0xF0 + n / 262144 % 8, 0x80 + n / 4096 % 64, 0x80 + n / 64 % 64, 0x80 + n % 64]
  }

  /** str.encode("utf-8") */
  function Encode(text: string): Bytes { FlatMap(EncodeChar, text) }

  // ----- decoding -----

  predicate Continuation(b: Byte) { 0x80 <= b < 0xC0 }

  /** The code point that a two-, three- or four-byte form spells. */
  function Two(a: Byte, b: Byte): int { (a - 0xC0) * 64 + (b - 0x80) }

  function Three(a: Byte, b: Byte, c: Byte): int { (a - 0xE0) * 4096 + (b - 0x80) * 64 + (c - 0x80) }

  function Four(a: Byte, b: Byte, c: Byte, d: Byte): int {
    (a - 0xF0) * 262144 + (b - 0x80) * 4096 + (c - 0x80) * 64 + (d - 0x80)
  }

  predicate IsScalar(n: int) { 0 <= n < 0xD800 || 0xE000 <= n < 0x110000 }

  /** The first character and how many bytes it takes; overlong forms and surrogates are refused. */
  function DecodeFirst(data: Bytes): (r: Option<(char, nat)>)
    requires data != []
    ensures r.Some? ==> 1 <= r.value.1 <= |data|
  {
    var a := data[0];
    if a < 0x80 then Some((a as char, 1))
    else if 0xC0 <= a < 0xE0 && |data| >= 2 && Continuation(data[1]) then
      var n := Two(a, data[1]);
      if n >= 0x80 then Some((n as char, 2)) else None
    else if 0xE0 <= a < 0xF0 && |data| >= 3 && Continuation(data[1]) && Continuation(data[2]) then
      var n := Three(a, data[1], data[2]);
      if n >= 0x800 && IsScalar(n) then Some((n as char, 3)) else None
    else if 0xF0 <= a < 0xF8 && |data| >= 4 && Continuation(data[1]) && Continuation(data[2]) && Continuation(data[3]) then
      var n := Four(a, data[1], data[2], data[3]);
      if n >= 0x10000 && IsScalar(n) then Some((n as char, 4)) else None
    else None
  }

  /** bytes.decode("utf-8"), None where it raises. */
  function Decode(data: Bytes): Option<string> {
    if data == [] then Some("")
    else
      match DecodeFirst(data)
      case None => None
      case Some((c, n)) =>
        match Decode(data[n..])
        case None => None
        case Some(rest) => Some([c] + rest)
  }

  // ----- one character -----

  lemma CharShape(c: char)
    ensures !Continuation(EncodeChar(c)[0])
    ensures forall i | 1 <= i < |EncodeChar(c)| :: Continuation(EncodeChar(c)[i])
  {}

  lemma TwoBack(n: int)
    requires 0x80 <= n < 0x800
    ensures 0xC2 <= 0xC0 + n / 64 < 0xE0 && Two(0xC0 + n / 64, 0x80 + n % 64) == n
  {}

  lemma ThreeBack(n: int)
    requires 0x800 <= n < 0x10000
    ensures 0xE0 <= 0xE0 + n / 4096 < 0xF0 && Three(0xE0 + n / 4096, 0x80 + n / 64 % 64, 0x80 + n % 64) == n
  {}

  lemma FourBack(n: int)
    requires 0x10000 <= n < 0x110000
    ensures 0xF0 <= 0xF0 + n / 262144 % 8 < 0xF5
    ensures Four(0xF0 + n / 262144 % 8, 0x80 + n / 4096 % 64, 0x80 + n / 64 % 64, 0x80 + n % 64) == n
  {
    var z, m := n % 64, n / 64;
    var y, k := m % 64, m / 64;
    var x, w := k % 64, k / 64;
    By4096(k, y * 64 + z);
    By262144(w, x * 4096 + y * 64 + z);
  }

  lemma FirstOfChar(c: char, rest: Bytes)
    ensures DecodeFirst(EncodeChar(c) + rest) == Some((c, |EncodeChar(c)|))
  {
    var n, s := c as int, EncodeChar(c) + rest;
    CharShape(c);
    assert forall i | 0 <= i < |EncodeChar(c)| :: s[i] == EncodeChar(c)[i];
    if n < 0x80 {
    } else if n < 0x800 {
      TwoBack(n);
    } else if n < 0x10000 {
      ThreeBack(n);
    } else {
      FourBack(n);
    }
  }

  lemma FirstIsChar(data: Bytes)
    requires data != [] && DecodeFirst(data).Some?
    ensures EncodeChar(DecodeFirst(data).value.0) == data[..DecodeFirst(data).value.1]
  {
    var a := data[0];
    if a < 0x80 {
    } else if a < 0xE0 {
      TwoForth(a, data[1]);
    } else if a < 0xF0 {
      ThreeForth(a, data[1], data[2]);
    } else {
      FourForth(a, data[1], data[2], data[3]);
    }
  }

  lemma TwoForth(a: Byte, b: Byte)
    requires 0xC0 <= a < 0xE0 && Continuation(b)
    ensures 0xC0 + Two(a, b) / 64 == a && 0x80 + Two(a, b) % 64 == b && Two(a, b) < 0x800
  {}

  lemma ThreeForth(a: Byte, b: Byte, c: Byte)
    requires 0xE0 <= a < 0xF0 && Continuation(b) && Continuation(c)
    ensures var n := Three(a, b, c);
            0xE0 + n / 4096 == a && 0x80 + n / 64 % 64 == b && 0x80 + n % 64 == c && n < 0x10000
  {}

  lemma FourForth(a: Byte, b: Byte, c: Byte, d: Byte)
    requires 0xF0 <= a < 0xF8 && Continuation(b) && Continuation(c) && Continuation(d)
    ensures var n := Four(a, b, c, d);
            0xF0 + n / 262144 % 8 == a && 0x80 + n / 4096 % 64 == b && 0x80 + n / 64 % 64 == c && 0x80 + n % 64 == d
  {
    var w, x, y, z := a - 0xF0, b - 0x80, c - 0x80, d - 0x80;
    By262144(w, x * 4096 + y * 64 + z);
    By4096(w * 64 + x, y * 64 + z);
    By64(w * 4096 + x * 64 + y, z);
    By64(w * 64 + x, y);
    By64(w, x);
  }

  lemma By64(q: int, r: int)
    requires 0 <= r < 64
    ensures (q * 64 + r) / 64 == q && (q * 64 + r) % 64 == r
  {}

  lemma By4096(q: int, r: int)
    requires 0 <= r < 4096
    ensures (q * 4096 + r) / 4096 == q
  {}

  lemma By262144(q: int, r: int)
    requires 0 <= r < 262144
    ensures (q * 262144 + r) / 262144 == q
  {}

  // ----- whole texts -----

  lemma EncodeAppend(a: string, b: string)
    ensures Encode(a + b) == Encode(a) + Encode(b)
  {
    FlatMapAppend(EncodeChar, a, b);
  }

  lemma EncodeCons(c: char, rest: string)
    ensures Encode([c] + rest) == EncodeChar(c) + Encode(rest)
  {
    EncodeAppend([c], rest);
    FlatMapOne(EncodeChar, [], c);
    assert [] + [c] == [c];
  }

  lemma {:induction false} EncodeConcat(parts: seq<string>)
    ensures Encode(Concat(parts)) == Concat(Map(Encode, parts))
  {
    if parts != [] {
      EncodeConcat(parts[1..]);
      EncodeAppend(parts[0], Concat(parts[1..]));
      assert Map(Encode, parts)[1..] == Map(Encode, parts[1..]);
    }
  }

  /** Encoded text decodes to itself. */
  lemma {:induction false} DecodeEncode(text: string)
    ensures Decode(Encode(text)) == Some(text)
  {
    if text != "" {
      var c, rest := text[0], text[1..];
      assert text == [c] + rest;
      EncodeCons(c, rest);
      FirstOfChar(c, Encode(rest));
      assert Encode(text)[|EncodeChar(c)|..] == Encode(rest);
      DecodeEncode(rest);
    }
  }

  /** Only encoded text decodes. */
  lemma {:induction false} DecodedIsEncoded(data: Bytes)
    ensures Decode(data).Some? ==> Encode(Decode(data).value) == data
  {
    if Decode(data).Some? && data != [] {
      var (c, n) := DecodeFirst(data).value;
      DecodedIsEncoded(data[n..]);
      FirstIsChar(data);
      EncodeCons(c, Decode(data[n..]).value);
      assert data == data[..n] + data[n..];
    }
  }

  lemma DecodeAppend(a: Bytes, b: Bytes)
    requires Decode(a).Some? && Decode(b).Some?
    ensures Decode(a + b) == Some(Decode(a).value + Decode(b).value)
  {
    var s, t := Decode(a).value, Decode(b).value;
    DecodedIsEncoded(a);
    DecodedIsEncoded(b);
    EncodeAppend(s, t);
    DecodeEncode(s + t);
  }

  // ----- slices of encoded text -----

  /** Some number of whole characters takes exactly k bytes. */
  ghost predicate Boundary(text: string, k: nat) {
    exists i | 0 <= i <= |text| :: |Encode(text[..i])| == k
  }

  lemma BoundaryCut(text: string, i: nat, k: nat)
    requires i <= |text| && |Encode(text[..i])| == k
    ensures k <= |Encode(text)| && Encode(text)[..k] == Encode(text[..i]) && Encode(text)[k..] == Encode(text[i..])
  {
    EncodeAppend(text[..i], text[i..]);
    assert text == text[..i] + text[i..];
  }

  /** A byte that is no continuation begins a character. */
  lemma {:induction false} StartIsBoundary(text: string, k: nat) returns (i: nat)
    requires k < |Encode(text)| && !Continuation(Encode(text)[k])
    ensures i <= |text| && |Encode(text[..i])| == k
  {
    var n := |text| - 1;
    var init, c := text[..n], text[n];
    assert text == init + [c];
    FlatMapOne(EncodeChar, init, c);
    assert Encode(text) == Encode(init) + EncodeChar(c);
    if k < |Encode(init)| {
      i := StartIsBoundary(init, k);
      assert text[..i] == init[..i];
    } else {
      CharShape(c);
      i := n;
    }
  }

  /** An encoding that begins with another is the encoding of a text that begins with the other. */
  lemma {:induction false} PrefixIsText(text: string, t: string)
    requires Encode(t) <= Encode(text)
    ensures t <= text
  {
    if t != "" {
      var c, rest := t[0], t[1..];
      assert t == [c] + rest;
      EncodeCons(c, rest);
      var tail := Encode(text)[|Encode(t)|..];
      assert Encode(text) == EncodeChar(c) + (Encode(rest) + tail);
      FirstOfChar(c, Encode(rest) + tail);
      assert text != "";
      assert text == [text[0]] + text[1..];
      EncodeCons(text[0], text[1..]);
      FirstOfChar(text[0], Encode(text[1..]));
      assert Encode(text[1..]) == Encode(text)[|EncodeChar(c)|..] == Encode(rest) + tail;
      PrefixIsText(text[1..], rest);
    }
  }

  /** A slice between two boundaries decodes to the characters between them. */
  lemma BetweenBoundaries(text: string, i: nat, j: nat, a: nat, b: nat)
    requires i <= |text| && j <= |text| && |Encode(text[..i])| == a && |Encode(text[..j])| == b && a <= b
    ensures i <= j && b <= |Encode(text)| && Decode(Encode(text)[a..b]) == Some(text[i..j])
  {
    BoundaryCut(text, i, a);
    BoundaryCut(text, j, b);
    if j < i { Shorter(text, j, i); }
    var whole := text[..j];
    assert whole[..i] == text[..i] && whole[i..] == text[i..j];
    BoundaryCut(whole, i, a);
    assert Encode(text)[a..b] == Encode(text)[..b][a..];
    DecodeEncode(text[i..j]);
  }

  lemma Shorter(text: string, i: nat, j: nat)
    requires i < j <= |text|
    ensures |Encode(text[..i])| < |Encode(text[..j])|
  {
    var more := text[i..j];
    assert text[..j] == text[..i] + more;
    EncodeAppend(text[..i], more);
    assert more == [more[0]] + more[1..];
    EncodeCons(more[0], more[1..]);
  }

  /** A slice that is not empty decodes if and only if both its ends lie between characters. */
  lemma SliceDecodes(text: string, a: nat, b: nat)
    requires a < b <= |Encode(text)|
    ensures Decode(Encode(text)[a..b]).Some? <==> Boundary(text, a) && Boundary(text, b)
  {
    var data := Encode(text);
    if Decode(data[a..b]).Some? {
      var t := Decode(data[a..b]).value;
      DecodedIsEncoded(data[a..b]);
      assert t != "";
      assert t == [t[0]] + t[1..];
      EncodeCons(t[0], t[1..]);
      CharShape(t[0]);
      assert data[a] == data[a..b][0] == EncodeChar(t[0])[0];
      var i := StartIsBoundary(text, a);
      EndIsBoundary(text, i, a, b, t);
    }
    if Boundary(text, a) && Boundary(text, b) {
      var i :| 0 <= i <= |text| && |Encode(text[..i])| == a;
      var j :| 0 <= j <= |text| && |Encode(text[..j])| == b;
      BetweenBoundaries(text, i, j, a, b);
    }
  }

  lemma EndIsBoundary(text: string, i: nat, a: nat, b: nat, t: string)
    requires i <= |text| && |Encode(text[..i])| == a && a <= b <= |Encode(text)| && Encode(t) == Encode(text)[a..b]
    ensures Boundary(text, b)
  {
    var rest := text[i..];
    BoundaryCut(text, i, a);
    assert Encode(t) == Encode(rest)[..b - a];
    PrefixIsText(rest, t);
    assert text[..i + |t|] == text[..i] + t;
    EncodeAppend(text[..i], t);
    assert |Encode(text[..i + |t|])| == b;
  }
}
