/** The Python string operations the repository relies on, on sequences of code points. */
module Texts {

  // ----- str.split(c) and c.join(parts) -----

  function Split(s: string, c: char): (r: seq<string>)
    ensures |r| >= 1
    ensures forall part | part in r :: c !in part
  {
    if s == "" then [""]
    else
      var rest := Split(s[1..], c);
      if s[0] == c then [""] + rest else [[s[0]] + rest[0]] + rest[1..]
  }

  function Join(parts: seq<string>, c: char): string {
    if parts == [] then ""
    else if |parts| == 1 then parts[0]
    else parts[0] + [c] + Join(parts[1..], c)
  }

  lemma {:induction false} JoinSplit(s: string, c: char)
    ensures Join(Split(s, c), c) == s
  {
    if s != "" {
      JoinSplit(s[1..], c);
      var rest := Split(s[1..], c);
      assert s == [s[0]] + s[1..];
      if s[0] == c {
        assert Split(s, c)[1..] == rest;
      } else {
        assert Split(s, c)[1..] == rest[1..];
      }
    }
  }

  lemma {:induction false} SplitPlain(s: string, c: char)
    requires c !in s
    ensures Split(s, c) == [s]
  {
    if s != "" {
      SplitPlain(s[1..], c);
      assert s == [s[0]] + s[1..];
    }
  }

  lemma {:induction false} SplitFirst(head: string, tail: string, c: char)
    requires c !in head
    ensures Split(head + [c] + tail, c) == [head] + Split(tail, c)
  {
    var s := head + [c] + tail;
    if head == "" {
      assert s[1..] == tail;
    } else {
      SplitFirst(head[1..], tail, c);
      assert s[1..] == head[1..] + [c] + tail;
      assert head == [head[0]] + head[1..];
    }
  }

  lemma {:induction false} SplitJoin(parts: seq<string>, c: char)
    requires parts != [] && forall part | part in parts :: c !in part
    ensures Split(Join(parts, c), c) == parts
  {
    if |parts| == 1 {
      SplitPlain(parts[0], c);
    } else {
      SplitJoin(parts[1..], c);
      SplitFirst(parts[0], Join(parts[1..], c), c);
    }
  }

  // ----- str.replace(pattern, replacement) -----

  function Replace(s: string, pattern: string, replacement: string): (r: string)
    requires pattern != ""
  {
    if |s| < |pattern| then s
    else if pattern <= s then replacement + Replace(s[|pattern|..], pattern, replacement)
    else [s[0]] + Replace(s[1..], pattern, replacement)
  }

  // ----- str(n) and int(text) for natural numbers -----

  predicate IsDigit(c: char) { '0' <= c <= '9' }

  function DigitChar(d: nat): (c: char)
    requires d < 10
    ensures IsDigit(c) && c as int - '0' as int == d
  {
    ('0' as int + d) as char
  }

  function Decimal(n: nat): (s: string)
    ensures s != "" && forall c | c in s :: IsDigit(c)
  {
    if n < 10 then [DigitChar(n)] else Decimal(n / 10) + [DigitChar(n % 10)]
  }

  predicate AllDigits(s: string) {
    s != "" && forall c | c in s :: IsDigit(c)
  }

  function ParseDecimal(s: string): nat
    requires forall c | c in s :: IsDigit(c)
  {
    if s == "" then 0
    else
      assert IsDigit(s[|s| - 1]);
      ParseDecimal(s[..|s| - 1]) * 10 + (s[|s| - 1] as int - '0' as int)
  }

  lemma {:induction false} ParsePrintDecimal(n: nat)
    ensures ParseDecimal(Decimal(n)) == n
  {
    if n >= 10 {
      ParsePrintDecimal(n / 10);
      var s := Decimal(n);
      assert s[..|s| - 1] == Decimal(n / 10);
    } else {
      assert Decimal(n)[..0] == "";
    }
  }

  // ----- str.strip() -----

  /** The code points that str.isspace accepts. */
  predicate IsSpace(c: char) {
    var n := c as int;
    || 0x09 <= n <= 0x0D || 0x1C <= n <= 0x20 || n == 0x85 || n == 0xA0 || n == 0x1680
    || 0x2000 <= n <= 0x200A || n == 0x2028 || n == 0x2029 || n == 0x202F || n == 0x205F || n == 0x3000
  }

  function LStrip(s: string): string {
    if s != "" && IsSpace(s[0]) then LStrip(s[1..]) else s
  }

  function RStrip(s: string): string {
    if s != "" && IsSpace(s[|s| - 1]) then RStrip(s[..|s| - 1]) else s
  }

  function Strip(s: string): string { RStrip(LStrip(s)) }

  predicate StartsWith(s: string, prefix: string) { prefix <= s }

  lemma {:induction false} RStripKeepsHead(s: string)
    requires s == "" || !IsSpace(s[0])
    ensures RStrip(s) == "" <==> s == ""
    ensures RStrip(s) != "" ==> RStrip(s)[0] == s[0] && !IsSpace(RStrip(s)[|RStrip(s)| - 1])
  {
    if s != "" && IsSpace(s[|s| - 1]) { RStripKeepsHead(s[..|s| - 1]); }
  }

  lemma {:induction false} LStripHead(s: string)
    ensures LStrip(s) == "" || !IsSpace(LStrip(s)[0])
  {
    if s != "" && IsSpace(s[0]) { LStripHead(s[1..]); }
  }

  /** A stripped string has nothing left to strip. */
  lemma StripIdempotent(s: string)
    ensures Strip(Strip(s)) == Strip(s)
  {
    LStripHead(s);
    RStripKeepsHead(LStrip(s));
  }

  predicate AllSpace(s: string) { forall c | c in s :: IsSpace(c) }

  lemma {:induction false} LStripExact(s: string)
    ensures |LStrip(s)| <= |s| && LStrip(s) == s[|s| - |LStrip(s)|..] && AllSpace(s[..|s| - |LStrip(s)|])
  {
    if s != "" && IsSpace(s[0]) {
      LStripExact(s[1..]);
      var n := |s| - |LStrip(s)|;
      assert s[..n] == [s[0]] + s[1..][..n - 1];
    }
  }

  lemma {:induction false} RStripExact(s: string)
    ensures |RStrip(s)| <= |s| && RStrip(s) == s[..|RStrip(s)|] && AllSpace(s[|RStrip(s)|..])
  {
    if s != "" && IsSpace(s[|s| - 1]) {
      RStripExact(s[..|s| - 1]);
      var n := |RStrip(s)|;
      assert s[n..] == s[..|s| - 1][n..] + [s[|s| - 1]];
    }
  }

  /** Stripping takes off white space at both ends, and all of it: what is left neither starts nor ends with any. */
  lemma StripExact(s: string) returns (before: string, after: string)
    ensures s == before + Strip(s) + after && AllSpace(before) && AllSpace(after)
    ensures Strip(s) != "" ==> !IsSpace(Strip(s)[0]) && !IsSpace(Strip(s)[|Strip(s)| - 1])
  {
    var left := LStrip(s);
    LStripExact(s);
    RStripExact(left);
    LStripHead(s);
    RStripKeepsHead(left);
    before, after := s[..|s| - |left|], left[|Strip(s)|..];
  }

  // ----- json.dumps(text, ensure_ascii=False) -----

  function HexChar(d: nat): char
    requires d < 16
  {
    if d < 10 then ('0' as int + d) as char else ('a' as int + (d - 10)) as char
  }

  function QuoteChar(c: char): (r: string)
    ensures r != ""
  {
    if c == '\"' then "\\\""
    else if c == '\\' then "\\\\"
    else if c == '\n' then "\\n"
    else if c == '\r' then "\\r"
    else if c == '\t' then "\\t"
    else if c as int == 8 then "\\b"
    else if c as int == 12 then "\\f"
    else if c as int < 32 then "\\u00" + [HexChar(c as int / 16), HexChar(c as int % 16)]
    else [c]
  }

  function QuoteBody(s: string): string {
    if s == "" then "" else QuoteChar(s[0]) + QuoteBody(s[1..])
  }

  function Quote(s: string): string { "\"" + QuoteBody(s) + "\"" }

  lemma QuoteCharPrefixFree(a: char, b: char, u: string, v: string)
    requires QuoteChar(a) + u == QuoteChar(b) + v
    ensures a == b
  {
    var s := QuoteChar(a) + u;
    assert s[0] == QuoteChar(a)[0] == QuoteChar(b)[0];
    if |QuoteChar(a)| > 1 {
      assert s[1] == QuoteChar(a)[1] == QuoteChar(b)[1];
      if |QuoteChar(a)| == 6 {
        assert s[4] == QuoteChar(a)[4] == QuoteChar(b)[4];
        assert s[5] == QuoteChar(a)[5] == QuoteChar(b)[5];
      }
    }
  }

  lemma {:induction false} QuoteBodyInjective(s: string, t: string)
    requires QuoteBody(s) == QuoteBody(t)
    ensures s == t
  {
    if s != "" && t != "" {
      QuoteCharPrefixFree(s[0], t[0], QuoteBody(s[1..]), QuoteBody(t[1..]));
      assert QuoteBody(s[1..]) == QuoteBody(s)[|QuoteChar(s[0])|..];
      assert QuoteBody(t[1..]) == QuoteBody(t)[|QuoteChar(t[0])|..];
      QuoteBodyInjective(s[1..], t[1..]);
      assert s == [s[0]] + s[1..] && t == [t[0]] + t[1..];
    }
  }

  lemma QuoteInjective(s: string, t: string)
    requires Quote(s) == Quote(t)
    ensures s == t
  {
    assert QuoteBody(s) == Quote(s)[1..|Quote(s)| - 1];
    assert QuoteBody(t) == Quote(t)[1..|Quote(t)| - 1];
    QuoteBodyInjective(s, t);
  }
}
