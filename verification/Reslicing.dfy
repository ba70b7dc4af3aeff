/**
  Markdown assertions traced back to the retained bytes: slicing the range of an assertion, taking
  its lines, stripping and joining them gives the statement back
  (src/lemmamind/extraction.py, src/lemmamind/evidence_inspection.py).
*/
module Reslicing {
  import opened Wrappers
  import opened Orders
  import opened Texts
  import opened LineLocators
  import opened Utf8
  import opened Slicing
  import opened Markdown

  // ----- str.splitlines() -----

  /** The characters at which Python breaks a text into lines. */
  predicate Breaks(c: char) {
    var n := c as int;
    0x0A <= n <= 0x0D || 0x1C <= n <= 0x1E || n == 0x85 || n == 0x2028 || n == 0x2029
  }

  /** The length of the first line of a text, its ending included. */
  function FirstOfText(text: string): (n: nat)
    requires text != ""
    ensures 0 < n <= |text|
  {
    if text[0] == '\r' && |text| > 1 && text[1] == '\n' then 2
    else if Breaks(text[0]) || |text| == 1 then 1
    else 1 + FirstOfText(text[1..])
  }

  /** A line without its ending. */
  function Chomp(raw: string): string {
    if |raw| > 1 && raw[|raw| - 2] == '\r' && raw[|raw| - 1] == '\n' then raw[..|raw| - 2]
    else if raw != "" && Breaks(raw[|raw| - 1]) then raw[..|raw| - 1]
    else raw
  }

  /** str.splitlines() */
  function TextLines(text: string): seq<string> {
    if text == "" then [] else [Chomp(text[..FirstOfText(text)])] + TextLines(text[FirstOfText(text)..])
  }

  // ----- lines as the bytes have them -----

  /** The length of the first line when only line feeds and carriage returns break lines. */
  function FirstRaw(text: string): (n: nat)
    requires text != ""
    ensures 0 < n <= |text|
  {
    if text[0] == '\n' then 1
    else if text[0] == '\r' then if |text| > 1 && text[1] == '\n' then 2 else 1
    else if |text| == 1 then 1
    else 1 + FirstRaw(text[1..])
  }

  /** Lines with their endings, as the encoded bytes break. */
  function RawLines(text: string): seq<string> {
    if text == "" then [] else [text[..FirstRaw(text)]] + RawLines(text[FirstRaw(text)..])
  }

  /** No character at which Python breaks text, but not bytes. */
  predicate Plain(text: string) { forall c | c in text && Breaks(c) :: c == '\n' || c == '\r' }

  lemma {:induction false} FirstAgrees(text: string)
    requires text != "" && Plain(text)
    ensures FirstOfText(text) == FirstRaw(text)
  {
    assert text[0] in text;
    if text[0] != '\n' && text[0] != '\r' && |text| > 1 { FirstAgrees(text[1..]); }
  }

  /** On such a text Python's lines are the byte lines without their endings. */
  lemma {:induction false} LinesAgree(text: string)
    requires Plain(text)
    ensures TextLines(text) == Map(Chomp, RawLines(text))
    decreases |text|
  {
    if text != "" {
      var n := FirstRaw(text);
      FirstAgrees(text);
      LinesAgree(text[n..]);
      MapAppend(Chomp, [text[..n]], RawLines(text[n..]));
      assert Map(Chomp, [text[..n]]) == [Chomp(text[..n])];
    }
  }

  lemma {:induction false} RawLinesConcat(text: string)
    ensures Concat(RawLines(text)) == text
    decreases |text|
  {
    if text != "" {
      var n := FirstRaw(text);
      RawLinesConcat(text[n..]);
      ConcatCons(text[..n], RawLines(text[n..]));
      assert text == text[..n] + text[n..];
    }
  }

  /** What comes after the first line has no say in where it ends. */
  lemma {:induction false} FirstRawTake(text: string, m: nat)
    requires text != "" && FirstRaw(text) <= m <= |text|
    ensures FirstRaw(text[..m]) == FirstRaw(text)
  {
    if text[0] != '\n' && text[0] != '\r' && |text| > 1 {
      FirstRawTake(text[1..], m - 1);
      assert text[..m][1..] == text[1..][..m - 1];
    }
  }

  /** The first j lines, put together, break into the same lines. */
  lemma {:induction false} RawTake(text: string, j: nat)
    requires j <= |RawLines(text)|
    ensures RawLines(Concat(RawLines(text)[..j])) == RawLines(text)[..j]
    ensures Concat(RawLines(text)[..j]) <= text
    decreases |text|
  {
    if j > 0 {
      var n := FirstRaw(text);
      var head, tail := text[..n], text[n..];
      RawTake(tail, j - 1);
      var some := Concat(RawLines(tail)[..j - 1]);
      assert RawLines(text)[..j] == [head] + RawLines(tail)[..j - 1];
      ConcatCons(head, RawLines(tail)[..j - 1]);
      PrefixBreaks(text, some);
    }
  }

  /** A first line followed by any beginning of what follows it is still a first line. */
  lemma PrefixBreaks(text: string, some: string)
    requires text != "" && some <= text[FirstRaw(text)..]
    ensures text[..FirstRaw(text)] + some <= text
    ensures RawLines(text[..FirstRaw(text)] + some) == [text[..FirstRaw(text)]] + RawLines(some)
  {
    var n := FirstRaw(text);
    var head := text[..n];
    TakeMore(text, n, some);
    FirstRawTake(text, n + |some|);
    Rejoin(head, some);
  }

  lemma Rejoin(head: string, some: string)
    ensures (head + some)[..|head|] == head && (head + some)[|head|..] == some
  {}

  lemma TakeMore(text: string, n: nat, some: string)
    requires n <= |text| && some <= text[n..]
    ensures text[..n] + some == text[..n + |some|]
  {}

  /** Dropping lines leaves the lines of what remains. */
  lemma {:induction false} RawDrop(text: string, i: nat)
    requires i <= |RawLines(text)|
    ensures exists rest :: RawLines(rest) == RawLines(text)[i..]
    decreases |text|
  {
    if i == 0 {
      assert RawLines(text)[0..] == RawLines(text);
    } else {
      var n := FirstRaw(text);
      RawDrop(text[n..], i - 1);
      assert RawLines(text)[i..] == RawLines(text[n..])[i - 1..];
    }
  }

  // ----- bytes and text have the same lines -----

  predicate NoBreak(data: Bytes) { LF !in data && CR !in data }

  /** Only the two control characters themselves encode to the bytes that break lines. */
  lemma CharNoBreak(c: char)
    requires c != '\n' && c != '\r'
    ensures NoBreak(EncodeChar(c))
  {
    assert c as int != 10 && c as int != 13;
  }

  lemma {:induction false} SkipNoBreak(head: Bytes, rest: Bytes)
    requires head != [] && NoBreak(head)
    ensures FirstLine(head + rest) == |head| + (if rest == [] then 0 else FirstLine(rest))
  {
    var s := head + rest;
    assert head[0] in head && s[0] == head[0];
    if |head| > 1 {
      assert s[1..] == head[1..] + rest;
      assert NoBreak(head[1..]);
      SkipNoBreak(head[1..], rest);
    } else {
      assert s[1..] == rest;
    }
  }

  /** The first line of the encoded text is the encoding of the text's first line. */
  lemma {:induction false} FirstLineEncoded(text: string)
    requires text != ""
    ensures Encode(text) != [] && FirstLine(Encode(text)) == |Encode(text[..FirstRaw(text)])|
  {
    var c, rest := text[0], text[1..];
    assert text == [c] + rest;
    EncodeCons(c, rest);
    if c == '\n' {
      OneCharacter(text);
    } else if c == '\r' {
      ReturnEncoded(text);
    } else {
      CharNoBreak(c);
      SkipNoBreak(EncodeChar(c), Encode(rest));
      if rest == "" {
        assert text[..1] == text;
      } else {
        FirstLineEncoded(rest);
        assert text[..FirstRaw(text)] == [c] + rest[..FirstRaw(rest)];
        EncodeCons(c, rest[..FirstRaw(rest)]);
      }
    }
  }

  lemma OneCharacter(text: string)
    requires text != ""
    ensures Encode(text[..1]) == EncodeChar(text[0])
  {
    assert text[..1] == [text[0]] + "";
    EncodeCons(text[0], "");
  }

  lemma ReturnEncoded(text: string)
    requires text != "" && text[0] == '\r'
    ensures Encode(text) != [] && FirstLine(Encode(text)) == |Encode(text[..FirstRaw(text)])|
  {
    var rest := text[1..];
    assert text == ['\r'] + rest;
    EncodeCons('\r', rest);
    OneCharacter(text);
    if rest != "" {
      assert rest == [rest[0]] + rest[1..];
      EncodeCons(rest[0], rest[1..]);
      assert Encode(text)[1] == EncodeChar(rest[0])[0];
      if rest[0] == '\n' {
        assert text[..2] == ['\r'] + ['\n'];
        EncodeCons('\r', ['\n']);
        OneCharacter(rest);
        assert rest[..1] == ['\n'];
      } else {
        LineFeedOnly(rest[0]);
      }
    }
  }

  lemma LineFeedOnly(c: char)
    requires c != '\n'
    ensures EncodeChar(c)[0] != LF
  {
    assert c as int != 10;
  }

  /** Whatever the text, its encoding breaks where the text has line feeds and carriage returns. */
  lemma {:induction false} EncodedLines(text: string)
    ensures Lines(Encode(text)) == Map(Encode, RawLines(text))
    decreases |text|
  {
    if text != "" {
      var n := FirstRaw(text);
      var head, tail := text[..n], text[n..];
      FirstLineEncoded(text);
      assert text == head + tail;
      EncodeAppend(head, tail);
      assert Encode(text)[..|Encode(head)|] == Encode(head) && Encode(text)[|Encode(head)|..] == Encode(tail);
      EncodedLines(tail);
      MapAppend(Encode, [head], RawLines(tail));
      assert Map(Encode, [head]) == [Encode(head)];
    }
  }

  /** The part of a text that lines first to last make up. */
  function Excerpt(text: string, first: nat, last: nat): string
    requires 1 <= first <= last <= |RawLines(text)|
  {
    Concat(RawLines(text)[first - 1..last])
  }

  lemma ExcerptLines(text: string, first: nat, last: nat)
    requires 1 <= first <= last <= |RawLines(text)|
    ensures RawLines(Excerpt(text, first, last)) == RawLines(text)[first - 1..last]
  {
    RawDrop(text, first - 1);
    var rest :| RawLines(rest) == RawLines(text)[first - 1..];
    RawTake(rest, last - (first - 1));
    assert RawLines(rest)[..last - (first - 1)] == RawLines(text)[first - 1..last];
  }

  lemma {:induction false} PartOfText(parts: seq<string>, i: nat, j: nat)
    requires i <= j <= |parts|
    ensures forall c | c in Concat(parts[i..j]) :: c in Concat(parts)
  {
    ConcatRange(parts, i, j);
    var whole := Concat(parts);
    forall c | c in Concat(parts[i..j]) ensures c in whole {
      var k :| 0 <= k < |Concat(parts[i..j])| && Concat(parts[i..j])[k] == c;
      assert whole[|Concat(parts[..i])| + k] == c;
    }
  }

  lemma ExcerptPlain(text: string, first: nat, last: nat)
    requires Plain(text) && 1 <= first <= last <= |RawLines(text)|
    ensures Plain(Excerpt(text, first, last))
  {
    RawLinesConcat(text);
    PartOfText(RawLines(text), first - 1, last);
  }

  /**
    A line range of encoded text is accepted exactly when it is in bounds, and is then the excerpt of the
    text; where Python breaks text and bytes alike, the excerpt has exactly the lines asked for.
  */
  lemma RangeIsExcerpt(text: string, first: nat, last: nat)
    ensures SliceLines(Encode(text), first, last).Ok? <==> 1 <= first <= last <= |RawLines(text)|
    ensures 1 <= first <= last <= |RawLines(text)| ==> SliceLines(Encode(text), first, last) == Ok(Excerpt(text, first, last))
    ensures Plain(text) && 1 <= first <= last <= |RawLines(text)| ==>
              |TextLines(text)| == |RawLines(text)|
              && TextLines(Excerpt(text, first, last)) == TextLines(text)[first - 1..last]
  {
    EncodedLines(text);
    if 1 <= first <= last <= |RawLines(text)| {
      MapSlice(Encode, RawLines(text), first - 1, last);
      EncodeConcat(RawLines(text)[first - 1..last]);
      DecodeEncode(Excerpt(text, first, last));
      if Plain(text) {
        ExcerptPlain(text, first, last);
        ExcerptLines(text, first, last);
        LinesAgree(text);
        LinesAgree(Excerpt(text, first, last));
        MapSlice(Chomp, RawLines(text), first - 1, last);
      }
    }
  }

  /** A form feed breaks the text but not the bytes: the range of the second line is refused. */
  lemma OtherBreakShifts()
    ensures TextLines("a\U{000C}b") == ["a", "b"] && SliceLines(Encode("a\U{000C}b"), 2, 2) == Err(PastEnd)
  {
    var text := "a\U{000C}b";
    assert text[1..][1..] == "b" && text[..2][..1] == "a" && text[2..] == "b" && "b"[..1] == "b" && "b"[1..] == "";
    assert TextLines("b") == ["b"] + TextLines("");
    assert FirstOfText(text) == 2;
    assert text[..3] == text && text[3..] == "";
    assert FirstRaw(text) == 3;
    assert RawLines(text) == [text] + RawLines("");
    EncodedLines(text);
  }

  // ----- the statements come back -----

  /** The range of a prose assertion slices to text whose stripped lines, joined, are the statement. */
  lemma ProseComesBack(text: string, a: Assertion)
    requires Plain(text) && SoundProse(TextLines(text), a)
    ensures a.last <= |RawLines(text)| && SliceLines(Encode(text), a.first, a.last) == Ok(Excerpt(text, a.first, a.last))
    ensures Join(Stripped(TextLines(Excerpt(text, a.first, a.last))), ' ') == a.statement
  {
    LinesAgree(text);
    RangeIsExcerpt(text, a.first, a.last);
    MapSlice(Strip, TextLines(text), a.first - 1, a.last);
  }

  /** The lines of an excerpt as an item statement reads them: the first without its marker, all stripped. */
  function ItemText(lines: seq<string>): seq<string>
    requires lines != []
  {
    [Body(ReadLine(lines[0]))] + Stripped(lines[1..])
  }

  lemma ItemTextAt(lines: seq<string>, first: nat, last: nat)
    requires 1 <= first <= last <= |lines|
    ensures ItemText(lines[first - 1..last]) == ItemParts(ReadAll(lines), first, last)
  {
    var back, read := lines[first - 1..last], ReadAll(lines);
    assert back[1..] == lines[first..last];
    assert Map(StrippedOf, read[first..last]) == Stripped(lines[first..last]);
  }

  /** The range of a list assertion slices to text that gives the statement back once the marker is taken off. */
  lemma ItemComesBack(text: string, a: Assertion)
    requires Plain(text) && SoundItem(ReadAll(TextLines(text)), a)
    ensures a.last <= |RawLines(text)| && SliceLines(Encode(text), a.first, a.last) == Ok(Excerpt(text, a.first, a.last))
    ensures TextLines(Excerpt(text, a.first, a.last)) != []
    ensures Join(ItemText(TextLines(Excerpt(text, a.first, a.last))), ' ') == a.statement
  {
    LinesAgree(text);
    RangeIsExcerpt(text, a.first, a.last);
    ItemTextAt(TextLines(text), a.first, a.last);
  }
}
