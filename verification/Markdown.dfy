/**
  The two Markdown scanners, on the lines of a text (src/lemmamind/extraction.py).

  Lines are counted from 1, as locators print them.
*/
module Markdown {
  import opened Wrappers
  import opened Orders
  import opened Texts

  // ----- lines -----

  predicate IsFence(line: string) { StartsWith(Strip(line), "```") || StartsWith(Strip(line), "~~~") }

  /** Whether a fence is open before the i-th line, counted from 0, when fence lines open and close in turn. */
  predicate Toggled(fences: seq<bool>, i: nat)
    requires i <= |fences|
  {
    i > 0 && fences[i - 1] != Toggled(fences, i - 1)
  }

  predicate InFence(lines: seq<string>, i: nat)
    requires i <= |lines|
  {
    Toggled(Map(IsFence, lines), i)
  }

  function LeadingDigits(s: string): (n: nat)
    ensures n <= |s|
  {
    if s != "" && IsDigit(s[0]) then 1 + LeadingDigits(s[1..]) else 0
  }

  /** The length of a list marker at the start of a text, 0 if there is none. */
  function MarkerLength(s: string): (n: nat)
    ensures n <= |s|
  {
    if s != "" && (s[0] == '-' || s[0] == '+' || s[0] == '*') then 1
    else
      var d := LeadingDigits(s);
      if d > 0 && d < |s| && (s[d] == '.' || s[d] == ')') then d + 1 else 0
  }

  /** A list marker and whitespace after it. */
  predicate ListItemProse(s: string) {
    var n := MarkerLength(s);
    n > 0 && n < |s| && IsSpace(s[n])
  }

  /** Only the characters of a table rule, and a bar among them. */
  predicate TableRule(s: string) {
    '|' in s && forall c | c in s :: c == '|' || c == ':' || c == '-' || IsSpace(c)
  }

  predicate Markup(s: string) {
    StartsWith(s, "#") || StartsWith(s, ">") || StartsWith(s, "<") || StartsWith(s, "<!--")
  }

  predicate ExcludedLine(s: string) { Markup(s) || ListItemProse(s) || StartsWith(s, "|") || TableRule(s) }

  predicate IsContinuation(s: string) { !Markup(s) && !StartsWith(s, "|") && !TableRule(s) }

  /** The i-th line belongs to a paragraph of prose. */
  predicate IsProse(lines: seq<string>, i: nat)
    requires i < |lines|
  {
    && !IsFence(lines[i]) && !InFence(lines, i) && Strip(lines[i]) != "" && !ExcludedLine(Strip(lines[i]))
  }

  // ----- statements -----

  datatype Assertion = Assertion(first: nat, last: nat, statement: string)

  function Stripped(parts: seq<string>): seq<string> { Map(Strip, parts) }

  /** " ".join(part.strip() for part in parts if part.strip()).strip() */
  function Statement(parts: seq<string>): string { Strip(Join(NotBlank(parts), ' ')) }

  function NotBlank(parts: seq<string>): seq<string> {
    if parts == [] then [] else (if Strip(parts[0]) == "" then [] else [Strip(parts[0])]) + NotBlank(parts[1..])
  }

  /** Texts that are stripped and not blank. */
  predicate Clean(parts: seq<string>) {
    forall i | 0 <= i < |parts| :: Strip(parts[i]) == parts[i] && parts[i] != ""
  }

  lemma {:induction false} CleanNotBlank(parts: seq<string>)
    requires Clean(parts)
    ensures NotBlank(parts) == parts
  {
    if parts != [] {
      assert forall i | 0 <= i < |parts| - 1 :: parts[1..][i] == parts[i + 1];
      CleanNotBlank(parts[1..]);
      assert parts == [parts[0]] + parts[1..];
    }
  }

  /** Neither end is whitespace. */
  predicate Tight(s: string) { s != "" && !IsSpace(s[0]) && !IsSpace(s[|s| - 1]) }

  lemma TightIsStripped(s: string)
    ensures Tight(s) ==> Strip(s) == s
    ensures Strip(s) == s && s != "" ==> Tight(s)
  {
    LStripHead(s);
    RStripKeepsHead(LStrip(s));
  }

  lemma {:induction false} JoinTight(parts: seq<string>)
    requires parts != [] && Clean(parts)
    ensures Tight(Join(parts, ' '))
  {
    TightIsStripped(parts[0]);
    if |parts| > 1 {
      assert forall i | 0 <= i < |parts| - 1 :: parts[1..][i] == parts[i + 1];
      JoinTight(parts[1..]);
    }
  }

  /** Clean parts are joined as they are: nothing is dropped and nothing is left to strip. */
  lemma StatementOfClean(parts: seq<string>)
    requires parts != [] && Clean(parts)
    ensures Statement(parts) == Join(parts, ' ') && Statement(parts) != ""
  {
    CleanNotBlank(parts);
    JoinTight(parts);
    TightIsStripped(Join(parts, ' '));
  }

  // ----- prose -----

  function ProseFlags(lines: seq<string>): (r: seq<bool>)
    ensures |r| == |lines| && forall i | 0 <= i < |lines| :: r[i] == IsProse(lines, i)
  {
    seq(|lines|, i requires 0 <= i < |lines| => IsProse(lines, i))
  }

  /** A maximal run of prose lines with its statement: the stripped lines, joined. */
  predicate SoundRun(prose: seq<bool>, texts: seq<string>, a: Assertion)
    requires |texts| == |prose|
  {
    && 1 <= a.first <= a.last <= |prose|
    && (forall i | a.first - 1 <= i < a.last :: prose[i])
    && (a.first > 1 ==> !prose[a.first - 2]) && (a.last < |prose| ==> !prose[a.last])
    && a.statement == Join(texts[a.first - 1..a.last], ' ')
  }

  predicate SoundProse(lines: seq<string>, a: Assertion) { SoundRun(ProseFlags(lines), Stripped(lines), a) }

  predicate Ordered(s: seq<Assertion>) {
    forall i, j | 0 <= i < j < |s| :: s[i].last < s[j].first
  }

  predicate Covers(s: seq<Assertion>, line: nat) {
    exists k | 0 <= k < |s| :: s[k].first <= line <= s[k].last
  }

  /** The texts of prose lines are stripped and not blank. */
  predicate ProseTexts(prose: seq<bool>, texts: seq<string>) {
    |texts| == |prose| && forall i | 0 <= i < |prose| && prose[i] :: Strip(texts[i]) == texts[i] && texts[i] != ""
  }

  /** What the paragraph in hand is: the stripped lines from start on. */
  predicate Open(prose: seq<bool>, texts: seq<string>, i: nat, start: Option<nat>, paragraph: seq<string>)
    requires i <= |prose| == |texts|
  {
    match start
    case None => paragraph == [] && (i > 0 ==> !prose[i - 1])
    case Some(s) =>
      && 1 <= s <= i && paragraph == texts[s - 1..i]
      && (forall k | s - 1 <= k < i :: prose[k]) && (s > 1 ==> !prose[s - 2])
  }

  /** The assertions so far: sound, and covering all prose that is not in hand. */
  predicate Closed(prose: seq<bool>, texts: seq<string>, i: nat, start: Option<nat>, found: seq<Assertion>)
    requires i <= |prose| == |texts|
  {
    && Ordered(found)
    && (forall a | a in found :: SoundRun(prose, texts, a) && a.last < StartOr(start, i + 1))
    && CoversProse(prose, i, start, found)
  }

  /** The lines of prose before i are those of the assertions found and of the paragraph in hand. */
  predicate CoversProse(prose: seq<bool>, i: nat, start: Option<nat>, found: seq<Assertion>)
    requires i <= |prose|
  {
    forall k | 0 <= k < i :: prose[k] <==> Covers(found, k + 1) || (start.Some? && start.value <= k + 1)
  }

  function StartOr(start: Option<nat>, line: nat): nat { if start.None? then line else start.value }

  lemma OpenStatement(prose: seq<bool>, texts: seq<string>, end: nat, s: nat, paragraph: seq<string>)
    requires ProseTexts(prose, texts) && end <= |prose| && (end < |prose| ==> !prose[end])
    requires Open(prose, texts, end, Some(s), paragraph)
    ensures Statement(paragraph) != "" && SoundRun(prose, texts, Assertion(s, end, Statement(paragraph)))
  {
    var first := s - 1;
    forall k | 0 <= k < |paragraph| ensures Strip(paragraph[k]) == paragraph[k] && paragraph[k] != "" {
      var at := first + k;
      assert prose[at];
      assert texts[first..end][k] == texts[at];
    }
    StatementOfClean(paragraph);
  }

  /** Closing the paragraph in hand before a line that is not prose. */
  method Flush(ghost prose: seq<bool>, ghost texts: seq<string>, end: nat, start: Option<nat>, paragraph: seq<string>, found: seq<Assertion>)
    returns (r: seq<Assertion>)
    requires ProseTexts(prose, texts) && end <= |prose| && (end < |prose| ==> !prose[end])
    requires Open(prose, texts, end, start, paragraph) && Closed(prose, texts, end, start, found)
    ensures Closed(prose, texts, end, None, r)
  {
    r := found;
    if start.Some? && paragraph != [] {
      var statement := Statement(paragraph);
      OpenStatement(prose, texts, end, start.value, paragraph);
      if statement != "" {
        var a := Assertion(start.value, end, statement);
        FlushCloses(prose, texts, end, start.value, found, a);
        r := r + [a];
      }
    }
  }

  lemma CoversSnoc(found: seq<Assertion>, a: Assertion, line: nat)
    ensures Covers(found + [a], line) <==> Covers(found, line) || a.first <= line <= a.last
  {
    var r := found + [a];
    if Covers(found, line) {
      var m :| 0 <= m < |found| && found[m].first <= line <= found[m].last;
      assert r[m] == found[m];
    }
    if a.first <= line <= a.last { assert r[|found|] == a; }
    if Covers(r, line) {
      var m :| 0 <= m < |r| && r[m].first <= line <= r[m].last;
      assert m < |found| ==> r[m] == found[m];
    }
  }

  lemma OrderedSnoc(found: seq<Assertion>, a: Assertion)
    requires Ordered(found) && forall b | b in found :: b.last < a.first
    ensures Ordered(found + [a])
  {
    var r := found + [a];
    forall i, j | 0 <= i < j < |r| ensures r[i].last < r[j].first {
      if j == |found| { assert r[i] == found[i] && found[i] in found; }
    }
  }

  lemma FlushCloses(prose: seq<bool>, texts: seq<string>, end: nat, s: nat, found: seq<Assertion>, a: Assertion)
    requires 1 <= s <= end <= |prose| == |texts| && Closed(prose, texts, end, Some(s), found)
    requires SoundRun(prose, texts, a) && a.first == s && a.last == end
    ensures Closed(prose, texts, end, None, found + [a])
  {
    OrderedSnoc(found, a);
    RunsSnoc(prose, texts, found, a);
    CoversToEnd(prose, found, a, end);
  }

  lemma CoversToEnd(prose: seq<bool>, found: seq<Assertion>, a: Assertion, end: nat)
    requires end <= |prose| && a.last == end && CoversProse(prose, end, Some(a.first), found)
    ensures CoversProse(prose, end, None, found + [a])
  {
    forall k | 0 <= k < end ensures prose[k] <==> Covers(found + [a], k + 1) { CoversSnoc(found, a, k + 1); }
  }

  lemma RunsSnoc(prose: seq<bool>, texts: seq<string>, found: seq<Assertion>, a: Assertion)
    requires |prose| == |texts| && SoundRun(prose, texts, a)
    requires forall b | b in found :: SoundRun(prose, texts, b) && b.last < a.first
    ensures forall b | b in found + [a] :: SoundRun(prose, texts, b) && b.last < a.last + 1
  {
    forall b | b in found + [a] ensures b in found || b == a {}
  }

  lemma CoveredBefore(found: seq<Assertion>, line: nat, bound: nat)
    requires forall a | a in found :: a.last < bound
    ensures Covers(found, line) ==> line < bound
  {
    if Covers(found, line) {
      var m :| 0 <= m < |found| && found[m].first <= line <= found[m].last;
      assert found[m] in found;
    }
  }

  lemma SkipsLine(prose: seq<bool>, texts: seq<string>, i: nat, found: seq<Assertion>)
    requires i < |prose| == |texts| && Closed(prose, texts, i, None, found) && !prose[i]
    ensures Open(prose, texts, i + 1, None, []) && Closed(prose, texts, i + 1, None, found)
  {
    CoveredBefore(found, i + 1, i + 1);
  }

  lemma SliceSnoc(texts: seq<string>, i: nat, j: nat)
    requires i <= j < |texts|
    ensures texts[i..j + 1] == texts[i..j] + [texts[j]]
  {}

  lemma TakesOpen(prose: seq<bool>, texts: seq<string>, i: nat, start: Option<nat>, paragraph: seq<string>)
    requires i < |prose| == |texts| && prose[i] && Open(prose, texts, i, start, paragraph)
    ensures Open(prose, texts, i + 1, Some(StartOr(start, i + 1)), paragraph + [texts[i]])
  {
    var s := StartOr(start, i + 1);
    SliceSnoc(texts, s - 1, i);
    assert paragraph == texts[s - 1..i];
  }

  lemma TakesLine(prose: seq<bool>, texts: seq<string>, i: nat, start: Option<nat>, found: seq<Assertion>)
    requires i < |prose| == |texts| && prose[i] && (start.Some? ==> start.value <= i) && Closed(prose, texts, i, start, found)
    ensures Closed(prose, texts, i + 1, Some(StartOr(start, i + 1)), found)
  {
    forall k | 0 <= k < i + 1 ensures prose[k] <==> Covers(found, k + 1) || StartOr(start, i + 1) <= k + 1 {}
  }

  lemma ProseReads(lines: seq<string>)
    ensures ProseTexts(ProseFlags(lines), Stripped(lines))
  {
    forall i | 0 <= i < |lines| ensures Strip(Stripped(lines)[i]) == Stripped(lines)[i] { StripIdempotent(lines[i]); }
  }

  lemma InFenceNotProse(lines: seq<string>, i: nat)
    requires i <= |lines|
    ensures i > 0 && InFence(lines, i) ==> !IsProse(lines, i - 1)
    ensures i < |lines| ==> InFence(lines, i + 1) == (IsFence(lines[i]) != InFence(lines, i))
  {}

  /** What the loop does with one line. */
  method TakeProse(ghost prose: seq<bool>, ghost texts: seq<string>, lines: seq<string>, i: nat,
                   start: Option<nat>, paragraph: seq<string>, inFence: bool, found: seq<Assertion>)
    returns (start': Option<nat>, paragraph': seq<string>, inFence': bool, found': seq<Assertion>)
    requires prose == ProseFlags(lines) && texts == Stripped(lines) && ProseTexts(prose, texts)
    requires i < |lines| && inFence == InFence(lines, i)
    requires Open(prose, texts, i, start, paragraph) && Closed(prose, texts, i, start, found)
    ensures inFence' == InFence(lines, i + 1)
    ensures Open(prose, texts, i + 1, start', paragraph') && Closed(prose, texts, i + 1, start', found')
  {
    var line := lines[i];
    var stripped := Strip(line);
    start', paragraph', inFence', found' := start, paragraph, inFence, found;
    InFenceNotProse(lines, i);
    if IsFence(line) {
      found' := Flush(prose, texts, i, start, paragraph, found);
      paragraph', start' := [], None;
      inFence' := !inFence;
      SkipsLine(prose, texts, i, found');
    } else if inFence {
      SkipsLine(prose, texts, i, found);
    } else if stripped == "" || ExcludedLine(stripped) {
      found' := Flush(prose, texts, i, start, paragraph, found);
      paragraph', start' := [], None;
      SkipsLine(prose, texts, i, found');
    } else {
      TakesOpen(prose, texts, i, start, paragraph);
      TakesLine(prose, texts, i, start, found);
      if start.None? { start' := Some(i + 1); }
      paragraph' := paragraph + [stripped];
    }
  }

  /**
    Every assertion is a maximal run of prose lines with its stripped lines joined; the ranges are in
    bounds, disjoint and increasing, and cover exactly the lines of prose: never a fenced, blank or
    excluded line, and all others.
  */
  method ExtractProse(lines: seq<string>) returns (found: seq<Assertion>)
    ensures Ordered(found) && forall a | a in found :: SoundProse(lines, a)
    ensures forall k | 0 <= k < |lines| :: IsProse(lines, k) <==> Covers(found, k + 1)
  {
    ghost var prose, texts := ProseFlags(lines), Stripped(lines);
    ProseReads(lines);
    found := [];
    var paragraph: seq<string> := [];
    var start: Option<nat> := None;
    var inFence := false;
    for i := 0 to |lines|
      invariant inFence == InFence(lines, i)
      invariant Open(prose, texts, i, start, paragraph) && Closed(prose, texts, i, start, found)
    {
      start, paragraph, inFence, found := TakeProse(prose, texts, lines, i, start, paragraph, inFence, found);
    }
    found := Flush(prose, texts, |lines|, start, paragraph, found);
  }

  // ----- list items -----

  predicate IsBlank(c: char) { c == ' ' || c == '\t' }

  function LeadingBlanks(s: string): (n: nat)
    ensures n <= |s|
    ensures n < |s| ==> !IsBlank(s[n])
  {
    if s != "" && IsBlank(s[0]) then 1 + LeadingBlanks(s[1..]) else 0
  }

  datatype Item = Item(indent: string, body: string)

  /** The match of `^([ \t]*)([-+*]|\d+[.)])[ \t]+(\S.*)$` on one line. */
  function ListMatch(line: string): Option<Item> {
    var n := LeadingBlanks(line);
    var m := MarkerLength(line[n..]);
    var rest := line[n + m..];
    var w := LeadingBlanks(rest);
    if m > 0 && w > 0 && w < |rest| && !IsSpace(rest[w]) then Some(Item(line[..n], rest[w..])) else None
  }

  /** len(indent.expandtabs(4)) */
  function ExpandedWidth(indent: string): nat {
    if indent == "" then 0
    else
      var before := ExpandedWidth(indent[..|indent| - 1]);
      if indent[|indent| - 1] == '\t' then before + (4 - before % 4) else before + 1
  }

  /** What the list scanner reads off one line. */
  datatype Line = Line(fence: bool, stripped: string, blanks: nat, item: Option<Item>)

  function ReadLine(line: string): Line { Line(IsFence(line), Strip(line), LeadingBlanks(line), ListMatch(line)) }

  function ReadAll(lines: seq<string>): seq<Line> { Map(ReadLine, lines) }

  /** What reading guarantees: stripped texts, and item bodies that begin with text. */
  predicate WellRead(lines: seq<Line>) {
    forall i | 0 <= i < |lines| ::
      && Strip(lines[i].stripped) == lines[i].stripped
      && (lines[i].item.Some? ==> lines[i].item.value.body != "" && !IsSpace(lines[i].item.value.body[0]))
  }

  lemma ReadsWell(lines: seq<string>)
    ensures WellRead(ReadAll(lines))
  {
    forall i | 0 <= i < |lines| ensures Strip(ReadAll(lines)[i].stripped) == ReadAll(lines)[i].stripped { StripIdempotent(lines[i]); }
  }

  predicate FenceOf(l: Line) { l.fence }

  predicate Fenced(lines: seq<Line>, i: nat)
    requires i <= |lines|
  {
    Toggled(Map(FenceOf, lines), i)
  }

  /** Both scanners see the same fences. */
  lemma FencesAgree(lines: seq<string>, i: nat)
    requires i <= |lines|
    ensures Fenced(ReadAll(lines), i) == InFence(lines, i)
  {
    assert Map(FenceOf, ReadAll(lines)) == Map(IsFence, lines);
  }

  predicate IsItem(lines: seq<Line>, i: nat)
    requires i < |lines|
  {
    !lines[i].fence && !Fenced(lines, i) && lines[i].item.Some?
  }

  /** The k-th line, counted from 0, continues an item of this width. */
  predicate Continues(lines: seq<Line>, width: nat, k: nat)
    requires k < |lines|
  {
    && !lines[k].fence && !Fenced(lines, k) && lines[k].item.None? && lines[k].stripped != ""
    && lines[k].blanks > width && IsContinuation(lines[k].stripped)
  }

  function Width(l: Line): nat { if l.item.Some? then ExpandedWidth(l.item.value.indent) else 0 }

  function Body(l: Line): string { if l.item.Some? then Strip(l.item.value.body) else "" }

  function StrippedOf(l: Line): string { l.stripped }

  /** The parts of an item: its body without the marker, then its continuation lines, all stripped. */
  function ItemParts(lines: seq<Line>, first: nat, last: nat): seq<string>
    requires 1 <= first <= last <= |lines|
  {
    [Body(lines[first - 1])] + Map(StrippedOf, lines[first..last])
  }

  /** Lines first to last, counted from 1, are an item and continuations of it. */
  predicate ItemLines(lines: seq<Line>, first: nat, last: nat)
    requires 1 <= first <= last <= |lines|
  {
    var width := Width(lines[first - 1]);
    IsItem(lines, first - 1) && forall k | first <= k < last :: Continues(lines, width, k)
  }

  /** An item with all of its continuation lines, and no line more. */
  predicate SoundItem(lines: seq<Line>, a: Assertion) {
    && 1 <= a.first <= a.last <= |lines| && ItemLines(lines, a.first, a.last)
    && (a.last < |lines| ==> !Continues(lines, Width(lines[a.first - 1]), a.last))
    && a.statement == Join(ItemParts(lines, a.first, a.last), ' ')
  }

  predicate OpenItem(lines: seq<Line>, i: nat, start: Option<nat>, parts: seq<string>, indent: int, last: Option<nat>)
    requires i <= |lines|
  {
    match start
    case None => parts == []
    case Some(s) =>
      && 1 <= s <= i && ItemLines(lines, s, i) && parts == ItemParts(lines, s, i)
      && indent == Width(lines[s - 1]) && last == Some(i)
  }

  predicate Begins(found: seq<Assertion>, line: nat) {
    exists k | 0 <= k < |found| :: found[k].first == line
  }

  predicate ClosedItems(lines: seq<Line>, i: nat, start: Option<nat>, found: seq<Assertion>)
    requires i <= |lines|
  {
    && Ordered(found)
    && (forall a | a in found :: SoundItem(lines, a) && a.last < (if start.Some? then start.value else i + 1))
    && (forall k | 0 <= k < i :: IsItem(lines, k) <==> Begins(found, k + 1) || start == Some(k + 1))
  }

  lemma BodyClean(lines: seq<Line>, i: nat)
    requires WellRead(lines) && i < |lines| && lines[i].item.Some?
    ensures Strip(Body(lines[i])) == Body(lines[i]) && Body(lines[i]) != ""
  {
    var body := lines[i].item.value.body;
    StripIdempotent(body);
    assert LStrip(body) == body;
    RStripKeepsHead(body);
  }

  lemma PartsClean(lines: seq<Line>, s: nat, i: nat)
    requires WellRead(lines) && 1 <= s <= i <= |lines| && ItemLines(lines, s, i)
    ensures Clean(ItemParts(lines, s, i))
  {
    var parts := ItemParts(lines, s, i);
    forall k | 0 <= k < |parts| ensures Strip(parts[k]) == parts[k] && parts[k] != "" {
      if k == 0 { BodyClean(lines, s - 1); } else { ContinuationClean(lines, s, i, k); }
    }
  }

  lemma ContinuationClean(lines: seq<Line>, s: nat, i: nat, k: nat)
    requires WellRead(lines) && 1 <= s <= i <= |lines| && ItemLines(lines, s, i) && 0 < k < |ItemParts(lines, s, i)|
    ensures Strip(ItemParts(lines, s, i)[k]) == ItemParts(lines, s, i)[k] && ItemParts(lines, s, i)[k] != ""
  {
    assert ItemParts(lines, s, i)[k] == lines[s + k - 1].stripped;
    assert Continues(lines, Width(lines[s - 1]), s + k - 1);
  }

  lemma BeginsSnoc(found: seq<Assertion>, a: Assertion, line: nat)
    ensures Begins(found + [a], line) <==> Begins(found, line) || a.first == line
  {
    var r := found + [a];
    if Begins(found, line) {
      var m :| 0 <= m < |found| && found[m].first == line;
      assert r[m] == found[m];
    }
    if a.first == line { assert r[|found|] == a; }
  }

  lemma ItemCloses(lines: seq<Line>, end: nat, s: nat, found: seq<Assertion>, a: Assertion)
    requires 1 <= s <= end <= |lines| && ClosedItems(lines, end, Some(s), found)
    requires SoundItem(lines, a) && a.first == s && a.last == end
    ensures ClosedItems(lines, end, None, found + [a])
  {
    forall k | 0 <= k < end ensures IsItem(lines, k) <==> Begins(found + [a], k + 1) { BeginsSnoc(found, a, k + 1); }
    OrderedSnoc(found, a);
    forall b | b in found + [a] ensures SoundItem(lines, b) && b.last < end + 1 { assert b in found || b == a; }
  }

  /** The line at end does not continue the item in hand. */
  predicate Ends(lines: seq<Line>, end: nat, start: Option<nat>) {
    end < |lines| && start.Some? && 1 <= start.value <= |lines| ==> !Continues(lines, Width(lines[start.value - 1]), end)
  }

  /** Closing the item in hand before a line that does not continue it. */
  method FlushItem(lines: seq<Line>, end: nat, start: Option<nat>, parts: seq<string>, indent: int, last: Option<nat>, found: seq<Assertion>)
    returns (r: seq<Assertion>)
    requires WellRead(lines) && end <= |lines|
    requires OpenItem(lines, end, start, parts, indent, last) && ClosedItems(lines, end, start, found) && Ends(lines, end, start)
    ensures ClosedItems(lines, end, None, r)
  {
    r := found;
    if parts != [] && start.Some? && last.Some? {
      var statement := Statement(parts);
      PartsClean(lines, start.value, end);
      StatementOfClean(parts);
      if statement != "" {
        var a := Assertion(start.value, last.value, statement);
        ItemCloses(lines, end, start.value, found, a);
        r := r + [a];
      }
    }
  }

  lemma BeganBefore(lines: seq<Line>, i: nat, start: Option<nat>, found: seq<Assertion>)
    requires i <= |lines| && ClosedItems(lines, i, start, found) && (start.Some? ==> start.value <= i)
    ensures !Begins(found, i + 1)
  {
    forall k | 0 <= k < |found| ensures found[k].first < i + 1 { assert found[k] in found; }
  }

  /** A line that begins no item leaves what is found as it is. */
  lemma PassesLine(lines: seq<Line>, i: nat, start: Option<nat>, found: seq<Assertion>)
    requires i < |lines| && ClosedItems(lines, i, start, found) && (start.Some? ==> start.value <= i) && !IsItem(lines, i)
    ensures ClosedItems(lines, i + 1, start, found)
  {
    BeganBefore(lines, i, start, found);
  }

  lemma BeginsItem(lines: seq<Line>, i: nat, found: seq<Assertion>)
    requires i < |lines| && ClosedItems(lines, i, None, found) && IsItem(lines, i)
    ensures OpenItem(lines, i + 1, Some(i + 1), [Body(lines[i])], Width(lines[i]), Some(i + 1))
    ensures ClosedItems(lines, i + 1, Some(i + 1), found)
  {
    BeganBefore(lines, i, None, found);
    assert lines[i + 1..i + 1] == [];
    assert ItemParts(lines, i + 1, i + 1) == [Body(lines[i])];
  }

  lemma ContinuesItem(lines: seq<Line>, i: nat, s: nat, parts: seq<string>, indent: int, last: Option<nat>)
    requires i < |lines| && OpenItem(lines, i, Some(s), parts, indent, last) && Continues(lines, Width(lines[s - 1]), i)
    ensures OpenItem(lines, i + 1, Some(s), parts + [lines[i].stripped], indent, Some(i + 1))
  {
    MapSliceSnoc(StrippedOf, lines, s, i);
    assert [Body(lines[s - 1])] + (Map(StrippedOf, lines[s..i]) + [lines[i].stripped]) == parts + [lines[i].stripped];
  }

  /** An item in hand means no fence is open. */
  lemma NoItemInFence(lines: seq<Line>, i: nat, start: Option<nat>, parts: seq<string>, indent: int, last: Option<nat>)
    requires i <= |lines| && OpenItem(lines, i, start, parts, indent, last)
    ensures Fenced(lines, i) ==> start.None?
  {
    if start.Some? && i > start.value { assert Continues(lines, Width(lines[start.value - 1]), i - 1); }
  }

  /** What the loop does with one line. */
  method TakeLine(lines: seq<Line>, i: nat, start: Option<nat>, parts: seq<string>, indent: int, last: Option<nat>, inFence: bool, found: seq<Assertion>)
    returns (start': Option<nat>, parts': seq<string>, indent': int, last': Option<nat>, inFence': bool, found': seq<Assertion>)
    requires WellRead(lines) && i < |lines| && inFence == Fenced(lines, i)
    requires OpenItem(lines, i, start, parts, indent, last) && ClosedItems(lines, i, start, found)
    ensures inFence' == Fenced(lines, i + 1)
    ensures OpenItem(lines, i + 1, start', parts', indent', last') && ClosedItems(lines, i + 1, start', found')
  {
    var line := lines[i];
    start', parts', indent', last', inFence', found' := start, parts, indent, last, inFence, found;
    NoItemInFence(lines, i, start, parts, indent, last);
    if line.fence {
      found' := FlushItem(lines, i, start, parts, indent, last, found);
      PassesLine(lines, i, None, found');
      return None, [], -1, None, !inFence, found';
    }
    if inFence {
      PassesLine(lines, i, None, found);
      return;
    }
    if line.item.Some? {
      found' := FlushItem(lines, i, start, parts, indent, last, found);
      BeginsItem(lines, i, found');
      return Some(i + 1), [Strip(line.item.value.body)], ExpandedWidth(line.item.value.indent), Some(i + 1), inFence, found';
    }
    start', parts', indent', last', found' := TakeRest(lines, i, start, parts, indent, last, found);
  }

  /** What the loop does with a line outside fences that begins no item. */
  method TakeRest(lines: seq<Line>, i: nat, start: Option<nat>, parts: seq<string>, indent: int, last: Option<nat>, found: seq<Assertion>)
    returns (start': Option<nat>, parts': seq<string>, indent': int, last': Option<nat>, found': seq<Assertion>)
    requires WellRead(lines) && i < |lines| && !Fenced(lines, i) && !lines[i].fence && lines[i].item.None?
    requires OpenItem(lines, i, start, parts, indent, last) && ClosedItems(lines, i, start, found)
    ensures OpenItem(lines, i + 1, start', parts', indent', last') && ClosedItems(lines, i + 1, start', found')
  {
    var line := lines[i];
    start', parts', indent', last', found' := start, parts, indent, last, found;
    if parts == [] {
      PassesLine(lines, i, start, found);
      return;
    }
    if line.stripped != "" && line.blanks > indent && IsContinuation(line.stripped) {
      ContinuesItem(lines, i, start.value, parts, indent, last);
      PassesLine(lines, i, start, found);
      return start, parts + [line.stripped], indent, Some(i + 1), found;
    }
    found' := FlushItem(lines, i, start, parts, indent, last, found);
    PassesLine(lines, i, None, found');
    return None, [], -1, None, found';
  }

  /**
    Every list item outside fences begins exactly one assertion, which holds the item and its
    continuation lines and nothing else; the ranges are in bounds, disjoint and increasing, and the
    statement is the body without its marker joined with the stripped continuation lines.
  */
  method ExtractItems(lines: seq<string>) returns (found: seq<Assertion>)
    ensures Ordered(found) && forall a | a in found :: SoundItem(ReadAll(lines), a)
    ensures forall k | 0 <= k < |lines| :: IsItem(ReadAll(lines), k) <==> Begins(found, k + 1)
  {
    var read := ReadAll(lines);
    ReadsWell(lines);
    found := [];
    var parts: seq<string> := [];
    var start: Option<nat>, last: Option<nat> := None, None;
    var indent: int := -1;
    var inFence := false;
    for i := 0 to |read|
      invariant inFence == Fenced(read, i) && OpenItem(read, i, start, parts, indent, last) && ClosedItems(read, i, start, found)
    {
      start, parts, indent, last, inFence, found := TakeLine(read, i, start, parts, indent, last, inFence, found);
    }
    found := FlushItem(read, |read|, start, parts, indent, last, found);
  }

  /** Statements are stripped already and not blank, so a record keeps them as they are. */
  lemma StatementsStripped(lines: seq<string>, a: Assertion)
    requires SoundProse(lines, a) || SoundItem(ReadAll(lines), a)
    ensures Strip(a.statement) == a.statement != ""
  {
    if SoundProse(lines, a) { ProseStripped(lines, a); } else { ItemStripped(lines, a); }
  }

  lemma ProseStripped(lines: seq<string>, a: Assertion)
    requires SoundProse(lines, a)
    ensures Strip(a.statement) == a.statement != ""
  {
    ProseReads(lines);
    var parts := Stripped(lines)[a.first - 1..a.last];
    forall i | 0 <= i < |parts| ensures Strip(parts[i]) == parts[i] && parts[i] != "" {
      assert ProseFlags(lines)[a.first - 1 + i];
    }
    JoinTight(parts);
    TightIsStripped(Join(parts, ' '));
  }

  lemma ItemStripped(lines: seq<string>, a: Assertion)
    requires SoundItem(ReadAll(lines), a)
    ensures Strip(a.statement) == a.statement != ""
  {
    ReadsWell(lines);
    PartsClean(ReadAll(lines), a.first, a.last);
    JoinTight(ItemParts(ReadAll(lines), a.first, a.last));
    TightIsStripped(a.statement);
  }

  /** No range of either scanner touches a fence line or a line inside a fence. */
  lemma RangesAvoidFences(lines: seq<string>, a: Assertion, k: nat)
    requires a.first - 1 <= k < a.last && (SoundProse(lines, a) || SoundItem(ReadAll(lines), a))
    ensures k < |lines| && !IsFence(lines[k]) && !InFence(lines, k)
  {
    FencesAgree(lines, k);
    if SoundProse(lines, a) {
      assert ProseFlags(lines)[k];
    } else if k >= a.first {
      assert Continues(ReadAll(lines), Width(ReadAll(lines)[a.first - 1]), k);
    }
  }
}
