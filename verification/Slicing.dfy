/**
  Slicing retained bytes by line and column (src/lemmamind/evidence_inspection.py).

  Lines end with a line feed, a carriage return, or the two together, as bytes.splitlines has it.
*/
module Slicing {
  import opened Wrappers
  import opened Orders
  import opened Texts
  import opened LineLocators
  import opened Utf8

  const LF: Byte := 10
  const CR: Byte := 13

  // ----- lines -----

  /** The length of the first line, its ending included. */
  function FirstLine(data: Bytes): (n: nat)
    requires data != []
    ensures 0 < n <= |data|
  {
    if data[0] == LF then 1
    else if data[0] == CR then if |data| > 1 && data[1] == LF then 2 else 1
    else if |data| == 1 then 1
    else 1 + FirstLine(data[1..])
  }

  /** bytes.splitlines(keepends=True) */
  function Lines(data: Bytes): (r: seq<Bytes>)
    ensures forall i | 0 <= i < |r| :: r[i] != []
  {
    if data == [] then [] else [data[..FirstLine(data)]] + Lines(data[FirstLine(data)..])
  }

  /** Put together, the lines are the data. */
  lemma {:induction false} LinesConcat(data: Bytes)
    ensures Concat(Lines(data)) == data
  {
    if data != [] {
      var n := FirstLine(data);
      LinesConcat(data[n..]);
      assert Lines(data)[1..] == Lines(data[n..]);
      assert data == data[..n] + data[n..];
    }
  }

  /** An ending: a line feed, or a carriage return that no line feed follows. */
  predicate EndsLine(data: Bytes, i: nat)
    requires i < |data|
  {
    data[i] == LF || (data[i] == CR && !(i + 1 < |data| && data[i + 1] == LF))
  }

  lemma {:induction false} FirstLineEnds(data: Bytes)
    requires data != []
    ensures var n := FirstLine(data);
            (forall i | 0 <= i < n - 1 :: !EndsLine(data, i)) && (EndsLine(data, n - 1) || n == |data|)
  {
    if data[0] != LF && data[0] != CR && |data| > 1 {
      var rest := data[1..];
      FirstLineEnds(rest);
      forall i | 0 <= i < FirstLine(data) - 1 ensures !EndsLine(data, i) {
        if i > 0 { assert EndsLine(data, i) == EndsLine(rest, i - 1); }
      }
      assert EndsLine(data, FirstLine(data) - 1) == EndsLine(rest, FirstLine(rest) - 1);
    }
  }

  /** Where the n-th line begins, counted from 0. */
  function Offset(data: Bytes, n: nat): nat
    requires n <= |Lines(data)|
  {
    |Concat(Lines(data)[..n])|
  }

  lemma ConcatRange<T>(parts: seq<seq<T>>, i: nat, j: nat)
    requires i <= j <= |parts|
    ensures |Concat(parts[..i])| <= |Concat(parts[..j])| <= |Concat(parts)|
    ensures Concat(parts[i..j]) == Concat(parts)[|Concat(parts[..i])|..|Concat(parts[..j])|]
  {
    var a, b, c := parts[..i], parts[i..j], parts[j..];
    assert parts[..j] == a + b && parts == a + b + c;
    ConcatAppend(a, b);
    ConcatAppend(a + b, c);
    assert (Concat(a) + Concat(b) + Concat(c))[|Concat(a)|..|Concat(a) + Concat(b)|] == Concat(b);
  }

  /** Lines i to j, counted from 0 and without the last, are the bytes between their offsets. */
  lemma LineSlice(data: Bytes, i: nat, j: nat)
    requires i <= j <= |Lines(data)|
    ensures Offset(data, i) <= Offset(data, j) <= |data|
    ensures Concat(Lines(data)[i..j]) == data[Offset(data, i)..Offset(data, j)]
  {
    LinesConcat(data);
    ConcatRange(Lines(data), i, j);
  }

  // ----- slicing -----

  datatype SliceError = BadRange | PastEnd | PastColumn | NotUtf8

  /** The bytes of lines first to last, both counted from 1. */
  function LineBytes(data: Bytes, first: int, last: int): Result<Bytes, SliceError> {
    if first < 1 || last < first then Err(BadRange)
    else if last > |Lines(data)| then Err(PastEnd)
    else Ok(Concat(Lines(data)[first - 1..last]))
  }

  /** Python's s[i:j] for i and j that are not negative. */
  function PySlice(s: Bytes, i: nat, j: nat): Bytes {
    var hi := if j <= |s| then j else |s|;
    if i <= hi then s[i..hi] else []
  }

  function ColumnBytes(data: Bytes, startLine: int, startCol: int, endLine: int, endCol: int): Result<Bytes, SliceError> {
    if startLine < 1 || endLine < startLine || startCol < 0 || endCol < 0 then Err(BadRange)
    else if endLine > |Lines(data)| then Err(PastEnd)
    else
      var lines := Lines(data);
      var startBytes, endBytes := lines[startLine - 1], lines[endLine - 1];
      if startCol > |startBytes| || endCol > |endBytes| then Err(PastColumn)
      else if startLine == endLine then Ok(PySlice(startBytes, startCol, endCol))
      else Ok(Concat([startBytes[startCol..]] + lines[startLine..endLine - 1] + [endBytes[..endCol]]))
  }

  /** A line range is the contiguous run of bytes between the offsets of its lines. */
  lemma LineBytesFlat(data: Bytes, first: int, last: int)
    ensures LineBytes(data, first, last).Ok? <==> 1 <= first <= last <= |Lines(data)|
    ensures LineBytes(data, first, last).Ok? ==>
              Offset(data, first - 1) <= Offset(data, last) <= |data|
              && LineBytes(data, first, last).value == data[Offset(data, first - 1)..Offset(data, last)]
  {
    if 1 <= first <= last <= |Lines(data)| { LineSlice(data, first - 1, last); }
  }

  /** A position is the offset of its line and a column that does not run past the line. */
  predicate Position(data: Bytes, line: int, col: int) {
    1 <= line <= |Lines(data)| && 0 <= col <= |Lines(data)[line - 1]|
  }

  function Flat(data: Bytes, line: int, col: int): nat
    requires Position(data, line, col)
  {
    Offset(data, line - 1) + col
  }

  lemma FlatInside(data: Bytes, line: int, col: int)
    requires Position(data, line, col)
    ensures Offset(data, line) == Offset(data, line - 1) + |Lines(data)[line - 1]|
    ensures Flat(data, line, col) <= Offset(data, line) <= |data|
    ensures Lines(data)[line - 1] == data[Offset(data, line - 1)..Offset(data, line)]
  {
    LineSlice(data, line - 1, line);
    var here := Lines(data)[line - 1..line];
    assert here == [Lines(data)[line - 1]];
    assert Concat(here) == here[0] + Concat(here[1..]);
  }

  /** Of two positions on different lines the one on the earlier line comes first. */
  lemma FlatOrdered(data: Bytes, startLine: int, startCol: int, endLine: int, endCol: int)
    requires Position(data, startLine, startCol) && Position(data, endLine, endCol) && startLine < endLine
    ensures Flat(data, startLine, startCol) <= Offset(data, startLine) <= Offset(data, endLine - 1) <= Flat(data, endLine, endCol)
  {
    FlatInside(data, startLine, startCol);
    LineSlice(data, startLine, endLine - 1);
  }

  lemma SubSlice(data: Bytes, a: nat, b: nat, i: nat, j: nat)
    requires a <= b <= |data| && i <= j <= b - a
    ensures data[a..b][i..j] == data[a + i..a + j]
  {
    assert forall k | 0 <= k < j - i :: data[a..b][i..j][k] == data[a + i..a + j][k];
  }

  lemma ThreeParts(data: Bytes, a: nat, b: nat, c: nat, d: nat)
    requires a <= b <= c <= d <= |data|
    ensures data[a..b] + data[b..c] + data[c..d] == data[a..d]
  {}

  lemma MultiLineFlat(data: Bytes, startLine: int, startCol: int, endLine: int, endCol: int)
    requires Position(data, startLine, startCol) && Position(data, endLine, endCol) && startLine < endLine
    ensures Flat(data, startLine, startCol) <= Flat(data, endLine, endCol) <= |data|
    ensures ColumnBytes(data, startLine, startCol, endLine, endCol)
            == Ok(data[Flat(data, startLine, startCol)..Flat(data, endLine, endCol)])
  {
    var lines := Lines(data);
    var head, middle, tail := lines[startLine - 1][startCol..], lines[startLine..endLine - 1], lines[endLine - 1][..endCol];
    FlatInside(data, startLine, startCol);
    FlatInside(data, endLine, endCol);
    FlatOrdered(data, startLine, startCol, endLine, endCol);
    LineSlice(data, startLine, endLine - 1);
    SubSlice(data, Offset(data, startLine - 1), Offset(data, startLine), startCol, |lines[startLine - 1]|);
    SubSlice(data, Offset(data, endLine - 1), Offset(data, endLine), 0, endCol);
    JoinThree(head, middle, tail);
    ThreeParts(data, Flat(data, startLine, startCol), Offset(data, startLine), Offset(data, endLine - 1), Flat(data, endLine, endCol));
  }

  lemma JoinThree(head: Bytes, middle: seq<Bytes>, tail: Bytes)
    ensures Concat([head] + middle + [tail]) == head + Concat(middle) + tail
  {
    ConcatSnoc([head] + middle, tail);
    assert ([head] + middle)[1..] == middle;
  }

  lemma SameLineFlat(data: Bytes, line: int, startCol: int, endCol: int)
    requires Position(data, line, startCol) && Position(data, line, endCol)
    ensures Flat(data, line, startCol) <= |data| && Flat(data, line, endCol) <= |data|
    ensures ColumnBytes(data, line, startCol, line, endCol)
            == Ok(if startCol <= endCol then data[Flat(data, line, startCol)..Flat(data, line, endCol)] else [])
  {
    FlatInside(data, line, startCol);
    FlatInside(data, line, endCol);
    if startCol <= endCol { SubSlice(data, Offset(data, line - 1), Offset(data, line), startCol, endCol); }
  }

  /**
    A column range succeeds exactly for two positions in line order, and both branches return the
    contiguous bytes between them; columns in the wrong order on one line give nothing.
  */
  lemma ColumnBytesFlat(data: Bytes, startLine: int, startCol: int, endLine: int, endCol: int)
    ensures ColumnBytes(data, startLine, startCol, endLine, endCol).Ok?
            <==> Position(data, startLine, startCol) && Position(data, endLine, endCol) && startLine <= endLine
    ensures ColumnBytes(data, startLine, startCol, endLine, endCol).Ok? ==>
              var a, b := Flat(data, startLine, startCol), Flat(data, endLine, endCol);
              a <= |data| && b <= |data|
              && ColumnBytes(data, startLine, startCol, endLine, endCol) == Ok(if a <= b then data[a..b] else [])
  {
    if Position(data, startLine, startCol) && Position(data, endLine, endCol) && startLine <= endLine {
      if startLine == endLine { SameLineFlat(data, startLine, startCol, endCol); }
      else { MultiLineFlat(data, startLine, startCol, endLine, endCol); }
    }
  }

  lemma AdjacentBytes(data: Bytes, first: int, middle: int, last: int)
    requires LineBytes(data, first, middle).Ok? && LineBytes(data, middle + 1, last).Ok?
    ensures LineBytes(data, first, last)
            == Ok(LineBytes(data, first, middle).value + LineBytes(data, middle + 1, last).value)
  {
    var lines := Lines(data);
    ConcatAppend(lines[first - 1..middle], lines[middle..last]);
    assert lines[first - 1..last] == lines[first - 1..middle] + lines[middle..last];
  }

  // ----- the selected text -----

  /** The last step of both slicers: the selected bytes must decode. */
  function Decoded(selected: Result<Bytes, SliceError>): Result<string, SliceError> {
    match selected
    case Err(error) => Err(error)
    case Ok(bytes) => match Decode(bytes) case None => Err(NotUtf8) case Some(text) => Ok(text)
  }

  function SliceLines(data: Bytes, first: int, last: int): Result<string, SliceError> { Decoded(LineBytes(data, first, last)) }

  function SliceByteRange(data: Bytes, startLine: int, startCol: int, endLine: int, endCol: int): Result<string, SliceError> {
    Decoded(ColumnBytes(data, startLine, startCol, endLine, endCol))
  }

  /** A line range in bounds is the contiguous run of bytes between the offsets of its lines, if that decodes. */
  lemma LinesAreFlat(data: Bytes, first: int, last: int)
    ensures 1 <= first <= last <= |Lines(data)| ==>
              && Offset(data, first - 1) <= Offset(data, last) <= |data|
              && SliceLines(data, first, last) == Decoded(Ok(data[Offset(data, first - 1)..Offset(data, last)]))
    ensures !(1 <= first <= last <= |Lines(data)|) ==>
              SliceLines(data, first, last) == Err(BadRange) || SliceLines(data, first, last) == Err(PastEnd)
  {
    LineBytesFlat(data, first, last);
  }

  /**
    A column range between two positions in line order is the contiguous run of bytes between them, if
    that decodes; columns in the wrong order on one line give nothing, and any other range is refused.
  */
  lemma ColumnsAreFlat(data: Bytes, startLine: int, startCol: int, endLine: int, endCol: int)
    ensures Position(data, startLine, startCol) && Position(data, endLine, endCol) && startLine <= endLine ==>
              var a, b := Flat(data, startLine, startCol), Flat(data, endLine, endCol);
              a <= |data| && b <= |data|
              && SliceByteRange(data, startLine, startCol, endLine, endCol) == Decoded(Ok(if a <= b then data[a..b] else []))
    ensures !(Position(data, startLine, startCol) && Position(data, endLine, endCol) && startLine <= endLine) ==>
              SliceByteRange(data, startLine, startCol, endLine, endCol).Err?
              && !SliceByteRange(data, startLine, startCol, endLine, endCol).error.NotUtf8?
  {
    ColumnBytesFlat(data, startLine, startCol, endLine, endCol);
  }

  /**
    On encoded text a column range is accepted if and only if its positions exist, in line order, and both
    lie between characters, unless it selects nothing.
  */
  lemma ColumnsAlign(text: string, startLine: int, startCol: int, endLine: int, endCol: int)
    ensures var data := Encode(text);
            SliceByteRange(data, startLine, startCol, endLine, endCol).Ok?
            <==> && Position(data, startLine, startCol) && Position(data, endLine, endCol) && startLine <= endLine
                 && var a, b := Flat(data, startLine, startCol), Flat(data, endLine, endCol);
                    b <= a || (Boundary(text, a) && Boundary(text, b))
  {
    var data := Encode(text);
    ColumnsAreFlat(data, startLine, startCol, endLine, endCol);
    if Position(data, startLine, startCol) && Position(data, endLine, endCol) && startLine <= endLine {
      var a, b := Flat(data, startLine, startCol), Flat(data, endLine, endCol);
      if a < b { SliceDecodes(text, a, b); } else { assert a <= b ==> data[a..b] == []; }
    }
  }

  /** Between characters i and j a column range is exactly the characters from i to j. */
  lemma ColumnsAreSubstring(text: string, startLine: int, startCol: int, endLine: int, endCol: int, i: nat, j: nat)
    requires var data := Encode(text);
             && Position(data, startLine, startCol) && Position(data, endLine, endCol) && startLine <= endLine
             && i <= j <= |text|
             && |Encode(text[..i])| == Flat(data, startLine, startCol) && |Encode(text[..j])| == Flat(data, endLine, endCol)
    ensures SliceByteRange(Encode(text), startLine, startCol, endLine, endCol) == Ok(text[i..j])
  {
    var data := Encode(text);
    var a, b := Flat(data, startLine, startCol), Flat(data, endLine, endCol);
    ColumnsAreFlat(data, startLine, startCol, endLine, endCol);
    if j > i { Shorter(text, i, j); }
    BetweenBoundaries(text, i, j, a, b);
  }

  /** A column inside a character of two bytes is refused. */
  lemma InsideCharacter()
    ensures SliceByteRange(Encode("\U{00E9}"), 1, 0, 1, 1) == Err(NotUtf8)
  {
    var data: Bytes := [0xC3, 0xA9];
    assert Encode("\U{00E9}") == data by {
      EncodeCons('\U{00E9}', "");
      assert ['\U{00E9}'] + "" == "\U{00E9}";
    }
    assert FirstLine(data) == 2;
    assert data[..2] == data && data[2..] == [];
    assert Lines(data) == [data];
    assert Decode([0xC3]) == None;
    assert PySlice(data, 0, 1) == [0xC3];
  }

  /** Adjacent line slices put together are the slice of their union. */
  lemma AdjacentSlices(data: Bytes, first: int, middle: int, last: int)
    requires SliceLines(data, first, middle).Ok? && SliceLines(data, middle + 1, last).Ok?
    ensures SliceLines(data, first, last)
            == Ok(SliceLines(data, first, middle).value + SliceLines(data, middle + 1, last).value)
  {
    AdjacentBytes(data, first, middle, last);
    DecodeAppend(LineBytes(data, first, middle).value, LineBytes(data, middle + 1, last).value);
  }

  // ----- the text locators -----

  datatype TextLocator = LineSpan(first: nat, last: nat) | ColumnSpan(firstLine: nat, firstCol: nat, lastLine: nat, lastCol: nat)

  /** What stands before the first #, unless what follows it breaks the line. */
  function Head(suffix: string): Option<string> {
    if suffix == "" then Some("")
    else if suffix[0] == '#' then if '\n' in suffix[1..] then None else Some("")
    else
      match Head(suffix[1..])
      case None => None
      case Some(rest) => Some([suffix[0]] + rest)
  }

  /** The full match of `:L(\d+)-L(\d+)(#.*)?` */
  function ReadLines(suffix: string): Option<TextLocator> {
    match Head(suffix)
    case None => None
    case Some(head) =>
      match CutNumber(head, "-L")
      case None => None
      case Some((before, last)) =>
        match CutNumber(before, ":L")
        case None => None
        case Some((rest, first)) => if rest == "" then Some(LineSpan(first, last)) else None
  }

  /** The full match of `:L(\d+):C(\d+)-L(\d+):C(\d+)(#.*)?` */
  function ReadColumns(suffix: string): Option<TextLocator> {
    match Head(suffix)
    case None => None
    case Some(head) =>
      match CutNumber(head, ":C")
      case None => None
      case Some((a, lastCol)) =>
        match CutNumber(a, "-L")
        case None => None
        case Some((b, lastLine)) =>
          match CutNumber(b, ":C")
          case None => None
          case Some((c, firstCol)) =>
            match CutNumber(c, ":L")
            case None => None
            case Some((rest, firstLine)) => if rest == "" then Some(ColumnSpan(firstLine, firstCol, lastLine, lastCol)) else None
  }

  lemma {:induction false} NoHash(s: string)
    requires '#' !in s
    ensures Head(s) == Some(s)
  {
    if s != "" {
      NoHash(s[1..]);
      assert s == [s[0]] + s[1..];
    }
  }

  function PrintLines(first: nat, last: nat): string { ":L" + Decimal(first) + "-L" + Decimal(last) }

  lemma DecimalNoHash(n: nat)
    ensures '#' !in Decimal(n)
  {
    assert forall c | c in Decimal(n) :: IsDigit(c);
    assert !IsDigit('#');
  }

  /** The suffix a line extractor prints is read back as the same range, and never as a column range. */
  lemma PrintedLinesRead(first: nat, last: nat)
    ensures ReadLines(PrintLines(first, last)) == Some(LineSpan(first, last)) && ReadColumns(PrintLines(first, last)) == None
  {
    var s := PrintLines(first, last);
    DecimalNoHash(first);
    DecimalNoHash(last);
    NoHash(s);
    var head := ":L" + Decimal(first);
    assert s == head + "-L" + Decimal(last);
    CutPrinted(head, "-L", last);
    assert head == "" + ":L" + Decimal(first);
    CutPrinted("", ":L", first);
    WrongMarker(head + "-L", last);
  }

  function PrintColumns(firstLine: nat, firstCol: nat, lastLine: nat, lastCol: nat): string {
    ":L" + Decimal(firstLine) + ":C" + Decimal(firstCol) + "-L" + Decimal(lastLine) + ":C" + Decimal(lastCol)
  }

  /** A printed column range is read back as the same range. */
  lemma PrintedColumnsRead(firstLine: nat, firstCol: nat, lastLine: nat, lastCol: nat)
    ensures ReadColumns(PrintColumns(firstLine, firstCol, lastLine, lastCol)) == Some(ColumnSpan(firstLine, firstCol, lastLine, lastCol))
  {
    var s := PrintColumns(firstLine, firstCol, lastLine, lastCol);
    var a := ":L" + Decimal(firstLine);
    var b := a + ":C" + Decimal(firstCol);
    var c := b + "-L" + Decimal(lastLine);
    assert s == c + ":C" + Decimal(lastCol);
    DecimalNoHash(firstLine);
    DecimalNoHash(firstCol);
    DecimalNoHash(lastLine);
    DecimalNoHash(lastCol);
    NoHash(s);
    CutPrinted(c, ":C", lastCol);
    CutPrinted(b, "-L", lastLine);
    CutPrinted(a, ":C", firstCol);
    assert a == "" + ":L" + Decimal(firstLine);
    CutPrinted("", ":L", firstLine);
  }

  lemma WrongMarker(head: string, n: nat)
    requires |head| >= 2 && head[|head| - 2..] == "-L"
    ensures CutNumber(head + Decimal(n), ":C") == None
  {
    var s := head + Decimal(n);
    TrailingDigitsOf(head, Decimal(n));
    assert s[..|s| - |Decimal(n)|] == head;
    assert head[|head| - 2] == "-L"[0];
  }
}
