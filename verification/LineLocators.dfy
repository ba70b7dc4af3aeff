/** Line-range locators, as the Markdown extractors print them and the sorters and the inspector read them. */
module LineLocators {
  import opened Wrappers
  import opened Texts

  datatype LineRange = LineRange(path: string, first: nat, last: nat)

  function PrintRange(r: LineRange): string {
    r.path + ":L" + Decimal(r.first) + "-L" + Decimal(r.last)
  }

  /** The length of the longest run of digits that ends s. */
  function TrailingDigits(s: string): (n: nat)
    ensures n <= |s| && forall c | c in s[|s| - n..] :: IsDigit(c)
    ensures n < |s| ==> !IsDigit(s[|s| - n - 1])
  {
    if s == "" || !IsDigit(s[|s| - 1]) then 0
    else
      var n := TrailingDigits(s[..|s| - 1]);
      assert s[|s| - 1 - n..] == s[..|s| - 1][|s| - 1 - n..] + [s[|s| - 1]];
      n + 1
  }

  /** What stands before a marker and the digits that end s, and the number they print. */
  function CutNumber(s: string, marker: string): Option<(string, nat)> {
    var n := TrailingDigits(s);
    var head := s[..|s| - n];
    if n > 0 && |marker| <= |head| && head[|head| - |marker|..] == marker
    then Some((head[..|head| - |marker|], ParseDecimal(s[|s| - n..])))
    else None
  }

  /** The match of `^(.*):L(\d+)-L(\d+)$`; the final $ also matches before one last line feed. */
  function ReadRange(locator: string): Option<LineRange> {
    var body := if locator != "" && locator[|locator| - 1] == '\n' then locator[..|locator| - 1] else locator;
    match CutNumber(body, "-L")
    case None => None
    case Some((before, last)) =>
      match CutNumber(before, ":L")
      case None => None
      case Some((path, first)) => if '\n' in path then None else Some(LineRange(path, first, last))
  }

  lemma {:induction false} TrailingDigitsOf(head: string, digits: string)
    requires head == "" || !IsDigit(head[|head| - 1])
    requires forall c | c in digits :: IsDigit(c)
    ensures TrailingDigits(head + digits) == |digits|
  {
    if digits == "" {
      assert head + digits == head;
    } else {
      var s, n := head + digits, |digits| - 1;
      TrailingDigitsOf(head, digits[..n]);
      assert s[..|s| - 1] == head + digits[..n];
      assert s[|s| - 1] == digits[n];
    }
  }

  lemma CutPrinted(head: string, marker: string, n: nat)
    requires marker != "" && !IsDigit(marker[|marker| - 1])
    ensures CutNumber(head + marker + Decimal(n), marker) == Some((head, n))
  {
    var s, d := head + marker + Decimal(n), Decimal(n);
    assert s == (head + marker) + d;
    TrailingDigitsOf(head + marker, d);
    ParsePrintDecimal(n);
    assert s[..|s| - |d|] == head + marker;
    assert s[|s| - |d|..] == d;
  }

  /** Reading a printed range gives it back; only a path with a line feed in it is not read. */
  lemma ReadPrinted(r: LineRange)
    ensures ReadRange(PrintRange(r)) == if '\n' in r.path then None else Some(r)
  {
    var s := PrintRange(r);
    var head := r.path + ":L" + Decimal(r.first);
    assert s == head + "-L" + Decimal(r.last);
    CutPrinted(head, "-L", r.last);
    CutPrinted(r.path, ":L", r.first);
    assert s[|s| - 1] in Decimal(r.last);
  }
}
