/** Which resolver a locator is sent to (src/lemmamind/evidence_inspection.py). */
module Inspection {
  import opened Wrappers
  import opened Texts
  import opened LineLocators
  import opened Json
  import opened Utf8
  import opened Slicing
  import M = Markdown
  import R = Reslicing
  import L = Locators

  datatype Route =
    | Unanchored | PathMetadata(key: string) | TextAt(locator: TextLocator) | ManifestKind
    | Toml(fragment: string) | JsonAt(fragment: string) | UnsupportedSyntax | UnsupportedMedium

  predicate EndsWith(s: string, suffix: string) {
    |suffix| <= |s| && s[|s| - |suffix|..] == suffix
  }

  const PATH_PREFIX := "#$path."

  predicate JsonMedium(media: string) { media == "application/json" || EndsWith(media, "+json") }

  /** toml says whether the media type or the file name makes the artifact a TOML document. */
  function RouteOf(root: string, media: string, toml: bool, locator: string): Route {
    if !(root <= locator) then Unanchored
    else
      var suffix := locator[|root|..];
      if PATH_PREFIX <= suffix then PathMetadata(suffix[|PATH_PREFIX|..])
      else if ReadColumns(suffix).Some? then TextAt(ReadColumns(suffix).value)
      else if ReadLines(suffix).Some? then TextAt(ReadLines(suffix).value)
      else if suffix == "" || suffix[0] != '#' then UnsupportedSyntax
      else if suffix[1..] == "$manifest.kind" then ManifestKind
      else if toml then Toml(suffix[1..])
      else if JsonMedium(media) then JsonAt(suffix[1..])
      else UnsupportedMedium
  }

  lemma FragmentIsNoRange(fragment: string)
    ensures ReadColumns("#" + fragment) == None && ReadLines("#" + fragment) == None
  {
    assert CutNumber("", ":C") == None && CutNumber("", "-L") == None;
  }

  /** A pointer locator reaches the JSON resolver with exactly its pointer, whatever its keys look like. */
  lemma JsonLocatorRouted(root: string, media: string, path: L.Tokens)
    requires JsonMedium(media)
    ensures RouteOf(root, media, false, root + "#" + L.PointerOf(path)) == JsonAt(L.PointerOf(path))
  {
    var pointer := L.PointerOf(path);
    var locator := root + "#" + pointer;
    assert locator[|root|..] == "#" + pointer;
    L.PointerShape(path);
    FragmentIsNoRange(pointer);
    assert PATH_PREFIX[1] == '$' && "$manifest.kind"[0] == '$';
    assert ("#" + pointer)[1..] == pointer;
    if pointer != "" { assert ("#" + pointer)[1] == '/'; }
  }

  /** A line locator reaches the line slicer with exactly its range, whatever its path and media type. */
  lemma LineLocatorRouted(root: string, media: string, toml: bool, first: nat, last: nat)
    ensures RouteOf(root, media, toml, PrintRange(LineRange(root, first, last))) == TextAt(LineSpan(first, last))
  {
    var locator := PrintRange(LineRange(root, first, last));
    assert locator == root + PrintLines(first, last);
    assert locator[|root|..] == PrintLines(first, last);
    assert PrintLines(first, last)[0] == ':';
    PrintedLinesRead(first, last);
  }

  /** A column locator reaches the column slicer with exactly its range, whatever its path and media type. */
  lemma ColumnLocatorRouted(root: string, media: string, toml: bool, firstLine: nat, firstCol: nat, lastLine: nat, lastCol: nat)
    ensures RouteOf(root, media, toml, root + PrintColumns(firstLine, firstCol, lastLine, lastCol))
            == TextAt(ColumnSpan(firstLine, firstCol, lastLine, lastCol))
  {
    var suffix := PrintColumns(firstLine, firstCol, lastLine, lastCol);
    var locator := root + suffix;
    assert locator[|root|..] == suffix;
    assert suffix[0] == ':';
    PrintedColumnsRead(firstLine, firstCol, lastLine, lastCol);
  }

  // ----- whole locators -----

  datatype Resolved = OfJson(inspection: L.Inspection) | OfText(text: string)

  datatype Failure = NotRouted | InJson(inspect: L.InspectError) | InText(slice: SliceError)

  /** Routing and resolution of one locator against retained bytes; parsed is what they hold as JSON. */
  function Resolve(
      root: string, media: string, toml: bool, data: Bytes, parsed: Json, show: L.Show, locator: string): Result<Resolved, Failure>
  {
    match RouteOf(root, media, toml, locator)
    case JsonAt(fragment) =>
      (match L.Inspect(L.MediumOf(media), parsed, fragment, show)
       case Err(error) => Err(InJson(error))
       case Ok(found) => Ok(OfJson(found)))
    case TextAt(span) =>
      var slice := match span
        case LineSpan(first, last) => SliceLines(data, first, last)
        case ColumnSpan(firstLine, firstCol, lastLine, lastCol) => SliceByteRange(data, firstLine, firstCol, lastLine, lastCol);
      (match slice
       case Err(error) => Err(InText(error))
       case Ok(text) => Ok(OfText(text)))
    case _ => Err(NotRouted)
  }

  /** Every locator the walker prints for a JSON file resolves to exactly the value it was printed for, under its own pointer. */
  lemma JsonFactResolves(root: string, data: Bytes, j: Json, l: L.Leaf, show: L.Show)
    requires l in L.LeavesOf(j, [])
    ensures Resolve(root, "application/json", false, data, j, show, L.SpecOf(root)(l).locator)
            == Ok(OfJson(L.Inspection(L.PointerOf(l.path), L.StructuredValue, l.value)))
  {
    JsonLocatorRouted(root, "application/json", l.path);
    JsonIsPlain();
    L.PlainRoundTrip(j, l, show);
  }

  lemma JsonIsPlain()
    ensures L.MediumOf("application/json") == L.PlainMedium
  {
    var media := "application/json";
    assert media[12] == 'j' && L.GIT_TREE[12] == 'v' && L.GIT_COMMIT[12] == 'v' && L.ISSUE_EVENTS[12] == 'v'
           && L.WORKFLOW_RUN[12] == 'v' && L.REPOSITORY[12] == 'v';
  }

  /** The locator of a prose assertion resolves to text whose stripped lines, joined, are its statement. */
  lemma ProseResolves(root: string, media: string, toml: bool, text: string, parsed: Json, show: L.Show, a: M.Assertion)
    requires R.Plain(text) && M.SoundProse(R.TextLines(text), a)
    ensures a.last <= |R.RawLines(text)|
    ensures Resolve(root, media, toml, Encode(text), parsed, show, PrintRange(LineRange(root, a.first, a.last)))
            == Ok(OfText(R.Excerpt(text, a.first, a.last)))
    ensures Join(M.Stripped(R.TextLines(R.Excerpt(text, a.first, a.last))), ' ') == a.statement
  {
    LineLocatorRouted(root, media, toml, a.first, a.last);
    R.ProseComesBack(text, a);
  }

  /** The locator of a list assertion resolves to text that gives its statement once the marker is taken off. */
  lemma ItemResolves(root: string, media: string, toml: bool, text: string, parsed: Json, show: L.Show, a: M.Assertion)
    requires R.Plain(text) && M.SoundItem(M.ReadAll(R.TextLines(text)), a)
    ensures a.last <= |R.RawLines(text)|
    ensures Resolve(root, media, toml, Encode(text), parsed, show, PrintRange(LineRange(root, a.first, a.last)))
            == Ok(OfText(R.Excerpt(text, a.first, a.last)))
    ensures R.TextLines(R.Excerpt(text, a.first, a.last)) != []
    ensures Join(R.ItemText(R.TextLines(R.Excerpt(text, a.first, a.last))), ' ') == a.statement
  {
    LineLocatorRouted(root, media, toml, a.first, a.last);
    R.ItemComesBack(text, a);
  }
}
