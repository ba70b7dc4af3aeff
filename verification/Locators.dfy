/**
  JSON Pointer locators: the walker that emits them and the inspector that resolves them
  (src/lemmamind/json_evidence.py, src/lemmamind/evidence_inspection.py; sections 3 and 4 of RFC 6901).
*/
module Locators {
  import opened Wrappers
  import opened Orders
  import opened Texts
  import opened Json

  // ----- escaping -----

  function Escape(token: string): string { Replace(Replace(token, "~", "~0"), "/", "~1") }

  function Unescape(text: string): string { Replace(Replace(text, "~1", "/"), "~0", "~") }

  /** Tildes escaped, slashes not yet. */
  function Half(s: string): string {
    if s == "" then "" else (if s[0] == '~' then "~0" else [s[0]]) + Half(s[1..])
  }

  function Full(s: string): string {
    if s == "" then "" else (if s[0] == '~' then "~0" else if s[0] == '/' then "~1" else [s[0]]) + Full(s[1..])
  }

  lemma {:induction false} HalfIsReplace(s: string)
    ensures Replace(s, "~", "~0") == Half(s)
  {
    if s != "" { HalfIsReplace(s[1..]); }
  }

  lemma ReplaceOther(c: char, rest: string, pattern: string, replacement: string)
    requires pattern != "" && pattern[0] != c
    ensures Replace([c] + rest, pattern, replacement) == [c] + Replace(rest, pattern, replacement)
  {
    assert ([c] + rest)[1..] == rest;
    assert ([c] + rest)[0] == c;
    if |[c] + rest| < |pattern| { assert |rest| < |pattern|; }
  }

  lemma ReplaceHere(rest: string, pattern: string, replacement: string)
    requires pattern != ""
    ensures Replace(pattern + rest, pattern, replacement) == replacement + Replace(rest, pattern, replacement)
  {
    assert (pattern + rest)[|pattern|..] == rest;
    assert pattern <= pattern + rest;
  }

  lemma {:induction false} FullIsReplace(s: string)
    ensures Replace(Half(s), "/", "~1") == Full(s)
  {
    if s != "" {
      var rest := Half(s[1..]);
      FullIsReplace(s[1..]);
      if s[0] == '~' {
        assert "~0" + rest == ['~'] + (['0'] + rest);
        ReplaceOther('~', ['0'] + rest, "/", "~1");
        ReplaceOther('0', rest, "/", "~1");
      } else if s[0] == '/' {
        ReplaceHere(rest, "/", "~1");
      } else {
        ReplaceOther(s[0], rest, "/", "~1");
      }
    }
  }

  /** In an escaped text every tilde is followed by 0 or 1, so ~1 is found exactly where a slash was. */
  lemma {:induction false} FullUnslashed(s: string)
    ensures Replace(Full(s), "~1", "/") == Half(s)
  {
    if s != "" {
      var rest := Full(s[1..]);
      FullUnslashed(s[1..]);
      if s[0] == '~' {
        TildeZero(rest, "~1", "/");
      } else if s[0] == '/' {
        ReplaceHere(rest, "~1", "/");
      } else {
        ReplaceOther(s[0], rest, "~1", "/");
      }
    }
  }

  lemma TildeZero(rest: string, pattern: string, replacement: string)
    requires pattern == "~1"
    ensures Replace("~0" + rest, pattern, replacement) == "~0" + Replace(rest, pattern, replacement)
  {
    var s := "~0" + rest;
    assert s[1] == '0' && !(pattern <= s);
    assert s[1..] == ['0'] + rest;
    ReplaceOther('0', rest, pattern, replacement);
    assert Replace(s, pattern, replacement) == ['~'] + Replace(['0'] + rest, pattern, replacement);
  }

  lemma {:induction false} HalfUntilded(s: string)
    ensures Replace(Half(s), "~0", "~") == s
  {
    if s != "" {
      var rest := Half(s[1..]);
      HalfUntilded(s[1..]);
      assert s == [s[0]] + s[1..];
      if s[0] == '~' { ReplaceHere(rest, "~0", "~"); } else { ReplaceOther(s[0], rest, "~0", "~"); }
    }
  }

  lemma {:induction false} FullHasNoSlash(s: string)
    ensures '/' !in Full(s)
  {
    if s != "" { FullHasNoSlash(s[1..]); }
  }

  /** Every token survives escaping, tildes, slashes and the text ~1 included, and its escaped form has no slash. */
  lemma EscapeRoundTrip(token: string)
    ensures Unescape(Escape(token)) == token && '/' !in Escape(token)
  {
    HalfIsReplace(token);
    FullIsReplace(token);
    FullUnslashed(token);
    HalfUntilded(token);
    FullHasNoSlash(token);
  }

  // ----- pointers -----

  type Tokens = seq<string>

  /** The pointer of a path, as the walker builds it token by token. */
  function PointerOf(tokens: Tokens): string {
    if tokens == [] then ""
    else PointerOf(tokens[..|tokens| - 1]) + "/" + Escape(tokens[|tokens| - 1])
  }

  function DecodePointer(pointer: string): Option<Tokens> {
    if pointer == "" then Some([])
    else if pointer[0] != '/' then None
    else Some(Map(Unescape, Split(pointer[1..], '/')))
  }

  /** What the inspector prints for the tokens it resolved. */
  function PrintPointer(tokens: Tokens): string {
    if tokens == [] then "" else "/" + Join(Map(Escape, tokens), '/')
  }

  lemma {:induction false} JoinSnoc(parts: seq<string>, last: string, c: char)
    requires parts != []
    ensures Join(parts + [last], c) == Join(parts, c) + [c] + last
  {
    if |parts| == 1 {
      assert (parts + [last])[1..] == [last];
    } else {
      JoinSnoc(parts[1..], last, c);
      assert (parts + [last])[1..] == parts[1..] + [last];
    }
  }

  lemma PrintSnoc(init: Tokens, last: string)
    ensures PrintPointer(init + [last]) == PrintPointer(init) + "/" + Escape(last)
  {
    MapAppend(Escape, init, [last]);
    assert Map(Escape, [last]) == [Escape(last)];
    if init != [] {
      JoinSnoc(Map(Escape, init), Escape(last), '/');
    } else {
      assert init + [last] == [last];
      assert Map(Escape, init) + [Escape(last)] == [Escape(last)];
    }
  }

  /** Walker and inspector print the same pointer. */
  lemma {:induction false} PrintersAgree(tokens: Tokens)
    ensures PrintPointer(tokens) == PointerOf(tokens)
  {
    if tokens != [] {
      var init, last := tokens[..|tokens| - 1], tokens[|tokens| - 1];
      PrintersAgree(init);
      PrintSnoc(init, last);
      assert tokens == init + [last];
    }
  }

  /** Decoding a printed pointer gives the tokens back. */
  lemma PointerRoundTrip(tokens: Tokens)
    ensures DecodePointer(PointerOf(tokens)) == Some(tokens)
  {
    PrintersAgree(tokens);
    if tokens != [] {
      var escaped := Map(Escape, tokens);
      forall i | 0 <= i < |escaped| ensures '/' !in escaped[i] && Unescape(escaped[i]) == tokens[i] { EscapeRoundTrip(tokens[i]); }
      SplitJoin(escaped, '/');
      assert PrintPointer(tokens)[1..] == Join(escaped, '/');
      assert Map(Unescape, escaped) == tokens;
    }
  }

  lemma PointersDistinct(a: Tokens, b: Tokens)
    requires PointerOf(a) == PointerOf(b)
    ensures a == b
  {
    PointerRoundTrip(a);
    PointerRoundTrip(b);
  }

  // ----- the walker -----

  /** One scalar leaf: its path and its value. */
  datatype Leaf = Leaf(path: Tokens, value: Json)

  predicate Scalar(j: Json) { !j.JObject? && !j.JArray? }

  function SortedNames(m: map<string, Json>): (r: seq<string>)
    ensures Increasing(TextKey, r)
    ensures forall k :: k in r <==> k in m
  {
    SortSet(TextKey, m.Keys)
  }

  /** The scalar leaves below a value that sits at a path, in the order they are emitted. */
  function LeavesOf(j: Json, path: Tokens): seq<Leaf>
    decreases j, 1, 0
  {
    match j
    case JObject(m) => FieldLeaves(j, SortedNames(m), path)
    case JArray(items) => ItemLeaves(j, |items|, path)
    case _ => [Leaf(path, j)]
  }

  function FieldLeaves(j: Json, names: seq<string>, path: Tokens): seq<Leaf>
    requires j.JObject? && forall k | k in names :: k in j.fields
    decreases j, 0, |names|
  {
    if names == [] then []
    else
      var n := |names| - 1;
      assert names[n] in names;
      FieldLeaves(j, names[..n], path) + LeavesOf(j.fields[names[n]], path + [names[n]])
  }

  function ItemLeaves(j: Json, n: nat, path: Tokens): seq<Leaf>
    requires j.JArray? && n <= |j.items|
    decreases j, 0, n
  {
    if n == 0 then [] else ItemLeaves(j, n - 1, path) + LeavesOf(j.items[n - 1], path + [Decimal(n - 1)])
  }

  datatype FactSpec = FactSpec(locator: string, value: Json)

  function SpecOf(root: string): Leaf -> FactSpec { (l: Leaf) => FactSpec(root + "#" + PointerOf(l.path), l.value) }

  /** The walk of one value; it appends to the facts found so far. */
  method Walk(root: string, j: Json, ghost path: Tokens, pointer: string, facts: seq<FactSpec>) returns (r: seq<FactSpec>)
    requires pointer == PointerOf(path)
    ensures r == facts + Map(SpecOf(root), LeavesOf(j, path))
    decreases j, 1
  {
    match j
    case JObject(m) => r := WalkFields(root, j, SortedNames(m), path, pointer, facts);
    case JArray(_) => r := WalkItems(root, j, path, pointer, facts);
    case _ => r := facts + [FactSpec(root + "#" + pointer, j)];
  }

  method WalkFields(root: string, j: Json, names: seq<string>, ghost path: Tokens, pointer: string, facts: seq<FactSpec>)
    returns (r: seq<FactSpec>)
    requires j.JObject? && pointer == PointerOf(path) && forall k | k in names :: k in j.fields
    ensures r == facts + Map(SpecOf(root), FieldLeaves(j, names, path))
    decreases j, 0
  {
    r := facts;
    for i := 0 to |names|
      invariant r == facts + Map(SpecOf(root), FieldLeaves(j, names[..i], path))
    {
      var name := names[i];
      WalkFieldStep(root, j, names, i, path, facts);
      PointerSnoc(path, name);
      r := Walk(root, j.fields[name], path + [name], pointer + "/" + Escape(name), r);
    }
    WholePrefix(names);
  }

  lemma WholePrefix(names: seq<string>)
    ensures names[..|names|] == names
  {}

  method WalkItems(root: string, j: Json, ghost path: Tokens, pointer: string, facts: seq<FactSpec>) returns (r: seq<FactSpec>)
    requires j.JArray? && pointer == PointerOf(path)
    ensures r == facts + Map(SpecOf(root), LeavesOf(j, path))
    decreases j, 0
  {
    r := facts;
    for i := 0 to |j.items|
      invariant r == facts + Map(SpecOf(root), ItemLeaves(j, i, path))
    {
      WalkItemStep(root, j, i, path, facts);
      PointerSnoc(path, Decimal(i));
      DecimalPlain(i);
      r := Walk(root, j.items[i], path + [Decimal(i)], pointer + "/" + Decimal(i), r);
    }
  }

  lemma WalkFieldStep(root: string, j: Json, names: seq<string>, i: nat, path: Tokens, facts: seq<FactSpec>)
    requires j.JObject? && i < |names| && forall k | k in names :: k in j.fields
    ensures names[i] in j.fields
    ensures facts + Map(SpecOf(root), FieldLeaves(j, names[..i + 1], path))
            == (facts + Map(SpecOf(root), FieldLeaves(j, names[..i], path)))
             + Map(SpecOf(root), LeavesOf(j.fields[names[i]], path + [names[i]]))
  {
    assert names[i] in names;
    assert names[..i + 1][..i] == names[..i];
    MapAppend(SpecOf(root), FieldLeaves(j, names[..i], path), LeavesOf(j.fields[names[i]], path + [names[i]]));
  }

  lemma WalkItemStep(root: string, j: Json, i: nat, path: Tokens, facts: seq<FactSpec>)
    requires j.JArray? && i < |j.items|
    ensures facts + Map(SpecOf(root), ItemLeaves(j, i + 1, path))
            == (facts + Map(SpecOf(root), ItemLeaves(j, i, path)))
             + Map(SpecOf(root), LeavesOf(j.items[i], path + [Decimal(i)]))
  {
    MapAppend(SpecOf(root), ItemLeaves(j, i, path), LeavesOf(j.items[i], path + [Decimal(i)]));
  }

  lemma PointerSnoc(path: Tokens, token: string)
    ensures PointerOf(path + [token]) == PointerOf(path) + "/" + Escape(token)
  {
    assert (path + [token])[..|path|] == path;
  }

  /** A token without tildes and slashes needs no escaping. */
  lemma EscapePlain(token: string)
    requires '~' !in token && '/' !in token
    ensures Escape(token) == token
  {
    HalfIsReplace(token);
    FullIsReplace(token);
    PlainFull(token);
  }

  lemma {:induction false} PlainFull(s: string)
    requires '~' !in s && '/' !in s
    ensures Full(s) == s
  {
    if s != "" {
      assert s[0] in s;
      PlainFull(s[1..]);
      assert s == [s[0]] + s[1..];
    }
  }

  /** A printed index needs no escaping. */
  lemma DecimalPlain(n: nat)
    ensures Escape(Decimal(n)) == Decimal(n)
  {
    assert !IsDigit('~') && !IsDigit('/');
    EscapePlain(Decimal(n));
  }

  // ----- what a path holds -----

  /** The value at a path: field names as they are, array positions in plain decimal. */
  function At(j: Json, path: Tokens): Option<Json> {
    if path == [] then Some(j)
    else
      match j
      case JObject(m) => if path[0] in m then At(m[path[0]], path[1..]) else None
      case JArray(items) =>
        if AllDigits(path[0]) && ParseDecimal(path[0]) < |items| && Decimal(ParseDecimal(path[0])) == path[0]
        then At(items[ParseDecimal(path[0])], path[1..]) else None
      case _ => None
  }

  /** l is a scalar of the document, at a path that begins where the walk began. */
  predicate IsLeaf(j: Json, path: Tokens, l: Leaf) {
    path <= l.path && At(j, l.path[|path|..]) == Some(l.value) && Scalar(l.value)
  }

  lemma Deeper(path: Tokens, token: string, full: Tokens)
    ensures path + [token] <= full <==> path <= full && |full| > |path| && full[|path|] == token
    ensures path + [token] <= full ==> full[|path|..] == [token] + full[|path + [token]|..]
  {
    if path <= full && |full| > |path| && full[|path|] == token {
      assert full[..|path| + 1] == path + [token];
    }
  }

  lemma FieldAt(j: Json, path: Tokens, name: string, l: Leaf)
    requires j.JObject? && name in j.fields
    ensures IsLeaf(j.fields[name], path + [name], l)
            <==> IsLeaf(j, path, l) && |l.path| > |path| && l.path[|path|] == name
  {
    Deeper(path, name, l.path);
    if path <= l.path && |l.path| > |path| && l.path[|path|] == name {
      var tail := l.path[|path|..];
      assert tail[0] == name && tail[1..] == l.path[|path + [name]|..];
    }
  }

  lemma ItemAt(j: Json, path: Tokens, i: nat, l: Leaf)
    requires j.JArray? && i < |j.items|
    ensures IsLeaf(j.items[i], path + [Decimal(i)], l)
            <==> IsLeaf(j, path, l) && |l.path| > |path| && l.path[|path|] == Decimal(i)
  {
    Deeper(path, Decimal(i), l.path);
    ParsePrintDecimal(i);
    if path <= l.path && |l.path| > |path| && l.path[|path|] == Decimal(i) {
      var tail := l.path[|path|..];
      assert tail[0] == Decimal(i) && tail[1..] == l.path[|path + [Decimal(i)]|..];
    }
  }

  /** The walk emits a leaf if and only if the document holds that scalar at that path. */
  lemma {:induction false} WalkExact(j: Json, path: Tokens, l: Leaf)
    ensures l in LeavesOf(j, path) <==> IsLeaf(j, path, l)
    decreases j, 1, 0
  {
    match j
    case JObject(m) =>
      FieldsExact(j, SortedNames(m), path, l);
      if IsLeaf(j, path, l) {
        var tail := l.path[|path|..];
        assert tail != [] && tail[0] in m;
      }
    case JArray(items) =>
      ItemsExact(j, |items|, path, l);
      if IsLeaf(j, path, l) {
        var tail := l.path[|path|..];
        assert tail != [] && tail[0] == l.path[|path|];
        assert l.path[|path|] == Decimal(ParseDecimal(tail[0])) && ParseDecimal(tail[0]) < |items|;
      }
    case _ =>
      if IsLeaf(j, path, l) {
        assert l.path[|path|..] == [];
        assert l.path == path;
      }
  }

  lemma {:induction false} FieldsExact(j: Json, names: seq<string>, path: Tokens, l: Leaf)
    requires j.JObject? && forall k | k in names :: k in j.fields
    ensures l in FieldLeaves(j, names, path) <==> IsLeaf(j, path, l) && |l.path| > |path| && l.path[|path|] in names
    decreases j, 0, |names|
  {
    if names != [] {
      var n := |names| - 1;
      assert names == names[..n] + [names[n]] && names[n] in names;
      FieldsExact(j, names[..n], path, l);
      WalkExact(j.fields[names[n]], path + [names[n]], l);
      FieldAt(j, path, names[n], l);
    }
  }

  lemma {:induction false} ItemsExact(j: Json, n: nat, path: Tokens, l: Leaf)
    requires j.JArray? && n <= |j.items|
    ensures l in ItemLeaves(j, n, path) <==>
              IsLeaf(j, path, l) && |l.path| > |path| && exists i | 0 <= i < n :: l.path[|path|] == Decimal(i)
    decreases j, 0, n
  {
    if n > 0 {
      ItemsExact(j, n - 1, path, l);
      WalkExact(j.items[n - 1], path + [Decimal(n - 1)], l);
      ItemAt(j, path, n - 1, l);
    }
  }

  // ----- no leaf twice -----

  function PathOf(l: Leaf): Tokens { l.path }

  predicate PathsDistinct(s: seq<Leaf>) {
    forall i, j | 0 <= i < j < |s| :: s[i].path != s[j].path
  }

  /** All leaves of b continue path with token, and none of a does. */
  predicate Apart(a: seq<Leaf>, b: seq<Leaf>, path: Tokens, token: string) {
    && (forall l | l in b :: path + [token] <= l.path)
    && (forall l | l in a :: !(path + [token] <= l.path))
  }

  lemma DistinctAppend(a: seq<Leaf>, b: seq<Leaf>, path: Tokens, token: string)
    requires PathsDistinct(a) && PathsDistinct(b) && Apart(a, b, path, token)
    ensures PathsDistinct(a + b)
  {
    forall i, j | 0 <= i < j < |a + b| ensures (a + b)[i].path != (a + b)[j].path {
      if i < |a| <= j { assert a[i] in a && b[j - |a|] in b; }
    }
  }

  lemma {:induction false} WalkDistinct(j: Json, path: Tokens)
    ensures PathsDistinct(LeavesOf(j, path))
    decreases j, 1, 0
  {
    match j
    case JObject(m) => FieldsDistinct(j, SortedNames(m), path);
    case JArray(items) => ItemsDistinct(j, |items|, path);
    case _ =>
  }

  lemma {:induction false} FieldsDistinct(j: Json, names: seq<string>, path: Tokens)
    requires j.JObject? && Increasing(TextKey, names) && forall k | k in names :: k in j.fields
    ensures PathsDistinct(FieldLeaves(j, names, path))
    decreases j, 0, |names|
  {
    if names != [] {
      var n := |names| - 1;
      assert names[n] in names;
      FieldsDistinct(j, names[..n], path);
      WalkDistinct(j.fields[names[n]], path + [names[n]]);
      var a, b := FieldLeaves(j, names[..n], path), LeavesOf(j.fields[names[n]], path + [names[n]]);
      forall l | l in a ensures !(path + [names[n]] <= l.path) {
        FieldsExact(j, names[..n], path, l);
        Deeper(path, names[n], l.path);
        LastNameNew(names);
      }
      forall l | l in b ensures path + [names[n]] <= l.path { WalkExact(j.fields[names[n]], path + [names[n]], l); }
      DistinctAppend(a, b, path, names[n]);
    }
  }

  lemma LastNameNew(names: seq<string>)
    requires names != [] && Increasing(TextKey, names)
    ensures names[|names| - 1] !in names[..|names| - 1]
  {
    forall i | 0 <= i < |names| - 1 ensures names[i] != names[|names| - 1] {
      KeyAsymmetric(TextKey(names[i]), TextKey(names[|names| - 1]));
    }
  }

  lemma {:induction false} ItemsDistinct(j: Json, n: nat, path: Tokens)
    requires j.JArray? && n <= |j.items|
    ensures PathsDistinct(ItemLeaves(j, n, path))
    decreases j, 0, n
  {
    if n > 0 {
      var token := Decimal(n - 1);
      ItemsDistinct(j, n - 1, path);
      WalkDistinct(j.items[n - 1], path + [token]);
      var a, b := ItemLeaves(j, n - 1, path), LeavesOf(j.items[n - 1], path + [token]);
      forall l | l in a ensures !(path + [token] <= l.path) {
        ItemsExact(j, n - 1, path, l);
        Deeper(path, token, l.path);
        var i :| 0 <= i < n - 1 && l.path[|path|] == Decimal(i);
        ParsePrintDecimal(i);
        ParsePrintDecimal(n - 1);
      }
      forall l | l in b ensures path + [token] <= l.path { WalkExact(j.items[n - 1], path + [token], l); }
      DistinctAppend(a, b, path, token);
    }
  }

  /** The locators of one document are pairwise distinct. */
  lemma LocatorsDistinct(root: string, j: Json, a: nat, b: nat)
    requires a < b < |LeavesOf(j, [])|
    ensures SpecOf(root)(LeavesOf(j, [])[a]).locator != SpecOf(root)(LeavesOf(j, [])[b]).locator
  {
    var s := LeavesOf(j, []);
    WalkDistinct(j, []);
    var x, y := SpecOf(root)(s[a]).locator, SpecOf(root)(s[b]).locator;
    if x == y {
      assert PointerOf(s[a].path) == x[|root| + 1..] && PointerOf(s[b].path) == y[|root| + 1..];
      PointersDistinct(s[a].path, s[b].path);
    }
  }

  // ----- the inspector -----

  const GIT_TREE := "application/vnd.lemmamind.git-tree+json"
  const GIT_COMMIT := "application/vnd.lemmamind.git-commit+json"
  const ISSUE_EVENTS := "application/vnd.lemmamind.github-issue-events+json"
  const WORKFLOW_RUN := "application/vnd.lemmamind.github-workflow-run+json"
  const REPOSITORY := "application/vnd.lemmamind.github-repository-metadata+json"

  datatype Medium = GitTree | GitCommit | IssueEvents | WorkflowRun | RepositoryMetadata | PlainMedium

  function MediumOf(media: string): Medium {
    if media == GIT_TREE then GitTree
    else if media == GIT_COMMIT then GitCommit
    else if media == ISSUE_EVENTS then IssueEvents
    else if media == WORKFLOW_RUN then WorkflowRun
    else if media == REPOSITORY then RepositoryMetadata
    else PlainMedium
  }

  datatype LocationKind = StructuredValue | DerivedStructure

  datatype InspectError = BadPointer | NoSuchField | NoSuchIndex | NotNumeric | NoSuchEntry | ThroughScalar

  /** Python's str of a value that may be missing; nothing is assumed of it. */
  type Show = Option<Json> -> string

  /** How the media type rewrites the requested path before it is followed. */
  function Rewrite(medium: Medium, tokens: Tokens): (Tokens, LocationKind) {
    match medium
    case RepositoryMetadata => (if tokens != [] && tokens[0] != "repository" then ["repository"] + tokens else tokens, StructuredValue)
    case GitTree =>
      if tokens == ["entry_count"] || tokens == ["entry_paths"] then (["entries"], DerivedStructure) else (tokens, StructuredValue)
    case GitCommit => if tokens == ["parent_count"] then (["parents"], DerivedStructure) else (tokens, StructuredValue)
    case IssueEvents => if tokens == ["event_count"] then (["events"], DerivedStructure) else (tokens, StructuredValue)
    case _ => (tokens, StructuredValue)
  }

  /** The first object of a list whose field prints as the token. */
  function FirstWith(items: seq<Json>, field: string, token: string, show: Show): Option<nat> {
    if items == [] then None
    else if items[0].JObject? && show(if field in items[0].fields then Some(items[0].fields[field]) else None) == token then Some(0)
    else
      match FirstWith(items[1..], field, token, show)
      case None => None
      case Some(n) => Some(n + 1)
  }

  function WorkflowField(parent: string): Option<string> {
    if parent == "jobs" || parent == "artifacts" then Some("id") else if parent == "steps" then Some("number") else None
  }

  /** The field by which a list is searched instead of counted, if any. */
  function SearchedBy(medium: Medium, resolved: Tokens): Option<string> {
    match medium
    case GitTree => if resolved == ["entries"] then Some("path") else None
    case WorkflowRun => WorkflowField(if resolved == [] then "" else resolved[|resolved| - 1])
    case _ => None
  }

  function ListIndex(medium: Medium, resolved: Tokens, items: seq<Json>, token: string, show: Show): Result<nat, InspectError> {
    match SearchedBy(medium, resolved)
    case Some(field) =>
      (match FirstWith(items, field, token, show)
       case None => Err(NoSuchEntry)
       case Some(n) => Ok(n))
    case None => if AllDigits(token) then Ok(ParseDecimal(token)) else Err(NotNumeric)
  }

  datatype Found = Found(resolved: Tokens, value: Json)

  /** Following the remaining tokens from a value already reached. */
  function Follow(medium: Medium, j: Json, resolved: Tokens, tokens: Tokens, show: Show): Result<Found, InspectError> {
    if tokens == [] then Ok(Found(resolved, j))
    else
      match j
      case JObject(m) =>
        if tokens[0] !in m then Err(NoSuchField) else Follow(medium, m[tokens[0]], resolved + [tokens[0]], tokens[1..], show)
      case JArray(items) =>
        (match ListIndex(medium, resolved, items, tokens[0], show)
         case Err(error) => Err(error)
         case Ok(n) =>
           if n >= |items| then Err(NoSuchIndex) else Follow(medium, items[n], resolved + [Decimal(n)], tokens[1..], show))
      case _ => Err(ThroughScalar)
  }

  datatype Inspection = Inspection(pointer: string, kind: LocationKind, value: Json)

  function Inspect(medium: Medium, j: Json, fragment: string, show: Show): Result<Inspection, InspectError> {
    var pointer := if fragment == "" || fragment[0] == '/' then fragment else "/" + fragment;
    match DecodePointer(pointer)
    case None => Err(BadPointer)
    case Some(decoded) =>
      var (tokens, kind) := Rewrite(medium, decoded);
      match Follow(medium, j, [], tokens, show)
      case Err(error) => Err(error)
      case Ok(found) => Ok(Inspection(PrintPointer(found.resolved), kind, found.value))
  }

  /** The loop over the tokens, with what was resolved so far. */
  method ResolveJson(medium: Medium, j: Json, fragment: string, show: Show) returns (r: Result<Inspection, InspectError>)
    ensures r == Inspect(medium, j, fragment, show)
  {
    var pointer := if fragment == "" || fragment[0] == '/' then fragment else "/" + fragment;
    var decoded := DecodePointer(pointer);
    if decoded.None? { return Err(BadPointer); }
    var (tokens, kind) := Rewrite(medium, decoded.value);
    var found := FollowTokens(medium, j, tokens, show);
    if found.Err? { return Err(found.error); }
    var printed := if found.value.resolved == [] then "" else "/" + Join(Map(Escape, found.value.resolved), '/');
    r := Ok(Inspection(printed, kind, found.value.value));
  }

  method FollowTokens(medium: Medium, j: Json, tokens: Tokens, show: Show) returns (r: Result<Found, InspectError>)
    ensures r == Follow(medium, j, [], tokens, show)
  {
    var current := j;
    var resolved: Tokens := [];
    var index := 0;
    while index < |tokens|
      decreases |tokens| - index
      invariant index <= |tokens|
      invariant Follow(medium, current, resolved, tokens[index..], show) == Follow(medium, j, [], tokens, show)
    {
      var token := tokens[index];
      assert tokens[index..][0] == token && tokens[index..][1..] == tokens[index + 1..];
      index := index + 1;
      match current
      case JObject(m) =>
        if token !in m { return Err(NoSuchField); }
        current, resolved := m[token], resolved + [token];
      case JArray(items) =>
        var selected := ListIndex(medium, resolved, items, token, show);
        if selected.Err? { return Err(selected.error); }
        if selected.value >= |items| { return Err(NoSuchIndex); }
        current, resolved := items[selected.value], resolved + [Decimal(selected.value)];
      case _ =>
        return Err(ThroughScalar);
    }
    r := Ok(Found(resolved, current));
  }

  // ----- the round trip -----

  /** On the way down a path every list is entered where the token's number points. */
  predicate Straight(medium: Medium, j: Json, resolved: Tokens, path: Tokens, show: Show) {
    path == [] ||
    match j
    case JObject(m) => path[0] in m && Straight(medium, m[path[0]], resolved + [path[0]], path[1..], show)
    case JArray(items) =>
      && AllDigits(path[0]) && ParseDecimal(path[0]) < |items|
      && ListIndex(medium, resolved, items, path[0], show) == Ok(ParseDecimal(path[0]))
      && Straight(medium, items[ParseDecimal(path[0])], resolved + [path[0]], path[1..], show)
    case _ => false
  }

  /** A path is followed to its own end if and only if every list is entered at its number. */
  lemma {:induction false} FollowsStraight(medium: Medium, j: Json, resolved: Tokens, path: Tokens, show: Show)
    requires At(j, path).Some?
    ensures Straight(medium, j, resolved, path, show)
            <==> Follow(medium, j, resolved, path, show) == Ok(Found(resolved + path, At(j, path).value))
  {
    if path == [] {
      assert resolved + path == resolved;
    } else {
      var token, rest := path[0], path[1..];
      assert path == [token] + rest;
      assert resolved + [token] + rest == resolved + path;
      match j
      case JObject(m) => FollowsStraight(medium, m[token], resolved + [token], rest, show);
      case JArray(items) =>
        FollowsStraight(medium, items[ParseDecimal(token)], resolved + [token], rest, show);
        var n := ListIndex(medium, resolved, items, token, show);
        if n.Ok? && n.value != ParseDecimal(token) && n.value < |items| {
          ResolvedPrefix(medium, items[n.value], resolved + [Decimal(n.value)], rest, show);
          ParsePrintDecimal(n.value);
          assert (resolved + path)[|resolved|] == token;
        }
      case _ =>
    }
  }

  /** What is resolved first stays at the front. */
  lemma {:induction false} ResolvedPrefix(medium: Medium, j: Json, resolved: Tokens, tokens: Tokens, show: Show)
    ensures Follow(medium, j, resolved, tokens, show).Ok? ==> resolved <= Follow(medium, j, resolved, tokens, show).value.resolved
  {
    if tokens != [] {
      match j
      case JObject(m) => if tokens[0] in m { ResolvedPrefix(medium, m[tokens[0]], resolved + [tokens[0]], tokens[1..], show); }
      case JArray(items) =>
        var n := ListIndex(medium, resolved, items, tokens[0], show);
        if n.Ok? && n.value < |items| { ResolvedPrefix(medium, items[n.value], resolved + [Decimal(n.value)], tokens[1..], show); }
      case _ =>
    }
  }

  /** The requested path comes back with its own pointer, as a structured value. */
  predicate ResolvesToItself(medium: Medium, j: Json, l: Leaf, show: Show) {
    Inspect(medium, j, PointerOf(l.path), show) == Ok(Inspection(PointerOf(l.path), StructuredValue, l.value))
  }

  lemma PointerShape(path: Tokens)
    ensures PointerOf(path) == "" || PointerOf(path)[0] == '/'
  {
    PrintersAgree(path);
  }

  lemma InspectPointer(medium: Medium, j: Json, path: Tokens, show: Show)
    ensures Inspect(medium, j, PointerOf(path), show)
            == match Follow(medium, j, [], Rewrite(medium, path).0, show)
               case Err(error) => Err(error)
               case Ok(found) => Ok(Inspection(PointerOf(found.resolved), Rewrite(medium, path).1, found.value))
  {
    PointerShape(path);
    PointerRoundTrip(path);
    var followed := Follow(medium, j, [], Rewrite(medium, path).0, show);
    if followed.Ok? { PrintersAgree(followed.value.resolved); }
  }

  /** A rewritten path is never resolved to itself as a structured value. */
  lemma RewriteShows(medium: Medium, j: Json, path: Tokens, show: Show)
    requires var followed := Follow(medium, j, [], Rewrite(medium, path).0, show);
             followed.Ok? && followed.value.resolved == path && Rewrite(medium, path).1 == StructuredValue
    ensures Rewrite(medium, path) == (path, StructuredValue)
  {
    var tokens := Rewrite(medium, path).0;
    if medium.RepositoryMetadata? && tokens != path {
      assert tokens[0] == "repository" && tokens[0][0] == 'r' && tokens[0][0] in tokens[0];
      assert !AllDigits(tokens[0]);
      if j.JObject? { FirstResolved(medium, j, tokens, show); }
    }
  }

  /**
    The JSON Pointer round trip, for every document and media type: an emitted locator resolves to the
    emitted value under its own pointer if and only if the media type does not rewrite the path and
    enters every list on it at its number.
  */
  lemma RoundTripIff(medium: Medium, j: Json, l: Leaf, show: Show)
    requires l in LeavesOf(j, [])
    ensures ResolvesToItself(medium, j, l, show)
            <==> Rewrite(medium, l.path) == (l.path, StructuredValue) && Straight(medium, j, [], l.path, show)
  {
    LeafAt(j, l);
    InspectPointer(medium, j, l.path, show);
    FollowsStraight(medium, j, [], l.path, show);
    assert [] + l.path == l.path;
    var followed := Follow(medium, j, [], Rewrite(medium, l.path).0, show);
    if ResolvesToItself(medium, j, l, show) {
      PointersDistinct(followed.value.resolved, l.path);
      RewriteShows(medium, j, l.path, show);
      assert followed == Ok(Found(l.path, l.value));
    }
  }

  lemma LeafAt(j: Json, l: Leaf)
    requires l in LeavesOf(j, [])
    ensures At(j, l.path) == Some(l.value)
  {
    WalkExact(j, [], l);
    assert l.path[0..] == l.path;
  }

  /** The first token of a path into an object is resolved as it is. */
  lemma FirstResolved(medium: Medium, j: Json, tokens: Tokens, show: Show)
    requires tokens != [] && j.JObject? && Follow(medium, j, [], tokens, show).Ok?
    ensures Follow(medium, j, [], tokens, show).value.resolved != []
    ensures Follow(medium, j, [], tokens, show).value.resolved[0] == tokens[0]
  {
    ResolvedPrefix(medium, j.fields[tokens[0]], [] + [tokens[0]], tokens[1..], show);
  }

  lemma {:induction false} PlainIsStraight(medium: Medium, j: Json, resolved: Tokens, path: Tokens, show: Show)
    requires !medium.GitTree? && !medium.WorkflowRun? && At(j, path).Some?
    ensures Straight(medium, j, resolved, path, show)
  {
    if path != [] {
      match j
      case JObject(m) => PlainIsStraight(medium, m[path[0]], resolved + [path[0]], path[1..], show);
      case JArray(items) => PlainIsStraight(medium, items[ParseDecimal(path[0])], resolved + [path[0]], path[1..], show);
      case _ =>
    }
  }

  /** Under any media type without rules of its own, every emitted locator resolves to exactly the emitted value. */
  lemma PlainRoundTrip(j: Json, l: Leaf, show: Show)
    requires l in LeavesOf(j, [])
    ensures ResolvesToItself(PlainMedium, j, l, show)
  {
    LeafAt(j, l);
    PlainIsStraight(PlainMedium, j, [], l.path, show);
    RoundTripIff(PlainMedium, j, l, show);
  }

  // ----- the rules of the single media types -----

  lemma OneToken(medium: Medium, m: map<string, Json>, token: string, show: Show)
    requires token in m
    ensures Follow(medium, JObject(m), [], [token], show) == Ok(Found([token], m[token]))
  {
    assert [token][1..] == [] && [] + [token] == [token];
  }

  /** The locator that stands for something derived from a list. */
  predicate StandsFor(medium: Medium, word: string, list: string) {
    match medium
    case GitTree => (word == "entry_count" || word == "entry_paths") && list == "entries"
    case GitCommit => word == "parent_count" && list == "parents"
    case IssueEvents => word == "event_count" && list == "events"
    case _ => false
  }

  /** A count or a list of names is not stored; its locator answers with the list it is derived from, and says so. */
  lemma DerivedAnswers(medium: Medium, m: map<string, Json>, word: string, list: string, show: Show)
    requires StandsFor(medium, word, list) && list in m
    ensures Inspect(medium, JObject(m), PointerOf([word]), show) == Ok(Inspection(PointerOf([list]), DerivedStructure, m[list]))
  {
    assert Rewrite(medium, [word]) == ([list], DerivedStructure);
    InspectAs(medium, JObject(m), [word], [list], DerivedStructure, show);
    OneToken(medium, m, list, show);
  }

  function Answer(kind: LocationKind, r: Result<Found, InspectError>): Result<Inspection, InspectError> {
    match r
    case Err(error) => Err(error)
    case Ok(found) => Ok(Inspection(PointerOf(found.resolved), kind, found.value))
  }

  lemma InspectAs(medium: Medium, j: Json, path: Tokens, target: Tokens, kind: LocationKind, show: Show)
    requires Rewrite(medium, path) == (target, kind)
    ensures Inspect(medium, j, PointerOf(path), show) == Answer(kind, Follow(medium, j, [], target, show))
  {
    InspectPointer(medium, j, path, show);
  }

  lemma {:induction false} SameUnsearched(a: Medium, b: Medium, j: Json, resolved: Tokens, tokens: Tokens, show: Show)
    requires !a.GitTree? && !a.WorkflowRun? && !b.GitTree? && !b.WorkflowRun?
    ensures Follow(a, j, resolved, tokens, show) == Follow(b, j, resolved, tokens, show)
    decreases |tokens|
  {
    if tokens != [] {
      match j
      case JObject(m) => if tokens[0] in m { SameUnsearched(a, b, m[tokens[0]], resolved + [tokens[0]], tokens[1..], show); }
      case JArray(items) =>
        var n := ListIndex(a, resolved, items, tokens[0], show);
        assert n == ListIndex(b, resolved, items, tokens[0], show);
        if n.Ok? && n.value < |items| { SameUnsearched(a, b, items[n.value], resolved + [Decimal(n.value)], tokens[1..], show); }
      case _ =>
    }
  }

  /** The locators of repository metadata leave out that the document wraps it in "repository". */
  lemma MetadataUnderRepository(j: Json, path: Tokens, show: Show)
    requires path != [] && path[0] != "repository"
    ensures Inspect(RepositoryMetadata, j, PointerOf(path), show) == Inspect(PlainMedium, j, PointerOf(["repository"] + path), show)
    ensures Inspect(RepositoryMetadata, j, PointerOf(["repository"] + path), show) == Inspect(PlainMedium, j, PointerOf(["repository"] + path), show)
  {
    var wrapped := ["repository"] + path;
    assert wrapped[0] == "repository";
    SameRewrite(j, path, wrapped, show);
    SameRewrite(j, wrapped, wrapped, show);
  }

  lemma SameRewrite(j: Json, path: Tokens, wrapped: Tokens, show: Show)
    requires Rewrite(RepositoryMetadata, path) == (wrapped, StructuredValue)
    ensures Inspect(RepositoryMetadata, j, PointerOf(path), show) == Inspect(PlainMedium, j, PointerOf(wrapped), show)
  {
    InspectAs(RepositoryMetadata, j, path, wrapped, StructuredValue, show);
    InspectAs(PlainMedium, j, wrapped, wrapped, StructuredValue, show);
    SameUnsearched(RepositoryMetadata, PlainMedium, j, [], wrapped, show);
  }

  /** The item is an object whose field prints as the token. */
  predicate PrintsAs(item: Json, field: string, token: string, show: Show) {
    item.JObject? && show(if field in item.fields then Some(item.fields[field]) else None) == token
  }

  lemma {:induction false} FirstWithIff(items: seq<Json>, field: string, token: string, show: Show, n: nat)
    ensures FirstWith(items, field, token, show) == Some(n)
            <==> n < |items| && PrintsAs(items[n], field, token, show) && forall k | 0 <= k < n :: !PrintsAs(items[k], field, token, show)
  {
    if items != [] && !PrintsAs(items[0], field, token, show) {
      if n > 0 {
        FirstWithIff(items[1..], field, token, show, n - 1);
        assert forall k | 0 < k < |items| :: items[k] == items[1..][k - 1];
      }
    }
  }

  /** Under "jobs" or "artifacts" of a workflow run a token names the first entry with that id, under "steps" the one with that number. */
  lemma WorkflowSearch(items: seq<Json>, resolved: Tokens, list: string, token: string, show: Show, n: nat)
    requires list == "jobs" || list == "artifacts" || list == "steps"
    ensures ListIndex(WorkflowRun, resolved + [list], items, token, show) == Ok(n)
            <==> && n < |items| && PrintsAs(items[n], if list == "steps" then "number" else "id", token, show)
                 && forall k | 0 <= k < n :: !PrintsAs(items[k], if list == "steps" then "number" else "id", token, show)
  {
    var field := if list == "steps" then "number" else "id";
    assert "jobs"[0] == 'j' && "artifacts"[0] == 'a' && "steps"[0] == 's';
    assert (resolved + [list])[|resolved + [list]| - 1] == list;
    assert SearchedBy(WorkflowRun, resolved + [list]) == Some(field);
    FirstWithIff(items, field, token, show, n);
  }
}
