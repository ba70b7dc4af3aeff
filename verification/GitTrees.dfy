/**
  Root-tree evidence: the canonical tree document, the facts extracted from it, and the rules by which
  the inspector finds them again (src/lemmamind/git_tree.py, src/lemmamind/evidence_inspection.py).
*/
module GitTrees {
  import opened Wrappers
  import opened Orders
  import opened Texts
  import opened Json
  import I = Inspection
  import L = Locators
  import T = TreeDiff

  // ----- the canonical tree -----

  datatype RootTree = RootTree(sha: string, truncated: bool, entries: seq<T.Entry>)

  /** A root tree is not recursive, so its paths have no slash. */
  function CleanRootEntry(raw: T.RawEntry): Result<T.Entry, T.TreeError> {
    if raw.NotAnObject? then Err(T.NotObject)
    else if raw.path.None? || raw.path.value == "" || '/' in raw.path.value then Err(T.InvalidPath)
    else if raw.mode.None? || raw.mode.value == "" then Err(T.OmittedMode)
    else if raw.kind.None? || raw.kind.value !in {"blob", "tree", "commit"} then Err(T.UnsupportedType)
    else if raw.sha.None? || !T.IsGitSha(raw.sha.value) then Err(T.InvalidSha)
    else if raw.size.OtherValue? || (raw.size.Number? && raw.size.n < 0) then Err(T.InvalidSize)
    else
      Ok(T.Entry(raw.path.value, raw.mode.value, raw.kind.value, raw.sha.value,
                 if raw.size.Number? then Some(raw.size.n) else None))
  }

  function Clean(raw: T.RawEntry): T.Entry {
    match CleanRootEntry(raw)
    case Ok(e) => e
    case Err(_) => T.Entry("", "", "", "", None)
  }

  predicate Acceptable(raws: seq<T.RawEntry>) {
    && (forall raw | raw in raws :: CleanRootEntry(raw).Ok?)
    && Unique(Map(T.PathOf, Map(Clean, raws)))
  }

  /** The loop over the provider's entries; what it accepts has one entry per path. */
  method CanonicalRootTree(payload: T.Payload, expected: string) returns (r: Result<RootTree, T.TreeError>)
    ensures r.Ok? <==> payload.sha == Some(expected) && payload.tree.Some? && Acceptable(payload.tree.value)
    ensures r.Ok? ==> r.value == RootTree(expected, payload.truncated, SortBy(T.EntryKey, Map(Clean, payload.tree.value)))
    ensures r.Ok? ==> Unique(Map(T.PathOf, r.value.entries))
  {
    if payload.sha != Some(expected) { return Err(T.ShaMismatch); }
    if payload.tree.None? { return Err(T.OmittedEntries); }
    var raws := payload.tree.value;
    var entries: seq<T.Entry> := [];
    var seenPaths: set<string> := {};
    for i := 0 to |raws|
      invariant Acceptable(raws[..i]) && entries == Map(Clean, raws[..i])
      invariant forall p :: p in seenPaths <==> p in PathsOf(raws[..i])
    {
      var raw := raws[i];
      AcceptableStep(raws, i);
      if raw.NotAnObject? { return Err(T.NotObject); }
      if raw.path.None? || raw.path.value == "" || '/' in raw.path.value { return Err(T.InvalidPath); }
      var cleaned := CleanRootEntry(raw);
      if raw.path.value in seenPaths { return Err(T.DuplicatePath); }
      if cleaned.Err? { return Err(cleaned.error); }
      seenPaths := seenPaths + {raw.path.value};
      entries := entries + [cleaned.value];
    }
    assert raws[..|raws|] == raws;
    SortedPathsUnique(entries);
    r := Ok(RootTree(expected, payload.truncated, SortBy(T.EntryKey, entries)));
  }

  function PathsOf(raws: seq<T.RawEntry>): seq<string> { Map(T.PathOf, Map(Clean, raws)) }

  lemma SortedPathsUnique(entries: seq<T.Entry>)
    requires Unique(Map(T.PathOf, entries))
    ensures Unique(Map(T.PathOf, SortBy(T.EntryKey, entries)))
  {
    MapMultiset(T.PathOf, SortBy(T.EntryKey, entries), entries);
    UniquePermutes(Map(T.PathOf, SortBy(T.EntryKey, entries)), Map(T.PathOf, entries));
  }

  lemma AcceptableStep(raws: seq<T.RawEntry>, i: nat)
    requires i < |raws| && Acceptable(raws[..i])
    ensures Map(Clean, raws[..i + 1]) == Map(Clean, raws[..i]) + [Clean(raws[i])]
    ensures PathsOf(raws[..i + 1]) == PathsOf(raws[..i]) + [Clean(raws[i]).path]
    ensures Acceptable(raws[..i + 1]) <==> CleanRootEntry(raws[i]).Ok? && Clean(raws[i]).path !in PathsOf(raws[..i])
    ensures !Acceptable(raws[..i + 1]) ==> !Acceptable(raws)
  {
    PrefixSnoc(raws, i);
    AcceptableSnoc(raws[..i], raws[i]);
    AcceptablePrefix(raws[..i + 1], raws[i + 1..]);
    assert raws == raws[..i + 1] + raws[i + 1..];
  }

  lemma AcceptableSnoc(before: seq<T.RawEntry>, last: T.RawEntry)
    requires Acceptable(before)
    ensures Map(Clean, before + [last]) == Map(Clean, before) + [Clean(last)]
    ensures PathsOf(before + [last]) == PathsOf(before) + [Clean(last).path]
    ensures Acceptable(before + [last]) <==> CleanRootEntry(last).Ok? && Clean(last).path !in PathsOf(before)
  {
    MapSnoc(Clean, before, last);
    MapSnoc(T.PathOf, Map(Clean, before), Clean(last));
    UniqueSnoc(PathsOf(before), Clean(last).path);
    CleanSnoc(before, last);
  }

  lemma CleanSnoc(before: seq<T.RawEntry>, last: T.RawEntry)
    requires forall raw | raw in before :: CleanRootEntry(raw).Ok?
    ensures (forall raw | raw in before + [last] :: CleanRootEntry(raw).Ok?) <==> CleanRootEntry(last).Ok?
  {
    var now := before + [last];
    assert forall raw | raw in now :: raw in before || raw == last;
    assert last in now;
  }

  lemma AcceptablePrefix(a: seq<T.RawEntry>, b: seq<T.RawEntry>)
    ensures Acceptable(a + b) ==> Acceptable(a)
  {
    MapAppend(Clean, a, b);
    MapAppend(T.PathOf, Map(Clean, a), Map(Clean, b));
    UniquePrefix(PathsOf(a), PathsOf(b));
    if Acceptable(a + b) {
      forall raw | raw in a ensures CleanRootEntry(raw).Ok? { assert raw in a + b; }
    }
  }

  predicate GoodRootEntry(e: T.Entry) {
    && e.path != "" && '/' !in e.path && e.mode != "" && T.IsGitSha(e.sha)
    && (e.kind == "blob" || e.kind == "tree" || e.kind == "commit")
  }

  lemma CleanedIsDescribed(raw: T.RawEntry, e: T.Entry)
    ensures CleanRootEntry(raw) == Ok(e) <==> T.Describes(raw, e) && GoodRootEntry(e)
  {}

  /** The canonical root tree holds one good entry for every entry of the payload and nothing else. */
  lemma RootDescribes(raws: seq<T.RawEntry>)
    requires Acceptable(raws)
    ensures var r := SortBy(T.EntryKey, Map(Clean, raws));
            && |r| == |raws|
            && (forall raw | raw in raws :: exists e | e in r :: T.Describes(raw, e))
            && (forall e | e in r :: GoodRootEntry(e) && exists raw | raw in raws :: T.Describes(raw, e))
  {
    var r := SortBy(T.EntryKey, Map(Clean, raws));
    forall raw | raw in raws ensures exists e | e in r :: T.Describes(raw, e) {
      var i :| 0 <= i < |raws| && raws[i] == raw;
      CleanedIsDescribed(raw, Clean(raw));
      assert Map(Clean, raws)[i] in r;
    }
    forall e | e in r ensures GoodRootEntry(e) && exists raw | raw in raws :: T.Describes(raw, e) {
      MapMembers(Clean, raws, e);
      var i :| 0 <= i < |raws| && Clean(raws[i]) == e;
      CleanedIsDescribed(raws[i], e);
      assert raws[i] in raws;
    }
  }

  // ----- the retained document -----

  function SizeFields(size: Option<nat>): map<string, Json> {
    if size.Some? then map["size" := JInt(size.value)] else map[]
  }

  function EntryJson(e: T.Entry): Json {
    JObject(map["path" := JString(e.path), "mode" := JString(e.mode), "type" := JString(e.kind), "sha" := JString(e.sha)]
            + SizeFields(e.size))
  }

  function EntriesJson(t: RootTree): Json { JArray(Map(EntryJson, t.entries)) }

  function DocumentOf(t: RootTree): Json {
    JObject(map["tree_sha" := JString(t.sha), "recursive" := JBool(false), "truncated" := JBool(t.truncated),
                "entries" := EntriesJson(t)])
  }

  // ----- the extracted facts -----

  const ROOT := "$git/tree/root"

  /** The fields an entry gives a fact for. */
  function FieldsOf(e: T.Entry): seq<(string, Json)> {
    [("type", JString(e.kind)), ("mode", JString(e.mode)), ("sha", JString(e.sha))]
    + if e.size.Some? then [("size", JInt(e.size.value))] else []
  }

  function Keyed(e: T.Entry): ((string, Json)) -> (string, Json) {
    (f: (string, Json)) => ("entries/" + L.Escape(e.path) + "/" + f.0, f.1)
  }

  function EntrySpecs(e: T.Entry): seq<(string, Json)> { Map(Keyed(e), FieldsOf(e)) }

  function PathJson(e: T.Entry): Json { JString(e.path) }

  /** The facts of the tree as a whole. */
  function TopSpecs(t: RootTree): seq<(string, Json)> {
    [("tree_sha", JString(t.sha)), ("recursive", JBool(false)), ("truncated", JBool(t.truncated)),
     ("entry_count", JInt(|t.entries|)), ("entry_paths", JArray(Map(PathJson, t.entries)))]
  }

  function RootSpecs(t: RootTree): seq<(string, Json)> { TopSpecs(t) + FlatMap(EntrySpecs, t.entries) }

  method ExtractRootTree(t: RootTree) returns (specs: seq<(string, Json)>)
    ensures specs == RootSpecs(t)
  {
    var more := ExtractEntries(t.entries);
    specs := TopSpecs(t) + more;
  }

  /** The loop over the entries of the document. */
  method ExtractEntries(entries: seq<T.Entry>) returns (specs: seq<(string, Json)>)
    ensures specs == FlatMap(EntrySpecs, entries)
  {
    specs := [];
    for i := 0 to |entries|
      invariant specs == FlatMap(EntrySpecs, entries[..i])
    {
      FlatMapStep(EntrySpecs, entries, i);
      var more := ExtractEntry(entries[i]);
      specs := specs + more;
    }
    assert entries[..|entries|] == entries;
  }

  method ExtractEntry(e: T.Entry) returns (more: seq<(string, Json)>)
    ensures more == EntrySpecs(e)
  {
    var prefix := "entries/" + L.Escape(e.path) + "/";
    more := [(prefix + "type", JString(e.kind)), (prefix + "mode", JString(e.mode)), (prefix + "sha", JString(e.sha))];
    if e.size.Some? { more := more + [(prefix + "size", JInt(e.size.value))]; }
  }

  // ----- which facts there are -----

  /** A fact of the tree as a whole. */
  predicate TreeFact(t: RootTree, key: string, value: Json) {
    || (key == "tree_sha" && value == JString(t.sha))
    || (key == "recursive" && value == JBool(false))
    || (key == "truncated" && value == JBool(t.truncated))
    || (key == "entry_count" && value == JInt(|t.entries|))
    || (key == "entry_paths" && ListsPaths(t.entries, value))
  }

  /** The value is the list of the paths, in the order of the entries. */
  predicate ListsPaths(entries: seq<T.Entry>, value: Json) {
    && value.JArray? && |value.items| == |entries|
    && forall i | 0 <= i < |entries| :: value.items[i] == JString(entries[i].path)
  }

  /** A fact of one entry: its type, its mode, its sha, and its size when it has one. */
  predicate EntryFact(e: T.Entry, key: string, value: Json) {
    var at := "entries/" + L.Escape(e.path) + "/";
    || (key == at + "type" && value == JString(e.kind))
    || (key == at + "mode" && value == JString(e.mode))
    || (key == at + "sha" && value == JString(e.sha))
    || (key == at + "size" && e.size.Some? && value == JInt(e.size.value))
  }

  lemma TopListed(t: RootTree, key: string, value: Json)
    ensures (key, value) in TopSpecs(t) <==> TreeFact(t, key, value)
  {
    var paths := Map(PathJson, t.entries);
    assert ListsPaths(t.entries, value) <==> value == JArray(paths) by {
      if ListsPaths(t.entries, value) { assert value.items == paths; }
    }
    var s := TopSpecs(t);
    assert s[0] in s && s[1] in s && s[2] in s && s[3] in s && s[4] in s;
  }

  lemma FieldListed(e: T.Entry, field: string, value: Json)
    ensures (field, value) in FieldsOf(e)
            <==> (field == "type" && value == JString(e.kind)) || (field == "mode" && value == JString(e.mode))
                 || (field == "sha" && value == JString(e.sha)) || (field == "size" && e.size.Some? && value == JInt(e.size.value))
  {
    var s := FieldsOf(e);
    assert s[0] in s && s[1] in s && s[2] in s;
    if e.size.Some? { assert s[3] in s; }
  }

  lemma EntryListed(e: T.Entry, key: string, value: Json)
    ensures (key, value) in EntrySpecs(e) <==> EntryFact(e, key, value)
  {
    MapMembers(Keyed(e), FieldsOf(e), (key, value));
    forall k | 0 <= k < |FieldsOf(e)| ensures Keyed(e)(FieldsOf(e)[k]) == (key, value) ==> EntryFact(e, key, value) {
      var f := FieldsOf(e)[k];
      assert f in FieldsOf(e);
      FieldListed(e, f.0, f.1);
    }
    if EntryFact(e, key, value) { EntryFactListed(e, key, value); }
  }

  lemma EntryFactListed(e: T.Entry, key: string, value: Json)
    requires EntryFact(e, key, value)
    ensures exists k | 0 <= k < |FieldsOf(e)| :: Keyed(e)(FieldsOf(e)[k]) == (key, value)
  {
    var at := "entries/" + L.Escape(e.path) + "/";
    var field :| field in ["type", "mode", "sha", "size"] && key == at + field && (field, value) in FieldsOf(e) by {
      FieldListed(e, "type", value);
      FieldListed(e, "mode", value);
      FieldListed(e, "sha", value);
      FieldListed(e, "size", value);
    }
    var k :| 0 <= k < |FieldsOf(e)| && FieldsOf(e)[k] == (field, value);
    assert Keyed(e)(FieldsOf(e)[k]) == (key, value);
  }

  /** The extractor emits a key with a value exactly when it is a fact of the tree or of one of its entries. */
  lemma RootFactsExact(t: RootTree, key: string, value: Json)
    ensures (key, value) in RootSpecs(t) <==> TreeFact(t, key, value) || exists e | e in t.entries :: EntryFact(e, key, value)
  {
    TopListed(t, key, value);
    EntriesListed(t.entries, key, value);
  }

  lemma EntriesListed(entries: seq<T.Entry>, key: string, value: Json)
    ensures (key, value) in FlatMap(EntrySpecs, entries) <==> exists e | e in entries :: EntryFact(e, key, value)
  {
    FlatMapMembers(EntrySpecs, entries, (key, value));
    forall e | e in entries ensures (key, value) in EntrySpecs(e) <==> EntryFact(e, key, value) { EntryListed(e, key, value); }
    if e :| e in entries && (key, value) in EntrySpecs(e) {
      var i :| 0 <= i < |entries| && entries[i] == e;
      assert (key, value) in EntrySpecs(entries[i]);
    }
  }

  function KeyOf(spec: (string, Json)): string { spec.0 }

  lemma SlashFirst(a: string, b: string, c: string, d: string)
    requires '/' !in a && '/' !in c && a + "/" + b == c + "/" + d
    ensures a == c && b == d
  {
    var s, r := a + "/" + b, c + "/" + d;
    forall k | 0 <= k < |c| ensures r[k] != '/' { assert r[k] == c[k]; }
    forall k | 0 <= k < |a| ensures s[k] != '/' { assert s[k] == a[k]; }
    assert s[|a|] == '/' && r[|c|] == '/';
    assert a == s[..|a|] && c == r[..|c|] && b == s[|a| + 1..] && d == r[|c| + 1..];
  }

  lemma EntryKeyDecides(e: T.Entry, f: (string, Json), x: T.Entry, g: (string, Json))
    requires Keyed(e)(f).0 == Keyed(x)(g).0
    ensures e.path == x.path && f.0 == g.0
  {
    L.EscapeRoundTrip(e.path);
    L.EscapeRoundTrip(x.path);
    var a, b := L.Escape(e.path), L.Escape(x.path);
    DropHead("entries/", a + "/" + f.0, b + "/" + g.0, Keyed(e)(f).0);
    SlashFirst(a, f.0, b, g.0);
  }

  lemma DropHead(head: string, a: string, b: string, key: string)
    requires key == head + a && key == head + b
    ensures a == b
  {
    assert a == key[|head|..] && b == key[|head|..];
  }

  lemma FieldNamesDiffer(e: T.Entry, j: nat, k: nat)
    requires j < k < |FieldsOf(e)|
    ensures FieldsOf(e)[j].0 != FieldsOf(e)[k].0
  {
    var w := FieldsOf(e);
    assert w[0].0[0] == 't' && w[1].0[0] == 'm' && w[2].0 == "sha" && w[2].0[1] == 'h';
    if |w| > 3 { assert w[3].0[0] == 's' && w[3].0[1] == 'i'; }
  }

  lemma EntryKeysUnique(e: T.Entry)
    ensures Unique(Map(KeyOf, EntrySpecs(e)))
  {
    var keys, fields := Map(KeyOf, EntrySpecs(e)), FieldsOf(e);
    forall j, k | 0 <= j < k < |keys| ensures keys[j] != keys[k] {
      FieldNamesDiffer(e, j, k);
      if keys[j] == keys[k] { EntryKeyDecides(e, fields[j], e, fields[k]); }
    }
  }

  lemma {:induction false} EntriesKeysUnique(entries: seq<T.Entry>)
    requires Unique(Map(T.PathOf, entries))
    ensures Unique(Map(KeyOf, FlatMap(EntrySpecs, entries)))
  {
    if entries != [] {
      var n := |entries| - 1;
      var init, last := entries[..n], entries[n];
      var specs := FlatMap(EntrySpecs, init);
      MapTakeDrop(T.PathOf, entries, n);
      EntriesKeysUnique(init);
      EntryKeysUnique(last);
      MapAppend(KeyOf, specs, EntrySpecs(last));
      forall key | key in Map(KeyOf, EntrySpecs(last)) ensures key !in Map(KeyOf, specs) {
        var k :| 0 <= k < |EntrySpecs(last)| && Map(KeyOf, EntrySpecs(last))[k] == key;
        forall j | 0 <= j < |specs| ensures Map(KeyOf, specs)[j] != key { NewKeys(entries, j, k); }
      }
      UniqueJoin(Map(KeyOf, specs), Map(KeyOf, EntrySpecs(last)));
    }
  }

  /** An entry at a path of its own shares no key with the entries before it. */
  lemma NewKeys(entries: seq<T.Entry>, j: nat, k: nat)
    requires Unique(Map(T.PathOf, entries)) && entries != []
    requires j < |FlatMap(EntrySpecs, entries[..|entries| - 1])| && k < |EntrySpecs(entries[|entries| - 1])|
    ensures FlatMap(EntrySpecs, entries[..|entries| - 1])[j].0 != EntrySpecs(entries[|entries| - 1])[k].0
  {
    var n := |entries| - 1;
    var init, last := entries[..n], entries[n];
    var spec := FlatMap(EntrySpecs, init)[j];
    FlatMapMembers(EntrySpecs, init, spec);
    var i :| 0 <= i < |init| && spec in EntrySpecs(init[i]);
    var h :| 0 <= h < |EntrySpecs(init[i])| && EntrySpecs(init[i])[h] == spec;
    assert Map(T.PathOf, entries)[i] != Map(T.PathOf, entries)[n];
    if spec.0 == EntrySpecs(last)[k].0 { EntryKeyDecides(init[i], FieldsOf(init[i])[h], last, FieldsOf(last)[k]); }
  }

  lemma TopKeysUnique(t: RootTree)
    ensures Unique(Map(KeyOf, TopSpecs(t)))
  {
    var keys := Map(KeyOf, TopSpecs(t));
    assert keys == ["tree_sha", "recursive", "truncated", "entry_count", "entry_paths"];
    assert keys[0][1] == 'r' && keys[2][1] == 'r' && keys[0][2] == 'e' && keys[2][2] == 'u';
    assert keys[1][1] == 'e' && keys[3][1] == 'n' && keys[4][1] == 'n' && keys[3][6] == 'c' && keys[4][6] == 'p';
  }

  lemma EntryKeyHasSlash(e: T.Entry, f: (string, Json))
    ensures '/' in Keyed(e)(f).0
  {
    assert Keyed(e)(f).0[7] == '/';
  }

  /** No fact of a tree is emitted twice, whatever characters its paths hold. */
  lemma RootKeysDistinct(t: RootTree)
    requires Unique(Map(T.PathOf, t.entries))
    ensures Unique(Map(KeyOf, RootSpecs(t)))
  {
    var top, more := TopSpecs(t), FlatMap(EntrySpecs, t.entries);
    TopKeysUnique(t);
    EntriesKeysUnique(t.entries);
    MapAppend(KeyOf, top, more);
    forall key | key in Map(KeyOf, more) ensures key !in Map(KeyOf, top) { EntryKeyNotTop(t, key); }
    UniqueJoin(Map(KeyOf, top), Map(KeyOf, more));
  }

  lemma EntryKeyNotTop(t: RootTree, key: string)
    requires key in Map(KeyOf, FlatMap(EntrySpecs, t.entries))
    ensures key !in Map(KeyOf, TopSpecs(t))
  {
    var more := FlatMap(EntrySpecs, t.entries);
    var j :| 0 <= j < |more| && Map(KeyOf, more)[j] == key;
    FlatMapMembers(EntrySpecs, t.entries, more[j]);
    var i :| 0 <= i < |t.entries| && more[j] in EntrySpecs(t.entries[i]);
    var h :| 0 <= h < |EntrySpecs(t.entries[i])| && EntrySpecs(t.entries[i])[h] == more[j];
    EntryKeyHasSlash(t.entries[i], FieldsOf(t.entries[i])[h]);
    forall k | 0 <= k < 5 ensures Map(KeyOf, TopSpecs(t))[k] != key { TopWordPlain(t, k); }
  }

  // ----- finding the facts again -----

  /** Python's str of a string is the string. */
  ghost predicate ShowsStrings(show: L.Show) { forall s :: show(Some(JString(s))) == s }

  /** A search by path finds the entry, not its position in some other order. */
  lemma {:induction false} EntryFound(entries: seq<T.Entry>, i: nat, show: L.Show)
    requires i < |entries| && Unique(Map(T.PathOf, entries)) && ShowsStrings(show)
    ensures L.FirstWith(Map(EntryJson, entries), "path", entries[i].path, show) == Some(i)
  {
    var items, rest := Map(EntryJson, entries), entries[1..];
    assert items[1..] == Map(EntryJson, rest);
    assert items[0] == EntryJson(entries[0]) && items[0].fields["path"] == JString(entries[0].path);
    if i > 0 {
      assert Map(T.PathOf, entries)[0] != Map(T.PathOf, entries)[i];
      forall a, b | 0 <= a < b < |rest| ensures Map(T.PathOf, rest)[a] != Map(T.PathOf, rest)[b] {
        assert Map(T.PathOf, entries)[a + 1] != Map(T.PathOf, entries)[b + 1];
      }
      EntryFound(rest, i - 1, show);
    }
  }

  function EntryPath(e: T.Entry, field: string): L.Tokens { ["entries", e.path, field] }

  /** A fact of an entry is found under the position of the entry, with exactly its value. */
  lemma EntryResolves(t: RootTree, i: nat, k: nat, show: L.Show)
    requires i < |t.entries| && k < |FieldsOf(t.entries[i])| && Unique(Map(T.PathOf, t.entries)) && ShowsStrings(show)
    ensures var (field, value) := FieldsOf(t.entries[i])[k];
            L.Inspect(L.GitTree, DocumentOf(t), L.PointerOf(EntryPath(t.entries[i], field)), show)
            == Ok(L.Inspection(L.PointerOf(["entries", Decimal(i), field]), L.StructuredValue, value))
  {
    var e := t.entries[i];
    var (field, value) := FieldsOf(e)[k];
    EntryReached(t, i, field, show);
    EntryFollowed(e, field, value, ["entries", Decimal(i)], show);
    assert ["entries", Decimal(i)] + [field] == ["entries", Decimal(i), field];
    L.InspectPointer(L.GitTree, DocumentOf(t), EntryPath(e, field), show);
  }

  /** The document is left through its list, and the list through the entry with the path. */
  lemma EntryReached(t: RootTree, i: nat, field: string, show: L.Show)
    requires i < |t.entries| && Unique(Map(T.PathOf, t.entries)) && ShowsStrings(show)
    ensures L.Follow(L.GitTree, DocumentOf(t), [], EntryPath(t.entries[i], field), show)
            == L.Follow(L.GitTree, EntryJson(t.entries[i]), ["entries", Decimal(i)], [field], show)
  {
    var e, tokens := t.entries[i], EntryPath(t.entries[i], field);
    assert tokens[1..] == [e.path, field] && [] + ["entries"] == ["entries"];
    assert L.Follow(L.GitTree, DocumentOf(t), [], tokens, show)
           == L.Follow(L.GitTree, EntriesJson(t), ["entries"], [e.path, field], show);
    ListLeft(t, i, field, show);
  }

  lemma ListLeft(t: RootTree, i: nat, field: string, show: L.Show)
    requires i < |t.entries| && Unique(Map(T.PathOf, t.entries)) && ShowsStrings(show)
    ensures L.Follow(L.GitTree, EntriesJson(t), ["entries"], [t.entries[i].path, field], show)
            == L.Follow(L.GitTree, EntryJson(t.entries[i]), ["entries", Decimal(i)], [field], show)
  {
    EntryFound(t.entries, i, show);
    var tokens := [t.entries[i].path, field];
    assert tokens[1..] == [field] && ["entries"] + [Decimal(i)] == ["entries", Decimal(i)];
    assert Map(EntryJson, t.entries)[i] == EntryJson(t.entries[i]);
  }

  lemma EntryFollowed(e: T.Entry, field: string, value: Json, resolved: L.Tokens, show: L.Show)
    requires (field, value) in FieldsOf(e)
    ensures L.Follow(L.GitTree, EntryJson(e), resolved, [field], show) == Ok(L.Found(resolved + [field], value))
  {
    assert [field][1..] == [];
    assert field in EntryJson(e).fields && EntryJson(e).fields[field] == value;
  }

  // ----- every emitted locator -----

  /** A key printed with its leading slash is the pointer of the path it names. */
  lemma EntryKey(e: T.Entry, k: nat)
    requires k < |FieldsOf(e)|
    ensures "/" + Keyed(e)(FieldsOf(e)[k]).0 == L.PointerOf(EntryPath(e, FieldsOf(e)[k].0))
  {
    WordsPlain(e, k);
    EntryPointer(e, FieldsOf(e)[k].0);
  }

  lemma EntryPointer(e: T.Entry, field: string)
    requires L.Escape(field) == field
    ensures L.PointerOf(EntryPath(e, field)) == "/" + ("entries/" + L.Escape(e.path) + "/" + field)
  {
    EntriesWord();
    PathPointer("entries", e.path, field);
    Regroup("entries", L.Escape(e.path), field);
    EntriesSlash();
  }

  lemma PathPointer(word: string, path: string, field: string)
    ensures L.PointerOf([word, path, field]) == L.PointerOf([word]) + "/" + L.Escape(path) + "/" + L.Escape(field)
  {
    L.PointerSnoc([word], path);
    L.PointerSnoc([word, path], field);
    assert [word] + [path] == [word, path] && [word, path] + [field] == [word, path, field];
  }

  lemma Regroup(word: string, path: string, field: string)
    ensures "/" + word + "/" + path + "/" + field == "/" + (word + "/" + path + "/" + field)
  {}

  lemma EntriesSlash()
    ensures "/" + "entries" == "/entries" && "entries" + "/" == "entries/"
  {}

  lemma EntriesWord()
    ensures L.PointerOf(["entries"]) == "/entries"
  {
    WordPointer("entries");
    EntriesSlash();
  }

  lemma WordsPlain(e: T.Entry, k: nat)
    requires k < |FieldsOf(e)|
    ensures L.Escape(FieldsOf(e)[k].0) == FieldsOf(e)[k].0
  {
    var field := FieldsOf(e)[k].0;
    assert field == "type" || field == "mode" || field == "sha" || field == "size";
    assert '~' !in field && '/' !in field;
    L.EscapePlain(field);
  }

  lemma WordPointer(word: string)
    requires '~' !in word && '/' !in word
    ensures "/" + word == L.PointerOf([word])
  {
    L.EscapePlain(word);
    L.PointerSnoc([], word);
    assert [] + [word] == [word];
  }

  predicate Derived(key: string) { key == "entry_count" || key == "entry_paths" }

  /** What the inspector must return for a fact: the value itself, or for the two derived facts the list they are computed from. */
  predicate Answers(t: RootTree, spec: (string, Json), found: L.Inspection) {
    if Derived(spec.0) then found == L.Inspection("/entries", L.DerivedStructure, EntriesJson(t))
    else found.kind.StructuredValue? && found.value == spec.1
  }

  /** The key names a path, and the inspector answers at it. */
  ghost predicate Answered(t: RootTree, spec: (string, Json), tokens: L.Tokens, show: L.Show) {
    && "/" + spec.0 == L.PointerOf(tokens)
    && L.Inspect(L.GitTree, DocumentOf(t), L.PointerOf(tokens), show).Ok?
    && Answers(t, spec, L.Inspect(L.GitTree, DocumentOf(t), L.PointerOf(tokens), show).value)
  }

  lemma TopResolves(t: RootTree, n: nat, show: L.Show)
    requires n < 5
    ensures Answered(t, TopSpecs(t)[n], [TopSpecs(t)[n].0], show)
  {
    TopWordPlain(t, n);
    WordsApart(t, n);
    if n < 3 { TopField(t, n); }
    WordResolves(t, TopSpecs(t)[n], show);
  }

  lemma WordResolves(t: RootTree, spec: (string, Json), show: L.Show)
    requires '~' !in spec.0 && '/' !in spec.0
    requires Derived(spec.0) || (spec.0 in DocumentOf(t).fields && DocumentOf(t).fields[spec.0] == spec.1)
    ensures Answered(t, spec, [spec.0], show)
  {
    WordPointer(spec.0);
    if Derived(spec.0) { DerivedResolves(t, spec.0, show); } else { FieldResolves(t, spec.0, show); }
  }

  lemma TopWordPlain(t: RootTree, n: nat)
    requires n < 5
    ensures '~' !in TopSpecs(t)[n].0 && '/' !in TopSpecs(t)[n].0
  {
    assert n == 0 || n == 1 || n == 2 || n == 3 || n == 4;
  }

  lemma TopField(t: RootTree, n: nat)
    requires n < 3
    ensures TopSpecs(t)[n].0 in DocumentOf(t).fields && DocumentOf(t).fields[TopSpecs(t)[n].0] == TopSpecs(t)[n].1
  {
    assert n == 0 || n == 1 || n == 2;
  }

  lemma FieldResolves(t: RootTree, word: string, show: L.Show)
    requires word in DocumentOf(t).fields && !Derived(word)
    ensures L.Inspect(L.GitTree, DocumentOf(t), L.PointerOf([word]), show)
            == Ok(L.Inspection(L.PointerOf([word]), L.StructuredValue, DocumentOf(t).fields[word]))
  {
    L.InspectPointer(L.GitTree, DocumentOf(t), [word], show);
    assert [word] != ["entry_count"] && [word] != ["entry_paths"] by { assert [word][0] == word; }
    TopFollowed(t, word, show);
  }

  lemma DerivedResolves(t: RootTree, word: string, show: L.Show)
    requires Derived(word)
    ensures L.Inspect(L.GitTree, DocumentOf(t), L.PointerOf([word]), show)
            == Ok(L.Inspection("/entries", L.DerivedStructure, EntriesJson(t)))
  {
    L.InspectPointer(L.GitTree, DocumentOf(t), [word], show);
    EntriesWord();
    TopFollowed(t, "entries", show);
  }

  lemma TopFollowed(t: RootTree, word: string, show: L.Show)
    requires word in DocumentOf(t).fields
    ensures L.Follow(L.GitTree, DocumentOf(t), [], [word], show) == Ok(L.Found([word], DocumentOf(t).fields[word]))
  {
    assert [word][1..] == [] && [] + [word] == [word];
  }

  lemma WordsApart(t: RootTree, n: nat)
    requires n < 5
    ensures Derived(TopSpecs(t)[n].0) <==> n >= 3
  {
    assert n < 3 ==> TopSpecs(t)[n].0[0] == 't' || TopSpecs(t)[n].0[0] == 'r';
    assert "entry_count"[0] == 'e' && "entry_paths"[0] == 'e';
  }

  /** The entry and the field that an entry fact comes from. */
  lemma EntrySpecOrigin(t: RootTree, n: nat) returns (i: nat, k: nat)
    requires 5 <= n < |RootSpecs(t)|
    ensures i < |t.entries| && k < |FieldsOf(t.entries[i])| && RootSpecs(t)[n] == Keyed(t.entries[i])(FieldsOf(t.entries[i])[k])
  {
    var spec := RootSpecs(t)[n];
    assert spec in FlatMap(EntrySpecs, t.entries) by { assert spec == FlatMap(EntrySpecs, t.entries)[n - 5]; }
    FlatMapMembers(EntrySpecs, t.entries, spec);
    i :| 0 <= i < |t.entries| && spec in EntrySpecs(t.entries[i]);
    var at :| 0 <= at < |EntrySpecs(t.entries[i])| && EntrySpecs(t.entries[i])[at] == spec;
    k := at;
  }

  lemma EntryKeyApart(e: T.Entry, f: (string, Json))
    ensures !Derived(Keyed(e)(f).0)
  {
    assert Keyed(e)(f).0[4] == 'i' && "entry_count"[4] == 'y' && "entry_paths"[4] == 'y';
  }

  lemma EntrySpecResolves(t: RootTree, n: nat, show: L.Show) returns (tokens: L.Tokens)
    requires Unique(Map(T.PathOf, t.entries)) && ShowsStrings(show) && 5 <= n < |RootSpecs(t)|
    ensures Answered(t, RootSpecs(t)[n], tokens, show)
  {
    var i, k := EntrySpecOrigin(t, n);
    var e := t.entries[i];
    EntryKey(e, k);
    EntryKeyApart(e, FieldsOf(e)[k]);
    EntryResolves(t, i, k, show);
    tokens := EntryPath(e, FieldsOf(e)[k].0);
  }

  /**
    The round trip of root-tree evidence. For every canonical tree each emitted locator resolves: facts of
    entries and of the tree to exactly their value, the count and the list of paths, marked as derived, to
    the list of entries they are computed from.
  */
  lemma RootFactsResolve(t: RootTree, n: nat, show: L.Show)
    requires Unique(Map(T.PathOf, t.entries)) && ShowsStrings(show) && n < |RootSpecs(t)|
    ensures var r := I.Resolve(ROOT, L.GIT_TREE, false, [], DocumentOf(t), show, ROOT + "#/" + RootSpecs(t)[n].0);
            r.Ok? && r.value.OfJson? && Answers(t, RootSpecs(t)[n], r.value.inspection)
  {
    var tokens: L.Tokens := [TopSpecs(t)[0].0];
    if n < 5 {
      TopResolves(t, n, show);
      assert RootSpecs(t)[n] == TopSpecs(t)[n];
      tokens := [TopSpecs(t)[n].0];
    } else {
      tokens := EntrySpecResolves(t, n, show);
    }
    AnsweredResolves(t, RootSpecs(t)[n], tokens, show);
  }

  lemma AnsweredResolves(t: RootTree, spec: (string, Json), tokens: L.Tokens, show: L.Show)
    requires Answered(t, spec, tokens, show)
    ensures var r := I.Resolve(ROOT, L.GIT_TREE, false, [], DocumentOf(t), show, ROOT + "#/" + spec.0);
            r.Ok? && r.value.OfJson? && Answers(t, spec, r.value.inspection)
  {
    Routed(tokens);
    HashSlash(ROOT, spec.0);
  }

  lemma HashSlash(root: string, key: string)
    ensures root + "#" + ("/" + key) == root + "#/" + key
  {
    assert "#" + "/" == "#/";
  }

  lemma Routed(tokens: L.Tokens)
    ensures I.RouteOf(ROOT, L.GIT_TREE, false, ROOT + "#" + L.PointerOf(tokens)) == I.JsonAt(L.PointerOf(tokens))
    ensures L.MediumOf(L.GIT_TREE) == L.GitTree
  {
    assert L.GIT_TREE[|L.GIT_TREE| - 5..] == "+json";
    I.JsonLocatorRouted(ROOT, L.GIT_TREE, tokens);
  }
}
