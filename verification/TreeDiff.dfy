/**
  Recursive Git trees: canonical capture and the path diff between two captures
  (src/lemmamind/recursive_tree.py, src/lemmamind/path_change_contracts.py).
*/
module TreeDiff {
  import opened Wrappers
  import opened Orders
  import opened Texts
  import opened Digests

  // ----- captured trees -----

  datatype SizeField = Absent | Number(n: int) | OtherValue

  /** One entry of a provider payload; a field that is missing or not a string is None. */
  datatype RawEntry =
    | NotAnObject
    | RawEntry(path: Option<string>, mode: Option<string>, kind: Option<string>, sha: Option<string>, size: SizeField)

  datatype Payload = Payload(sha: Option<string>, truncated: bool, tree: Option<seq<RawEntry>>)

  datatype Entry = Entry(path: string, mode: string, kind: string, sha: string, size: Option<nat>)

  datatype Tree = Tree(treeSha: string, entries: seq<Entry>)

  datatype TreeError =
    | ShaMismatch | Truncated | OmittedEntries | NotObject | InvalidPath | DuplicatePath
    | OmittedMode | UnsupportedType | InvalidSha | InvalidSize

  predicate IsGitSha(s: string) {
    |s| == 40 && forall c | c in s :: '0' <= c <= '9' || 'a' <= c <= 'f'
  }

  predicate SafePath(path: string) {
    && path != "" && path[0] != '/' && path[|path| - 1] != '/'
    && forall part | part in Split(path, '/') :: part != "" && part != "." && part != ".."
  }

  /** The checks one raw entry passes on its own, and the entry it becomes. */
  function CleanEntry(raw: RawEntry): Result<Entry, TreeError> {
    if raw.NotAnObject? then Err(NotObject)
    else if raw.path.None? || !SafePath(raw.path.value) then Err(InvalidPath)
    else if raw.mode.None? || raw.mode.value == "" then Err(OmittedMode)
    else if raw.kind.None? || raw.kind.value !in {"blob", "tree", "commit"} then Err(UnsupportedType)
    else if raw.sha.None? || !IsGitSha(raw.sha.value) then Err(InvalidSha)
    else if raw.size.OtherValue? || (raw.size.Number? && raw.size.n < 0) then Err(InvalidSize)
    else
      Ok(Entry(raw.path.value, raw.mode.value, raw.kind.value, raw.sha.value,
               if raw.size.Number? then Some(raw.size.n) else None))
  }

  function EntryKey(e: Entry): Key { TextKey(e.path) }

  /** Every raw entry is acceptable and no path is listed twice. */
  predicate Acceptable(raws: seq<RawEntry>) {
    && (forall raw | raw in raws :: CleanEntry(raw).Ok?)
    && Unique(PathsOf(raws))
  }

  function PathOf(e: Entry): string { e.path }

  /** The entry a raw entry becomes; meaningful only when CleanEntry accepts it. */
  function Clean(raw: RawEntry): Entry {
    match CleanEntry(raw)
    case Ok(e) => e
    case Err(_) => Entry("", "", "", "", None)
  }

  function Canonical(raws: seq<RawEntry>): seq<Entry> { SortBy(EntryKey, Map(Clean, raws)) }

  predicate CanonicalInput(payload: Payload, expected: string) {
    && payload.sha == Some(expected) && !payload.truncated
    && payload.tree.Some? && Acceptable(payload.tree.value)
  }

  method CanonicalTree(payload: Payload, expected: string) returns (r: Result<Tree, TreeError>)
    ensures r.Ok? <==> CanonicalInput(payload, expected)
    ensures r.Ok? ==> r.value == Tree(expected, Canonical(payload.tree.value))
  {
    if payload.sha != Some(expected) { return Err(ShaMismatch); }
    if payload.truncated { return Err(Truncated); }
    if payload.tree.None? { return Err(OmittedEntries); }
    var raws := payload.tree.value;
    var entries: seq<Entry> := [];
    var seenPaths: set<string> := {};
    for i := 0 to |raws|
      invariant Acceptable(raws[..i])
      invariant entries == Map(Clean, raws[..i])
      invariant forall p :: p in seenPaths <==> p in Map(PathOf, entries)
    {
      var raw := raws[i];
      AcceptableStep(raws, i);
      if raw.NotAnObject? { return Err(NotObject); }
      if raw.path.None? || !SafePath(raw.path.value) { return Err(InvalidPath); }
      if raw.path.value in seenPaths { return Err(DuplicatePath); }
      var cleaned := CleanEntry(raw);
      if cleaned.Err? { return Err(cleaned.error); }
      seenPaths := seenPaths + {raw.path.value};
      entries := entries + [cleaned.value];
      MapAppend(PathOf, Map(Clean, raws[..i]), [cleaned.value]);
    }
    assert raws[..|raws|] == raws;
    r := Ok(Tree(expected, SortBy(EntryKey, entries)));
  }

  function PathsOf(raws: seq<RawEntry>): seq<string> { Map(PathOf, Map(Clean, raws)) }

  lemma PathsOfAppend(a: seq<RawEntry>, b: seq<RawEntry>)
    ensures PathsOf(a + b) == PathsOf(a) + PathsOf(b)
  {
    MapAppend(Clean, a, b);
    MapAppend(PathOf, Map(Clean, a), Map(Clean, b));
  }

  lemma AcceptableStep(raws: seq<RawEntry>, i: nat)
    requires i < |raws| && Acceptable(raws[..i])
    ensures Map(Clean, raws[..i + 1]) == Map(Clean, raws[..i]) + [Clean(raws[i])]
    ensures Acceptable(raws[..i + 1]) <==>
            CleanEntry(raws[i]).Ok? && Clean(raws[i]).path !in PathsOf(raws[..i])
    ensures !Acceptable(raws[..i + 1]) ==> !Acceptable(raws)
  {
    var before, now := raws[..i], raws[..i + 1];
    PrefixSnoc(raws, i);
    MapAppend(Clean, before, [raws[i]]);
    AcceptableSnoc(before, raws[i]);
    AcceptablePrefix(now, raws[i + 1..]);
    assert raws == now + raws[i + 1..];
  }

  lemma AcceptableSnoc(before: seq<RawEntry>, last: RawEntry)
    requires Acceptable(before)
    ensures Acceptable(before + [last]) <==> CleanEntry(last).Ok? && Clean(last).path !in PathsOf(before)
  {
    var now := before + [last];
    PathsOfAppend(before, [last]);
    assert PathsOf([last]) == [Clean(last).path];
    UniqueSnoc(PathsOf(before), Clean(last).path);
    assert (forall raw | raw in now :: CleanEntry(raw).Ok?) <==> CleanEntry(last).Ok? by {
      assert forall raw | raw in now :: raw in before || raw == last;
      assert last in now;
    }
  }

  lemma AcceptablePrefix(a: seq<RawEntry>, b: seq<RawEntry>)
    ensures Acceptable(a + b) ==> Acceptable(a)
  {
    PathsOfAppend(a, b);
    UniquePrefix(PathsOf(a), PathsOf(b));
    assert forall raw | raw in a :: raw in a + b;
  }

  /** Permuting the entries of a payload changes neither acceptance nor the canonical tree. */
  lemma CanonicalTreeForgetsOrder(a: seq<RawEntry>, b: seq<RawEntry>)
    requires multiset(a) == multiset(b)
    ensures Acceptable(a) <==> Acceptable(b)
    ensures Acceptable(a) ==> Canonical(a) == Canonical(b)
  {
    MultisetMembers(a, b);
    MapMultiset(Clean, a, b);
    MapMultiset(PathOf, Map(Clean, a), Map(Clean, b));
    UniquePermutes(PathsOf(a), PathsOf(b));
    if Acceptable(a) {
      var id := (e: Entry) => e;
      PathsDecideEntries(Map(Clean, a));
      SortForgetsOrder(EntryKey, id, Map(Clean, a), Map(Clean, b));
      assert Map(id, Canonical(a)) == Canonical(a) && Map(id, Canonical(b)) == Canonical(b);
    }
  }

  /** The entry says of its path what the raw entry says, and no more. */
  predicate Describes(raw: RawEntry, e: Entry) {
    && raw.RawEntry?
    && raw.path == Some(e.path) && raw.mode == Some(e.mode) && raw.kind == Some(e.kind) && raw.sha == Some(e.sha)
    && match raw.size {
         case Absent => e.size.None?
         case Number(n) => e.size.Some? && e.size.value == n
         case OtherValue => false
       }
  }

  predicate GoodEntry(e: Entry) {
    SafePath(e.path) && e.mode != "" && (e.kind == "blob" || e.kind == "tree" || e.kind == "commit") && IsGitSha(e.sha)
  }

  /** A raw entry is cleaned to the good entry it describes, and refused when it describes none. */
  lemma CleanedIsDescribed(raw: RawEntry, e: Entry)
    ensures CleanEntry(raw) == Ok(e) <==> Describes(raw, e) && GoodEntry(e)
  {}

  /** The canonical tree holds one good entry for every raw entry, in path order, and nothing else. */
  lemma CanonicalDescribes(raws: seq<RawEntry>)
    requires Acceptable(raws)
    ensures |Canonical(raws)| == |raws| && Increasing(EntryKey, Canonical(raws))
    ensures forall raw | raw in raws :: exists e | e in Canonical(raws) :: Describes(raw, e)
    ensures forall e | e in Canonical(raws) :: GoodEntry(e) && exists raw | raw in raws :: Describes(raw, e)
  {
    CanonicalIncreasing(raws);
    forall raw | raw in raws ensures exists e | e in Canonical(raws) :: Describes(raw, e) {
      var i :| 0 <= i < |raws| && raws[i] == raw;
      CleanedIsDescribed(raw, Clean(raw));
      assert Map(Clean, raws)[i] in Canonical(raws);
    }
    forall e | e in Canonical(raws) ensures GoodEntry(e) && exists raw | raw in raws :: Describes(raw, e) {
      MapMembers(Clean, raws, e);
      var i :| 0 <= i < |raws| && Clean(raws[i]) == e;
      CleanedIsDescribed(raws[i], e);
      assert raws[i] in raws;
    }
  }

  lemma CanonicalIncreasing(raws: seq<RawEntry>)
    requires Acceptable(raws)
    ensures Increasing(EntryKey, Canonical(raws))
  {
    var r, entries := Canonical(raws), Map(Clean, raws);
    MapMultiset(PathOf, r, entries);
    UniquePermutes(Map(PathOf, r), PathsOf(raws));
    forall i, j | 0 <= i < j < |r| ensures KeyLess(EntryKey(r[i]), EntryKey(r[j])) {
      assert Map(PathOf, r)[i] != Map(PathOf, r)[j];
      assert EntryKey(r[i])[0] != EntryKey(r[j])[0];
      KeyConnected(EntryKey(r[i]), EntryKey(r[j]));
    }
  }

  lemma PathsDecideEntries(entries: seq<Entry>)
    requires Unique(Map(PathOf, entries))
    ensures KeyDetermines(EntryKey, (e: Entry) => e, entries)
  {
    forall i, j | 0 <= i < |entries| && 0 <= j < |entries| && EntryKey(entries[i]) == EntryKey(entries[j])
      ensures entries[i] == entries[j]
    {
      assert Map(PathOf, entries)[i] == Map(PathOf, entries)[j];
    }
  }

  // ----- the diff between two captures -----

  datatype ChangeType = Added | Removed | Modified | TypeChanged

  datatype Surface =
    | SourceCode | TestCode | Docs | Config | Workflow | Manifest | Lockfile | Generated | Vendored | Unknown

  /** The revisions, captures and run that every delta of one diff is bound to. */
  datatype Generation = Generation(
    sourceId: string, previousRevision: string, currentRevision: string,
    previousCapture: string, currentCapture: string, run: string)

  datatype Side = Side(kind: Option<string>, mode: Option<string>, sha: Option<string>, size: Option<nat>)

  datatype Delta = Delta(
    id: Id, generation: Generation, path: string, change: ChangeType, surface: Surface, previous: Side, current: Side)

  type Entries = map<string, Entry>

  function Get<V>(m: map<string, V>, path: string): Option<V> {
    if path in m then Some(m[path]) else None
  }

  function ChangeOf(previous: Option<Entry>, current: Option<Entry>): Option<ChangeType> {
    if previous.None? then
      if current.None? || current.value.kind == "tree" then None else Some(Added)
    else if current.None? then
      if previous.value.kind == "tree" then None else Some(Removed)
    else
      var p, c := previous.value, current.value;
      if p.kind != c.kind then Some(TypeChanged)
      else if p.kind == "tree" then None
      else if p.sha != c.sha || p.mode != c.mode || p.size != c.size then Some(Modified)
      else None
  }

  function SideOf(entry: Option<Entry>): Side {
    match entry
    case None => Side(None, None, None, None)
    case Some(e) => Side(Some(e.kind), Some(e.mode), Some(e.sha), e.size)
  }

  function ChangeName(change: ChangeType): string {
    match change
    case Added => "added"
    case Removed => "removed"
    case Modified => "modified"
    case TypeChanged => "type_changed"
  }

  function DeltaId(g: Generation, path: string, change: ChangeType): Id {
    [Text("git-path-delta"), Text(g.run), Text(g.previousRevision), Text(g.currentRevision), Text(path), Text(ChangeName(change))]
  }

  /** The zero or one delta of one path. */
  function DeltaAt(g: Generation, surface: string -> Surface, previous: Entries, current: Entries, path: string): (r: seq<Delta>) {
    var p, c := Get(previous, path), Get(current, path);
    match ChangeOf(p, c)
    case None => []
    case Some(change) => [Delta(DeltaId(g, path, change), g, path, change, surface(path), SideOf(p), SideOf(c))]
  }

  function Differ(g: Generation, surface: string -> Surface, previous: Entries, current: Entries): string -> seq<Delta> {
    path => DeltaAt(g, surface, previous, current, path)
  }

  function SortedPaths(paths: set<string>): (r: seq<string>)
    ensures Increasing(TextKey, r)
    ensures forall p :: p in r <==> p in paths
  {
    SortSet(TextKey, paths)
  }

  function Diff(g: Generation, surface: string -> Surface, previous: Entries, current: Entries): seq<Delta> {
    FlatMap(Differ(g, surface, previous, current), SortedPaths(previous.Keys + current.Keys))
  }

  /** The comparison loop of one pair of loaded captures. */
  method CompareCaptures(g: Generation, surface: string -> Surface, previous: Entries, current: Entries)
    returns (deltas: seq<Delta>)
    ensures deltas == Diff(g, surface, previous, current)
  {
    deltas := [];
    var paths := SortedPaths(previous.Keys + current.Keys);
    for i := 0 to |paths|
      invariant deltas == FlatMap(Differ(g, surface, previous, current), paths[..i])
    {
      FlatMapStep(Differ(g, surface, previous, current), paths, i);
      var path := paths[i];
      var was, now := Get(previous, path), Get(current, path);
      var change := ChangeOf(was, now);
      if change.None? { continue; }
      deltas := deltas + [Delta(DeltaId(g, path, change.value), g, path, change.value, surface(path), SideOf(was), SideOf(now))];
    }
    assert paths[..|paths|] == paths;
  }

  // ----- what the diff means -----

  /** What a path holds once directories count as absent. */
  datatype Leaf = Leaf(kind: string, mode: string, sha: string, size: Option<nat>)

  function LeafOf(entry: Option<Entry>): Option<Leaf> {
    match entry
    case None => None
    case Some(e) => if e.kind == "tree" then None else Some(Leaf(e.kind, e.mode, e.sha, e.size))
  }

  function LeafAt(side: Side): Option<Leaf> {
    if side.kind.None? || side.mode.None? || side.sha.None? || side.kind.value == "tree" then None
    else Some(Leaf(side.kind.value, side.mode.value, side.sha.value, side.size))
  }

  function Leaves(entries: Entries): map<string, Leaf> {
    map p | p in entries && entries[p].kind != "tree" :: LeafOf(Some(entries[p])).value
  }

  predicate PathEmitted(deltas: seq<Delta>, path: string) {
    exists d | d in deltas :: d.path == path
  }

  function DeltaKey(d: Delta): Key { TextKey(d.path) }

  lemma DiffMember(g: Generation, surface: string -> Surface, previous: Entries, current: Entries, d: Delta)
    ensures d in Diff(g, surface, previous, current) <==> d in DeltaAt(g, surface, previous, current, d.path)
  {
    var f, paths := Differ(g, surface, previous, current), SortedPaths(previous.Keys + current.Keys);
    FlatMapMembers(f, paths, d);
    if d in DeltaAt(g, surface, previous, current, d.path) {
      assert d.path in paths;
    }
  }

  lemma DiffIncreasing(g: Generation, surface: string -> Surface, previous: Entries, current: Entries)
    ensures Increasing(DeltaKey, Diff(g, surface, previous, current))
  {
    FlatMapIncreasing(TextKey, Differ(g, surface, previous, current), DeltaKey, SortedPaths(previous.Keys + current.Keys));
  }

  lemma HereDiffers(g: Generation, surface: string -> Surface, previous: Entries, current: Entries, path: string)
    ensures DeltaAt(g, surface, previous, current, path) != [] <==> LeafOf(Get(previous, path)) != LeafOf(Get(current, path))
    ensures forall d | d in DeltaAt(g, surface, previous, current, path) :: DeltaAt(g, surface, previous, current, path) == [d]
  {}

  /** A path is emitted exactly when its leaf projection differs, and then exactly once. */
  lemma DiffExact(g: Generation, surface: string -> Surface, previous: Entries, current: Entries, path: string)
    ensures PathEmitted(Diff(g, surface, previous, current), path)
            <==> LeafOf(Get(previous, path)) != LeafOf(Get(current, path))
    ensures forall d, e | d in Diff(g, surface, previous, current) && e in Diff(g, surface, previous, current)
                          && d.path == path == e.path :: d == e
  {
    var deltas, here := Diff(g, surface, previous, current), DeltaAt(g, surface, previous, current, path);
    HereDiffers(g, surface, previous, current, path);
    forall d: Delta | d.path == path ensures d in deltas <==> here == [d] {
      DiffMember(g, surface, previous, current, d);
      assert here == [d] ==> d in here;
    }
    if here != [] {
      assert here[0] in here && here[0].path == path;
      assert here[0] in deltas;
    }
  }

  /** The side a delta records for what a capture holds at a path: all of the entry, or nothing. */
  predicate Records(entries: Entries, path: string, side: Side) {
    if path in entries
    then side.kind == Some(entries[path].kind) && side.mode == Some(entries[path].mode) && side.sha == Some(entries[path].sha)
         && side.size == entries[path].size
    else side.kind.None? && side.mode.None? && side.sha.None? && side.size.None?
  }

  /** What an emitted delta says: its binding, the surface of its path, the change, and both sides. */
  lemma DiffCarries(g: Generation, surface: string -> Surface, previous: Entries, current: Entries, d: Delta)
    requires d in Diff(g, surface, previous, current)
    ensures d.generation == g && d.surface == surface(d.path)
    ensures Records(previous, d.path, d.previous) && Records(current, d.path, d.current)
    ensures d.path in previous || d.path in current
    ensures match d.change
            case Added => d.path !in previous
            case Removed => d.path !in current
            case TypeChanged => d.previous.kind.Some? && d.current.kind.Some? && d.previous.kind != d.current.kind
            case Modified => d.previous.kind.Some? && d.previous.kind == d.current.kind
  {
    DiffMember(g, surface, previous, current, d);
  }

  /** Two deltas have one id exactly when they agree in run, revisions, path and change. */
  lemma DiffIdsDecide(
      g: Generation, s: string -> Surface, a: Entries, b: Entries, d: Delta, h: Generation, t: string -> Surface, p: Entries, q: Entries, e: Delta)
    requires d in Diff(g, s, a, b) && e in Diff(h, t, p, q)
    ensures d.id == e.id <==> g.run == h.run && g.previousRevision == h.previousRevision && g.currentRevision == h.currentRevision
                              && d.path == e.path && d.change == e.change
  {
    DiffMember(g, s, a, b, d);
    DiffMember(h, t, p, q, e);
    DeltaIdDecides(g, d.path, d.change, h, e.path, e.change);
  }

  lemma DeltaIdDecides(g: Generation, p: string, c: ChangeType, h: Generation, q: string, k: ChangeType)
    ensures DeltaId(g, p, c) == DeltaId(h, q, k)
            <==> g.run == h.run && g.previousRevision == h.previousRevision && g.currentRevision == h.currentRevision && p == q && c == k
  {
    var x, y := DeltaId(g, p, c), DeltaId(h, q, k);
    if x == y {
      assert x[1] == y[1] && x[2] == y[2] && x[3] == y[3] && x[4] == y[4] && x[5] == y[5];
      ChangeNamesDiffer(c, k);
    }
  }

  lemma ChangeNamesDiffer(c: ChangeType, k: ChangeType)
    ensures ChangeName(c) == ChangeName(k) <==> c == k
  {
    assert ChangeName(c) == ChangeName(k) ==> ChangeName(c)[0] == ChangeName(k)[0];
  }

  /** The contract every persisted delta must satisfy. */
  predicate ValidTransition(d: Delta) {
    var p, c := d.previous, d.current;
    var previousAny := p.kind.Some? || p.mode.Some? || p.sha.Some?;
    var previousAll := p.kind.Some? && p.mode.Some? && p.sha.Some?;
    var currentAny := c.kind.Some? || c.mode.Some? || c.sha.Some?;
    var currentAll := c.kind.Some? && c.mode.Some? && c.sha.Some?;
    && d.path != ""
    && previousAny == previousAll && currentAny == currentAll
    && (!previousAll ==> p.size.None?) && (!currentAll ==> c.size.None?)
    && match d.change {
         case Added => !previousAll && currentAll
         case Removed => previousAll && !currentAll
         case TypeChanged => previousAll && currentAll && p.kind != c.kind
         case Modified => previousAll && currentAll && p.kind == c.kind
                          && !(p.sha == c.sha && p.mode == c.mode && p.size == c.size)
       }
  }

  /** The record of a delta: type and mode are stripped of white space. */
  function Recorded(d: Delta): Delta { d.(previous := Kept(d.previous), current := Kept(d.current)) }

  function Kept(side: Side): Side {
    side.(kind := if side.kind.Some? then Some(Strip(side.kind.value)) else None,
          mode := if side.mode.Some? then Some(Strip(side.mode.value)) else None)
  }

  predicate Blank(side: Side) {
    (side.kind.Some? && Strip(side.kind.value) == "") || (side.mode.Some? && Strip(side.mode.value) == "")
  }

  /** The two sides differ only by white space around the type or the mode. */
  predicate OnlySpace(d: Delta) {
    match d.change
    case Modified => d.previous.sha == d.current.sha && d.previous.size == d.current.size && Kept(d.previous).mode == Kept(d.current).mode
    case TypeChanged => Kept(d.previous).kind == Kept(d.current).kind
    case _ => false
  }

  /** The contract accepts the record of a delta. */
  predicate Recordable(d: Delta) { !Blank(d.previous) && !Blank(d.current) && ValidTransition(Recorded(d)) }

  /**
    Every emitted delta satisfies its transition contract. Its record, whose type and mode are stripped,
    does so if and only if no type or mode is blank and the sides differ by more than white space.
  */
  lemma DiffTransitionsValid(g: Generation, surface: string -> Surface, previous: Entries, current: Entries)
    requires "" !in previous && "" !in current
    ensures forall d | d in Diff(g, surface, previous, current) :: ValidTransition(d)
    ensures forall d | d in Diff(g, surface, previous, current) ::
              Recordable(d) <==> !Blank(d.previous) && !Blank(d.current) && !OnlySpace(d)
  {
    forall d | d in Diff(g, surface, previous, current)
      ensures ValidTransition(d)
      ensures Recordable(d) <==> !Blank(d.previous) && !Blank(d.current) && !OnlySpace(d)
    {
      EmittedValid(g, surface, previous, current, d);
      RecordableIff(d);
    }
  }

  lemma EmittedValid(g: Generation, surface: string -> Surface, previous: Entries, current: Entries, d: Delta)
    requires "" !in previous && "" !in current && d in Diff(g, surface, previous, current)
    ensures ValidTransition(d)
  {
    DiffMember(g, surface, previous, current, d);
  }

  lemma RecordableIff(d: Delta)
    requires ValidTransition(d)
    ensures Recordable(d) <==> !Blank(d.previous) && !Blank(d.current) && !OnlySpace(d)
  {}

  /** Git's own types and modes have no white space around them, and trees that keep to that have recordable diffs. */
  lemma PlainDiffRecordable(g: Generation, surface: string -> Surface, previous: Entries, current: Entries)
    requires "" !in previous && "" !in current && PlainEntries(previous) && PlainEntries(current)
    ensures forall d | d in Diff(g, surface, previous, current) :: Recordable(d)
  {
    forall d | d in Diff(g, surface, previous, current) ensures Recordable(d) {
      EmittedValid(g, surface, previous, current, d);
      DiffMember(g, surface, previous, current, d);
      PlainKept(Get(previous, d.path));
      PlainKept(Get(current, d.path));
    }
  }

  lemma PlainKept(entry: Option<Entry>)
    requires entry.Some? ==> PlainEntry(entry.value)
    ensures Kept(SideOf(entry)) == SideOf(entry) && !Blank(SideOf(entry))
  {}

  predicate PlainEntry(e: Entry) { Strip(e.kind) == e.kind != "" && Strip(e.mode) == e.mode != "" }

  predicate PlainEntries(entries: Entries) {
    forall p | p in entries :: PlainEntry(entries[p])
  }

  /** A mode that gains a trailing space is a change that its contract refuses. */
  lemma TrailingSpaceRefused(g: Generation, surface: string -> Surface, sha: string)
    ensures var was, now := map["a" := Entry("a", "1", "blob", sha, None)], map["a" := Entry("a", "1 ", "blob", sha, None)];
            exists d | d in Diff(g, surface, was, now) :: !Recordable(d)
  {
    var was, now := map["a" := Entry("a", "1", "blob", sha, None)], map["a" := Entry("a", "1 ", "blob", sha, None)];
    assert "1" != "1 " && Strip("1") == "1" && "1 "[..1] == "1" && Strip("1 ") == "1";
    DiffExact(g, surface, was, now, "a");
    var d :| d in Diff(g, surface, was, now) && d.path == "a";
    DiffMember(g, surface, was, now, d);
    DiffTransitionsValid(g, surface, was, now);
    assert OnlySpace(d);
  }

  // ----- applying and inverting a diff -----

  function PatchOne(leaves: map<string, Leaf>, d: Delta): map<string, Leaf> {
    match LeafAt(d.current)
    case None => leaves - {d.path}
    case Some(leaf) => leaves[d.path := leaf]
  }

  function Patch(leaves: map<string, Leaf>, deltas: seq<Delta>): map<string, Leaf> {
    if deltas == [] then leaves else PatchOne(Patch(leaves, deltas[..|deltas| - 1]), deltas[|deltas| - 1])
  }

  lemma {:induction false} PatchUntouched(leaves: map<string, Leaf>, deltas: seq<Delta>, path: string)
    requires !PathEmitted(deltas, path)
    ensures Get(Patch(leaves, deltas), path) == Get(leaves, path)
  {
    if deltas != [] {
      var n := |deltas| - 1;
      assert deltas[n] in deltas;
      PatchUntouched(leaves, deltas[..n], path);
    }
  }

  lemma {:induction false} PatchTouched(leaves: map<string, Leaf>, deltas: seq<Delta>, i: nat)
    requires Increasing(DeltaKey, deltas) && i < |deltas|
    ensures Get(Patch(leaves, deltas), deltas[i].path) == LeafAt(deltas[i].current)
  {
    var n := |deltas| - 1;
    if i < n {
      PatchTouched(leaves, deltas[..n], i);
      KeyAsymmetric(DeltaKey(deltas[i]), DeltaKey(deltas[n]));
    }
  }

  lemma MapsEqual<V>(a: map<string, V>, b: map<string, V>)
    requires forall p :: Get(a, p) == Get(b, p)
    ensures a == b
  {
    forall p ensures p in a <==> p in b { assert Get(a, p) == Get(b, p); }
    forall p | p in a ensures a[p] == b[p] { assert Get(a, p) == Get(b, p); }
  }

  lemma EmittedLeaf(g: Generation, surface: string -> Surface, previous: Entries, current: Entries, d: Delta)
    requires d in Diff(g, surface, previous, current)
    ensures LeafAt(d.current) == LeafOf(Get(current, d.path))
  {
    DiffMember(g, surface, previous, current, d);
  }

  lemma UnchangedLeaf(previous: Entries, current: Entries, path: string)
    requires LeafOf(Get(previous, path)) == LeafOf(Get(current, path))
    ensures Get(Leaves(previous), path) == LeafOf(Get(current, path))
  {}

  lemma PatchedLeaf(g: Generation, surface: string -> Surface, previous: Entries, current: Entries, path: string)
    ensures Get(Patch(Leaves(previous), Diff(g, surface, previous, current)), path) == LeafOf(Get(current, path))
  {
    var deltas := Diff(g, surface, previous, current);
    DiffExact(g, surface, previous, current, path);
    if PathEmitted(deltas, path) {
      var d :| d in deltas && d.path == path;
      var i :| 0 <= i < |deltas| && deltas[i] == d;
      DiffIncreasing(g, surface, previous, current);
      PatchTouched(Leaves(previous), deltas, i);
      EmittedLeaf(g, surface, previous, current, d);
    } else {
      PatchUntouched(Leaves(previous), deltas, path);
      UnchangedLeaf(previous, current, path);
    }
  }

  /** Applying the deltas to the previous leaves yields the current ones. */
  lemma PatchYieldsCurrent(g: Generation, surface: string -> Surface, previous: Entries, current: Entries)
    ensures Patch(Leaves(previous), Diff(g, surface, previous, current)) == Leaves(current)
  {
    var patched := Patch(Leaves(previous), Diff(g, surface, previous, current));
    forall path ensures Get(patched, path) == Get(Leaves(current), path) {
      PatchedLeaf(g, surface, previous, current, path);
    }
    MapsEqual(patched, Leaves(current));
  }

  function InvertChange(change: ChangeType): ChangeType {
    match change
    case Added => Removed
    case Removed => Added
    case _ => change
  }

  function InvertGeneration(g: Generation): Generation {
    Generation(g.sourceId, g.currentRevision, g.previousRevision, g.currentCapture, g.previousCapture, g.run)
  }

  function Invert(d: Delta): Delta {
    var g, change := InvertGeneration(d.generation), InvertChange(d.change);
    Delta(DeltaId(g, d.path, change), g, d.path, change, d.surface, d.current, d.previous)
  }

  /** Diffing the other way round is inverting every delta, in the same order. */
  lemma DiffInverts(g: Generation, surface: string -> Surface, previous: Entries, current: Entries)
    ensures Diff(InvertGeneration(g), surface, current, previous) == Map(Invert, Diff(g, surface, previous, current))
  {
    var paths := SortedPaths(previous.Keys + current.Keys);
    assert previous.Keys + current.Keys == current.Keys + previous.Keys;
    DiffInvertsOver(g, surface, previous, current, paths);
  }

  lemma {:induction false} DiffInvertsOver(g: Generation, surface: string -> Surface, previous: Entries, current: Entries, paths: seq<string>)
    ensures FlatMap(Differ(InvertGeneration(g), surface, current, previous), paths)
            == Map(Invert, FlatMap(Differ(g, surface, previous, current), paths))
  {
    if paths != [] {
      var n := |paths| - 1;
      DiffInvertsOver(g, surface, previous, current, paths[..n]);
      DeltaAtInverts(g, surface, previous, current, paths[n]);
      MapAppend(Invert, FlatMap(Differ(g, surface, previous, current), paths[..n]), DeltaAt(g, surface, previous, current, paths[n]));
    }
  }

  lemma DeltaAtInverts(g: Generation, surface: string -> Surface, previous: Entries, current: Entries, path: string)
    ensures DeltaAt(InvertGeneration(g), surface, current, previous, path)
            == Map(Invert, DeltaAt(g, surface, previous, current, path))
  {}

  /** Inverting the deltas leads from the current leaves back to the previous ones. */
  lemma InvertedPatchGoesBack(g: Generation, surface: string -> Surface, previous: Entries, current: Entries)
    ensures Patch(Leaves(current), Map(Invert, Diff(g, surface, previous, current))) == Leaves(previous)
  {
    DiffInverts(g, surface, previous, current);
    PatchYieldsCurrent(InvertGeneration(g), surface, current, previous);
  }

  // ----- loading a retained capture -----

  method LoadEntries(document: seq<Entry>) returns (r: Result<Entries, TreeError>)
    ensures r.Ok? <==> Loadable(document)
    ensures r.Ok? ==> forall p :: Get(r.value, p) == EntryFor(document, p)
  {
    var entries: Entries := map[];
    for i := 0 to |document|
      invariant Loadable(document[..i])
      invariant forall p :: Get(entries, p) == EntryFor(document[..i], p)
    {
      var entry := document[i];
      LoadableStep(document, i);
      assert document[..i + 1][..i] == document[..i];
      if !SafePath(entry.path) { return Err(InvalidPath); }
      assert entry.path in entries <==> Get(entries, entry.path).Some?;
      if entry.path in entries { return Err(DuplicatePath); }
      entries := entries[entry.path := entry];
    }
    assert document[..|document|] == document;
    r := Ok(entries);
  }

  predicate Loadable(document: seq<Entry>) {
    AllSafe(document) && Unique(Map(PathOf, document))
  }

  lemma LoadableStep(document: seq<Entry>, i: nat)
    requires i < |document| && Loadable(document[..i])
    ensures Loadable(document[..i + 1])
            <==> SafePath(document[i].path) && EntryFor(document[..i], document[i].path).None?
    ensures !Loadable(document[..i + 1]) ==> !Loadable(document)
  {
    var before, now, entry := document[..i], document[..i + 1], document[i];
    assert now == before + [entry];
    LoadableSnoc(before, entry);
    assert document == now + document[i + 1..];
    LoadablePrefix(now, document[i + 1..]);
  }

  lemma LoadableSnoc(before: seq<Entry>, entry: Entry)
    requires Loadable(before)
    ensures Loadable(before + [entry]) <==> SafePath(entry.path) && EntryFor(before, entry.path).None?
  {
    MapAppend(PathOf, before, [entry]);
    UniqueSnoc(Map(PathOf, before), entry.path);
    EntryForMember(before, entry.path);
    AllSafeSnoc(before, entry);
    assert Map(PathOf, [entry]) == [entry.path];
  }

  predicate AllSafe(document: seq<Entry>) {
    forall e | e in document :: SafePath(e.path)
  }

  lemma AllSafeSnoc(before: seq<Entry>, entry: Entry)
    requires AllSafe(before)
    ensures AllSafe(before + [entry]) <==> SafePath(entry.path)
  {
    assert entry in before + [entry];
  }

  lemma LoadablePrefix(a: seq<Entry>, b: seq<Entry>)
    ensures Loadable(a + b) ==> Loadable(a)
  {
    MapAppend(PathOf, a, b);
    UniquePrefix(Map(PathOf, a), Map(PathOf, b));
    assert forall e | e in a :: e in a + b;
  }

  /** The last entry of a document at a path. */
  function EntryFor(document: seq<Entry>, path: string): Option<Entry> {
    if document == [] then None
    else if document[|document| - 1].path == path then Some(document[|document| - 1])
    else EntryFor(document[..|document| - 1], path)
  }

  /** A loadable document gives every path the one entry it lists for it. */
  lemma {:induction false} LoadedEntry(document: seq<Entry>, path: string, e: Entry)
    requires Loadable(document)
    ensures EntryFor(document, path) == Some(e) <==> e in document && e.path == path
  {
    if document != [] {
      var n := |document| - 1;
      var init, last := document[..n], document[n];
      assert document == init + [last];
      LoadablePrefix(init, [last]);
      LoadableSnoc(init, last);
      EntryForMember(init, last.path);
      LoadedEntry(init, path, e);
      if e in init && e.path == last.path {
        MapMembers(PathOf, init, e.path);
        assert false;
      }
    }
  }

  lemma {:induction false} EntryForMember(document: seq<Entry>, path: string)
    ensures EntryFor(document, path).Some? <==> path in Map(PathOf, document)
  {
    if document != [] {
      var n := |document| - 1;
      EntryForMember(document[..n], path);
      assert document == document[..n] + [document[n]];
      MapAppend(PathOf, document[..n], [document[n]]);
    }
  }
}
