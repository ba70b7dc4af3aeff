/**
  Interval segmentation: the commit range, the first-parent walk, latest-touch assignment
  and the bounded candidates (src/lemmamind/interval_segmentation.py,
  src/lemmamind/interval_segmentation_contracts.py).
*/
module Segmentation {
  import opened Wrappers
  import opened Orders
  import opened Texts
  import opened Digests
  import opened TreeDiff

  /** One commit of the interval with its complete changed-path projection. */
  datatype Snapshot = Snapshot(sha: string, ordinal: nat, parents: seq<string>, touched: seq<string>)

  datatype SegmentError =
    | NoCommits | CycleInChain | BaselineUnreachable | NoParent | WrongEnd | MissingTouch | NotAssignedOnce

  // ----- the first-parent walk -----

  type BySha = map<string, Snapshot>

  /** Snapshots by commit SHA; a later snapshot replaces an earlier one. */
  function Index(snapshots: seq<Snapshot>): (r: BySha)
    ensures forall sha | sha in r :: r[sha].sha == sha
  {
    if snapshots == [] then map[]
    else
      var last := snapshots[|snapshots| - 1];
      Index(snapshots[..|snapshots| - 1])[last.sha := last]
  }

  /** chain, oldest first, leads from base to cursor along first parents without passing base again. */
  ghost predicate Chain(index: BySha, base: string, cursor: string, chain: seq<Snapshot>)
    decreases |chain|
  {
    if cursor == base then chain == []
    else
      && chain != [] && cursor in index && index[cursor] == chain[|chain| - 1] && index[cursor].parents != []
      && Chain(index, base, index[cursor].parents[0], chain[..|chain| - 1])
  }

  lemma {:induction false} ChainUnique(index: BySha, base: string, cursor: string, a: seq<Snapshot>, b: seq<Snapshot>)
    requires Chain(index, base, cursor, a) && Chain(index, base, cursor, b)
    ensures a == b
    decreases |a|
  {
    if cursor != base {
      var m, n := |a| - 1, |b| - 1;
      ChainUnique(index, base, index[cursor].parents[0], a[..m], b[..n]);
      assert a == a[..m] + [a[m]] && b == b[..n] + [b[n]];
    }
  }

  function Reverse<T>(s: seq<T>): (r: seq<T>)
    ensures |r| == |s|
    ensures forall i | 0 <= i < |s| :: r[i] == s[|s| - 1 - i]
  {
    if s == [] then [] else [s[|s| - 1]] + Reverse(s[..|s| - 1])
  }

  /** chain ends in the snapshots walked so far, and what is left of it leads to cursor. */
  ghost predicate Walked(index: BySha, base: string, chain: seq<Snapshot>, walked: seq<Snapshot>, cursor: string) {
    && |walked| <= |chain|
    && chain[|chain| - |walked|..] == Reverse(walked)
    && Chain(index, base, cursor, chain[..|chain| - |walked|])
    && forall i | 0 <= i < |walked| :: Chain(index, base, walked[i].sha, chain[..|chain| - i])
  }

  /** The walk never comes back to a commit: each position on the chain has one rest of the way. */
  lemma WalkFresh(index: BySha, base: string, chain: seq<Snapshot>, walked: seq<Snapshot>, cursor: string)
    requires Walked(index, base, chain, walked, cursor)
    ensures forall i | 0 <= i < |walked| :: walked[i].sha != cursor
  {
    forall i | 0 <= i < |walked| ensures walked[i].sha != cursor {
      if walked[i].sha == cursor { ChainUnique(index, base, cursor, chain[..|chain| - i], chain[..|chain| - |walked|]); }
    }
  }

  lemma ReverseSnoc<T>(s: seq<T>, x: T)
    ensures Reverse(s + [x]) == [x] + Reverse(s)
  {
    assert (s + [x])[..|s|] == s;
  }

  lemma DropOne<T>(s: seq<T>, k: nat)
    requires k < |s|
    ensures s[k..] == [s[k]] + s[k + 1..]
  {}

  lemma WalkTail(chain: seq<Snapshot>, walked: seq<Snapshot>, s: Snapshot)
    requires |walked| < |chain| && chain[|chain| - |walked|..] == Reverse(walked) && chain[|chain| - |walked| - 1] == s
    ensures chain[|chain| - |walked| - 1..] == Reverse(walked + [s])
  {
    ReverseSnoc(walked, s);
    DropOne(chain, |chain| - |walked| - 1);
  }

  lemma WalkStep(index: BySha, base: string, chain: seq<Snapshot>, walked: seq<Snapshot>, cursor: string)
    requires Walked(index, base, chain, walked, cursor) && cursor != base
    requires forall sha | sha in index :: index[sha].sha == sha
    ensures cursor in index && index[cursor].parents != []
    ensures forall i | 0 <= i < |walked| :: walked[i].sha != cursor
    ensures Walked(index, base, chain, walked + [index[cursor]], index[cursor].parents[0])
  {
    var n := |chain| - |walked|;
    WalkFresh(index, base, chain, walked, cursor);
    assert chain[..n][..n - 1] == chain[..n - 1];
    WalkTail(chain, walked, index[cursor]);
  }

  /** No commit lies on a first-parent path from base to head. */
  ghost predicate NoWay(index: BySha, base: string, head: string) {
    forall chain | Chain(index, base, head, chain) :: chain == []
  }

  /** The walk so far is part of every way from base to head, and every way to cursor completes it. */
  ghost predicate OnTheWay(index: BySha, base: string, head: string, walked: seq<Snapshot>, cursor: string) {
    && (forall chain | Chain(index, base, head, chain) :: Walked(index, base, chain, walked, cursor))
    && (forall rest | Chain(index, base, cursor, rest) :: Chain(index, base, head, rest + Reverse(walked)))
  }

  lemma OnTheWayInit(index: BySha, base: string, head: string)
    ensures OnTheWay(index, base, head, [], head)
  {
    forall chain | Chain(index, base, head, chain)
      ensures Walked(index, base, chain, [], head) && chain + Reverse([]) == chain
    {
      assert chain[..|chain|] == chain;
    }
  }

  predicate Visited(walked: seq<Snapshot>, sha: string) {
    exists s | s in walked :: s.sha == sha
  }

  lemma OnTheWayStep(index: BySha, base: string, head: string, walked: seq<Snapshot>, cursor: string)
    requires OnTheWay(index, base, head, walked, cursor) && cursor != base
    requires forall sha | sha in index :: index[sha].sha == sha
    ensures Visited(walked, cursor) || cursor !in index || index[cursor].parents == [] ==> NoWay(index, base, head)
    ensures cursor in index && index[cursor].parents != [] ==>
              OnTheWay(index, base, head, walked + [index[cursor]], index[cursor].parents[0])
  {
    forall chain | Chain(index, base, head, chain)
      ensures !Visited(walked, cursor) && cursor in index && index[cursor].parents != []
      ensures cursor in index && index[cursor].parents != [] ==>
                Walked(index, base, chain, walked + [index[cursor]], index[cursor].parents[0])
    {
      WalkStep(index, base, chain, walked, cursor);
    }
    if cursor in index && index[cursor].parents != [] {
      ExtendBack(index, base, head, cursor, walked);
    }
  }

  /** The walk finds the first-parent path from base to head exactly when there is one. */
  method FirstParentChain(base: string, head: string, snapshots: seq<Snapshot>) returns (r: Result<seq<Snapshot>, SegmentError>)
    ensures snapshots == [] ==> (r.Ok? <==> base == head) && (r.Ok? ==> r.value == [])
    ensures snapshots != [] ==>
              if r.Ok? then r.value != [] && Chain(Index(snapshots), base, head, r.value)
              else NoWay(Index(snapshots), base, head)
  {
    if snapshots == [] {
      if base != head { return Err(NoCommits); }
      return Ok([]);
    }
    var bySha := Index(snapshots);
    var reverseChain: seq<Snapshot> := [];
    var seen: set<string> := {};
    var cursor := head;
    OnTheWayInit(bySha, base, head);
    while cursor != base
      invariant seen <= bySha.Keys
      invariant forall sha :: sha in seen <==> Visited(reverseChain, sha)
      invariant OnTheWay(bySha, base, head, reverseChain, cursor)
      invariant if reverseChain == [] then cursor == head else reverseChain[0].sha == head
      decreases bySha.Keys - seen
    {
      OnTheWayStep(bySha, base, head, reverseChain, cursor);
      if cursor in seen { return Err(CycleInChain); }
      seen := seen + {cursor};
      if cursor !in bySha { return Err(BaselineUnreachable); }
      var snapshot := bySha[cursor];
      if snapshot.parents == [] { return Err(NoParent); }
      reverseChain := reverseChain + [snapshot];
      cursor := snapshot.parents[0];
    }
    var chain := Reverse(reverseChain);
    assert Chain(bySha, base, base, []) && [] + chain == chain;
    if chain == [] || chain[|chain| - 1].sha != head { return Err(WrongEnd); }
    r := Ok(chain);
  }

  /** A way from base to the next cursor extends to one that ends in the snapshots already walked. */
  lemma ExtendBack(index: BySha, base: string, head: string, cursor: string, walked: seq<Snapshot>)
    requires cursor != base && cursor in index && index[cursor].parents != []
    requires forall rest | Chain(index, base, cursor, rest) :: Chain(index, base, head, rest + Reverse(walked))
    ensures forall rest | Chain(index, base, index[cursor].parents[0], rest) ::
              Chain(index, base, head, rest + Reverse(walked + [index[cursor]]))
  {
    forall rest | Chain(index, base, index[cursor].parents[0], rest)
      ensures Chain(index, base, head, rest + Reverse(walked + [index[cursor]]))
    {
      var longer := rest + [index[cursor]];
      assert longer[..|longer| - 1] == rest;
      assert Chain(index, base, cursor, longer);
      assert Reverse(walked + [index[cursor]]) == [index[cursor]] + Reverse(walked);
      assert longer + Reverse(walked) == rest + Reverse(walked + [index[cursor]]);
    }
  }

  // ----- latest touch -----

  /** The position of the last snapshot that touches path. */
  function LastTouch(snapshots: seq<Snapshot>, path: string): (r: Option<nat>)
    ensures r.Some? ==> r.value < |snapshots| && path in snapshots[r.value].touched
    ensures r.Some? ==> forall i | r.value < i < |snapshots| :: path !in snapshots[i].touched
    ensures r.None? ==> forall i | 0 <= i < |snapshots| :: path !in snapshots[i].touched
  {
    if snapshots == [] then None
    else if path in snapshots[|snapshots| - 1].touched then Some(|snapshots| - 1)
    else LastTouch(snapshots[..|snapshots| - 1], path)
  }

  type Touches = map<string, Snapshot>

  /** latest maps exactly the wanted touched paths, each to its last touching snapshot. */
  ghost predicate LatestOf(latest: Touches, snapshots: seq<Snapshot>, wanted: set<string>) {
    forall path :: Get(latest, path) ==
      (if path in wanted && LastTouch(snapshots, path).Some? then Some(snapshots[LastTouch(snapshots, path).value]) else None)
  }

  method AssignLatestTouch(deltas: seq<Delta>, snapshots: seq<Snapshot>) returns (r: Result<Touches, SegmentError>)
    ensures r.Ok? <==> forall d | d in deltas :: LastTouch(snapshots, d.path).Some?
    ensures r.Ok? ==> LatestOf(r.value, snapshots, set d | d in deltas :: d.path)
  {
    var wanted := set d | d in deltas :: d.path;
    var latest: Touches := map[];
    for i := 0 to |snapshots|
      invariant LatestOf(latest, snapshots[..i], wanted)
    {
      var snapshot := snapshots[i];
      assert snapshots[..i + 1][..i] == snapshots[..i];
      ghost var before := latest;
      for j := 0 to |snapshot.touched|
        invariant forall path :: Get(latest, path) ==
                    (if path in wanted && path in snapshot.touched[..j] then Some(snapshot) else Get(before, path))
      {
        var path := snapshot.touched[j];
        assert snapshot.touched[..j + 1] == snapshot.touched[..j] + [path];
        if path in wanted { latest := latest[path := snapshot]; }
      }
      assert snapshot.touched[..|snapshot.touched|] == snapshot.touched;
    }
    assert snapshots[..|snapshots|] == snapshots;
    var missing := wanted - latest.Keys;
    assert forall path :: path in latest <==> Get(latest, path).Some?;
    if missing != {} {
      var path :| path in missing;
      return Err(MissingTouch);
    }
    forall d | d in deltas ensures LastTouch(snapshots, d.path).Some? {
      assert d.path in wanted && d.path !in missing;
    }
    r := Ok(latest);
  }

  /** Every path a commit changed against its first parent is among the paths it touched. */
  ghost predicate TouchComplete(leaves: string -> map<string, Leaf>, chain: seq<Snapshot>) {
    forall i, path | 0 <= i < |chain| && chain[i].parents != [] && path !in chain[i].touched ::
      Get(leaves(chain[i].sha), path) == Get(leaves(chain[i].parents[0]), path)
  }

  /**
    The telescoping theorem. If touched sets are complete along the chain, a path whose leaf
    differs between base and head has a latest touch, and from that commit on every chain
    commit already holds the leaf of head. A path that is never touched keeps its leaf.
  */
  lemma {:induction false} LatestTouchTelescopes(
      leaves: string -> map<string, Leaf>, index: BySha, base: string, head: string, chain: seq<Snapshot>, path: string)
    requires forall sha | sha in index :: index[sha].sha == sha
    requires Chain(index, base, head, chain) && TouchComplete(leaves, chain)
    ensures LastTouch(chain, path).None? ==> Get(leaves(base), path) == Get(leaves(head), path)
    ensures LastTouch(chain, path).Some? ==>
              forall i | LastTouch(chain, path).value <= i < |chain| ::
                Get(leaves(chain[i].sha), path) == Get(leaves(head), path)
    decreases |chain|
  {
    if head != base {
      var n := |chain| - 1;
      var init, parent := chain[..n], index[head].parents[0];
      assert TouchComplete(leaves, init) by {
        assert forall i | 0 <= i < n :: init[i] == chain[i];
      }
      LatestTouchTelescopes(leaves, index, base, parent, init, path);
      assert chain[n].sha == head;
      if path !in chain[n].touched {
        assert LastTouch(chain, path) == LastTouch(init, path);
        forall i | LastTouch(chain, path).Some? && LastTouch(chain, path).value <= i < |chain|
          ensures Get(leaves(chain[i].sha), path) == Get(leaves(head), path)
        {
          if i < n { assert init[i] == chain[i]; }
        }
      }
    }
  }

  /** The missing-path error cannot arise for a diff between the trees of base and head. */
  lemma NoMissingTouch(
      leaves: string -> map<string, Leaf>, index: BySha, base: string, head: string, chain: seq<Snapshot>,
      g: Generation, surface: string -> Surface, previous: Entries, current: Entries)
    requires forall sha | sha in index :: index[sha].sha == sha
    requires Chain(index, base, head, chain) && TouchComplete(leaves, chain)
    requires Leaves(previous) == leaves(base) && Leaves(current) == leaves(head)
    ensures forall d | d in Diff(g, surface, previous, current) ::
              && LastTouch(chain, d.path).Some?
              && Get(leaves(chain[LastTouch(chain, d.path).value].sha), d.path) == LeafAt(d.current)
  {
    forall d | d in Diff(g, surface, previous, current)
      ensures LastTouch(chain, d.path).Some?
      ensures LastTouch(chain, d.path).Some? ==>
                Get(leaves(chain[LastTouch(chain, d.path).value].sha), d.path) == LeafAt(d.current)
    {
      EmittedLeaves(g, surface, previous, current, d);
      LatestTouchTelescopes(leaves, index, base, head, chain, d.path);
    }
  }

  /** An emitted path has different leaves in the two trees, the second being the one reported. */
  lemma EmittedLeaves(g: Generation, surface: string -> Surface, previous: Entries, current: Entries, d: Delta)
    requires d in Diff(g, surface, previous, current)
    ensures Get(Leaves(previous), d.path) != Get(Leaves(current), d.path) && Get(Leaves(current), d.path) == LeafAt(d.current)
  {
    DiffMember(g, surface, previous, current, d);
    DiffExact(g, surface, previous, current, d.path);
    assert Get(Leaves(previous), d.path) == LeafOf(Get(previous, d.path));
    assert Get(Leaves(current), d.path) == LeafOf(Get(current, d.path));
  }

  // ----- path groups -----

  const WORKFLOWS := ".github/workflows"

  function PathGroup(path: string): string {
    var parts := Split(path, '/');
    if |parts| == 1 then "root"
    else if parts[0] == ".github" && parts[1] == "workflows" then "path-prefix:" + Quote(WORKFLOWS)
    else "top-level:" + Quote(parts[0])
  }

  datatype PathClass = RootFile | WorkflowFile | TopLevel(directory: string)

  function ClassOf(path: string): PathClass {
    var parts := Split(path, '/');
    if |parts| == 1 then RootFile
    else if parts[0] == ".github" && parts[1] == "workflows" then WorkflowFile
    else TopLevel(parts[0])
  }

  function Label(c: PathClass): string {
    match c
    case RootFile => "root"
    case WorkflowFile => "path-prefix:" + Quote(WORKFLOWS)
    case TopLevel(directory) => "top-level:" + Quote(directory)
  }

  lemma LabelInjective(c: PathClass, d: PathClass)
    requires Label(c) == Label(d)
    ensures c == d
  {
    assert Label(c)[0] == Label(d)[0];
    assert Label(RootFile)[0] == 'r' && Label(WorkflowFile)[0] == 'p';
    assert c.TopLevel? ==> Label(c)[0] == 't';
    assert d.TopLevel? ==> Label(d)[0] == 't';
    if c.TopLevel? && d.TopLevel? {
      var n := |"top-level:"|;
      assert Label(c)[n..] == Quote(c.directory) && Label(d)[n..] == Quote(d.directory);
      QuoteInjective(c.directory, d.directory);
    }
  }

  /** Group labels never collide: equal labels mean the same kind of place and the same directory. */
  lemma PathGroupInjective(p: string, q: string)
    ensures PathGroup(p) == PathGroup(q) <==> ClassOf(p) == ClassOf(q)
  {
    assert PathGroup(p) == Label(ClassOf(p)) && PathGroup(q) == Label(ClassOf(q));
    if PathGroup(p) == PathGroup(q) { LabelInjective(ClassOf(p), ClassOf(q)); }
  }

  // ----- bounded candidates -----

  datatype GroupKey = GroupKey(ordinal: nat, group: string)

  function GroupOrder(k: GroupKey): Key { [Num(k.ordinal), Text(k.group)] }

  datatype Segment = Segment(
    id: Id, generation: Generation, commitSha: string, commitOrdinal: nat, group: string, chunkOrdinal: nat,
    deltaIds: seq<Id>, paths: seq<string>, run: string)

  function DeltaIdOf(d: Delta): Id { d.id }

  function DeltaPathOf(d: Delta): string { d.path }

  /** The contract every persisted candidate must satisfy. */
  predicate ValidSegment(c: Segment) {
    && c.deltaIds != [] && c.paths != []
    && |c.deltaIds| == |c.paths|
    && Unique(c.deltaIds)
    && Increasing(TextKey, c.paths)
  }

  function Chunks<T>(s: seq<T>, size: nat): (r: seq<seq<T>>)
    requires size > 0
  {
    if |s| == 0 then [] else if |s| <= size then [s] else [s[..size]] + Chunks(s[size..], size)
  }

  /** Chunks are not empty, are full but for the last, and put together give the list back. */
  lemma {:induction false} ChunksExact<T>(s: seq<T>, size: nat)
    requires size > 0
    ensures Concat(Chunks(s, size)) == s
    ensures forall i | 0 <= i < |Chunks(s, size)| :: 0 < |Chunks(s, size)[i]| <= size
    ensures forall i | 0 <= i < |Chunks(s, size)| - 1 :: |Chunks(s, size)[i]| == size
    decreases |s|
  {
    if |s| > size {
      var rest := s[size..];
      ChunksExact(rest, size);
      assert s == s[..size] + rest;
      assert Chunks(s, size)[1..] == Chunks(rest, size);
    } else if s != [] {
      assert Chunks(s, size)[1..] == [];
    }
  }

  /** A list of n elements gives ceil(n / size) chunks. */
  lemma {:induction false} ChunksCount<T>(s: seq<T>, size: nat)
    requires size > 0
    ensures s == [] ==> Chunks(s, size) == []
    ensures s != [] ==> (|Chunks(s, size)| - 1) * size < |s| <= |Chunks(s, size)| * size
    decreases |s|
  {
    if |s| > size {
      ChunksCount(s[size..], size);
      var n := |Chunks(s[size..], size)|;
      MulStep(n, size);
      MulStep(n - 1, size);
    }
  }

  lemma MulStep(n: int, size: int)
    ensures (n + 1) * size == n * size + size
  {}

  /** What a segmentation run is bound to, and the attention bound. */
  datatype Frame = Frame(generation: Generation, run: string, maxPaths: nat)

  predicate Covered(latest: Touches, deltas: seq<Delta>) {
    forall d | d in deltas :: d.path in latest
  }

  /** Snapshots are enumerated, so an ordinal names one snapshot. */
  predicate OrdinalsDistinct(latest: Touches) {
    forall p, q | p in latest && q in latest && latest[p].ordinal == latest[q].ordinal :: latest[p] == latest[q]
  }

  function GroupOf(latest: Touches, d: Delta): GroupKey
    requires d.path in latest
  {
    GroupKey(latest[d.path].ordinal, PathGroup(d.path))
  }

  /** The deltas of one group, in their order. */
  function Members(latest: Touches, deltas: seq<Delta>, k: GroupKey): (r: seq<Delta>)
    requires Covered(latest, deltas)
    ensures forall d :: d in r <==> d in deltas && GroupOf(latest, d) == k
  {
    if deltas == [] then []
    else
      var init, last := deltas[..|deltas| - 1], deltas[|deltas| - 1];
      assert deltas == init + [last];
      Members(latest, init, k) + (if GroupOf(latest, last) == k then [last] else [])
  }

  lemma {:induction false} MembersIncreasing(latest: Touches, deltas: seq<Delta>, k: GroupKey)
    requires Covered(latest, deltas) && Increasing(DeltaKey, deltas)
    ensures Increasing(DeltaKey, Members(latest, deltas, k))
  {
    if deltas != [] {
      var init, last := deltas[..|deltas| - 1], deltas[|deltas| - 1];
      MembersIncreasing(latest, init, k);
      var m := Members(latest, init, k);
      forall i | 0 <= i < |m| ensures KeyLess(DeltaKey(m[i]), DeltaKey(last)) {
        assert m[i] in init;
        var j :| 0 <= j < |init| && init[j] == m[i];
        assert deltas[j] == m[i];
      }
    }
  }

  function GroupKeys(latest: Touches, deltas: seq<Delta>): set<GroupKey>
    requires Covered(latest, deltas)
  {
    set d | d in deltas :: GroupOf(latest, d)
  }

  function SortedGroups(groups: set<GroupKey>): (r: seq<GroupKey>)
    ensures Increasing(GroupOrder, r)
    ensures forall k :: k in r <==> k in groups
  {
    SortSet(GroupOrder, groups)
  }

  function SegmentOf(f: Frame, commit: Snapshot, k: GroupKey, chunkOrdinal: nat, chunk: seq<Delta>): Segment {
    Segment([Text("interval-candidate-segment"), Text(f.run), Text(commit.sha), Text(k.group), Num(chunkOrdinal)],
            f.generation, commit.sha, k.ordinal, k.group, chunkOrdinal,
            Map(DeltaIdOf, chunk), Map(DeltaPathOf, chunk), f.run)
  }

  /** One segment per chunk, numbered from 1. */
  function NumberChunks(f: Frame, commit: Snapshot, k: GroupKey, chunks: seq<seq<Delta>>): (r: seq<Segment>)
    ensures |r| == |chunks|
    ensures forall i | 0 <= i < |chunks| :: r[i] == SegmentOf(f, commit, k, i + 1, chunks[i])
  {
    if chunks == [] then []
    else
      var n := |chunks| - 1;
      NumberChunks(f, commit, k, chunks[..n]) + [SegmentOf(f, commit, k, n + 1, chunks[n])]
  }

  function GroupSegments(f: Frame, latest: Touches, deltas: seq<Delta>, k: GroupKey): seq<Segment>
    requires f.maxPaths > 0 && Covered(latest, deltas)
  {
    var members := Members(latest, deltas, k);
    if members == [] then []
    else NumberChunks(f, latest[members[0].path], k, Chunks(SortBy(DeltaKey, members), f.maxPaths))
  }

  function GroupSegmentsOf(f: Frame, latest: Touches, deltas: seq<Delta>): GroupKey -> seq<Segment>
    requires f.maxPaths > 0 && Covered(latest, deltas)
  {
    k => GroupSegments(f, latest, deltas, k)
  }

  function Candidates(f: Frame, latest: Touches, deltas: seq<Delta>): seq<Segment>
    requires f.maxPaths > 0 && Covered(latest, deltas)
  {
    FlatMap(GroupSegmentsOf(f, latest, deltas), SortedGroups(GroupKeys(latest, deltas)))
  }

  method BuildCandidates(f: Frame, latest: Touches, deltas: seq<Delta>) returns (candidates: seq<Segment>)
    requires f.maxPaths > 0 && Covered(latest, deltas) && OrdinalsDistinct(latest)
    ensures candidates == Candidates(f, latest, deltas)
  {
    var grouped, snapshotByOrdinal := GroupDeltas(latest, deltas);
    candidates := [];
    var keys := SortedGroups(grouped.Keys);
    for i := 0 to |keys|
      invariant candidates == FlatMap(GroupSegmentsOf(f, latest, deltas), keys[..i])
    {
      FlatMapStep(GroupSegmentsOf(f, latest, deltas), keys, i);
      var key := keys[i];
      assert key in grouped;
      FirstMember(latest, deltas, key);
      var snapshot := snapshotByOrdinal[key.ordinal];
      var segments := ChunkGroup(f, snapshot, key, SortBy(DeltaKey, grouped[key]));
      candidates := candidates + segments;
    }
    assert keys[..|keys|] == keys;
  }

  /** The two dictionaries after the first loop. */
  ghost predicate Grouping(
      latest: Touches, deltas: seq<Delta>, grouped: map<GroupKey, seq<Delta>>, byOrdinal: map<nat, Snapshot>)
    requires Covered(latest, deltas)
  {
    && grouped.Keys == GroupKeys(latest, deltas)
    && (forall k | k in grouped :: grouped[k] == Members(latest, deltas, k))
    && Indexed(latest, deltas, byOrdinal)
  }

  /** The first loop: deltas grouped by latest-touch ordinal and path group. */
  method GroupDeltas(latest: Touches, deltas: seq<Delta>)
    returns (grouped: map<GroupKey, seq<Delta>>, snapshotByOrdinal: map<nat, Snapshot>)
    requires Covered(latest, deltas) && OrdinalsDistinct(latest)
    ensures Grouping(latest, deltas, grouped, snapshotByOrdinal)
  {
    grouped := map[];
    snapshotByOrdinal := map[];
    for i := 0 to |deltas|
      invariant Grouping(latest, deltas[..i], grouped, snapshotByOrdinal)
    {
      var delta := deltas[i];
      assert deltas[..i + 1] == deltas[..i] + [delta];
      var snapshot := latest[delta.path];
      GroupingStep(latest, deltas[..i], delta, grouped, snapshotByOrdinal);
      snapshotByOrdinal := snapshotByOrdinal[snapshot.ordinal := snapshot];
      var key := GroupKey(snapshot.ordinal, PathGroup(delta.path));
      grouped := grouped[key := (if key in grouped then grouped[key] else []) + [delta]];
    }
    assert deltas[..|deltas|] == deltas;
  }

  lemma MembersAfter(latest: Touches, before: seq<Delta>, d: Delta, grouped: map<GroupKey, seq<Delta>>, j: GroupKey)
    requires Covered(latest, before) && d.path in latest && Covered(latest, before + [d])
    requires grouped.Keys == GroupKeys(latest, before) && forall k | k in grouped :: grouped[k] == Members(latest, before, k)
    ensures Members(latest, before + [d], j)
            == (if j in grouped then grouped[j] else []) + (if j == GroupOf(latest, d) then [d] else [])
  {
    MemberSnoc(latest, before, d, j);
    if j !in grouped { NoMembers(latest, before, j); }
  }

  lemma GroupingStep(
      latest: Touches, before: seq<Delta>, d: Delta, grouped: map<GroupKey, seq<Delta>>, byOrdinal: map<nat, Snapshot>)
    requires Covered(latest, before) && d.path in latest && OrdinalsDistinct(latest)
    requires Grouping(latest, before, grouped, byOrdinal)
    ensures Covered(latest, before + [d])
    ensures var k := GroupOf(latest, d);
            Grouping(latest, before + [d],
                     grouped[k := (if k in grouped then grouped[k] else []) + [d]],
                     byOrdinal[latest[d.path].ordinal := latest[d.path]])
  {
    GroupKeysSnoc(latest, before, d);
    MembersStep(latest, before, d, grouped);
    OrdinalsStep(latest, before, d, byOrdinal);
  }

  predicate Indexed(latest: Touches, deltas: seq<Delta>, byOrdinal: map<nat, Snapshot>)
    requires Covered(latest, deltas)
  {
    forall d | d in deltas :: latest[d.path].ordinal in byOrdinal && byOrdinal[latest[d.path].ordinal] == latest[d.path]
  }

  lemma MembersStep(latest: Touches, before: seq<Delta>, d: Delta, grouped: map<GroupKey, seq<Delta>>)
    requires Covered(latest, before) && d.path in latest && Covered(latest, before + [d])
    requires grouped.Keys == GroupKeys(latest, before) && forall k | k in grouped :: grouped[k] == Members(latest, before, k)
    ensures var k := GroupOf(latest, d);
            var now := grouped[k := (if k in grouped then grouped[k] else []) + [d]];
            now.Keys == grouped.Keys + {k} && forall j | j in now :: now[j] == Members(latest, before + [d], j)
  {
    var k := GroupOf(latest, d);
    var now := grouped[k := (if k in grouped then grouped[k] else []) + [d]];
    forall j | j in now ensures now[j] == Members(latest, before + [d], j) { MembersAfter(latest, before, d, grouped, j); }
  }

  lemma OrdinalsStep(latest: Touches, before: seq<Delta>, d: Delta, byOrdinal: map<nat, Snapshot>)
    requires Covered(latest, before) && d.path in latest && OrdinalsDistinct(latest) && Covered(latest, before + [d])
    requires Indexed(latest, before, byOrdinal)
    ensures Indexed(latest, before + [d], byOrdinal[latest[d.path].ordinal := latest[d.path]])
  {
    forall e | e in before + [d] ensures e in before || e == d {}
  }

  lemma MemberSnoc(latest: Touches, before: seq<Delta>, d: Delta, k: GroupKey)
    requires Covered(latest, before) && d.path in latest && Covered(latest, before + [d])
    ensures Members(latest, before + [d], k) == Members(latest, before, k) + (if GroupOf(latest, d) == k then [d] else [])
  {
    assert (before + [d])[..|before|] == before;
  }

  lemma GroupKeysSnoc(latest: Touches, before: seq<Delta>, d: Delta)
    requires Covered(latest, before) && d.path in latest
    ensures Covered(latest, before + [d])
    ensures GroupKeys(latest, before + [d]) == GroupKeys(latest, before) + {GroupOf(latest, d)}
  {
    var all := before + [d];
    assert forall e :: e in all <==> e in before || e == d;
  }

  /** A group of the deltas has a first member, last touched by the commit of the group's ordinal. */
  lemma FirstMember(latest: Touches, deltas: seq<Delta>, k: GroupKey)
    requires Covered(latest, deltas) && k in GroupKeys(latest, deltas)
    ensures Members(latest, deltas, k) != []
    ensures Members(latest, deltas, k)[0] in deltas && GroupOf(latest, Members(latest, deltas, k)[0]) == k
  {
    var d :| d in deltas && GroupOf(latest, d) == k;
    assert d in Members(latest, deltas, k);
    assert Members(latest, deltas, k)[0] in Members(latest, deltas, k);
  }

  /** The inner loop over offsets 0, max, 2 * max, ... of one ordered group. */
  method ChunkGroup(f: Frame, snapshot: Snapshot, key: GroupKey, ordered: seq<Delta>) returns (segments: seq<Segment>)
    requires f.maxPaths > 0
    ensures segments == NumberChunks(f, snapshot, key, Chunks(ordered, f.maxPaths))
  {
    var offset := 0;
    ghost var done: seq<seq<Delta>> := [];
    segments := [];
    while offset < |ordered|
      invariant Chunked(f, snapshot, key, ordered, offset, done, segments)
      decreases |ordered| - offset
    {
      var end := if offset + f.maxPaths < |ordered| then offset + f.maxPaths else |ordered|;
      ChunkedStep(f, snapshot, key, ordered, offset, done, segments);
      OffsetOrdinal(|done|, f.maxPaths);
      segments := segments + [SegmentOf(f, snapshot, key, offset / f.maxPaths + 1, ordered[offset..end])];
      done := done + [ordered[offset..end]];
      offset := offset + f.maxPaths;
    }
    assert Chunks(ordered, f.maxPaths) == done;
  }

  /** The chunks made so far, the segments they gave, and what is left from offset on. */
  ghost predicate Chunked(
      f: Frame, snapshot: Snapshot, key: GroupKey, ordered: seq<Delta>, offset: nat, done: seq<seq<Delta>>, segments: seq<Segment>)
    requires f.maxPaths > 0
  {
    && offset == Offset(|done|, f.maxPaths)
    && Chunks(ordered, f.maxPaths) == done + Chunks(Rest(ordered, offset), f.maxPaths)
    && segments == NumberChunks(f, snapshot, key, done)
  }

  lemma ChunkedStep(
      f: Frame, snapshot: Snapshot, key: GroupKey, ordered: seq<Delta>, offset: nat, done: seq<seq<Delta>>, segments: seq<Segment>)
    requires f.maxPaths > 0 && offset < |ordered|
    requires Chunked(f, snapshot, key, ordered, offset, done, segments)
    ensures var chunk := ordered[offset..if offset + f.maxPaths < |ordered| then offset + f.maxPaths else |ordered|];
            Chunked(f, snapshot, key, ordered, offset + f.maxPaths, done + [chunk],
                    segments + [SegmentOf(f, snapshot, key, |done| + 1, chunk)])
  {
    var chunk := ordered[offset..if offset + f.maxPaths < |ordered| then offset + f.maxPaths else |ordered|];
    NextChunk(ordered, offset, f.maxPaths, done);
    NumberSnoc(f, snapshot, key, done, chunk);
  }

  lemma NextChunk<T>(s: seq<T>, offset: nat, size: nat, done: seq<seq<T>>)
    requires size > 0 && offset < |s| && Chunks(s, size) == done + Chunks(Rest(s, offset), size)
    ensures Chunks(s, size) == done + [s[offset..if offset + size < |s| then offset + size else |s|]] + Chunks(Rest(s, offset + size), size)
  {
    ChunkStep(s, offset, size);
    MoveOver(done, s[offset..if offset + size < |s| then offset + size else |s|], Chunks(Rest(s, offset + size), size));
  }

  lemma MoveOver<T>(done: seq<T>, x: T, rest: seq<T>)
    ensures done + ([x] + rest) == (done + [x]) + rest
  {}

  function Rest<T>(s: seq<T>, offset: nat): seq<T> {
    if offset <= |s| then s[offset..] else []
  }

  lemma ChunkStep<T>(s: seq<T>, offset: nat, size: nat)
    requires size > 0 && offset < |s|
    ensures Chunks(Rest(s, offset), size) ==
            [s[offset..if offset + size < |s| then offset + size else |s|]] + Chunks(Rest(s, offset + size), size)
  {
    var rest := Rest(s, offset);
    if |rest| > size {
      assert rest[size..] == Rest(s, offset + size);
      assert rest[..size] == s[offset..offset + size];
    } else {
      assert Rest(s, offset + size) == [];
      assert rest == s[offset..|s|];
    }
  }

  /** The n-th value of range(0, ..., size). */
  function Offset(n: nat, size: nat): nat {
    if n == 0 then 0 else Offset(n - 1, size) + size
  }

  lemma OffsetOrdinal(n: nat, size: nat)
    requires size > 0
    ensures Offset(n, size) / size == n
  {
    OffsetProduct(n, size);
    DivExact(n, size);
  }

  lemma {:induction false} OffsetProduct(n: nat, size: nat)
    ensures Offset(n, size) == n * size
  {
    if n > 0 {
      OffsetProduct(n - 1, size);
      assert n * size == (n - 1) * size + size;
    }
  }

  lemma NumberSnoc(f: Frame, commit: Snapshot, k: GroupKey, chunks: seq<seq<Delta>>, chunk: seq<Delta>)
    ensures NumberChunks(f, commit, k, chunks + [chunk])
            == NumberChunks(f, commit, k, chunks) + [SegmentOf(f, commit, k, |chunks| + 1, chunk)]
  {
    assert (chunks + [chunk])[..|chunks|] == chunks;
  }

  lemma MulAtLeast(k: int, size: int)
    requires size > 0
    ensures k >= 1 ==> k * size >= size
    ensures k <= -1 ==> k * size <= -size
  {}

  lemma DivExact(n: nat, size: nat)
    requires size > 0
    ensures n * size / size == n
  {
    var p := n * size;
    var q := p / size;
    assert (n - q) * size == p - q * size;
    MulAtLeast(n - q, size);
  }

  lemma NoMembers(latest: Touches, deltas: seq<Delta>, k: GroupKey)
    requires Covered(latest, deltas)
    ensures k in GroupKeys(latest, deltas) || Members(latest, deltas, k) == []
  {
    var m := Members(latest, deltas, k);
    if m != [] {
      assert m[0] in m;
      assert GroupOf(latest, m[0]) in GroupKeys(latest, deltas);
    }
  }

  // ----- the candidates partition the deltas -----

  function DeltaIdsOf(c: Segment): seq<Id> { c.deltaIds }

  /** Every delta id assigned to some candidate, in candidate order. */
  function AssignedIds(candidates: seq<Segment>): seq<Id> { FlatMap(DeltaIdsOf, candidates) }

  function MembersOf(latest: Touches, deltas: seq<Delta>): GroupKey -> seq<Delta>
    requires Covered(latest, deltas)
  {
    k => Members(latest, deltas, k)
  }

  lemma {:induction false} NumberedIds(f: Frame, commit: Snapshot, k: GroupKey, chunks: seq<seq<Delta>>)
    ensures AssignedIds(NumberChunks(f, commit, k, chunks)) == Map(DeltaIdOf, Concat(chunks))
  {
    if chunks != [] {
      var init, last := chunks[..|chunks| - 1], chunks[|chunks| - 1];
      assert chunks == init + [last];
      NumberedIds(f, commit, k, init);
      NumberedIdsSnoc(f, commit, k, init, last);
    }
  }

  lemma NumberedIdsSnoc(f: Frame, commit: Snapshot, k: GroupKey, init: seq<seq<Delta>>, last: seq<Delta>)
    requires AssignedIds(NumberChunks(f, commit, k, init)) == Map(DeltaIdOf, Concat(init))
    ensures AssignedIds(NumberChunks(f, commit, k, init + [last])) == Map(DeltaIdOf, Concat(init + [last]))
  {
    var segment := SegmentOf(f, commit, k, |init| + 1, last);
    NumberSnoc(f, commit, k, init, last);
    FlatMapOne(DeltaIdsOf, NumberChunks(f, commit, k, init), segment);
    ConcatSnoc(init, last);
    MapAppend(DeltaIdOf, Concat(init), last);
    assert DeltaIdsOf(segment) == Map(DeltaIdOf, last);
  }

  /** The ids of one group's candidates, in order, are the ids of the group's deltas in path order. */
  lemma GroupIds(f: Frame, latest: Touches, deltas: seq<Delta>, k: GroupKey)
    requires f.maxPaths > 0 && Covered(latest, deltas) && Increasing(DeltaKey, deltas)
    ensures AssignedIds(GroupSegments(f, latest, deltas, k)) == Map(DeltaIdOf, Members(latest, deltas, k))
  {
    var members := Members(latest, deltas, k);
    MembersIncreasing(latest, deltas, k);
    SortByIncreasing(DeltaKey, members);
    if members != [] {
      ChunksExact(members, f.maxPaths);
      NumberedIds(f, latest[members[0].path], k, Chunks(members, f.maxPaths));
    }
  }

  lemma {:induction false} AssignedOver(f: Frame, latest: Touches, deltas: seq<Delta>, keys: seq<GroupKey>)
    requires f.maxPaths > 0 && Covered(latest, deltas) && Increasing(DeltaKey, deltas)
    ensures AssignedIds(FlatMap(GroupSegmentsOf(f, latest, deltas), keys))
            == Map(DeltaIdOf, FlatMap(MembersOf(latest, deltas), keys))
  {
    if keys != [] {
      var n := |keys| - 1;
      AssignedOver(f, latest, deltas, keys[..n]);
      GroupIds(f, latest, deltas, keys[n]);
      FlatMapAppend(DeltaIdsOf, FlatMap(GroupSegmentsOf(f, latest, deltas), keys[..n]), GroupSegments(f, latest, deltas, keys[n]));
      MapAppend(DeltaIdOf, FlatMap(MembersOf(latest, deltas), keys[..n]), Members(latest, deltas, keys[n]));
    }
  }

  /** Adding a delta adds it to its own group and to no other. */
  lemma {:induction false} MembersSnoc(latest: Touches, init: seq<Delta>, d: Delta, keys: seq<GroupKey>)
    requires Covered(latest, init) && d.path in latest && Covered(latest, init + [d])
    requires Unique(keys)
    ensures multiset(FlatMap(MembersOf(latest, init + [d]), keys))
            == multiset(FlatMap(MembersOf(latest, init), keys)) + (if GroupOf(latest, d) in keys then multiset{d} else multiset{})
  {
    if keys != [] {
      var n := |keys| - 1;
      assert keys == keys[..n] + [keys[n]];
      UniqueSnoc(keys[..n], keys[n]);
      MembersSnoc(latest, init, d, keys[..n]);
      MemberSnoc(latest, init, d, keys[n]);
    }
  }

  lemma {:induction false} MembersPartition(latest: Touches, deltas: seq<Delta>, keys: seq<GroupKey>)
    requires Covered(latest, deltas) && Unique(keys)
    requires forall d | d in deltas :: GroupOf(latest, d) in keys
    ensures multiset(FlatMap(MembersOf(latest, deltas), keys)) == multiset(deltas)
  {
    if deltas == [] {
      NoDeltas(latest, keys);
    } else {
      var n := |deltas| - 1;
      assert deltas == deltas[..n] + [deltas[n]];
      MembersPartition(latest, deltas[..n], keys);
      MembersSnoc(latest, deltas[..n], deltas[n], keys);
    }
  }

  lemma {:induction false} NoDeltas(latest: Touches, keys: seq<GroupKey>)
    ensures FlatMap(MembersOf(latest, []), keys) == []
  {
    if keys != [] { NoDeltas(latest, keys[..|keys| - 1]); }
  }

  lemma GroupOrderInjective(j: GroupKey, k: GroupKey)
    requires GroupOrder(j) == GroupOrder(k)
    ensures j == k
  {
    assert GroupOrder(j)[0] == GroupOrder(k)[0] && GroupOrder(j)[1] == GroupOrder(k)[1];
  }

  /** Every delta is in exactly one candidate, at exactly one place. */
  lemma CandidatesPartition(f: Frame, latest: Touches, deltas: seq<Delta>)
    requires f.maxPaths > 0 && Covered(latest, deltas) && Increasing(DeltaKey, deltas)
    ensures multiset(AssignedIds(Candidates(f, latest, deltas))) == multiset(Map(DeltaIdOf, deltas))
  {
    var keys := SortedGroups(GroupKeys(latest, deltas));
    AssignedOver(f, latest, deltas, keys);
    assert Unique(keys) by {
      forall i, j | 0 <= i < j < |keys| ensures keys[i] != keys[j] { KeyAsymmetric(GroupOrder(keys[i]), GroupOrder(keys[j])); }
    }
    MembersPartition(latest, deltas, keys);
    MapMultiset(DeltaIdOf, FlatMap(MembersOf(latest, deltas), keys), deltas);
  }

  /** The final exact-assignment check of a segmentation never fails. */
  lemma ExactAssignmentHolds(f: Frame, latest: Touches, deltas: seq<Delta>)
    requires f.maxPaths > 0 && Covered(latest, deltas) && Increasing(DeltaKey, deltas)
    ensures SortBy(IdKey, AssignedIds(Candidates(f, latest, deltas))) == SortBy(IdKey, Map(DeltaIdOf, deltas))
  {
    CandidatesPartition(f, latest, deltas);
    SortedIdsAgree(AssignedIds(Candidates(f, latest, deltas)), Map(DeltaIdOf, deltas));
  }

  lemma SortedIdsAgree(a: seq<Id>, b: seq<Id>)
    requires multiset(a) == multiset(b)
    ensures SortBy(IdKey, a) == SortBy(IdKey, b)
  {
    var id := (x: Id) => x;
    SortForgetsOrder(IdKey, id, a, b);
    assert Map(id, SortBy(IdKey, a)) == SortBy(IdKey, a) && Map(id, SortBy(IdKey, b)) == SortBy(IdKey, b);
  }

  /** What every candidate is: a bounded, ordered run of deltas sharing commit and path group. */
  ghost predicate SoundCandidate(f: Frame, latest: Touches, deltas: seq<Delta>, c: Segment)
    requires Covered(latest, deltas)
  {
    && ValidSegment(c) && |c.paths| <= f.maxPaths
    && c.generation == f.generation && c.run == f.run
    && forall i | 0 <= i < |c.paths| :: DeltaFor(latest, deltas, c, i)
  }

  ghost predicate DeltaFor(latest: Touches, deltas: seq<Delta>, c: Segment, i: nat)
    requires Covered(latest, deltas)
  {
    exists d | d in deltas ::
      && i < |c.deltaIds| && c.deltaIds[i] == d.id && i < |c.paths| && c.paths[i] == d.path
      && latest[d.path].ordinal == c.commitOrdinal && latest[d.path].sha == c.commitSha
      && PathGroup(d.path) == c.group
  }

  lemma CandidateSound(f: Frame, latest: Touches, deltas: seq<Delta>, c: Segment)
    requires f.maxPaths > 0 && Covered(latest, deltas) && Increasing(DeltaKey, deltas) && OrdinalsDistinct(latest)
    requires Unique(Map(DeltaIdOf, deltas))
    requires c in Candidates(f, latest, deltas)
    ensures SoundCandidate(f, latest, deltas, c)
  {
    var keys := SortedGroups(GroupKeys(latest, deltas));
    FlatMapMembers(GroupSegmentsOf(f, latest, deltas), keys, c);
    var g :| 0 <= g < |keys| && c in GroupSegments(f, latest, deltas, keys[g]);
    GroupSound(f, latest, deltas, keys[g], c);
  }

  lemma GroupSound(f: Frame, latest: Touches, deltas: seq<Delta>, k: GroupKey, c: Segment)
    requires f.maxPaths > 0 && Covered(latest, deltas) && Increasing(DeltaKey, deltas) && OrdinalsDistinct(latest)
    requires Unique(Map(DeltaIdOf, deltas))
    requires c in GroupSegments(f, latest, deltas, k)
    ensures SoundCandidate(f, latest, deltas, c)
  {
    var ordinal, chunk := GroupChunk(f, latest, deltas, k, c);
    ChunkSound(f, latest, deltas, k, ordinal, chunk);
  }

  /** The chunk that a candidate of one group was made from. */
  lemma GroupChunk(f: Frame, latest: Touches, deltas: seq<Delta>, k: GroupKey, c: Segment) returns (ordinal: nat, chunk: seq<Delta>)
    requires f.maxPaths > 0 && Covered(latest, deltas) && Increasing(DeltaKey, deltas)
    requires c in GroupSegments(f, latest, deltas, k)
    ensures 0 < |chunk| <= f.maxPaths && Increasing(DeltaKey, chunk)
    ensures Members(latest, deltas, k) != [] && forall d | d in chunk :: d in Members(latest, deltas, k)
    ensures c == SegmentOf(f, latest[Members(latest, deltas, k)[0].path], k, ordinal, chunk)
  {
    var members := Members(latest, deltas, k);
    MembersIncreasing(latest, deltas, k);
    SortByIncreasing(DeltaKey, members);
    var chunks := Chunks(members, f.maxPaths);
    var commit := latest[members[0].path];
    var n := SegmentChunk(f, commit, k, chunks, c);
    ordinal, chunk := n + 1, chunks[n];
    ChunksExact(members, f.maxPaths);
    ChunkIsSlice(members, f.maxPaths, n);
  }

  function PathsOfSegment(c: Segment): seq<string> { c.paths }

  /** The candidates of one group are numbered from 1, full but for the last, and list the paths of the group in order. */
  lemma GroupCandidates(f: Frame, latest: Touches, deltas: seq<Delta>, k: GroupKey)
    requires f.maxPaths > 0 && Covered(latest, deltas) && Increasing(DeltaKey, deltas)
    ensures NumberedFor(f, k, GroupSegments(f, latest, deltas, k))
    ensures FlatMap(PathsOfSegment, GroupSegments(f, latest, deltas, k)) == Map(DeltaPathOf, Members(latest, deltas, k))
  {
    var members := Members(latest, deltas, k);
    MembersIncreasing(latest, deltas, k);
    SortByIncreasing(DeltaKey, members);
    if members != [] { ChunkedCandidates(f, latest[members[0].path], k, members); }
  }

  predicate NumberedFor(f: Frame, k: GroupKey, s: seq<Segment>) {
    && (forall i | 0 <= i < |s| :: s[i].chunkOrdinal == i + 1 && s[i].commitOrdinal == k.ordinal && s[i].group == k.group)
    && (forall i | 0 <= i < |s| - 1 :: |s[i].paths| == f.maxPaths)
  }

  lemma ChunkedCandidates(f: Frame, commit: Snapshot, k: GroupKey, members: seq<Delta>)
    requires f.maxPaths > 0
    ensures NumberedFor(f, k, NumberChunks(f, commit, k, Chunks(members, f.maxPaths)))
    ensures FlatMap(PathsOfSegment, NumberChunks(f, commit, k, Chunks(members, f.maxPaths))) == Map(DeltaPathOf, members)
  {
    ChunksExact(members, f.maxPaths);
    NumberedPaths(f, commit, k, Chunks(members, f.maxPaths));
  }

  lemma {:induction false} NumberedPaths(f: Frame, commit: Snapshot, k: GroupKey, chunks: seq<seq<Delta>>)
    ensures FlatMap(PathsOfSegment, NumberChunks(f, commit, k, chunks)) == Map(DeltaPathOf, Concat(chunks))
  {
    if chunks != [] {
      var n := |chunks| - 1;
      NumberedPaths(f, commit, k, chunks[..n]);
      assert chunks == chunks[..n] + [chunks[n]];
      ConcatSnoc(chunks[..n], chunks[n]);
      MapAppend(DeltaPathOf, Concat(chunks[..n]), chunks[n]);
      FlatMapOne(PathsOfSegment, NumberChunks(f, commit, k, chunks[..n]), SegmentOf(f, commit, k, n + 1, chunks[n]));
    }
  }

  /** Two candidates have one id exactly when run, commit, group and number are the same. */
  lemma CandidateIdsDecide(
      f: Frame, latest: Touches, deltas: seq<Delta>, c: Segment, g: Frame, other: Touches, more: seq<Delta>, e: Segment)
    requires f.maxPaths > 0 && Covered(latest, deltas) && Increasing(DeltaKey, deltas) && c in Candidates(f, latest, deltas)
    requires g.maxPaths > 0 && Covered(other, more) && Increasing(DeltaKey, more) && e in Candidates(g, other, more)
    ensures c.id == e.id <==> c.run == e.run && c.commitSha == e.commitSha && c.group == e.group && c.chunkOrdinal == e.chunkOrdinal
  {
    CandidateId(f, latest, deltas, c);
    CandidateId(g, other, more, e);
    NamedIdsDecide(c, e);
  }

  predicate NamedByParts(c: Segment) {
    c.id == [Text("interval-candidate-segment"), Text(c.run), Text(c.commitSha), Text(c.group), Num(c.chunkOrdinal)]
  }

  lemma NamedIdsDecide(c: Segment, e: Segment)
    requires NamedByParts(c) && NamedByParts(e)
    ensures c.id == e.id <==> c.run == e.run && c.commitSha == e.commitSha && c.group == e.group && c.chunkOrdinal == e.chunkOrdinal
  {
    if c.id == e.id { assert c.id[1] == e.id[1] && c.id[2] == e.id[2] && c.id[3] == e.id[3] && c.id[4] == e.id[4]; }
  }

  lemma CandidateId(f: Frame, latest: Touches, deltas: seq<Delta>, c: Segment)
    requires f.maxPaths > 0 && Covered(latest, deltas) && Increasing(DeltaKey, deltas) && c in Candidates(f, latest, deltas)
    ensures NamedByParts(c)
  {
    var keys := SortedGroups(GroupKeys(latest, deltas));
    FlatMapMembers(GroupSegmentsOf(f, latest, deltas), keys, c);
    var g :| 0 <= g < |keys| && c in GroupSegments(f, latest, deltas, keys[g]);
    var ordinal, chunk := GroupChunk(f, latest, deltas, keys[g], c);
    SegmentNamed(f, latest[Members(latest, deltas, keys[g])[0].path], keys[g], ordinal, chunk);
  }

  lemma SegmentNamed(f: Frame, commit: Snapshot, k: GroupKey, ordinal: nat, chunk: seq<Delta>)
    ensures NamedByParts(SegmentOf(f, commit, k, ordinal, chunk))
  {}

  lemma SegmentChunk(f: Frame, commit: Snapshot, k: GroupKey, chunks: seq<seq<Delta>>, c: Segment) returns (n: nat)
    requires c in NumberChunks(f, commit, k, chunks)
    ensures n < |chunks| && c == SegmentOf(f, commit, k, n + 1, chunks[n])
  {
    var segments := NumberChunks(f, commit, k, chunks);
    n :| 0 <= n < |segments| && c == segments[n];
  }

  /** A chunk of a strictly ordered list is a strictly ordered part of it. */
  lemma {:induction false} ChunkIsSlice(s: seq<Delta>, size: nat, n: nat)
    requires size > 0 && Increasing(DeltaKey, s) && n < |Chunks(s, size)|
    ensures Increasing(DeltaKey, Chunks(s, size)[n])
    ensures forall d | d in Chunks(s, size)[n] :: d in s
    decreases |s|
  {
    if |s| > size {
      if n > 0 {
        ChunkIsSlice(s[size..], size, n - 1);
        assert Chunks(s, size)[n] == Chunks(s[size..], size)[n - 1];
      }
    }
  }

  lemma ChunkSound(f: Frame, latest: Touches, deltas: seq<Delta>, k: GroupKey, ordinal: nat, chunk: seq<Delta>)
    requires f.maxPaths > 0 && Covered(latest, deltas) && OrdinalsDistinct(latest) && Unique(Map(DeltaIdOf, deltas))
    requires 0 < |chunk| <= f.maxPaths && Increasing(DeltaKey, chunk)
    requires Members(latest, deltas, k) != [] && forall d | d in chunk :: d in Members(latest, deltas, k)
    ensures SoundCandidate(f, latest, deltas, SegmentOf(f, latest[Members(latest, deltas, k)[0].path], k, ordinal, chunk))
  {
    var first := Members(latest, deltas, k)[0];
    assert first in Members(latest, deltas, k);
    var c := SegmentOf(f, latest[first.path], k, ordinal, chunk);
    forall i | 0 <= i < |c.paths| ensures DeltaFor(latest, deltas, c, i) {
      assert chunk[i] in chunk;
    }
    forall d | d in chunk ensures d in deltas {}
    ChunkIdsUnique(deltas, chunk);
    ChunkPathsIncreasing(chunk);
  }

  lemma ChunkIdsUnique(deltas: seq<Delta>, chunk: seq<Delta>)
    requires Unique(Map(DeltaIdOf, deltas)) && Increasing(DeltaKey, chunk)
    requires forall d | d in chunk :: d in deltas
    ensures Unique(Map(DeltaIdOf, chunk))
  {
    forall i, j | 0 <= i < j < |chunk| ensures chunk[i].id != chunk[j].id {
      assert chunk[i] in chunk && chunk[j] in chunk;
      KeyAsymmetric(DeltaKey(chunk[i]), DeltaKey(chunk[j]));
      var a :| 0 <= a < |deltas| && deltas[a] == chunk[i];
      var b :| 0 <= b < |deltas| && deltas[b] == chunk[j];
      assert Map(DeltaIdOf, deltas)[a] == chunk[i].id && Map(DeltaIdOf, deltas)[b] == chunk[j].id;
    }
  }

  lemma ChunkPathsIncreasing(chunk: seq<Delta>)
    requires Increasing(DeltaKey, chunk)
    ensures Increasing(TextKey, Map(DeltaPathOf, chunk))
  {
    var paths := Map(DeltaPathOf, chunk);
    forall i, j | 0 <= i < j < |paths| ensures KeyLess(TextKey(paths[i]), TextKey(paths[j])) {
      assert KeyLess(DeltaKey(chunk[i]), DeltaKey(chunk[j]));
    }
  }
}
