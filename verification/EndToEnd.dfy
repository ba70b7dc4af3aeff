/**
  From two Git trees to reduced candidates: what segmentation and planning produce passes every
  check that reduction makes, and no changed path is lost or misattributed on the way.
*/
module EndToEnd {
  import opened Wrappers
  import opened Orders
  import opened Digests
  import opened TreeDiff
  import opened Segmentation
  import opened Planning
  import opened Reduction
  import opened ReductionChecks
  import opened Pipeline
  import C = Changes
  import D = Determinism

  // ----- what the diff hands on -----

  lemma DiffIds(g: Generation, surface: string -> Surface, previous: Entries, current: Entries)
    ensures forall d | d in Diff(g, surface, previous, current) ::
              d.generation == g && d.id == DeltaId(g, d.path, d.change)
  {
    forall d | d in Diff(g, surface, previous, current) ensures d.generation == g && d.id == DeltaId(g, d.path, d.change) {
      DiffMember(g, surface, previous, current, d);
    }
  }

  /** Deltas come in path order, and their ids tell the paths apart. */
  predicate Named(deltas: seq<Delta>) {
    && Increasing(DeltaKey, deltas)
    && forall d | d in deltas :: d.id == DeltaId(d.generation, d.path, d.change)
  }

  lemma NamedApart(deltas: seq<Delta>, i: nat, j: nat)
    requires Named(deltas) && i < |deltas| && j < |deltas|
    ensures deltas[i].id == deltas[j].id || deltas[i].path == deltas[j].path ==> i == j
  {
    assert deltas[i] in deltas && deltas[j] in deltas;
    if deltas[i].id == deltas[j].id {
      assert deltas[i].id[4] == Text(deltas[i].path) && deltas[j].id[4] == Text(deltas[j].path);
    }
    if deltas[i].path == deltas[j].path { IncreasingDistinct(DeltaKey, deltas, i, j); }
  }

  lemma NamedDistinct(deltas: seq<Delta>)
    requires Named(deltas)
    ensures Unique(Map(DeltaIdOf, deltas)) && DeltaPathsDistinct(deltas)
  {
    forall i, j | 0 <= i < j < |deltas| ensures Map(DeltaIdOf, deltas)[i] != Map(DeltaIdOf, deltas)[j] {
      NamedApart(deltas, i, j);
    }
    forall d, e | d in deltas && e in deltas && d.path == e.path ensures d == e {
      var i :| 0 <= i < |deltas| && deltas[i] == d;
      var j :| 0 <= j < |deltas| && deltas[j] == e;
      NamedApart(deltas, i, j);
    }
  }

  lemma FoundById(deltas: seq<Delta>, d: Delta)
    requires Named(deltas) && d in deltas
    ensures DeltaById(deltas, d.id) == Some(d)
  {
    var e := DeltaById(deltas, d.id).value;
    var i :| 0 <= i < |deltas| && deltas[i] == d;
    var j :| 0 <= j < |deltas| && deltas[j] == e;
    NamedApart(deltas, i, j);
  }

  // ----- segmentation passes the candidate check -----

  function PathById(deltas: seq<Delta>): Id -> string {
    id => match DeltaById(deltas, id) case Some(d) => d.path case None => ""
  }

  lemma {:induction false} PathsFollowIds(deltas: seq<Delta>, candidates: seq<Segment>, g: Generation)
    requires forall c | c in candidates :: CandidateFits(g, deltas, c) && |c.deltaIds| == |c.paths|
    ensures AssignedPaths(candidates) == Map(PathById(deltas), AssignedIds(candidates))
  {
    if candidates != [] {
      var n := |candidates| - 1;
      var last := candidates[n];
      assert last in candidates;
      PathsFollowIds(deltas, candidates[..n], g);
      MapAppend(PathById(deltas), AssignedIds(candidates[..n]), last.deltaIds);
      assert last.paths == Map(PathById(deltas), last.deltaIds) by {
        forall i | 0 <= i < |last.paths| ensures last.paths[i] == PathById(deltas)(last.deltaIds[i]) {
          assert Membership(deltas, last, i);
        }
      }
    }
  }

  lemma PathsUnique(deltas: seq<Delta>, ids: seq<Id>)
    requires Named(deltas) && Unique(ids) && forall id | id in ids :: DeltaById(deltas, id).Some?
    ensures Unique(Map(PathById(deltas), ids))
  {
    NamedDistinct(deltas);
    var paths := Map(PathById(deltas), ids);
    forall i, j | 0 <= i < j < |paths| ensures paths[i] != paths[j] {
      assert ids[i] in ids && ids[j] in ids;
      assert DeltaById(deltas, ids[i]).value.id == ids[i] && DeltaById(deltas, ids[j]).value.id == ids[j];
    }
  }

  lemma CandidateFitsDeltas(f: Frame, latest: Touches, deltas: seq<Delta>, c: Segment)
    requires Covered(latest, deltas) && Named(deltas) && SoundCandidate(f, latest, deltas, c)
    ensures CandidateFits(f.generation, deltas, c)
  {
    forall i | 0 <= i < |c.paths| ensures Membership(deltas, c, i) {
      assert DeltaFor(latest, deltas, c, i);
      var d :| d in deltas && c.deltaIds[i] == d.id && c.paths[i] == d.path;
      FoundById(deltas, d);
    }
  }

  lemma CandidatesFit(f: Frame, latest: Touches, deltas: seq<Delta>)
    requires f.maxPaths > 0 && Covered(latest, deltas) && OrdinalsDistinct(latest) && Named(deltas)
    ensures forall c | c in Candidates(f, latest, deltas) :: CandidateFits(f.generation, deltas, c) && ValidSegment(c)
  {
    NamedDistinct(deltas);
    forall c | c in Candidates(f, latest, deltas) ensures CandidateFits(f.generation, deltas, c) && ValidSegment(c) {
      CandidateSound(f, latest, deltas, c);
      CandidateFitsDeltas(f, latest, deltas, c);
    }
  }

  lemma AssignedOnce(f: Frame, latest: Touches, deltas: seq<Delta>)
    requires f.maxPaths > 0 && Covered(latest, deltas) && Named(deltas)
    ensures Unique(AssignedIds(Candidates(f, latest, deltas)))
    ensures forall id :: id in AssignedIds(Candidates(f, latest, deltas)) <==> id in Map(DeltaIdOf, deltas)
  {
    NamedDistinct(deltas);
    CandidatesPartition(f, latest, deltas);
    UniquePermutes(AssignedIds(Candidates(f, latest, deltas)), Map(DeltaIdOf, deltas));
    MultisetMembers(AssignedIds(Candidates(f, latest, deltas)), Map(DeltaIdOf, deltas));
  }

  lemma IdFound(deltas: seq<Delta>, id: Id)
    requires id in Map(DeltaIdOf, deltas)
    ensures DeltaById(deltas, id).Some?
  {
    var i :| 0 <= i < |deltas| && Map(DeltaIdOf, deltas)[i] == id;
    assert deltas[i] in deltas;
  }

  /** The candidates of a segmentation always pass the coverage check of reduction. */
  lemma CandidatesCover(f: Frame, latest: Touches, deltas: seq<Delta>)
    requires f.maxPaths > 0 && Covered(latest, deltas) && OrdinalsDistinct(latest) && Named(deltas)
    ensures CandidateCoverage(f.generation, deltas, Candidates(f, latest, deltas))
    ensures forall c | c in Candidates(f, latest, deltas) :: ValidSegment(c)
  {
    var candidates := Candidates(f, latest, deltas);
    CandidatesFit(f, latest, deltas);
    AssignedOnce(f, latest, deltas);
    PathsFollowIds(deltas, candidates, f.generation);
    forall id | id in AssignedIds(candidates) ensures DeltaById(deltas, id).Some? { IdFound(deltas, id); }
    PathsUnique(deltas, AssignedIds(candidates));
  }

  // ----- planning passes the plan check -----

  lemma PlanOfDelta(g: Generation, run: string, deltas: seq<Delta>, d: Delta)
    requires Named(deltas) && d in deltas && PlanDelta(run, d).Ok? && d.generation == g
    ensures PlanFits(g, run, deltas, PlanDelta(run, d).value)
    ensures PlanDelta(run, d).value.id == PlanId(run, d.id) && PlanDelta(run, d).value.deltaId == d.id
  {
    FoundById(deltas, d);
  }

  lemma PlanIdInjective(run: string, a: Id, b: Id)
    requires PlanId(run, a) == PlanId(run, b)
    ensures a == b
  {
    assert a == PlanId(run, a)[2..] && b == PlanId(run, b)[2..];
  }

  predicate Plannable(g: Generation, run: string, deltas: seq<Delta>) {
    Named(deltas) && forall d | d in deltas :: PlanDelta(run, d).Ok? && d.generation == g
  }

  lemma PlanAtIndex(g: Generation, run: string, deltas: seq<Delta>, i: nat)
    requires Plannable(g, run, deltas) && i < |deltas|
    ensures deltas[i] in deltas
    ensures PlanAll(run, deltas)[i] == PlanDelta(run, deltas[i]).value
    ensures PlanFits(g, run, deltas, PlanAll(run, deltas)[i])
    ensures PlanAll(run, deltas)[i].id == PlanId(run, deltas[i].id) && PlanAll(run, deltas)[i].deltaId == deltas[i].id
  {
    PlanOfDelta(g, run, deltas, deltas[i]);
  }

  /** The plans of one planning run pass the plan check of reduction. */
  lemma PlansCover(g: Generation, run: string, deltas: seq<Delta>)
    requires Plannable(g, run, deltas)
    ensures PlanCoverage(g, run, deltas, PlanAll(run, deltas))
  {
    var plans := PlanAll(run, deltas);
    forall i | 0 <= i < |plans| ensures PlanFits(g, run, deltas, plans[i]) && plans[i].deltaId == deltas[i].id {
      PlanAtIndex(g, run, deltas, i);
    }
    assert Map(PlanDeltaOf, plans) == Map(DeltaIdOf, deltas);
    NamedDistinct(deltas);
  }

  lemma PlanIdsDistinct(g: Generation, run: string, deltas: seq<Delta>)
    requires Plannable(g, run, deltas)
    ensures forall p, q | p in PlanAll(run, deltas) && q in PlanAll(run, deltas) && p.id == q.id :: p == q
  {
    var plans := PlanAll(run, deltas);
    forall p, q | p in plans && q in plans && p.id == q.id ensures p == q {
      var i :| 0 <= i < |plans| && plans[i] == p;
      var j :| 0 <= j < |plans| && plans[j] == q;
      PlanAtIndex(g, run, deltas, i);
      PlanAtIndex(g, run, deltas, j);
      PlanIdInjective(run, deltas[i].id, deltas[j].id);
      NamedApart(deltas, i, j);
    }
  }

  // ----- the walk feeds segmentation -----

  /** Snapshots are numbered from 1 in commit order. */
  predicate Enumerated(snapshots: seq<Snapshot>) {
    forall i | 0 <= i < |snapshots| :: snapshots[i].ordinal == i + 1
  }

  lemma {:induction false} IndexedSnapshots(snapshots: seq<Snapshot>, sha: string)
    requires sha in Index(snapshots)
    ensures Index(snapshots)[sha] in snapshots
  {
    var n := |snapshots| - 1;
    if sha != snapshots[n].sha { IndexedSnapshots(snapshots[..n], sha); }
  }

  lemma {:induction false} ChainSnapshots(snapshots: seq<Snapshot>, base: string, head: string, chain: seq<Snapshot>)
    requires Chain(Index(snapshots), base, head, chain)
    ensures forall s | s in chain :: s in snapshots
    decreases |chain|
  {
    if head != base {
      var n := |chain| - 1;
      ChainSnapshots(snapshots, base, Index(snapshots)[head].parents[0], chain[..n]);
      IndexedSnapshots(snapshots, head);
      assert chain == chain[..n] + [chain[n]];
    }
  }

  lemma LatestOnChain(snapshots: seq<Snapshot>, chain: seq<Snapshot>, latest: Touches, wanted: set<string>)
    requires Enumerated(snapshots) && forall s | s in chain :: s in snapshots
    requires LatestOf(latest, chain, wanted)
    ensures OrdinalsDistinct(latest)
  {
    forall p | p in latest ensures latest[p] in snapshots {
      assert Get(latest, p) == Some(latest[p]);
    }
  }

  lemma TouchesCover(chain: seq<Snapshot>, latest: Touches, deltas: seq<Delta>)
    requires LatestOf(latest, chain, set d | d in deltas :: d.path)
    requires forall d | d in deltas :: LastTouch(chain, d.path).Some?
    ensures Covered(latest, deltas)
    ensures forall d | d in deltas :: d.path in latest && latest[d.path] == chain[LastTouch(chain, d.path).value]
  {
    var wanted := set d | d in deltas :: d.path;
    forall d | d in deltas ensures d.path in latest && latest[d.path] == chain[LastTouch(chain, d.path).value] {
      assert d.path in wanted;
      assert Get(latest, d.path) == Some(chain[LastTouch(chain, d.path).value]);
    }
  }

  // ----- one interval, from its two trees to its candidates -----

  datatype Interval = Interval(
    surface: string -> Surface, previous: Entries, current: Entries,
    base: string, head: string, snapshots: seq<Snapshot>, chain: seq<Snapshot>, latest: Touches, frame: Frame)

  /** Entries as a canonical capture holds them. */
  predicate GitTree(entries: Entries) {
    forall p | p in entries :: p != "" && entries[p].kind in {"blob", "tree", "commit"}
  }

  function DeltasOf(v: Interval): seq<Delta> {
    Diff(v.frame.generation, v.surface, v.previous, v.current)
  }

  function CandidatesOf(v: Interval): seq<Segment> {
    if v.frame.maxPaths > 0 && Covered(v.latest, DeltasOf(v)) then Candidates(v.frame, v.latest, DeltasOf(v)) else []
  }

  function PlansOf(v: Interval, run: string): seq<Plan> {
    if forall d | d in DeltasOf(v) :: PlanDelta(run, d).Ok? then PlanAll(run, DeltasOf(v)) else []
  }

  /** leaves tells what tree each commit carries; touched sets are complete along the first-parent chain. */
  ghost predicate SoundInterval(leaves: string -> map<string, Leaf>, v: Interval) {
    && GitTree(v.previous) && GitTree(v.current)
    && Leaves(v.previous) == leaves(v.base) && Leaves(v.current) == leaves(v.head)
    && Enumerated(v.snapshots) && Chain(Index(v.snapshots), v.base, v.head, v.chain) && TouchComplete(leaves, v.chain)
    && LatestOf(v.latest, v.chain, set d | d in DeltasOf(v) :: d.path)
    && v.frame.maxPaths > 0
  }

  lemma IntervalCovered(leaves: string -> map<string, Leaf>, v: Interval)
    requires SoundInterval(leaves, v)
    ensures Covered(v.latest, DeltasOf(v)) && OrdinalsDistinct(v.latest)
    ensures forall d | d in DeltasOf(v) ::
              d.path in v.latest && Get(leaves(v.latest[d.path].sha), d.path) == Get(leaves(v.head), d.path)
  {
    var index := Index(v.snapshots);
    NoMissingTouch(leaves, index, v.base, v.head, v.chain, v.frame.generation, v.surface, v.previous, v.current);
    ChainSnapshots(v.snapshots, v.base, v.head, v.chain);
    LatestOnChain(v.snapshots, v.chain, v.latest, set d | d in DeltasOf(v) :: d.path);
    TouchesCover(v.chain, v.latest, DeltasOf(v));
    forall d | d in DeltasOf(v)
      ensures Get(leaves(v.latest[d.path].sha), d.path) == Get(leaves(v.head), d.path)
    {
      LatestTouchTelescopes(leaves, index, v.base, v.head, v.chain, d.path);
    }
  }

  lemma IntervalPlannable(v: Interval, run: string)
    requires GitTree(v.previous) && GitTree(v.current)
    ensures Plannable(v.frame.generation, run, DeltasOf(v))
  {
    var g := v.frame.generation;
    DiffIncreasing(g, v.surface, v.previous, v.current);
    DiffIds(g, v.surface, v.previous, v.current);
    DiffTransitionsValid(g, v.surface, v.previous, v.current);
    forall d | d in DeltasOf(v) ensures PlanDelta(run, d).Ok? {
      DiffMember(g, v.surface, v.previous, v.current, d);
      PlanDeltaTotal(run, d);
    }
  }

  lemma OneHolder<T, U(!new)>(f: T -> seq<U>, s: seq<T>, i: nat, j: nat, u: U)
    requires Unique(FlatMap(f, s)) && i < |s| && j < |s| && u in f(s[i]) && u in f(s[j])
    ensures i == j
  {
    if i < j { TwoHolders(f, s, i, j, u); }
    if j < i { TwoHolders(f, s, j, i, u); }
  }

  lemma TwoHolders<T, U>(f: T -> seq<U>, s: seq<T>, i: nat, j: nat, u: U)
    requires i < j < |s| && u in f(s[i]) && u in f(s[j])
    ensures !Unique(FlatMap(f, s))
  {
    var a, b := s[..i + 1], s[i + 1..];
    assert s == a + b;
    FlatMapAppend(f, a, b);
    assert a[i] == s[i] && b[j - i - 1] == s[j];
    FlatMapMembers(f, a, u);
    FlatMapMembers(f, b, u);
    var m :| 0 <= m < |FlatMap(f, a)| && FlatMap(f, a)[m] == u;
    var n :| 0 <= n < |FlatMap(f, b)| && FlatMap(f, b)[n] == u;
    assert FlatMap(f, s)[m] == u && FlatMap(f, s)[|FlatMap(f, a)| + n] == u;
  }

  /** The candidate that holds a delta: it holds its path, and its commit is the path's latest touch. */
  lemma DeltaIsHeld(f: Frame, latest: Touches, deltas: seq<Delta>, d: Delta) returns (c: Segment)
    requires f.maxPaths > 0 && Covered(latest, deltas) && OrdinalsDistinct(latest) && Named(deltas) && d in deltas
    ensures c in Candidates(f, latest, deltas) && d.path in c.paths && c.commitSha == latest[d.path].sha
  {
    var candidates := Candidates(f, latest, deltas);
    AssignedOnce(f, latest, deltas);
    var k :| 0 <= k < |deltas| && deltas[k] == d;
    assert Map(DeltaIdOf, deltas)[k] == d.id;
    FlatMapMembers(DeltaIdsOf, candidates, d.id);
    var i :| 0 <= i < |candidates| && d.id in candidates[i].deltaIds;
    c := candidates[i];
    NamedDistinct(deltas);
    CandidateSound(f, latest, deltas, c);
    var j :| 0 <= j < |c.deltaIds| && c.deltaIds[j] == d.id;
    assert DeltaFor(latest, deltas, c, j);
    var e :| e in deltas && c.deltaIds[j] == e.id && c.paths[j] == e.path && latest[e.path].sha == c.commitSha;
    FoundById(deltas, d);
    FoundById(deltas, e);
  }

  /** Each candidate path is the path of a delta, and no two candidates hold the same path. */
  lemma HeldPaths(f: Frame, latest: Touches, deltas: seq<Delta>)
    requires f.maxPaths > 0 && Covered(latest, deltas) && OrdinalsDistinct(latest) && Named(deltas)
    ensures forall c, path | c in Candidates(f, latest, deltas) && path in c.paths :: PathEmitted(deltas, path)
    ensures forall b, c, path | b in Candidates(f, latest, deltas) && c in Candidates(f, latest, deltas)
                                && path in b.paths && path in c.paths :: b == c
  {
    var candidates := Candidates(f, latest, deltas);
    CandidatesCover(f, latest, deltas);
    forall c, path | c in candidates && path in c.paths ensures PathEmitted(deltas, path) {
      var i :| 0 <= i < |c.paths| && c.paths[i] == path;
      assert CandidateFits(f.generation, deltas, c);
      assert Membership(deltas, c, i);
    }
    forall b, c, path | b in candidates && c in candidates && path in b.paths && path in c.paths ensures b == c {
      var i :| 0 <= i < |candidates| && candidates[i] == b;
      var j :| 0 <= j < |candidates| && candidates[j] == c;
      OneHolder(SegmentPaths, candidates, i, j, path);
    }
  }

  /**
    Segmentation loses and invents nothing: a path is in a candidate exactly when its leaf differs
    between base and head, in exactly one, and the commit it is filed under already holds the leaf of head.
  */
  lemma SegmentationExact(leaves: string -> map<string, Leaf>, v: Interval, path: string)
    requires SoundInterval(leaves, v)
    ensures (exists c | c in CandidatesOf(v) :: path in c.paths) <==> Get(leaves(v.base), path) != Get(leaves(v.head), path)
    ensures forall b, c | b in CandidatesOf(v) && c in CandidatesOf(v) && path in b.paths && path in c.paths :: b == c
    ensures forall c | c in CandidatesOf(v) && path in c.paths ::
              Get(leaves(c.commitSha), path) == Get(leaves(v.head), path)
  {
    var deltas := DeltasOf(v);
    IntervalCovered(leaves, v);
    IntervalPlannable(v, "");
    HeldPaths(v.frame, v.latest, deltas);
    EmittedIffDiffers(leaves, v, path);
    if d :| d in deltas && d.path == path {
      var c := DeltaIsHeld(v.frame, v.latest, deltas, d);
    }
  }

  lemma EmittedIffDiffers(leaves: string -> map<string, Leaf>, v: Interval, path: string)
    requires Leaves(v.previous) == leaves(v.base) && Leaves(v.current) == leaves(v.head)
    ensures PathEmitted(DeltasOf(v), path) <==> Get(leaves(v.base), path) != Get(leaves(v.head), path)
  {
    DiffExact(v.frame.generation, v.surface, v.previous, v.current, path);
    assert Get(Leaves(v.previous), path) == LeafOf(Get(v.previous, path));
    assert Get(Leaves(v.current), path) == LeafOf(Get(v.current, path));
  }

  // ----- and on to the reductions -----

  /** Two captures of the planned scope, their facts and assertions, and the paths with extraction gaps. */
  datatype Comparison = Comparison(
    run: string, previous: C.Capture, previousFacts: seq<C.Fact>, current: C.Capture, currentFacts: seq<C.Fact>,
    excluded: set<string>, previousAssertions: Signatures, currentAssertions: Signatures)

  predicate PlainKeys(facts: C.FactMap) {
    forall k | k in facts :: D.PlainKey(k)
  }

  ghost predicate SoundComparison(extract: D.Profile, plans: seq<Plan>, w: Comparison) {
    && D.Generation(extract, w.previous, w.previousFacts) && D.Generation(extract, w.current, w.currentFacts)
    && ScopeHonoured(plans, w.previous, true) && ScopeHonoured(plans, w.current, false)
    && PlainKeys(C.FactsByKey(w.previous, w.previousFacts)) && PlainKeys(C.FactsByKey(w.current, w.currentFacts))
    && w.previousAssertions.Keys <= C.Locators(w.previous) && w.currentAssertions.Keys <= C.Locators(w.current)
  }

  function PairFor(w: Comparison): C.Pair
    requires C.WellKeyed(w.previous, w.previousFacts) && C.WellKeyed(w.current, w.currentFacts)
  {
    C.Excluding(D.PairOf(w.run, w.previous, w.previousFacts, w.current, w.currentFacts), w.excluded)
  }

  function StageFor(v: Interval, run: string, w: Comparison): Stage
    requires C.WellKeyed(w.previous, w.previousFacts) && C.WellKeyed(w.current, w.currentFacts)
  {
    Stage(v.frame.generation, run, DeltasOf(v), CandidatesOf(v), PlansOf(v, run),
          w.previous, w.current, PairFor(w), w.previousAssertions, w.currentAssertions)
  }

  /** With plain keys the structural ids of a pair do not repeat. */
  lemma StructuralIdsUnique(p: C.Pair)
    requires D.KeyedByFields(p.previous) && D.KeyedByFields(p.current) && D.BackedByRun(p)
    requires PlainKeys(p.previous) && PlainKeys(p.current)
    ensures Unique(Map(StructuralIdOf, C.Structural(p)))
  {
    var deltas := C.Structural(p);
    forall j, k | j in C.KeysOf(p) && k in C.KeysOf(p) ensures !D.Collide(p, j, k) {
      if D.Collide(p, j, k) { D.PlainKeysPrintApart(j, k); }
    }
    D.StructuralIdsDistinct(p);
    D.StructuralIncreasing(p);
    forall i, j | 0 <= i < j < |deltas| ensures deltas[i].id != deltas[j].id {
      assert deltas[i] in deltas && deltas[j] in deltas;
      KeyAsymmetric(D.DeltaOrder(deltas[i]), D.DeltaOrder(deltas[j]));
    }
  }

  lemma PairSound(w: Comparison)
    requires C.WellKeyed(w.previous, w.previousFacts) && C.WellKeyed(w.current, w.currentFacts)
    requires PlainKeys(C.FactsByKey(w.previous, w.previousFacts)) && PlainKeys(C.FactsByKey(w.current, w.currentFacts))
    ensures Unique(Map(StructuralIdOf, C.Structural(PairFor(w))))
  {
    var p := PairFor(w);
    D.GenerationKeyed(w.previous, w.previousFacts);
    D.GenerationKeyed(w.current, w.currentFacts);
    forall d | d in p.deltas ensures d.id == C.ArtifactDeltaId(p.run, d.locator) {
      ArtifactDeltaNamed(w.run, w.previous, w.current, d);
    }
    StructuralIdsUnique(p);
  }

  /** What the stages produce passes every check of reduction, and no determinism violation interrupts them. */
  lemma StagesPassChecks(leaves: string -> map<string, Leaf>, v: Interval, run: string, extract: D.Profile, w: Comparison)
    requires SoundInterval(leaves, v) && SoundComparison(extract, PlansOf(v, run), w)
    ensures Checked(StageFor(v, run, w)) && C.Lawful(PairFor(w))
  {
    IntervalCovered(leaves, v);
    IntervalPlannable(v, run);
    CandidatesCover(v.frame, v.latest, DeltasOf(v));
    PlansCover(v.frame.generation, run, DeltasOf(v));
    PlanIdsDistinct(v.frame.generation, run, DeltasOf(v));
    NamedDistinct(DeltasOf(v));
    PairSound(w);
    D.NoDeterminismViolation(extract, w.run, w.previous, w.previousFacts, w.current, w.currentFacts);
    C.GapAwareRefinesStrict(D.PairOf(w.run, w.previous, w.previousFacts, w.current, w.currentFacts), w.excluded);
  }

  predicate Accounted(r: Reduction, path: string) {
    || path in r.structuralPaths || path in r.assertionPaths || path in r.artifactOnlyPaths
    || path in r.gitOnlyPaths || path in r.suppressedPaths
  }

  /**
    The pipeline theorem. A path whose leaf differs between base and head ends up in exactly one
    candidate, filed under a commit that already holds the leaf of head, and the reduction of that
    candidate meets its whole contract and accounts for the path.
  */
  lemma ChangedPathReduced(
      leaves: string -> map<string, Leaf>, v: Interval, run: string, extract: D.Profile, w: Comparison, path: string)
      returns (c: Segment)
    requires SoundInterval(leaves, v) && SoundComparison(extract, PlansOf(v, run), w)
    requires Get(leaves(v.base), path) != Get(leaves(v.head), path)
    ensures c in CandidatesOf(v) && path in c.paths && forall b | b in CandidatesOf(v) && path in b.paths :: b == c
    ensures Get(leaves(c.commitSha), path) == Get(leaves(v.head), path)
    ensures var e := EvidenceOf(StageFor(v, run, w));
            Planned(e, c) && ValidReduction(Reduce(e, c)) && Accounted(Reduce(e, c), path)
  {
    SegmentationExact(leaves, v, path);
    c :| c in CandidatesOf(v) && path in c.paths;
    StagesPassChecks(leaves, v, run, extract, w);
    ReductionTotal(StageFor(v, run, w), c);
  }

  // ----- where changes of capture scope come from -----

  /** A path has one plan, that of its delta. */
  lemma PlanOfPath(g: Generation, run: string, deltas: seq<Delta>, d: Delta, p: Plan)
    requires Plannable(g, run, deltas) && d in deltas && p in PlanAll(run, deltas) && p.path == d.path
    ensures p == PlanDelta(run, d).value
  {
    var plans := PlanAll(run, deltas);
    var i :| 0 <= i < |deltas| && deltas[i] == d;
    var j :| 0 <= j < |plans| && plans[j] == p;
    PlanAtIndex(g, run, deltas, j);
    NamedApart(deltas, i, j);
  }

  lemma RequestedAlone(g: Generation, run: string, deltas: seq<Delta>, d: Delta, previous: bool)
    requires Plannable(g, run, deltas) && d in deltas
    ensures d.path in CaptureScope(PlanAll(run, deltas), previous) <==> RequestedOn(PlanDelta(run, d).value, previous)
  {
    var plans, plan := PlanAll(run, deltas), PlanDelta(run, d).value;
    ScopeMember(plans, previous, d.path);
    var i :| 0 <= i < |deltas| && deltas[i] == d;
    PlanAtIndex(g, run, deltas, i);
    assert plan in plans;
    forall p | p in plans && p.path == d.path ensures p == plan { PlanOfPath(g, run, deltas, d, p); }
  }

  predicate ScopeChange(d: C.ArtifactDelta) { d.change.ScopeAdded? || d.change.ScopeRemoved? }

  lemma ScopeChangeAt(run: string, previous: C.Capture, current: C.Capture, locator: string)
    ensures (exists a | a in C.ArtifactDeltas(run, previous, current) :: a.locator == locator && ScopeChange(a))
            <==> (locator in C.Locators(previous)) != (locator in C.Locators(current))
  {
    C.LocatorFound(previous, locator);
    C.LocatorFound(current, locator);
    var here := C.ArtifactDeltaHere(run, previous, current, locator);
    if here != [] { C.ArtifactDeltaMember(run, previous, current, here[0]); }
    forall a | a in C.ArtifactDeltas(run, previous, current) && a.locator == locator ensures here == [a] {
      ArtifactDeltaNamed(run, previous, current, a);
    }
  }

  /**
    Changes of capture scope arise exactly from type changes with an eligible blob on one side:
    no other change of a path makes it enter or leave the captured scope.
  */
  lemma ScopeChangesAreTypeChanges(
      g: Generation, run: string, deltas: seq<Delta>, compareRun: string, previous: C.Capture, current: C.Capture, d: Delta)
    requires Plannable(g, run, deltas) && d in deltas && ValidTransition(d)
    requires ScopeHonoured(PlanAll(run, deltas), previous, true) && ScopeHonoured(PlanAll(run, deltas), current, false)
    ensures (exists a | a in C.ArtifactDeltas(compareRun, previous, current) :: a.locator == d.path && ScopeChange(a))
            <==> d.change.TypeChanged? && Eligible(d, d.previous) != Eligible(d, d.current)
  {
    RequestedAlone(g, run, deltas, d, true);
    RequestedAlone(g, run, deltas, d, false);
    CaptureScopeSymmetric(run, d);
    ScopeChangeAt(compareRun, previous, current, d.path);
  }
}
