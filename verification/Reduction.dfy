/**
  Candidate-scoped factual reduction and its contract
  (src/lemmamind/candidate_reduction.py, src/lemmamind/candidate_reduction_contracts.py).
*/
module Reduction {
  import opened Wrappers
  import opened Orders
  import opened Digests
  import opened TreeDiff
  import opened Segmentation
  import opened Planning
  import C = Changes

  // ----- what one candidate is reduced to -----

  datatype Signal = StructuralSignal | AssertionSignal | ArtifactOnlySignal | GitOnlySignal | SuppressedSignal

  datatype Verdict = Retain | Suppress

  datatype Reduction = Reduction(
    segmentId: Id, generation: Generation, paths: seq<string>, planIds: seq<Id>,
    capturePaths: seq<string>, suppressedPaths: seq<string>,
    artifactIds: seq<Id>, artifactPaths: seq<string>,
    structuralIds: seq<Id>, structuralPaths: seq<string>,
    assertionPaths: seq<string>, artifactOnlyPaths: seq<string>, gitOnlyPaths: seq<string>,
    signals: seq<Signal>, verdict: Verdict)

  function SignalName(s: Signal): string {
    match s
    case StructuralSignal => "structural_delta"
    case AssertionSignal => "authored_assertion_change"
    case ArtifactOnlySignal => "artifact_delta_without_extracted_signal"
    case GitOnlySignal => "git_only_change"
    case SuppressedSignal => "policy_suppressed"
  }

  function SignalKey(s: Signal): Key { TextKey(SignalName(s)) }

  function SetOf<T>(s: seq<T>): set<T> { set x | x in s }

  /** Sorted and without repetition. */
  predicate SortedPathsOnly(s: seq<string>) { Increasing(TextKey, s) }

  predicate SortedIdsOnly(s: seq<Id>) { Increasing(IdKey, s) }

  /** The contract every persisted reduction must satisfy. */
  predicate ValidReduction(r: Reduction) {
    && r.paths != []
    && SortedPathsOnly(r.paths) && SortedIdsOnly(r.planIds)
    && SortedPathsOnly(r.capturePaths) && SortedPathsOnly(r.suppressedPaths)
    && SortedIdsOnly(r.artifactIds) && SortedPathsOnly(r.artifactPaths)
    && SortedIdsOnly(r.structuralIds) && SortedPathsOnly(r.structuralPaths)
    && SortedPathsOnly(r.assertionPaths) && SortedPathsOnly(r.artifactOnlyPaths) && SortedPathsOnly(r.gitOnlyPaths)
    && Increasing(SignalKey, r.signals) && r.signals != []
    && SetOf(r.capturePaths) <= SetOf(r.paths) && SetOf(r.suppressedPaths) <= SetOf(r.paths)
    && SetOf(r.artifactPaths) <= SetOf(r.paths) && SetOf(r.structuralPaths) <= SetOf(r.paths)
    && SetOf(r.assertionPaths) <= SetOf(r.paths)
    && SetOf(r.artifactOnlyPaths) <= SetOf(r.paths) && SetOf(r.gitOnlyPaths) <= SetOf(r.paths)
    && SetOf(r.structuralPaths) <= SetOf(r.artifactPaths)
    && SetOf(r.artifactOnlyPaths) <= SetOf(r.artifactPaths)
    && SetOf(r.artifactOnlyPaths) !! SetOf(r.structuralPaths)
    && SetOf(r.artifactOnlyPaths) !! SetOf(r.assertionPaths)
    && (if r.verdict.Suppress? then SetOf(r.paths) == SetOf(r.suppressedPaths) && r.signals == [SuppressedSignal]
        else SetOf(r.paths) != SetOf(r.suppressedPaths))
  }

  // ----- the evidence of one reduction run -----

  datatype Signature = Signature(name: string, version: string, statement: string)

  type Signatures = map<string, seq<Signature>>

  datatype Evidence = Evidence(
    plans: seq<Plan>, artifacts: seq<C.ArtifactDelta>, structural: seq<C.StructuralDelta>,
    previousAssertions: Signatures, currentAssertions: Signatures,
    previousRequired: set<string>, currentRequired: set<string>)

  function PlanFor(plans: seq<Plan>, deltaId: Id): (r: Option<Plan>)
    ensures r.Some? ==> r.value in plans && r.value.deltaId == deltaId
    ensures r.None? ==> forall p | p in plans :: p.deltaId != deltaId
  {
    if plans == [] then None
    else
      var init, last := plans[..|plans| - 1], plans[|plans| - 1];
      assert plans == init + [last];
      if last.deltaId == deltaId then Some(last) else PlanFor(init, deltaId)
  }

  function ArtifactFor(deltas: seq<C.ArtifactDelta>, path: string): (r: Option<C.ArtifactDelta>)
    ensures r.Some? ==> r.value in deltas && r.value.locator == path
    ensures r.None? ==> forall d | d in deltas :: d.locator != path
  {
    if deltas == [] then None
    else
      var init, last := deltas[..|deltas| - 1], deltas[|deltas| - 1];
      assert deltas == init + [last];
      if last.locator == path then Some(last) else ArtifactFor(init, path)
  }

  function StructuralFor(deltas: seq<C.StructuralDelta>, path: string): (r: seq<C.StructuralDelta>)
    ensures forall d :: d in r <==> d in deltas && d.locator == path
  {
    if deltas == [] then []
    else
      var init, last := deltas[..|deltas| - 1], deltas[|deltas| - 1];
      assert deltas == init + [last];
      StructuralFor(init, path) + (if last.locator == path then [last] else [])
  }

  predicate PolicySuppressed(p: Plan) {
    && !p.previous.disposition.Capture? && !p.current.disposition.Capture?
    && (p.previous.disposition.Suppressed? || p.current.disposition.Suppressed?)
  }

  predicate AssertionsChanged(e: Evidence, path: string) {
    SignaturesAt(e.previousAssertions, path) != SignaturesAt(e.currentAssertions, path)
  }

  function SignaturesAt(m: Signatures, path: string): seq<Signature> {
    if path in m then m[path] else []
  }

  /** Every delta of the candidate has a plan. */
  predicate Planned(e: Evidence, c: Segment) {
    forall id | id in c.deltaIds :: PlanFor(e.plans, id).Some?
  }

  /** What the checks and stages before reduction guarantee. */
  predicate Grounded(e: Evidence, c: Segment) {
    && ValidSegment(c) && Planned(e, c)
    && (forall i | 0 <= i < |c.paths| :: PlanFor(e.plans, c.deltaIds[i]).value.path == c.paths[i])
    && (forall p, q | p in e.plans && q in e.plans && p.id == q.id :: p == q)
    && (forall p | p in e.plans && PolicySuppressed(p) :: p.path !in e.previousRequired && p.path !in e.currentRequired)
    && (forall d | d in e.artifacts :: d.locator in e.previousRequired || d.locator in e.currentRequired)
    && (forall a, b | a in e.artifacts && b in e.artifacts && a.id == b.id :: a == b)
    && (forall s | s in e.structural :: ArtifactFor(e.artifacts, s.locator).Some?)
    && Unique(Map(StructuralIdOf, e.structural))
    && e.previousAssertions.Keys <= e.previousRequired && e.currentAssertions.Keys <= e.currentRequired
  }

  // ----- the reduction as sets -----

  function CandidatePlans(e: Evidence, c: Segment): (r: seq<Plan>)
    requires Planned(e, c)
    ensures |r| == |c.deltaIds|
    ensures forall i | 0 <= i < |r| :: r[i] == PlanFor(e.plans, c.deltaIds[i]).value
  {
    PlansFor(e, c.deltaIds)
  }

  function PlansFor(e: Evidence, ids: seq<Id>): (r: seq<Plan>)
    requires forall id | id in ids :: PlanFor(e.plans, id).Some?
    ensures |r| == |ids|
    ensures forall i | 0 <= i < |r| :: r[i] == PlanFor(e.plans, ids[i]).value
  {
    if ids == [] then []
    else
      assert ids[0] in ids;
      [PlanFor(e.plans, ids[0]).value] + PlansFor(e, ids[1..])
  }

  function SuppressedSet(e: Evidence, c: Segment): set<string>
    requires Planned(e, c)
  {
    set p | p in CandidatePlans(e, c) && PolicySuppressed(p) :: p.path
  }

  function ArtifactSet(e: Evidence, c: Segment): set<string> {
    set path | path in c.paths && ArtifactFor(e.artifacts, path).Some?
  }

  function StructuralSet(e: Evidence, c: Segment): set<string> {
    set path | path in c.paths && StructuralFor(e.structural, path) != []
  }

  function AssertionSet(e: Evidence, c: Segment): set<string> {
    set path | path in c.paths && AssertionsChanged(e, path)
  }

  function ArtifactOnlySet(e: Evidence, c: Segment): set<string> {
    ArtifactSet(e, c) - StructuralSet(e, c) - AssertionSet(e, c)
  }

  function GitOnlySet(e: Evidence, c: Segment): set<string>
    requires Planned(e, c)
  {
    SetOf(c.paths) - ArtifactSet(e, c) - StructuralSet(e, c) - AssertionSet(e, c) - SuppressedSet(e, c)
  }

  function SignalsOf(
      structural: set<string>, assertions: set<string>, artifactOnly: set<string>, gitOnly: set<string>, suppressed: set<string>): set<Signal> {
    (if structural != {} then {StructuralSignal} else {})
    + (if assertions != {} then {AssertionSignal} else {})
    + (if artifactOnly != {} then {ArtifactOnlySignal} else {})
    + (if gitOnly != {} then {GitOnlySignal} else {})
    + (if suppressed != {} then {SuppressedSignal} else {})
  }

  function SignalSet(e: Evidence, c: Segment): set<Signal>
    requires Planned(e, c)
  {
    SignalsOf(StructuralSet(e, c), AssertionSet(e, c), ArtifactOnlySet(e, c), GitOnlySet(e, c), SuppressedSet(e, c))
  }

  /** Every path of the candidate is accounted for by at least one of the five kinds of evidence. */
  lemma EveryPathAccounted(e: Evidence, c: Segment, path: string)
    requires Planned(e, c) && path in c.paths
    ensures path in StructuralSet(e, c) || path in AssertionSet(e, c) || path in ArtifactOnlySet(e, c)
            || path in GitOnlySet(e, c) || path in SuppressedSet(e, c)
  {}

  /** A candidate always carries a signal, so the fallback for "no signals" is dead code. */
  lemma SomeSignal(e: Evidence, c: Segment)
    requires Planned(e, c) && c.paths != []
    ensures SignalSet(e, c) != {}
  {
    var path := c.paths[0];
    EveryPathAccounted(e, c, path);
    if path in StructuralSet(e, c) { assert StructuralSignal in SignalSet(e, c); }
    else if path in AssertionSet(e, c) { assert AssertionSignal in SignalSet(e, c); }
    else if path in ArtifactOnlySet(e, c) { assert ArtifactOnlySignal in SignalSet(e, c); }
    else if path in GitOnlySet(e, c) { assert GitOnlySignal in SignalSet(e, c); }
    else { assert SuppressedSignal in SignalSet(e, c); }
  }

  /** A suppressed path lies outside both captures, so nothing downstream can speak of it. */
  lemma SuppressedIsSilent(e: Evidence, c: Segment, path: string)
    requires Grounded(e, c) && path in SuppressedSet(e, c)
    ensures path !in ArtifactSet(e, c) && path !in StructuralSet(e, c) && path !in AssertionSet(e, c)
    ensures path in c.paths
  {
    var plans := CandidatePlans(e, c);
    var p :| p in plans && PolicySuppressed(p) && p.path == path;
    var i :| 0 <= i < |plans| && plans[i] == p;
    assert p == PlanFor(e.plans, c.deltaIds[i]).value;
    assert c.paths[i] == path;
    assert path !in e.previousRequired && path !in e.currentRequired;
    forall s | s in e.structural ensures s.locator != path { assert ArtifactFor(e.artifacts, s.locator).Some?; }
    NoStructural(e.structural, path);
  }

  lemma {:induction false} NoStructural(deltas: seq<C.StructuralDelta>, path: string)
    requires forall s | s in deltas :: s.locator != path
    ensures StructuralFor(deltas, path) == []
  {
    if deltas != [] {
      var n := |deltas| - 1;
      assert deltas[n] in deltas;
      NoStructural(deltas[..n], path);
    }
  }

  /** Overwriting the signals of a fully suppressed candidate changes nothing. */
  lemma FullySuppressedSignals(e: Evidence, c: Segment)
    requires Grounded(e, c) && SetOf(c.paths) == SuppressedSet(e, c)
    ensures SignalSet(e, c) == {SuppressedSignal}
  {
    assert c.paths[0] in SetOf(c.paths);
    forall path | path in c.paths
      ensures path !in ArtifactSet(e, c) && path !in StructuralSet(e, c) && path !in AssertionSet(e, c)
    {
      assert path in SetOf(c.paths);
      SuppressedIsSilent(e, c, path);
    }
    assert StructuralSet(e, c) == {} && AssertionSet(e, c) == {} && ArtifactOnlySet(e, c) == {};
    assert GitOnlySet(e, c) == {};
  }

  // ----- the reduction itself -----

  function SortedSignals(signals: set<Signal>): (r: seq<Signal>)
    ensures Increasing(SignalKey, r)
    ensures forall s :: s in r <==> s in signals
  {
    assert Distinguishes(SignalKey, signals) by {
      forall x, y | x in signals && y in signals && SignalKey(x) == SignalKey(y) ensures x == y { SignalKeyInjective(x, y); }
    }
    SortSet(SignalKey, signals)
  }

  lemma SignalKeyInjective(x: Signal, y: Signal)
    requires SignalKey(x) == SignalKey(y)
    ensures x == y
  {
    assert SignalName(x) == SignalName(y);
    assert SignalName(x)[0] == SignalName(y)[0] && SignalName(x)[1] == SignalName(y)[1];
  }

  function PlanIdOf(p: Plan): Id { p.id }

  function PlanPathOf(p: Plan): string { p.path }

  function ArtifactIdAt(e: Evidence): string -> seq<Id> {
    path => match ArtifactFor(e.artifacts, path) case Some(d) => [d.id] case None => []
  }

  function StructuralIdsAt(e: Evidence): string -> seq<Id> {
    path => Map(StructuralIdOf, StructuralFor(e.structural, path))
  }

  function StructuralIdOf(d: C.StructuralDelta): Id { d.id }

  function Reduce(e: Evidence, c: Segment): Reduction
    requires Planned(e, c)
  {
    Reduction(
      c.id, c.generation, c.paths, SortBy(IdKey, Map(PlanIdOf, CandidatePlans(e, c))),
      SortedPaths(SetOf(c.paths) * (e.previousRequired + e.currentRequired)),
      SortedPaths(SuppressedSet(e, c)),
      SortBy(IdKey, FlatMap(ArtifactIdAt(e), c.paths)), SortedPaths(ArtifactSet(e, c)),
      SortBy(IdKey, FlatMap(StructuralIdsAt(e), c.paths)), SortedPaths(StructuralSet(e, c)),
      SortedPaths(AssertionSet(e, c)), SortedPaths(ArtifactOnlySet(e, c)), SortedPaths(GitOnlySet(e, c)),
      SortedSignals(SignalSet(e, c)),
      if SetOf(c.paths) == SuppressedSet(e, c) then Suppress else Retain)
  }

  lemma SetOfSorted(paths: set<string>)
    ensures SetOf(SortedPaths(paths)) == paths
  {}

  /** Sorting ids that do not repeat gives a strictly ordered list. */
  lemma SortedIds(ids: seq<Id>)
    requires Unique(ids)
    ensures Increasing(IdKey, SortBy(IdKey, ids))
  {
    var r := SortBy(IdKey, ids);
    UniquePermutes(ids, r);
    forall i, j | 0 <= i < j < |r| ensures KeyLess(IdKey(r[i]), IdKey(r[j])) {
      KeyConnected(r[i], r[j]);
    }
  }

  lemma PlanIdsUnique(e: Evidence, c: Segment)
    requires Grounded(e, c)
    ensures Unique(Map(PlanIdOf, CandidatePlans(e, c)))
  {
    var plans := CandidatePlans(e, c);
    forall i, j | 0 <= i < j < |plans| ensures plans[i].id != plans[j].id {
      assert plans[i].deltaId == c.deltaIds[i] && plans[j].deltaId == c.deltaIds[j];
    }
  }

  lemma {:induction false} ArtifactIdsUnique(e: Evidence, paths: seq<string>)
    requires forall a, b | a in e.artifacts && b in e.artifacts && a.id == b.id :: a == b
    requires Increasing(TextKey, paths)
    ensures Unique(FlatMap(ArtifactIdAt(e), paths))
  {
    if paths != [] {
      var init, last := paths[..|paths| - 1], paths[|paths| - 1];
      ArtifactIdsUnique(e, init);
      var ids := FlatMap(ArtifactIdAt(e), init);
      var found := ArtifactFor(e.artifacts, last);
      if found.None? {
        assert ids + [] == ids;
      } else {
        assert found.value.id !in ids by { NewArtifactId(e, paths); }
        UniqueSnoc(ids, found.value.id);
      }
    }
  }

  lemma NewArtifactId(e: Evidence, paths: seq<string>)
    requires forall a, b | a in e.artifacts && b in e.artifacts && a.id == b.id :: a == b
    requires Increasing(TextKey, paths) && paths != [] && ArtifactFor(e.artifacts, paths[|paths| - 1]).Some?
    ensures ArtifactFor(e.artifacts, paths[|paths| - 1]).value.id !in FlatMap(ArtifactIdAt(e), paths[..|paths| - 1])
  {
    var init, last := paths[..|paths| - 1], paths[|paths| - 1];
    var d := ArtifactFor(e.artifacts, last).value;
    FlatMapMembers(ArtifactIdAt(e), init, d.id);
    forall i | 0 <= i < |init| ensures d.id !in ArtifactIdAt(e)(init[i]) {
      KeyAsymmetric(TextKey(paths[i]), TextKey(last));
    }
  }

  /** The ids of the structural deltas at one path, each once. */
  lemma {:induction false} StructuralIdsAtUnique(deltas: seq<C.StructuralDelta>, path: string)
    requires Unique(Map(StructuralIdOf, deltas))
    ensures Unique(Map(StructuralIdOf, StructuralFor(deltas, path)))
    ensures forall id | id in Map(StructuralIdOf, StructuralFor(deltas, path)) :: id in Map(StructuralIdOf, deltas)
  {
    if deltas != [] {
      var init, last := deltas[..|deltas| - 1], deltas[|deltas| - 1];
      UniqueMapStep(StructuralIdOf, deltas, |deltas| - 1);
      assert deltas[..|deltas|] == deltas;
      StructuralIdsAtUnique(init, path);
      if last.locator == path {
        var here := StructuralFor(init, path);
        MapAppend(StructuralIdOf, here, [last]);
        assert Map(StructuralIdOf, [last]) == [last.id];
        UniqueSnoc(Map(StructuralIdOf, here), last.id);
      }
    }
  }

  lemma {:induction false} StructuralIdsUnique(e: Evidence, paths: seq<string>)
    requires Unique(Map(StructuralIdOf, e.structural)) && Increasing(TextKey, paths)
    ensures Unique(FlatMap(StructuralIdsAt(e), paths))
  {
    if paths != [] {
      var init, last := paths[..|paths| - 1], paths[|paths| - 1];
      StructuralIdsUnique(e, init);
      StructuralIdsAtUnique(e.structural, last);
      var ids, more := FlatMap(StructuralIdsAt(e), init), Map(StructuralIdOf, StructuralFor(e.structural, last));
      forall id | id in more ensures id !in ids {
        if id in ids {
          FlatMapMembers(StructuralIdsAt(e), init, id);
          var i :| 0 <= i < |init| && id in StructuralIdsAt(e)(init[i]);
          SameStructuralId(e.structural, init[i], last, id);
          KeyAsymmetric(TextKey(paths[i]), TextKey(last));
        }
      }
      UniqueJoin(ids, more);
    }
  }

  lemma SameStructuralId(deltas: seq<C.StructuralDelta>, p: string, q: string, id: Id)
    requires Unique(Map(StructuralIdOf, deltas))
    requires id in Map(StructuralIdOf, StructuralFor(deltas, p)) && id in Map(StructuralIdOf, StructuralFor(deltas, q))
    ensures p == q
  {
    var i :| 0 <= i < |StructuralFor(deltas, p)| && StructuralFor(deltas, p)[i].id == id;
    var j :| 0 <= j < |StructuralFor(deltas, q)| && StructuralFor(deltas, q)[j].id == id;
    var d, f := StructuralFor(deltas, p)[i], StructuralFor(deltas, q)[j];
    assert d in StructuralFor(deltas, p) && f in StructuralFor(deltas, q);
    UniqueKey(StructuralIdOf, deltas, d, f);
  }

  /** The identifier lists of a grounded reduction are strictly ordered. */
  lemma ReduceIdsOrdered(e: Evidence, c: Segment)
    requires Grounded(e, c)
    ensures SortedIdsOnly(Reduce(e, c).planIds) && SortedIdsOnly(Reduce(e, c).artifactIds) && SortedIdsOnly(Reduce(e, c).structuralIds)
  {
    PlanIdsUnique(e, c);
    SortedIds(Map(PlanIdOf, CandidatePlans(e, c)));
    ArtifactIdsUnique(e, c.paths);
    SortedIds(FlatMap(ArtifactIdAt(e), c.paths));
    StructuralIdsUnique(e, c.paths);
    SortedIds(FlatMap(StructuralIdsAt(e), c.paths));
  }

  lemma ReduceSets(e: Evidence, c: Segment)
    requires Planned(e, c)
    ensures var r := Reduce(e, c);
            && SetOf(r.capturePaths) == SetOf(c.paths) * (e.previousRequired + e.currentRequired)
            && SetOf(r.suppressedPaths) == SuppressedSet(e, c)
            && SetOf(r.artifactPaths) == ArtifactSet(e, c) && SetOf(r.structuralPaths) == StructuralSet(e, c)
            && SetOf(r.assertionPaths) == AssertionSet(e, c)
            && SetOf(r.artifactOnlyPaths) == ArtifactOnlySet(e, c) && SetOf(r.gitOnlyPaths) == GitOnlySet(e, c)
  {
    SetOfSorted(SetOf(c.paths) * (e.previousRequired + e.currentRequired));
    SetOfSorted(SuppressedSet(e, c));
    SetOfSorted(ArtifactSet(e, c));
    SetOfSorted(StructuralSet(e, c));
    SetOfSorted(AssertionSet(e, c));
    SetOfSorted(ArtifactOnlySet(e, c));
    SetOfSorted(GitOnlySet(e, c));
  }

  lemma StructuralSetBacked(e: Evidence, c: Segment)
    requires Grounded(e, c)
    ensures StructuralSet(e, c) <= ArtifactSet(e, c) && SuppressedSet(e, c) <= SetOf(c.paths)
  {
    forall path | path in StructuralSet(e, c) ensures path in ArtifactSet(e, c) {
      var s := StructuralFor(e.structural, path)[0];
      assert s in StructuralFor(e.structural, path);
    }
    forall path | path in SuppressedSet(e, c) ensures path in SetOf(c.paths) { SuppressedIsSilent(e, c, path); }
  }

  lemma SingleSignal(s: Signal)
    ensures SortedSignals({s}) == [s]
  {
    assert Distinguishes(SignalKey, {s});
    IncreasingIsSortSet(SignalKey, [s], {s});
  }

  /** The reduction of a grounded candidate satisfies every clause of its contract. */
  lemma ReduceValid(e: Evidence, c: Segment)
    requires Grounded(e, c)
    ensures ValidReduction(Reduce(e, c))
  {
    ReduceSets(e, c);
    ReduceIdsOrdered(e, c);
    StructuralSetBacked(e, c);
    SomeSignal(e, c);
    var r := Reduce(e, c);
    assert r.signals != [] by {
      var s :| s in SignalSet(e, c);
      assert s in r.signals;
    }
    if SetOf(c.paths) == SuppressedSet(e, c) {
      FullySuppressedSignals(e, c);
      SingleSignal(SuppressedSignal);
    }
  }

  // ----- what a reduction says, in terms of the evidence -----

  /** p is the plan that decides for a delta: the last one listed for it. */
  ghost predicate Decides(plans: seq<Plan>, deltaId: Id, p: Plan) {
    exists i | 0 <= i < |plans| :: plans[i] == p && p.deltaId == deltaId && forall j | i < j < |plans| :: plans[j].deltaId != deltaId
  }

  /** d is the artifact delta that counts at a path: the last one listed for it. */
  ghost predicate Counts(deltas: seq<C.ArtifactDelta>, path: string, d: C.ArtifactDelta) {
    exists i | 0 <= i < |deltas| :: deltas[i] == d && d.locator == path && forall j | i < j < |deltas| :: deltas[j].locator != path
  }

  lemma {:induction false} PlanForDecides(plans: seq<Plan>, deltaId: Id, p: Plan)
    ensures PlanFor(plans, deltaId) == Some(p) <==> Decides(plans, deltaId, p)
  {
    if plans != [] {
      var n := |plans| - 1;
      var init := plans[..n];
      PlanForDecides(init, deltaId, p);
      if plans[n].deltaId == deltaId {
        if Decides(plans, deltaId, p) {
          var i :| 0 <= i < |plans| && plans[i] == p && p.deltaId == deltaId && forall j | i < j < |plans| :: plans[j].deltaId != deltaId;
          assert i == n;
        }
      } else {
        if i :| 0 <= i < |plans| && plans[i] == p && p.deltaId == deltaId && forall j | i < j < |plans| :: plans[j].deltaId != deltaId {
          assert init[i] == p;
        }
        if i :| 0 <= i < |init| && init[i] == p && p.deltaId == deltaId && forall j | i < j < |init| :: init[j].deltaId != deltaId {
          assert plans[i] == p;
          assert forall j | i < j < |plans| :: j == n || plans[j] == init[j];
        }
      }
    }
  }

  lemma {:induction false} ArtifactForCounts(deltas: seq<C.ArtifactDelta>, path: string, d: C.ArtifactDelta)
    ensures ArtifactFor(deltas, path) == Some(d) <==> Counts(deltas, path, d)
  {
    if deltas != [] {
      var n := |deltas| - 1;
      var init := deltas[..n];
      ArtifactForCounts(init, path, d);
      if deltas[n].locator == path {
        if Counts(deltas, path, d) {
          var i :| 0 <= i < |deltas| && deltas[i] == d && d.locator == path && forall j | i < j < |deltas| :: deltas[j].locator != path;
          assert i == n;
        }
      } else {
        if i :| 0 <= i < |deltas| && deltas[i] == d && d.locator == path && forall j | i < j < |deltas| :: deltas[j].locator != path {
          assert init[i] == d;
        }
        if i :| 0 <= i < |init| && init[i] == d && d.locator == path && forall j | i < j < |init| :: init[j].locator != path {
          assert deltas[i] == d;
          assert forall j | i < j < |deltas| :: j == n || deltas[j] == init[j];
        }
      }
    }
  }

  lemma StructuralIdHere(deltas: seq<C.StructuralDelta>, path: string, id: Id)
    ensures id in Map(StructuralIdOf, StructuralFor(deltas, path)) <==> exists d | d in deltas :: d.locator == path && d.id == id
  {
    var here := StructuralFor(deltas, path);
    var ids := Map(StructuralIdOf, here);
    if k :| 0 <= k < |ids| && ids[k] == id { assert here[k] in here; }
    if d :| d in deltas && d.locator == path && d.id == id {
      var k :| 0 <= k < |here| && here[k] == d;
      assert ids[k] == id;
    }
  }

  lemma StructuralIdListed(e: Evidence, paths: seq<string>, id: Id)
    ensures id in FlatMap(StructuralIdsAt(e), paths) <==> exists d | d in e.structural :: d.locator in paths && d.id == id
  {
    FlatMapMembers(StructuralIdsAt(e), paths, id);
    if i :| 0 <= i < |paths| && id in StructuralIdsAt(e)(paths[i]) { StructuralIdHere(e.structural, paths[i], id); }
    if d :| d in e.structural && d.locator in paths && d.id == id {
      var i :| 0 <= i < |paths| && paths[i] == d.locator;
      StructuralIdHere(e.structural, paths[i], id);
      assert id in StructuralIdsAt(e)(paths[i]);
    }
  }

  /** A reduction cites every structural delta of a candidate path and no other. */
  lemma StructuralCited(e: Evidence, c: Segment, id: Id)
    requires Planned(e, c)
    ensures id in Reduce(e, c).structuralIds <==> exists d | d in e.structural :: d.locator in c.paths && d.id == id
  {
    StructuralIdListed(e, c.paths, id);
  }

  /** It cites the artifact delta that counts at each candidate path and no other. */
  lemma ArtifactsCited(e: Evidence, c: Segment, id: Id)
    requires Planned(e, c)
    ensures id in Reduce(e, c).artifactIds <==> exists d | d in e.artifacts :: d.locator in c.paths && Counts(e.artifacts, d.locator, d) && d.id == id
  {
    FlatMapMembers(ArtifactIdAt(e), c.paths, id);
    if i :| 0 <= i < |c.paths| && id in ArtifactIdAt(e)(c.paths[i]) {
      var d := ArtifactFor(e.artifacts, c.paths[i]).value;
      ArtifactForCounts(e.artifacts, c.paths[i], d);
      assert d in e.artifacts && d.locator in c.paths;
    }
    if d :| d in e.artifacts && d.locator in c.paths && Counts(e.artifacts, d.locator, d) && d.id == id {
      ArtifactForCounts(e.artifacts, d.locator, d);
      var i :| 0 <= i < |c.paths| && c.paths[i] == d.locator;
      assert ArtifactIdAt(e)(c.paths[i]) == [id];
      assert id in ArtifactIdAt(e)(c.paths[i]);
    }
  }

  /** It names the plan that decides for each delta of the candidate and no other. */
  lemma PlansCited(e: Evidence, c: Segment, id: Id)
    requires Planned(e, c)
    ensures id in Reduce(e, c).planIds <==> exists p | p in e.plans :: p.deltaId in c.deltaIds && Decides(e.plans, p.deltaId, p) && p.id == id
  {
    PlanIdListed(e, c.deltaIds, id);
  }

  lemma PlanIdListed(e: Evidence, deltaIds: seq<Id>, id: Id)
    requires forall d | d in deltaIds :: PlanFor(e.plans, d).Some?
    ensures id in Map(PlanIdOf, PlansFor(e, deltaIds))
            <==> exists p | p in e.plans :: p.deltaId in deltaIds && Decides(e.plans, p.deltaId, p) && p.id == id
  {
    var plans := PlansFor(e, deltaIds);
    var ids := Map(PlanIdOf, plans);
    if i :| 0 <= i < |ids| && ids[i] == id { PlanDeciding(e, deltaIds, plans[i]); }
    if p :| p in e.plans && p.deltaId in deltaIds && Decides(e.plans, p.deltaId, p) && p.id == id {
      PlanDeciding(e, deltaIds, p);
      var i :| 0 <= i < |plans| && plans[i] == p;
      assert ids[i] == id;
    }
  }

  /** The plan says that policy keeps the path out: captured on neither side, suppressed on at least one. */
  predicate KeptOut(p: Plan) {
    var was, now := p.previous.disposition, p.current.disposition;
    && was != Disposition.Capture && now != Disposition.Capture
    && (was == Disposition.Suppressed || now == Disposition.Suppressed)
  }

  lemma SuppressedPaths(e: Evidence, c: Segment, path: string)
    requires Planned(e, c)
    ensures path in Reduce(e, c).suppressedPaths
            <==> exists p | p in e.plans :: p.deltaId in c.deltaIds && Decides(e.plans, p.deltaId, p) && KeptOut(p) && p.path == path
  {
    SuppressedMember(e, c, path);
  }

  lemma SuppressedMember(e: Evidence, c: Segment, path: string)
    requires Planned(e, c)
    ensures path in SuppressedSet(e, c)
            <==> exists p | p in e.plans :: p.deltaId in c.deltaIds && Decides(e.plans, p.deltaId, p) && KeptOut(p) && p.path == path
  {
    var plans := CandidatePlans(e, c);
    forall p ensures p in plans <==> p in e.plans && p.deltaId in c.deltaIds && Decides(e.plans, p.deltaId, p) {
      PlanDeciding(e, c.deltaIds, p);
    }
    assert path in SuppressedSet(e, c) <==> exists p | p in plans :: KeptOut(p) && p.path == path by {
      assert forall p | p in plans :: KeptOut(p) <==> PolicySuppressed(p);
    }
  }

  lemma PlanDeciding(e: Evidence, ids: seq<Id>, p: Plan)
    requires forall id | id in ids :: PlanFor(e.plans, id).Some?
    ensures p in PlansFor(e, ids) <==> p in e.plans && p.deltaId in ids && Decides(e.plans, p.deltaId, p)
  {
    var plans := PlansFor(e, ids);
    if i :| 0 <= i < |plans| && plans[i] == p { PlanForDecides(e.plans, ids[i], p); }
    if p in e.plans && p.deltaId in ids && Decides(e.plans, p.deltaId, p) {
      PlanForDecides(e.plans, p.deltaId, p);
      var i :| 0 <= i < |ids| && ids[i] == p.deltaId;
      assert plans[i] == p;
    }
  }

  /** Which path is listed under which kind of evidence. */
  lemma ReducedPaths(e: Evidence, c: Segment, path: string)
    requires Planned(e, c)
    ensures var r := Reduce(e, c);
            && (path in r.capturePaths <==> path in c.paths && (path in e.previousRequired || path in e.currentRequired))
            && (path in r.artifactPaths <==> path in c.paths && exists d | d in e.artifacts :: d.locator == path)
            && (path in r.structuralPaths <==> path in c.paths && exists d | d in e.structural :: d.locator == path)
            && (path in r.assertionPaths <==>
                path in c.paths && (if path in e.previousAssertions then e.previousAssertions[path] else [])
                                   != (if path in e.currentAssertions then e.currentAssertions[path] else []))
            && (path in r.artifactOnlyPaths <==> path in r.artifactPaths && path !in r.structuralPaths && path !in r.assertionPaths)
            && (path in r.gitOnlyPaths <==>
                path in c.paths && path !in r.artifactPaths && path !in r.structuralPaths && path !in r.assertionPaths && path !in r.suppressedPaths)
  {
    ArtifactsAt(e, path);
    StructuresAt(e, path);
    var r := Reduce(e, c);
    assert path in r.artifactOnlyPaths <==> path in ArtifactOnlySet(e, c);
    assert path in r.gitOnlyPaths <==> path in GitOnlySet(e, c);
    assert path in r.assertionPaths <==> path in AssertionSet(e, c);
  }

  lemma ArtifactsAt(e: Evidence, path: string)
    ensures ArtifactFor(e.artifacts, path).Some? <==> exists d | d in e.artifacts :: d.locator == path
  {}

  lemma StructuresAt(e: Evidence, path: string)
    ensures StructuralFor(e.structural, path) != [] <==> exists d | d in e.structural :: d.locator == path
  {
    var here := StructuralFor(e.structural, path);
    if here != [] { assert here[0] in here; }
  }

  /** The header, the signals and the verdict, read off the lists. */
  lemma ReducedVerdict(e: Evidence, c: Segment)
    requires Grounded(e, c)
    ensures var r := Reduce(e, c);
            && r.segmentId == c.id && r.generation == c.generation && r.paths == c.paths
            && (StructuralSignal in r.signals <==> r.structuralPaths != [])
            && (AssertionSignal in r.signals <==> r.assertionPaths != [])
            && (ArtifactOnlySignal in r.signals <==> r.artifactOnlyPaths != [])
            && (GitOnlySignal in r.signals <==> r.gitOnlyPaths != [])
            && (SuppressedSignal in r.signals <==> r.suppressedPaths != [])
            && (r.verdict.Suppress? <==> forall path | path in c.paths :: path in r.suppressedPaths)
  {
    EmptyLists(e, c);
    SignalsListed(StructuralSet(e, c), AssertionSet(e, c), ArtifactOnlySet(e, c), GitOnlySet(e, c), SuppressedSet(e, c));
    StructuralSetBacked(e, c);
    AllSuppressed(c.paths, SuppressedSet(e, c));
  }

  lemma AllSuppressed(paths: seq<string>, suppressed: set<string>)
    requires suppressed <= SetOf(paths)
    ensures SetOf(paths) == suppressed <==> forall path | path in paths :: path in SortedPaths(suppressed)
  {
    if forall path | path in paths :: path in SortedPaths(suppressed) {
      assert SetOf(paths) <= suppressed;
    }
  }

  lemma SignalsListed(
      structural: set<string>, assertions: set<string>, artifactOnly: set<string>, gitOnly: set<string>, suppressed: set<string>)
    ensures var s := SortedSignals(SignalsOf(structural, assertions, artifactOnly, gitOnly, suppressed));
            && (StructuralSignal in s <==> structural != {}) && (AssertionSignal in s <==> assertions != {})
            && (ArtifactOnlySignal in s <==> artifactOnly != {}) && (GitOnlySignal in s <==> gitOnly != {})
            && (SuppressedSignal in s <==> suppressed != {})
  {
    SignalsMember(structural, assertions, artifactOnly, gitOnly, suppressed);
    var all := SignalsOf(structural, assertions, artifactOnly, gitOnly, suppressed);
    assert forall x :: x in SortedSignals(all) <==> x in all;
  }

  lemma SignalsMember(
      structural: set<string>, assertions: set<string>, artifactOnly: set<string>, gitOnly: set<string>, suppressed: set<string>)
    ensures var s := SignalsOf(structural, assertions, artifactOnly, gitOnly, suppressed);
            && (StructuralSignal in s <==> structural != {}) && (AssertionSignal in s <==> assertions != {})
            && (ArtifactOnlySignal in s <==> artifactOnly != {}) && (GitOnlySignal in s <==> gitOnly != {})
            && (SuppressedSignal in s <==> suppressed != {})
  {}

  lemma SortedEmpty(paths: set<string>)
    ensures SortedPaths(paths) == [] <==> paths == {}
  {
    if path :| path in paths { assert path in SortedPaths(paths); }
    if SortedPaths(paths) != [] { assert SortedPaths(paths)[0] in SortedPaths(paths); }
  }

  lemma EmptyLists(e: Evidence, c: Segment)
    requires Planned(e, c)
    ensures var r := Reduce(e, c);
            && (r.structuralPaths == [] <==> StructuralSet(e, c) == {})
            && (r.assertionPaths == [] <==> AssertionSet(e, c) == {})
            && (r.artifactOnlyPaths == [] <==> ArtifactOnlySet(e, c) == {})
            && (r.gitOnlyPaths == [] <==> GitOnlySet(e, c) == {})
            && (r.suppressedPaths == [] <==> SuppressedSet(e, c) == {})
  {
    SortedEmpty(StructuralSet(e, c));
    SortedEmpty(AssertionSet(e, c));
    SortedEmpty(ArtifactOnlySet(e, c));
    SortedEmpty(GitOnlySet(e, c));
    SortedEmpty(SuppressedSet(e, c));
  }

  /** The signals of one candidate, collected step by step. */
  method CollectSignals(
      structural: set<string>, assertions: set<string>, artifactOnly: set<string>, gitOnly: set<string>, suppressed: set<string>)
    returns (signals: set<Signal>)
    ensures signals == SignalsOf(structural, assertions, artifactOnly, gitOnly, suppressed)
  {
    signals := {};
    if structural != {} { signals := signals + {StructuralSignal}; }
    if assertions != {} { signals := signals + {AssertionSignal}; }
    if artifactOnly != {} { signals := signals + {ArtifactOnlySignal}; }
    if gitOnly != {} { signals := signals + {GitOnlySignal}; }
    if suppressed != {} { signals := signals + {SuppressedSignal}; }
  }

  /** The reducer: the two special cases at its end change nothing on grounded evidence. */
  method ReduceCandidate(e: Evidence, c: Segment) returns (r: Reduction)
    requires Grounded(e, c)
    ensures r == Reduce(e, c)
  {
    var pathSet := SetOf(c.paths);
    var plans := CandidatePlans(e, c);
    var suppressed := set p | p in plans && PolicySuppressed(p) :: p.path;
    var artifactPaths, structuralPaths, assertionPaths := ArtifactSet(e, c), StructuralSet(e, c), AssertionSet(e, c);
    var artifactOnly := artifactPaths - structuralPaths - assertionPaths;
    var gitOnly := pathSet - artifactPaths - structuralPaths - assertionPaths - suppressed;

    var signals := CollectSignals(structuralPaths, assertionPaths, artifactOnly, gitOnly, suppressed);
    var fullySuppressed := pathSet == suppressed;
    SomeSignal(e, c);
    if fullySuppressed {
      FullySuppressedSignals(e, c);
      signals := {SuppressedSignal};
    } else if signals == {} {
      signals := {GitOnlySignal};
      gitOnly := pathSet;
    }
    assert signals == SignalSet(e, c) && gitOnly == GitOnlySet(e, c) && suppressed == SuppressedSet(e, c);
    r := Reduction(
      c.id, c.generation, c.paths, SortBy(IdKey, Map(PlanIdOf, plans)),
      SortedPaths(pathSet * (e.previousRequired + e.currentRequired)), SortedPaths(suppressed),
      SortBy(IdKey, FlatMap(ArtifactIdAt(e), c.paths)), SortedPaths(artifactPaths),
      SortBy(IdKey, FlatMap(StructuralIdsAt(e), c.paths)), SortedPaths(structuralPaths),
      SortedPaths(assertionPaths), SortedPaths(artifactOnly), SortedPaths(gitOnly),
      SortedSignals(signals), if fullySuppressed then Suppress else Retain);
  }
}
