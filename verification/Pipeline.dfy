/**
  The change pipeline end to end: tree diff, first-parent segmentation, capture planning,
  deterministic comparison and candidate reduction, each stage fed with what the one before
  it produces.
*/
module Pipeline {
  import opened Wrappers
  import opened Orders
  import opened Digests
  import opened TreeDiff
  import opened Segmentation
  import opened Planning
  import opened Reduction
  import opened ReductionChecks
  import C = Changes
  import D = Determinism

  // ----- one reduction run -----

  /** What one reduction run reads. */
  datatype Stage = Stage(
    generation: Generation, planRun: string, deltas: seq<Delta>, candidates: seq<Segment>, plans: seq<Plan>,
    previous: C.Capture, current: C.Capture, pair: C.Pair,
    previousAssertions: Signatures, currentAssertions: Signatures)

  predicate DeltaPathsDistinct(deltas: seq<Delta>) {
    forall d, e | d in deltas && e in deltas && d.path == e.path :: d == e
  }

  /** All checks pass, and the comparison is the one of the two captures. */
  predicate Checked(s: Stage) {
    && DeltaPathsDistinct(s.deltas)
    && (forall c | c in s.candidates :: ValidSegment(c))
    && CandidateCoverage(s.generation, s.deltas, s.candidates)
    && PlanCoverage(s.generation, s.planRun, s.deltas, s.plans)
    && (forall p, q | p in s.plans && q in s.plans && p.id == q.id :: p == q)
    && ScopeHonoured(s.plans, s.previous, true) && ScopeHonoured(s.plans, s.current, false)
    && s.pair.deltas == C.ArtifactDeltas(s.pair.run, s.previous, s.current)
    && Unique(Map(StructuralIdOf, C.Structural(s.pair)))
    && s.previousAssertions.Keys <= C.Locators(s.previous) && s.currentAssertions.Keys <= C.Locators(s.current)
  }

  function EvidenceOf(s: Stage): Evidence {
    Evidence(s.plans, s.pair.deltas, C.Structural(s.pair), s.previousAssertions, s.currentAssertions,
             SetOf(CaptureScope(s.plans, true)), SetOf(CaptureScope(s.plans, false)))
  }

  /** A plan is found for every delta of a candidate, at the candidate's own path. */
  lemma PlanFound(s: Stage, c: Segment, i: nat)
    requires Checked(s) && c in s.candidates && i < |c.paths|
    ensures i < |c.deltaIds| && PlanFor(s.plans, c.deltaIds[i]).Some?
    ensures PlanFor(s.plans, c.deltaIds[i]).value.path == c.paths[i]
  {
    assert CandidateFits(s.generation, s.deltas, c);
    assert Membership(s.deltas, c, i);
    var id := c.deltaIds[i];
    var d := DeltaById(s.deltas, id).value;
    var j :| 0 <= j < |s.deltas| && s.deltas[j] == d;
    assert Map(DeltaIdOf, s.deltas)[j] == id;
    assert id in SetOf(Map(PlanDeltaOf, s.plans));
    var k :| 0 <= k < |s.plans| && Map(PlanDeltaOf, s.plans)[k] == id;
    assert s.plans[k] in s.plans && s.plans[k].deltaId == id;
    var p := PlanFor(s.plans, id).value;
    assert PlanFits(s.generation, s.planRun, s.deltas, p);
  }

  lemma OnePlanPerDelta(plans: seq<Plan>, p: Plan, q: Plan)
    requires Unique(Map(PlanDeltaOf, plans)) && p in plans && q in plans && p.deltaId == q.deltaId
    ensures p == q
  {
    UniqueKey(PlanDeltaOf, plans, p, q);
  }

  lemma PlannedDelta(g: Generation, run: string, deltas: seq<Delta>, p: Plan) returns (d: Delta)
    requires PlanFits(g, run, deltas, p)
    ensures d in deltas && d.id == p.deltaId && d.path == p.path
  {
    d := DeltaById(deltas, p.deltaId).value;
  }

  lemma PlanPathsDistinct(s: Stage, p: Plan, q: Plan)
    requires Checked(s) && p in s.plans && q in s.plans && p.path == q.path
    ensures p == q
  {
    var d := PlannedDelta(s.generation, s.planRun, s.deltas, p);
    var e := PlannedDelta(s.generation, s.planRun, s.deltas, q);
    assert d == e;
    OnePlanPerDelta(s.plans, p, q);
  }

  /** A policy-suppressed path is requested on neither revision. */
  lemma SuppressedNotRequired(s: Stage, p: Plan, previous: bool)
    requires Checked(s) && p in s.plans && PolicySuppressed(p)
    ensures p.path !in CaptureScope(s.plans, previous)
  {
    ScopeMember(s.plans, previous, p.path);
    if q :| q in s.plans && q.path == p.path && RequestedOn(q, previous) {
      PlanPathsDistinct(s, p, q);
      assert false;
    }
  }

  /** An artifact delta is the one its locator has, and its id tells the locator. */
  lemma ArtifactDeltaNamed(run: string, previous: C.Capture, current: C.Capture, d: C.ArtifactDelta)
    requires d in C.ArtifactDeltas(run, previous, current)
    ensures C.ArtifactDeltaHere(run, previous, current, d.locator) == [d]
    ensures d.id == C.ArtifactDeltaId(run, d.locator)
    ensures d.locator in C.Locators(previous) + C.Locators(current)
  {
    C.ArtifactDeltaMember(run, previous, current, d);
  }

  lemma ArtifactDeltaIdsDistinct(run: string, previous: C.Capture, current: C.Capture, d: C.ArtifactDelta, e: C.ArtifactDelta)
    requires d in C.ArtifactDeltas(run, previous, current) && e in C.ArtifactDeltas(run, previous, current) && d.id == e.id
    ensures d == e
  {
    ArtifactDeltaNamed(run, previous, current, d);
    ArtifactDeltaNamed(run, previous, current, e);
    assert d.id[2] == Text(d.locator) && e.id[2] == Text(e.locator);
    assert [d][0] == [e][0];
  }

  lemma ArtifactDeltaGrounded(s: Stage, d: C.ArtifactDelta)
    requires Checked(s) && d in s.pair.deltas
    ensures d.locator in SetOf(CaptureScope(s.plans, true)) || d.locator in SetOf(CaptureScope(s.plans, false))
  {
    ArtifactDeltaNamed(s.pair.run, s.previous, s.current, d);
  }

  lemma StructuralGrounded(s: Stage, d: C.StructuralDelta)
    requires d in C.Structural(s.pair)
    ensures ArtifactFor(s.pair.deltas, d.locator).Some?
  {
    D.StructuralBacked(s.pair, d);
    var a :| a in s.pair.deltas && a.locator == d.locator;
  }

  /** Once the checks pass, every candidate is grounded. */
  lemma CheckedIsGrounded(s: Stage, c: Segment)
    requires Checked(s) && c in s.candidates
    ensures Grounded(EvidenceOf(s), c)
  {
    forall i | 0 <= i < |c.paths|
      ensures PlanFor(s.plans, c.deltaIds[i]).Some? && PlanFor(s.plans, c.deltaIds[i]).value.path == c.paths[i]
    {
      PlanFound(s, c, i);
    }
    forall p | p in s.plans && PolicySuppressed(p)
      ensures p.path !in SetOf(CaptureScope(s.plans, true)) && p.path !in SetOf(CaptureScope(s.plans, false))
    {
      SuppressedNotRequired(s, p, true);
      SuppressedNotRequired(s, p, false);
    }
    forall d | d in s.pair.deltas
      ensures d.locator in SetOf(CaptureScope(s.plans, true)) || d.locator in SetOf(CaptureScope(s.plans, false))
    {
      ArtifactDeltaGrounded(s, d);
    }
    forall d, e | d in s.pair.deltas && e in s.pair.deltas && d.id == e.id ensures d == e {
      ArtifactDeltaIdsDistinct(s.pair.run, s.previous, s.current, d, e);
    }
    forall d | d in C.Structural(s.pair) ensures ArtifactFor(s.pair.deltas, d.locator).Some? { StructuralGrounded(s, d); }
  }

  /**
    Reduction is total: once the checks pass, every candidate reduces to a record that satisfies
    its whole contract, and no path of it is lost.
  */
  lemma ReductionTotal(s: Stage, c: Segment)
    requires Checked(s) && c in s.candidates
    ensures Planned(EvidenceOf(s), c) && ValidReduction(Reduce(EvidenceOf(s), c))
    ensures forall path | path in c.paths ::
              || path in Reduce(EvidenceOf(s), c).structuralPaths || path in Reduce(EvidenceOf(s), c).assertionPaths
              || path in Reduce(EvidenceOf(s), c).artifactOnlyPaths || path in Reduce(EvidenceOf(s), c).gitOnlyPaths
              || path in Reduce(EvidenceOf(s), c).suppressedPaths
  {
    CheckedIsGrounded(s, c);
    ReduceValid(EvidenceOf(s), c);
    forall path | path in c.paths
      ensures || path in Reduce(EvidenceOf(s), c).structuralPaths || path in Reduce(EvidenceOf(s), c).assertionPaths
              || path in Reduce(EvidenceOf(s), c).artifactOnlyPaths || path in Reduce(EvidenceOf(s), c).gitOnlyPaths
              || path in Reduce(EvidenceOf(s), c).suppressedPaths
    {
      EveryPathAccounted(EvidenceOf(s), c, path);
    }
  }

  lemma OnlyPlanDecides(s: Stage, p: Plan)
    requires Checked(s) && p in s.plans
    ensures Decides(s.plans, p.deltaId, p)
  {
    var i :| 0 <= i < |s.plans| && s.plans[i] == p;
    forall j | i < j < |s.plans| ensures s.plans[j].deltaId != p.deltaId {
      assert Map(PlanDeltaOf, s.plans)[i] != Map(PlanDeltaOf, s.plans)[j];
    }
  }

  lemma OnlyDeltaCounts(s: Stage, d: C.ArtifactDelta)
    requires Checked(s) && d in s.pair.deltas
    ensures Counts(s.pair.deltas, d.locator, d)
  {
    C.ArtifactDeltasIncreasing(s.pair.run, s.previous, s.current);
    var i :| 0 <= i < |s.pair.deltas| && s.pair.deltas[i] == d;
    forall j | i < j < |s.pair.deltas| ensures s.pair.deltas[j].locator != d.locator {
      KeyAsymmetric(C.ArtifactDeltaKey(s.pair.deltas[i]), C.ArtifactDeltaKey(s.pair.deltas[j]));
    }
  }

  /**
    What the reduction of a checked stage names: the plans of the candidate's deltas, and the artifact and
    structural deltas of the comparison at its paths, all of them and no others.
  */
  lemma ReductionCites(s: Stage, c: Segment, id: Id)
    requires Checked(s) && c in s.candidates
    ensures Planned(EvidenceOf(s), c)
    ensures id in Reduce(EvidenceOf(s), c).planIds <==> exists p | p in s.plans :: p.deltaId in c.deltaIds && p.id == id
    ensures id in Reduce(EvidenceOf(s), c).artifactIds <==> exists d | d in s.pair.deltas :: d.locator in c.paths && d.id == id
    ensures id in Reduce(EvidenceOf(s), c).structuralIds <==> exists d | d in C.Structural(s.pair) :: d.locator in c.paths && d.id == id
  {
    CheckedIsGrounded(s, c);
    PlansCited(EvidenceOf(s), c, id);
    ArtifactsCited(EvidenceOf(s), c, id);
    StructuralCited(EvidenceOf(s), c, id);
    forall p | p in s.plans ensures Decides(s.plans, p.deltaId, p) { OnlyPlanDecides(s, p); }
    forall d | d in s.pair.deltas ensures Counts(s.pair.deltas, d.locator, d) { OnlyDeltaCounts(s, d); }
  }

  predicate RequestedPath(plans: seq<Plan>, path: string) {
    exists p | p in plans :: p.path == path && (RequestedOn(p, true) || RequestedOn(p, false))
  }

  lemma RequestedIff(plans: seq<Plan>, path: string)
    ensures path in SetOf(CaptureScope(plans, true)) || path in SetOf(CaptureScope(plans, false)) <==> RequestedPath(plans, path)
  {
    ScopeMember(plans, true, path);
    ScopeMember(plans, false, path);
  }

  predicate SignaturesDiffer(was: Signatures, now: Signatures, path: string) {
    (if path in was then was[path] else []) != (if path in now then now[path] else [])
  }

  lemma ListedPaths(e: Evidence, c: Segment, path: string)
    requires Planned(e, c) && path in c.paths
    ensures path in Reduce(e, c).capturePaths <==> path in e.previousRequired || path in e.currentRequired
    ensures path in Reduce(e, c).assertionPaths <==> SignaturesDiffer(e.previousAssertions, e.currentAssertions, path)
  {
    ReducedPaths(e, c, path);
  }

  /** A candidate path is listed as captured when some plan requests it, and as changed in assertions when its signatures differ. */
  lemma ReductionLists(s: Stage, c: Segment, path: string)
    requires Checked(s) && c in s.candidates && path in c.paths
    ensures Planned(EvidenceOf(s), c)
    ensures path in Reduce(EvidenceOf(s), c).capturePaths <==> RequestedPath(s.plans, path)
    ensures path in Reduce(EvidenceOf(s), c).assertionPaths <==> SignaturesDiffer(s.previousAssertions, s.currentAssertions, path)
  {
    CheckedIsGrounded(s, c);
    ListedPaths(EvidenceOf(s), c, path);
    RequestedIff(s.plans, path);
  }
}
