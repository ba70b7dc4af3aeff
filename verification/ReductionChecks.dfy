/**
  The checks a reduction run makes before it reduces anything, and what they amount to
  together: every candidate is then grounded (src/lemmamind/candidate_reduction.py).
*/
module ReductionChecks {
  import opened Wrappers
  import opened Orders
  import opened Digests
  import opened TreeDiff
  import opened Segmentation
  import opened Planning
  import opened Reduction
  import C = Changes

  datatype CheckError =
    | CandidateProvenance | CandidateMembership | DeltaAssignedTwice | DeltasNotCovered | PathAssignedTwice
    | ForeignPlan | DuplicatePlan | PlanProvenance | PlansIncomplete
    | DuplicateLocator | ScopeMismatch | NotCaptured | NotMissing | UnexpectedSide | ForeignAssertion

  // ----- candidates cover the deltas -----

  function DeltaById(deltas: seq<Delta>, id: Id): (r: Option<Delta>)
    ensures r.Some? ==> r.value in deltas && r.value.id == id
    ensures r.None? ==> forall d | d in deltas :: d.id != id
  {
    if deltas == [] then None
    else
      var init, last := deltas[..|deltas| - 1], deltas[|deltas| - 1];
      assert deltas == init + [last];
      if last.id == id then Some(last) else DeltaById(init, id)
  }

  predicate SameRevisions(a: Generation, b: Generation) {
    a.sourceId == b.sourceId && a.previousRevision == b.previousRevision && a.currentRevision == b.currentRevision
  }

  /** The i-th id and path of a candidate name one delta. */
  predicate Membership(deltas: seq<Delta>, c: Segment, i: nat) {
    && i < |c.deltaIds| && i < |c.paths|
    && DeltaById(deltas, c.deltaIds[i]).Some? && DeltaById(deltas, c.deltaIds[i]).value.path == c.paths[i]
  }

  predicate CandidateFits(g: Generation, deltas: seq<Delta>, c: Segment) {
    SameRevisions(c.generation, g) && forall i | 0 <= i < |c.paths| :: Membership(deltas, c, i)
  }

  function SegmentPaths(c: Segment): seq<string> { c.paths }

  function AssignedPaths(candidates: seq<Segment>): seq<string> { FlatMap(SegmentPaths, candidates) }

  predicate CandidateCoverage(g: Generation, deltas: seq<Delta>, candidates: seq<Segment>) {
    && (forall c | c in candidates :: CandidateFits(g, deltas, c))
    && Unique(AssignedIds(candidates))
    && SetOf(AssignedIds(candidates)) == SetOf(Map(DeltaIdOf, deltas))
    && Unique(AssignedPaths(candidates))
  }

  method ValidateCandidateCoverage(g: Generation, deltas: seq<Delta>, candidates: seq<Segment>) returns (r: Result<(), CheckError>)
    requires forall c | c in candidates :: |c.deltaIds| == |c.paths|
    ensures r.Ok? <==> CandidateCoverage(g, deltas, candidates)
  {
    var assignedIds: seq<Id> := [];
    var assignedPaths: seq<string> := [];
    for i := 0 to |candidates|
      invariant assignedIds == AssignedIds(candidates[..i]) && assignedPaths == AssignedPaths(candidates[..i])
      invariant forall k | 0 <= k < i :: CandidateFits(g, deltas, candidates[k])
    {
      var candidate := candidates[i];
      assert candidate in candidates;
      FlatMapStep(DeltaIdsOf, candidates, i);
      FlatMapStep(SegmentPaths, candidates, i);
      if !SameRevisions(candidate.generation, g) { return Err(CandidateProvenance); }
      var ids, paths := ZipCandidate(deltas, candidate);
      if ids.None? { return Err(CandidateMembership); }
      assignedIds := assignedIds + ids.value;
      assignedPaths := assignedPaths + paths;
    }
    assert candidates[..|candidates|] == candidates;
    if !Unique(assignedIds) { return Err(DeltaAssignedTwice); }
    if SetOf(assignedIds) != SetOf(Map(DeltaIdOf, deltas)) { return Err(DeltasNotCovered); }
    if !Unique(assignedPaths) { return Err(PathAssignedTwice); }
    r := Ok(());
  }

  /** The inner loop over the paired ids and paths of one candidate. */
  method ZipCandidate(deltas: seq<Delta>, c: Segment) returns (ids: Option<seq<Id>>, paths: seq<string>)
    requires |c.deltaIds| == |c.paths|
    ensures ids.Some? <==> forall i | 0 <= i < |c.paths| :: Membership(deltas, c, i)
    ensures ids.Some? ==> ids.value == c.deltaIds && paths == c.paths
  {
    var taken: seq<Id> := [];
    paths := [];
    for i := 0 to |c.paths|
      invariant taken == c.deltaIds[..i] && paths == c.paths[..i]
      invariant forall k | 0 <= k < i :: Membership(deltas, c, k)
    {
      var delta := DeltaById(deltas, c.deltaIds[i]);
      if delta.None? || delta.value.path != c.paths[i] {
        assert !Membership(deltas, c, i);
        return None, paths;
      }
      taken := taken + [c.deltaIds[i]];
      paths := paths + [c.paths[i]];
    }
    ids := Some(taken);
  }

  // ----- plans cover the deltas -----

  function PlanDeltaOf(p: Plan): Id { p.deltaId }

  predicate PlanFits(g: Generation, run: string, deltas: seq<Delta>, p: Plan) {
    var d := DeltaById(deltas, p.deltaId);
    && d.Some? && p.path == d.value.path && p.run == run
    && SameRevisions(p.generation, g) && p.generation.run == g.run
  }

  predicate PlanCoverage(g: Generation, run: string, deltas: seq<Delta>, plans: seq<Plan>) {
    && (forall p | p in plans :: PlanFits(g, run, deltas, p))
    && Unique(Map(PlanDeltaOf, plans))
    && SetOf(Map(PlanDeltaOf, plans)) == SetOf(Map(DeltaIdOf, deltas))
  }

  /** The plans read so far and the delta ids they planned. */
  ghost predicate PlansRead(g: Generation, run: string, deltas: seq<Delta>, plans: seq<Plan>, planned: set<Id>) {
    && (forall p | p in plans :: PlanFits(g, run, deltas, p))
    && Unique(Map(PlanDeltaOf, plans))
    && planned == SetOf(Map(PlanDeltaOf, plans))
  }

  lemma PlansReadStep(g: Generation, run: string, deltas: seq<Delta>, before: seq<Plan>, planned: set<Id>, p: Plan)
    requires PlansRead(g, run, deltas, before, planned)
    ensures PlanFits(g, run, deltas, p) && p.deltaId !in planned ==> PlansRead(g, run, deltas, before + [p], planned + {p.deltaId})
  {
    MapAppend(PlanDeltaOf, before, [p]);
    assert Map(PlanDeltaOf, [p]) == [p.deltaId];
    UniqueSnoc(Map(PlanDeltaOf, before), p.deltaId);
  }

  method ValidatePlanCoverage(g: Generation, run: string, deltas: seq<Delta>, plans: seq<Plan>) returns (r: Result<(), CheckError>)
    ensures r.Ok? <==> PlanCoverage(g, run, deltas, plans)
  {
    var planned: set<Id> := {};
    for i := 0 to |plans|
      invariant PlansRead(g, run, deltas, plans[..i], planned)
    {
      var plan := plans[i];
      assert plan in plans && plans[..i + 1] == plans[..i] + [plan];
      PlansReadStep(g, run, deltas, plans[..i], planned, plan);
      UniqueMapStep(PlanDeltaOf, plans, i);
      var delta := DeltaById(deltas, plan.deltaId);
      if delta.None? { return Err(ForeignPlan); }
      if plan.deltaId in planned { return Err(DuplicatePlan); }
      if !PlanFits(g, run, deltas, plan) { return Err(PlanProvenance); }
      planned := planned + {plan.deltaId};
    }
    assert plans[..|plans|] == plans;
    if planned != SetOf(Map(DeltaIdOf, deltas)) { return Err(PlansIncomplete); }
    r := Ok(());
  }

  // ----- the capture matches the plan scope -----

  method RequiredPaths(plans: seq<Plan>, previous: bool) returns (paths: seq<string>)
    ensures paths == CaptureScope(plans, previous)
  {
    paths := [];
    for i := 0 to |plans|
      invariant paths == FlatMap(ScopePath(previous), plans[..i])
    {
      FlatMapStep(ScopePath(previous), plans, i);
      var plan := plans[i];
      var side := if previous then plan.previous else plan.current;
      var opposite := if previous then plan.current else plan.previous;
      if Requests(side, opposite) { paths := paths + [plan.path]; }
    }
    assert plans[..|plans|] == plans;
    paths := SortBy(TextKey, paths);
  }

  function PlanAt(plans: seq<Plan>, path: string): (r: Option<Plan>)
    ensures r.Some? ==> r.value in plans && r.value.path == path
    ensures r.None? ==> forall p | p in plans :: p.path != path
  {
    if plans == [] then None
    else
      var init, last := plans[..|plans| - 1], plans[|plans| - 1];
      assert plans == init + [last];
      if last.path == path then Some(last) else PlanAt(init, path)
  }

  function SideOn(p: Plan, previous: bool): PlanSide { if previous then p.previous else p.current }

  /** What the capture holds at a path is what the planned side asks for. */
  predicate Honours(side: PlanSide, a: C.Artifact) {
    (side.disposition.Capture? && a.status.Captured?) || (side.disposition.AbsentSide? && a.status.Missing?)
  }

  predicate SideHonoured(plans: seq<Plan>, c: C.Capture, previous: bool, path: string) {
    && PlanAt(plans, path).Some? && C.AtLocator(c.artifacts, path).Some?
    && Honours(SideOn(PlanAt(plans, path).value, previous), C.AtLocator(c.artifacts, path).value)
  }

  predicate ScopeHonoured(plans: seq<Plan>, c: C.Capture, previous: bool) {
    && Unique(Map(C.LocatorOf, c.artifacts))
    && C.Locators(c) == SetOf(CaptureScope(plans, previous))
    && forall path | path in CaptureScope(plans, previous) :: SideHonoured(plans, c, previous, path)
  }

  lemma RequiredFound(plans: seq<Plan>, c: C.Capture, previous: bool, path: string)
    requires C.Locators(c) == SetOf(CaptureScope(plans, previous)) && path in CaptureScope(plans, previous)
    ensures PlanAt(plans, path).Some? && C.AtLocator(c.artifacts, path).Some?
  {
    ScopeMember(plans, previous, path);
    assert path in C.Locators(c);
    C.LocatorFound(c, path);
  }

  method ValidateCaptureScope(plans: seq<Plan>, c: C.Capture, previous: bool) returns (r: Result<(), CheckError>)
    ensures r.Ok? <==> ScopeHonoured(plans, c, previous)
  {
    var required := RequiredPaths(plans, previous);
    if !Unique(Map(C.LocatorOf, c.artifacts)) { return Err(DuplicateLocator); }
    if C.Locators(c) != SetOf(required) { return Err(ScopeMismatch); }
    var failed := CheckSides(plans, c, previous, required);
    r := if failed.Some? then Err(failed.value) else Ok(());
  }

  /** The loop over the required paths. */
  method CheckSides(plans: seq<Plan>, c: C.Capture, previous: bool, required: seq<string>) returns (r: Option<CheckError>)
    requires required == CaptureScope(plans, previous) && C.Locators(c) == SetOf(required)
    ensures r.None? <==> forall path | path in required :: SideHonoured(plans, c, previous, path)
  {
    for i := 0 to |required|
      invariant forall k | 0 <= k < i :: SideHonoured(plans, c, previous, required[k])
    {
      var path := required[i];
      assert path in required;
      RequiredFound(plans, c, previous, path);
      var side := SideOn(PlanAt(plans, path).value, previous);
      var reference := C.AtLocator(c.artifacts, path).value;
      assert SideHonoured(plans, c, previous, path) <==> Honours(side, reference);
      if side.disposition.Capture? {
        if !reference.status.Captured? { return Some(NotCaptured); }
      } else if side.disposition.AbsentSide? {
        if !reference.status.Missing? { return Some(NotMissing); }
      } else {
        return Some(UnexpectedSide);
      }
    }
    r := None;
  }

  // ----- authored assertions by path -----

  datatype Assertion = Assertion(id: string, artifactId: string, signature: Signature)

  function SignatureKey(s: Signature): Key { [Text(s.name), Text(s.version), Text(s.statement)] }

  function AssertionPath(c: C.Capture, a: Assertion): Option<string> {
    match C.CapturedById(c.artifacts, a.artifactId)
    case Some(artifact) => Some(artifact.locator)
    case None => None
  }

  /** The signatures of the assertions at one path, in listing order. */
  function Collected(c: C.Capture, assertions: seq<Assertion>, path: string): seq<Signature> {
    if assertions == [] then []
    else
      var init, last := assertions[..|assertions| - 1], assertions[|assertions| - 1];
      Collected(c, init, path) + (if AssertionPath(c, last) == Some(path) then [last.signature] else [])
  }

  function CollectedPaths(c: C.Capture, assertions: seq<Assertion>): set<string> {
    if assertions == [] then {}
    else
      var init, last := assertions[..|assertions| - 1], assertions[|assertions| - 1];
      CollectedPaths(c, init) + (if AssertionPath(c, last).Some? then {AssertionPath(c, last).value} else {})
  }

  /** The dictionary after the assertions read so far. */
  ghost predicate Gathered(c: C.Capture, assertions: seq<Assertion>, collected: Signatures) {
    && collected.Keys == CollectedPaths(c, assertions) && collected.Keys <= C.Locators(c)
    && forall path :: SignaturesAt(collected, path) == Collected(c, assertions, path)
  }

  lemma GatheredStep(c: C.Capture, before: seq<Assertion>, a: Assertion, collected: Signatures)
    requires Gathered(c, before, collected) && AssertionPath(c, a).Some?
    ensures var path := AssertionPath(c, a).value;
            Gathered(c, before + [a], collected[path := SignaturesAt(collected, path) + [a.signature]])
  {
    var all, path := before + [a], AssertionPath(c, a).value;
    assert all[..|before|] == before;
    assert C.CapturedById(c.artifacts, a.artifactId).value in c.artifacts;
    var now := collected[path := SignaturesAt(collected, path) + [a.signature]];
    forall p ensures SignaturesAt(now, p) == Collected(c, all, p) {
      assert SignaturesAt(collected, p) == Collected(c, before, p);
    }
  }

  lemma GatheredAt(c: C.Capture, assertions: seq<Assertion>, collected: Signatures)
    requires Gathered(c, assertions, collected)
    ensures forall path | path in collected :: collected[path] == Collected(c, assertions, path)
  {
    forall path | path in collected ensures collected[path] == Collected(c, assertions, path) {
      assert SignaturesAt(collected, path) == Collected(c, assertions, path);
    }
  }

  /** The loop over the assertions. */
  method GatherAssertions(c: C.Capture, assertions: seq<Assertion>) returns (r: Result<Signatures, CheckError>)
    ensures r.Ok? <==> forall a | a in assertions :: AssertionPath(c, a).Some?
    ensures r.Ok? ==> Gathered(c, assertions, r.value)
  {
    var collected: Signatures := map[];
    for i := 0 to |assertions|
      invariant forall k | 0 <= k < i :: AssertionPath(c, assertions[k]).Some?
      invariant Gathered(c, assertions[..i], collected)
    {
      var assertion := assertions[i];
      PrefixSnoc(assertions, i);
      assert assertion in assertions;
      var path := AssertionPath(c, assertion);
      if path.None? { return Err(ForeignAssertion); }
      GatheredStep(c, assertions[..i], assertion, collected);
      collected := collected[path.value := SignaturesAt(collected, path.value) + [assertion.signature]];
    }
    assert assertions[..|assertions|] == assertions;
    r := Ok(collected);
  }

  method AssertionSignatures(c: C.Capture, assertions: seq<Assertion>) returns (r: Result<Signatures, CheckError>)
    ensures r.Ok? <==> forall a | a in assertions :: AssertionPath(c, a).Some?
    ensures r.Ok? ==> r.value.Keys == CollectedPaths(c, assertions) && r.value.Keys <= C.Locators(c)
    ensures r.Ok? ==> forall path | path in r.value :: r.value[path] == SortBy(SignatureKey, Collected(c, assertions, path))
  {
    var gathered := GatherAssertions(c, assertions);
    if gathered.Err? { return gathered; }
    var collected := gathered.value;
    GatheredAt(c, assertions, collected);
    r := Ok(map path | path in collected :: SortBy(SignatureKey, collected[path]));
  }

  /** The assertion was read off the captured artifact at the path. */
  predicate AuthoredAt(c: C.Capture, a: Assertion, path: string) {
    exists x | x in c.artifacts :: x.id == a.artifactId && x.status.Captured? && x.locator == path
  }

  lemma PathIsAuthored(c: C.Capture, a: Assertion, path: string)
    requires C.Reconstructed(c)
    ensures AssertionPath(c, a) == Some(path) <==> AuthoredAt(c, a, path)
  {
    if x :| x in c.artifacts && x.id == a.artifactId && x.status.Captured? && x.locator == path {
      UniqueKey(C.ArtifactIdOf, c.artifacts, x, C.CapturedById(c.artifacts, a.artifactId).value);
    }
  }

  /** The signatures at a path are those of the assertions authored there, as many of each. */
  lemma {:induction false} SignaturesAuthored(c: C.Capture, assertions: seq<Assertion>, path: string, s: Signature)
    requires C.Reconstructed(c)
    ensures multiset(Collected(c, assertions, path))[s] == Authored(c, assertions, path, s)
    ensures path in CollectedPaths(c, assertions) <==> exists a | a in assertions :: AuthoredAt(c, a, path)
  {
    if assertions != [] {
      var init, last := assertions[..|assertions| - 1], assertions[|assertions| - 1];
      assert assertions == init + [last];
      SignaturesAuthored(c, init, path, s);
      PathIsAuthored(c, last, path);
      assert forall a :: a in assertions <==> a in init || a == last;
    }
  }

  /** How many assertions with the signature were authored at the path. */
  function Authored(c: C.Capture, assertions: seq<Assertion>, path: string, s: Signature): nat {
    if assertions == [] then 0
    else
      var last := assertions[|assertions| - 1];
      Authored(c, assertions[..|assertions| - 1], path, s) + if AuthoredAt(c, last, path) && last.signature == s then 1 else 0
  }

  /** Listing the assertions in another order gives the same signatures at every path. */
  lemma SignaturesForgetOrder(c: C.Capture, a: seq<Assertion>, b: seq<Assertion>, path: string)
    requires multiset(a) == multiset(b)
    ensures SortBy(SignatureKey, Collected(c, a, path)) == SortBy(SignatureKey, Collected(c, b, path))
  {
    CollectedPermutes(c, a, b, path);
    var x, y := Collected(c, a, path), Collected(c, b, path);
    var id := (s: Signature) => s;
    assert KeyDetermines(SignatureKey, id, x) by {
      forall i, j | 0 <= i < |x| && 0 <= j < |x| && SignatureKey(x[i]) == SignatureKey(x[j]) ensures x[i] == x[j] {
        assert forall k | 0 <= k < 3 :: SignatureKey(x[i])[k] == SignatureKey(x[j])[k];
      }
    }
    SortForgetsOrder(SignatureKey, id, x, y);
    assert Map(id, SortBy(SignatureKey, x)) == SortBy(SignatureKey, x);
    assert Map(id, SortBy(SignatureKey, y)) == SortBy(SignatureKey, y);
  }

  function SignatureAt(c: C.Capture, path: string): Assertion -> seq<Signature> {
    a => if AssertionPath(c, a) == Some(path) then [a.signature] else []
  }

  lemma {:induction false} CollectedIsFlatMap(c: C.Capture, a: seq<Assertion>, path: string)
    ensures Collected(c, a, path) == FlatMap(SignatureAt(c, path), a)
  {
    if a != [] { CollectedIsFlatMap(c, a[..|a| - 1], path); }
  }

  lemma CollectedPermutes(c: C.Capture, a: seq<Assertion>, b: seq<Assertion>, path: string)
    requires multiset(a) == multiset(b)
    ensures multiset(Collected(c, a, path)) == multiset(Collected(c, b, path))
  {
    CollectedIsFlatMap(c, a, path);
    CollectedIsFlatMap(c, b, path);
    FlatMapMultiset(SignatureAt(c, path), a, b);
  }
}
