/**
  Affected-file capture planning (src/lemmamind/affected_file_planning.py,
  src/lemmamind/capture_planning_contracts.py).
*/
module Planning {
  import opened Wrappers
  import opened Orders
  import opened Digests
  import opened TreeDiff

  const MAX_CAPTURE_BLOB_BYTES: nat := 1_000_000

  datatype Disposition = Capture | AbsentSide | Suppressed | NonFile

  datatype Reason =
    | EligibleBlob | PathAbsent | DirectoryEntry | SubmodulePointer | GeneratedSurface | VendoredSurface | LargeBlob

  datatype PlanSide = PlanSide(
    revision: string, disposition: Disposition, reason: Reason,
    kind: Option<string>, sha: Option<string>, size: Option<nat>)

  datatype Plan = Plan(
    id: Id, deltaId: Id, generation: Generation, path: string, surface: Surface,
    previous: PlanSide, current: PlanSide, run: string)

  datatype PlanError = AbsentWithSize | IncompleteProvenance | UnsupportedKind

  predicate Large(size: Option<nat>) {
    size.Some? && size.value > MAX_CAPTURE_BLOB_BYTES
  }

  function SuppressedSurface(surface: Surface): Option<Reason> {
    match surface
    case Generated => Some(GeneratedSurface)
    case Vendored => Some(VendoredSurface)
    case _ => None
  }

  function PlanOneSide(revision: string, surface: Surface, side: Side, forceLarge: bool): Result<PlanSide, PlanError> {
    if side.kind.None? && side.sha.None? then
      if side.size.Some? then Err(AbsentWithSize)
      else Ok(PlanSide(revision, AbsentSide, PathAbsent, None, None, None))
    else if side.kind.None? || side.sha.None? then Err(IncompleteProvenance)
    else if side.kind.value == "tree" then
      Ok(PlanSide(revision, NonFile, DirectoryEntry, side.kind, side.sha, side.size))
    else if side.kind.value == "commit" then
      Ok(PlanSide(revision, NonFile, SubmodulePointer, side.kind, side.sha, side.size))
    else if side.kind.value != "blob" then Err(UnsupportedKind)
    else if SuppressedSurface(surface).Some? then
      Ok(PlanSide(revision, Suppressed, SuppressedSurface(surface).value, side.kind, side.sha, side.size))
    else if forceLarge || Large(side.size) then
      Ok(PlanSide(revision, Suppressed, LargeBlob, side.kind, side.sha, side.size))
    else Ok(PlanSide(revision, Capture, EligibleBlob, side.kind, side.sha, side.size))
  }

  function PlanId(run: string, deltaId: Id): Id { [Text("affected-file-plan"), Text(run)] + deltaId }

  function PlanDelta(run: string, d: Delta): Result<Plan, PlanError> {
    var forceLarge := d.change.Modified? && (Large(d.previous.size) || Large(d.current.size));
    var previous := PlanOneSide(d.generation.previousRevision, d.surface, d.previous, forceLarge);
    var current := PlanOneSide(d.generation.currentRevision, d.surface, d.current, forceLarge);
    if previous.Err? then Err(previous.error)
    else if current.Err? then Err(current.error)
    else Ok(Plan(PlanId(run, d.id), d.id, d.generation, d.path, d.surface, previous.value, current.value, run))
  }

  // ----- the planning contract -----

  predicate ValidSide(s: PlanSide) {
    match s.disposition
    case AbsentSide => s.reason.PathAbsent? && s.kind.None? && s.sha.None? && s.size.None?
    case NonFile =>
      && s.kind.Some? && s.sha.Some?
      && ((s.kind.value == "tree" && s.reason.DirectoryEntry?) || (s.kind.value == "commit" && s.reason.SubmodulePointer?))
    case Capture => s.kind == Some("blob") && s.sha.Some? && s.reason.EligibleBlob?
    case Suppressed =>
      && s.kind == Some("blob") && s.sha.Some?
      && (s.reason.GeneratedSurface? || s.reason.VendoredSurface? || s.reason.LargeBlob?)
  }

  predicate ValidPlan(p: Plan) {
    && p.path != ""
    && ValidSide(p.previous) && ValidSide(p.current)
    && p.previous.revision == p.generation.previousRevision
    && p.current.revision == p.generation.currentRevision
    && !(p.previous.disposition.AbsentSide? && p.current.disposition.AbsentSide?)
  }

  predicate SupportedKind(side: Side) {
    side.kind.None? || side.kind.value in {"blob", "tree", "commit"}
  }

  /** A valid delta is planned exactly when Git knows both of its entry types, and the plan is then valid. */
  lemma PlanDeltaTotal(run: string, d: Delta)
    requires ValidTransition(d)
    ensures PlanDelta(run, d).Ok? <==> SupportedKind(d.previous) && SupportedKind(d.current)
    ensures PlanDelta(run, d).Ok? ==> ValidPlan(PlanDelta(run, d).value)
  {
    var force := d.change.Modified? && (Large(d.previous.size) || Large(d.current.size));
    SidePlanned(d.generation.previousRevision, d.surface, d.previous, force);
    SidePlanned(d.generation.currentRevision, d.surface, d.current, force);
  }

  /** A side that names all of a Git entry, or nothing, is planned exactly when its type is known. */
  lemma SidePlanned(revision: string, surface: Surface, side: Side, force: bool)
    requires side.kind.None? <==> side.sha.None?
    requires side.kind.None? ==> side.size.None?
    ensures PlanOneSide(revision, surface, side, force).Ok? <==> SupportedKind(side)
    ensures PlanOneSide(revision, surface, side, force).Ok? ==>
              var planned := PlanOneSide(revision, surface, side, force).value;
              ValidSide(planned) && planned.revision == revision && (planned.disposition.AbsentSide? <==> side.kind.None?)
  {}

  // ----- what a plan says -----

  /** The planned side keeps the revision and the entry, and says of it one of five things, for the reason given. */
  predicate SideSays(d: Delta, side: Side, revision: string, s: PlanSide) {
    && s.revision == revision && s.kind == side.kind && s.sha == side.sha && s.size == side.size
    && if side.kind.None? then s.disposition == AbsentSide && s.reason == PathAbsent
       else if side.kind.value == "tree" then s.disposition == NonFile && s.reason == DirectoryEntry
       else if side.kind.value == "commit" then s.disposition == NonFile && s.reason == SubmodulePointer
       else if d.surface == Generated then s.disposition == Suppressed && s.reason == GeneratedSurface
       else if d.surface == Vendored then s.disposition == Suppressed && s.reason == VendoredSurface
       else if TooLarge(d, side) then s.disposition == Suppressed && s.reason == LargeBlob
       else s.disposition == Capture && s.reason == EligibleBlob
  }

  /** The blob is above a million bytes, or its modified counterpart is. */
  predicate TooLarge(d: Delta, side: Side) {
    || (side.size.Some? && side.size.value > 1_000_000)
    || (d.change == Modified && ((d.previous.size.Some? && d.previous.size.value > 1_000_000)
                                 || (d.current.size.Some? && d.current.size.value > 1_000_000)))
  }

  /** A plan carries its delta over, and plans both sides, each on its own revision. */
  lemma PlanSays(run: string, d: Delta, p: Plan)
    requires PlanDelta(run, d) == Ok(p)
    ensures p.deltaId == d.id && p.generation == d.generation && p.path == d.path && p.surface == d.surface && p.run == run
    ensures SideSays(d, d.previous, d.generation.previousRevision, p.previous)
    ensures SideSays(d, d.current, d.generation.currentRevision, p.current)
  {
    var force := d.change.Modified? && (Large(d.previous.size) || Large(d.current.size));
    SidePlanSays(d, d.previous, d.generation.previousRevision, force);
    SidePlanSays(d, d.current, d.generation.currentRevision, force);
  }

  lemma SidePlanSays(d: Delta, side: Side, revision: string, force: bool)
    requires force == (d.change.Modified? && (Large(d.previous.size) || Large(d.current.size)))
    requires PlanOneSide(revision, d.surface, side, force).Ok?
    ensures SideSays(d, side, revision, PlanOneSide(revision, d.surface, side, force).value)
  {}

  /** Plans of two deltas have one id exactly when run and delta are the same. */
  lemma PlanIdsDecide(run: string, d: Delta, p: Plan, other: string, e: Delta, q: Plan)
    requires PlanDelta(run, d) == Ok(p) && PlanDelta(other, e) == Ok(q)
    ensures p.id == q.id <==> run == other && d.id == e.id
  {
    assert p.id[1] == Text(run) && q.id[1] == Text(other) && p.id[2..] == d.id && q.id[2..] == e.id;
  }

  // ----- what a plan asks to be captured -----

  /** The side is captured, or its absence next to a captured side is to be recorded. */
  predicate Requests(side: PlanSide, opposite: PlanSide) {
    side.disposition.Capture? || (side.disposition.AbsentSide? && opposite.disposition.Capture?)
  }

  predicate RequestedOn(p: Plan, previous: bool) {
    if previous then Requests(p.previous, p.current) else Requests(p.current, p.previous)
  }

  /** A blob small enough, on a surface that is not suppressed. */
  predicate Eligible(d: Delta, side: Side) {
    side.kind == Some("blob") && d.surface != Generated && d.surface != Vendored && !Large(side.size)
  }

  /**
    Capture scope is symmetric: a path is requested on exactly one revision if and only if its
    type changed and exactly one of its sides is an eligible blob.
  */
  lemma CaptureScopeSymmetric(run: string, d: Delta)
    requires ValidTransition(d) && PlanDelta(run, d).Ok?
    ensures RequestedOn(PlanDelta(run, d).value, true) != RequestedOn(PlanDelta(run, d).value, false)
            <==> d.change.TypeChanged? && Eligible(d, d.previous) != Eligible(d, d.current)
  {
    var p := PlanDelta(run, d).value;
    var force := d.change.Modified? && (Large(d.previous.size) || Large(d.current.size));
    SideCaptured(d.generation.previousRevision, d, d.previous, force);
    SideCaptured(d.generation.currentRevision, d, d.current, force);
    assert p.previous == PlanOneSide(d.generation.previousRevision, d.surface, d.previous, force).value;
    assert p.current == PlanOneSide(d.generation.currentRevision, d.surface, d.current, force).value;
  }

  lemma SideCaptured(revision: string, d: Delta, side: Side, force: bool)
    requires PlanOneSide(revision, d.surface, side, force).Ok?
    ensures PlanOneSide(revision, d.surface, side, force).value.disposition.Capture? <==> Eligible(d, side) && !force
    ensures PlanOneSide(revision, d.surface, side, force).value.disposition.AbsentSide? <==> side.kind.None? && side.sha.None?
  {}

  // ----- planning a whole diff -----

  function PlanAll(run: string, deltas: seq<Delta>): (r: seq<Plan>)
    requires forall d | d in deltas :: PlanDelta(run, d).Ok?
    ensures |r| == |deltas|
    ensures forall i | 0 <= i < |deltas| :: r[i] == PlanDelta(run, deltas[i]).value
  {
    if deltas == [] then []
    else
      var n := |deltas| - 1;
      assert deltas[n] in deltas;
      PlanAll(run, deltas[..n]) + [PlanDelta(run, deltas[n]).value]
  }

  method PlanDiff(run: string, deltas: seq<Delta>) returns (r: Result<seq<Plan>, PlanError>)
    ensures r.Ok? <==> forall d | d in deltas :: PlanDelta(run, d).Ok?
    ensures r.Ok? ==> r.value == PlanAll(run, deltas)
  {
    var plans: seq<Plan> := [];
    for i := 0 to |deltas|
      invariant forall d | d in deltas[..i] :: PlanDelta(run, d).Ok?
      invariant plans == PlanAll(run, deltas[..i])
    {
      var delta := deltas[i];
      assert deltas[..i + 1] == deltas[..i] + [delta];
      assert deltas[..i + 1][..i] == deltas[..i];
      assert delta in deltas;
      var plan := PlanDelta(run, delta);
      if plan.Err? { return Err(plan.error); }
      plans := plans + [plan.value];
    }
    assert deltas[..|deltas|] == deltas;
    r := Ok(plans);
  }

  function ScopePath(previous: bool): Plan -> seq<string> {
    p => if RequestedOn(p, previous) then [p.path] else []
  }

  /** The paths to request on one revision, sorted. */
  function CaptureScope(plans: seq<Plan>, previous: bool): seq<string> {
    SortBy(TextKey, FlatMap(ScopePath(previous), plans))
  }

  method CapturePaths(plans: seq<Plan>, previous: bool) returns (paths: seq<string>)
    ensures paths == CaptureScope(plans, previous)
  {
    paths := [];
    for i := 0 to |plans|
      invariant paths == FlatMap(ScopePath(previous), plans[..i])
    {
      FlatMapStep(ScopePath(previous), plans, i);
      var plan := plans[i];
      var side := if previous then plan.previous else plan.current;
      var opposite := if previous then plan.current else plan.previous;
      if side.disposition.Capture? {
        paths := paths + [plan.path];
      } else if side.disposition.AbsentSide? && opposite.disposition.Capture? {
        paths := paths + [plan.path];
      }
    }
    assert plans[..|plans|] == plans;
    paths := SortBy(TextKey, paths);
  }

  lemma ScopeMember(plans: seq<Plan>, previous: bool, path: string)
    ensures path in CaptureScope(plans, previous) <==> exists p | p in plans :: p.path == path && RequestedOn(p, previous)
  {
    FlatMapMembers(ScopePath(previous), plans, path);
    if p :| p in plans && p.path == path && RequestedOn(p, previous) {
      var i :| 0 <= i < |plans| && plans[i] == p;
      assert path in ScopePath(previous)(plans[i]);
    }
  }

  /** The delta's side is a blob, not on a suppressed surface and not too large. */
  predicate Wanted(d: Delta, side: Side) {
    side.kind == Some("blob") && d.surface != Generated && d.surface != Vendored && !TooLarge(d, side)
  }

  /** A side is requested when it is wanted, or when it is absent and its counterpart is wanted. */
  predicate Asks(d: Delta, previous: bool) {
    var side, opposite := if previous then d.previous else d.current, if previous then d.current else d.previous;
    Wanted(d, side) || (side.kind.None? && Wanted(d, opposite))
  }

  lemma PlanAsks(run: string, d: Delta, previous: bool)
    requires PlanDelta(run, d).Ok?
    ensures RequestedOn(PlanDelta(run, d).value, previous) <==> Asks(d, previous)
  {
    var p := PlanDelta(run, d).value;
    PlanSays(run, d, p);
    KnownKinds(run, d);
    BlobIsNeither();
  }

  lemma BlobIsNeither()
    ensures "blob" != "tree" && "blob" != "commit"
  {
    assert "blob"[0] == 'b' && "tree"[0] == 't' && "commit"[0] == 'c';
  }

  lemma KnownKinds(run: string, d: Delta)
    requires PlanDelta(run, d).Ok?
    ensures SupportedKind(d.previous) && SupportedKind(d.current)
  {}

  lemma PlanOf(run: string, d: Delta, p: Plan, previous: bool)
    requires PlanDelta(run, d) == Ok(p)
    ensures p.path == d.path && (RequestedOn(p, previous) <==> Asks(d, previous))
  {
    PlanSays(run, d, p);
    PlanAsks(run, d, previous);
  }

  /** The capture scope of a planned diff is, on either side, the paths of the deltas that ask for it. */
  lemma ScopeSays(run: string, deltas: seq<Delta>, previous: bool, path: string)
    requires forall d | d in deltas :: PlanDelta(run, d).Ok?
    ensures path in CaptureScope(PlanAll(run, deltas), previous) <==> exists d | d in deltas :: d.path == path && Asks(d, previous)
  {
    var plans := PlanAll(run, deltas);
    ScopeMember(plans, previous, path);
    forall i | 0 <= i < |deltas| ensures plans[i].path == deltas[i].path && (RequestedOn(plans[i], previous) <==> Asks(deltas[i], previous)) {
      assert deltas[i] in deltas;
      PlanOf(run, deltas[i], plans[i], previous);
    }
    if p :| p in plans && p.path == path && RequestedOn(p, previous) {
      var i :| 0 <= i < |plans| && plans[i] == p;
      assert deltas[i] in deltas;
    }
    if d :| d in deltas && d.path == path && Asks(d, previous) {
      var i :| 0 <= i < |deltas| && deltas[i] == d;
      assert plans[i] in plans;
    }
  }
}
