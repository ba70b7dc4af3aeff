/** Cross-source candidate Patterns (src/lemmamind/pattern_intelligence.py). */
module Patterns {
  import opened Wrappers
  import opened Orders
  import opened Texts
  import opened Digests
  import opened Store
  import opened SupportGraph
  import R = ObservationRuns

  datatype Proposal = Proposal(revisionId: string, role: Role, summary: string, observationIds: seq<string>)

  datatype PatternCall = PatternCall(
    claim: string, epistemic: Epistemic, statement: string, occurrences: seq<Proposal>,
    minimumSupporting: int, minimumControls: int)

  datatype Refusal =
    | EmptyClaim | EmptyStatement | TooFewSupporting | NegativeMinimum | TooFewProposals | EmptySummary | NoObservations
    | DuplicateRevision | UnknownRevision | SourceCountedTwice | DuplicateObservation | ObservationReused | UnknownObservation
    | RejectedObservation | Unresolved(error: PatternError) | OtherRevision | OneSourceOnly | SupportingMissed | ControlsMissed
    | Conflict

  function RoleName(r: Role): string {
    match r
    case Supporting => "supporting"
    case NegativeControl => "negative_control"
    case Contradicting => "contradicting"
  }

  function ProposalKey(p: Proposal): Key { [Text(p.revisionId), Text(RoleName(p.role)), Text(p.summary)] }

  // ----- what makes a proposal and a pattern sound -----

  /** The observation stands and rests on exactly this revision. */
  predicate Local(db: Db, revisionId: string, id: string) {
    && GetObservation(db, id).Some? && !GetObservation(db, id).value.rejected
    && PatternRevisions(db, id, {}) == PatternResolved.Ok({revisionId})
  }

  predicate SoundProposal(db: Db, p: Proposal) {
    && Strip(p.summary) != "" && p.observationIds != [] && GetRevision(db, p.revisionId).Some? && Unique(p.observationIds)
    && forall id | id in p.observationIds :: Local(db, p.revisionId, id)
  }

  function RevisionIdOf(p: Proposal): string { p.revisionId }

  function ObservationIdsOf(p: Proposal): seq<string> { p.observationIds }

  /** The Source of a proposal's revision; a sound proposal has one. */
  function SourceOf(db: Db): Proposal -> string {
    (p: Proposal) => match GetRevision(db, p.revisionId) case None => "" case Some(r) => r.sourceId
  }

  /** Proposals that are sound, of distinct revisions and Sources, and share no observation. */
  predicate SoundProposals(db: Db, s: seq<Proposal>) {
    && (forall p | p in s :: SoundProposal(db, p))
    && Unique(Map(RevisionIdOf, s)) && Unique(Map(SourceOf(db), s)) && Unique(FlatMap(ObservationIdsOf, s))
  }

  function WithRole(role: Role): Proposal -> seq<Proposal> {
    (p: Proposal) => if p.role == role then [p] else []
  }

  /** How many proposals have a role. */
  function Count(role: Role, s: seq<Proposal>): nat { |FlatMap(WithRole(role), s)| }

  predicate SoundPattern(db: Db, c: PatternCall) {
    && Strip(c.claim) != "" && Strip(c.statement) != "" && c.minimumSupporting >= 2 && c.minimumControls >= 0
    && |c.occurrences| >= 2 && SoundProposals(db, c.occurrences)
    && Count(Supporting, c.occurrences) >= c.minimumSupporting && Count(NegativeControl, c.occurrences) >= c.minimumControls
  }

  // ----- the checks of one call -----

  /** The five sets the loop fills. */
  datatype Seen = Seen(
    sources: set<string>, revisions: set<string>, observations: set<string>, supporting: set<string>, controls: set<string>)

  function SourcesWith(db: Db, role: Role, s: seq<Proposal>): set<string> {
    set p | p in s && p.role == role :: SourceOf(db)(p)
  }

  ghost predicate Scanned(db: Db, s: seq<Proposal>, seen: Seen) {
    && SoundProposals(db, s)
    && (forall x :: x in seen.revisions <==> x in Map(RevisionIdOf, s))
    && (forall x :: x in seen.sources <==> x in Map(SourceOf(db), s))
    && (forall x :: x in seen.observations <==> x in FlatMap(ObservationIdsOf, s))
    && seen.supporting == SourcesWith(db, Supporting, s) && seen.controls == SourcesWith(db, NegativeControl, s)
  }

  function Judge(db: Db, revisionId: string, id: string): Result<(), Refusal> {
    var observation := GetObservation(db, id);
    if observation.None? then Err(UnknownObservation)
    else if observation.value.rejected then Err(RejectedObservation)
    else
      var revisions := PatternRevisions(db, id, {});
      if revisions.Err? then Err(Unresolved(revisions.error))
      else if revisions.value != {revisionId} then Err(OtherRevision)
      else Ok(())
  }

  lemma JudgeIsLocal(db: Db, revisionId: string, id: string)
    ensures Judge(db, revisionId, id).Ok? <==> Local(db, revisionId, id)
  {}

  predicate Usable(db: Db, revisionId: string, seen: set<string>, id: string) {
    id !in seen && Local(db, revisionId, id)
  }

  function Elements(s: seq<string>): set<string> { set id | id in s }

  lemma ElementsStep(s: seq<string>, i: nat)
    requires i < |s|
    ensures Elements(s[..i + 1]) == Elements(s[..i]) + {s[i]}
    ensures Unique(s) ==> s[i] !in Elements(s[..i])
  {
    PrefixSnoc(s, i);
  }

  /** The checks of the observations of one proposal. */
  method CheckObservations(db: Db, p: Proposal, seen: set<string>) returns (r: Result<set<string>, Refusal>)
    ensures r.Ok? <==> Unique(p.observationIds) && forall id | id in p.observationIds :: Usable(db, p.revisionId, seen, id)
    ensures r.Ok? ==> r.value == seen + Elements(p.observationIds)
  {
    if !Unique(p.observationIds) { return Err(DuplicateObservation); }
    var local := SortBy(TextKey, p.observationIds);
    SortedElements(p.observationIds, local);
    forall id ensures Usable(db, p.revisionId, seen, id) <==> id !in seen && JudgeFor(db, p.revisionId)(id).Ok? {
      UsableIffJudged(db, p.revisionId, seen, id);
    }
    r := CheckEach(JudgeFor(db, p.revisionId), local, seen);
  }

  function JudgeFor(db: Db, revisionId: string): string -> Result<(), Refusal> {
    (id: string) => Judge(db, revisionId, id)
  }

  /** The loop itself: each observation must be new and pass its check. */
  method CheckEach(judge: string -> Result<(), Refusal>, local: seq<string>, seen: set<string>) returns (r: Result<set<string>, Refusal>)
    requires Unique(local)
    ensures r.Ok? <==> forall id | id in local :: id !in seen && judge(id).Ok?
    ensures r.Ok? ==> r.value == seen + Elements(local)
  {
    var observations := seen;
    for i := 0 to |local|
      invariant observations == seen + Elements(local[..i])
      invariant forall k | 0 <= k < i :: local[k] !in seen && judge(local[k]).Ok?
    {
      var id := local[i];
      ElementsStep(local, i);
      if id in observations { return Err(ObservationReused); }
      observations := observations + {id};
      var verdict := judge(id);
      if verdict.Err? { return Err(verdict.error); }
    }
    assert local[..|local|] == local;
    r := Ok(observations);
  }

  lemma UsableIffJudged(db: Db, revisionId: string, seen: set<string>, id: string)
    ensures Usable(db, revisionId, seen, id) <==> id !in seen && Judge(db, revisionId, id).Ok?
  {
    JudgeIsLocal(db, revisionId, id);
  }

  lemma SortedElements(s: seq<string>, sorted: seq<string>)
    requires multiset(s) == multiset(sorted)
    ensures Elements(sorted) == Elements(s) && (Unique(s) <==> Unique(sorted)) && forall id :: id in s <==> id in sorted
  {
    UniquePermutes(sorted, s);
    MultisetMembers(sorted, s);
  }

  /** What adding one proposal to the ones scanned so far requires. */
  predicate Adds(db: Db, s: seq<Proposal>, p: Proposal) {
    && SoundProposal(db, p)
    && p.revisionId !in Map(RevisionIdOf, s) && SourceOf(db)(p) !in Map(SourceOf(db), s)
    && forall id | id in p.observationIds :: id !in FlatMap(ObservationIdsOf, s)
  }

  lemma UniqueMapSnoc<X(!new)>(f: Proposal -> X, s: seq<Proposal>, p: Proposal)
    ensures Unique(Map(f, s + [p])) <==> Unique(Map(f, s)) && f(p) !in Map(f, s)
  {
    MapAppend(f, s, [p]);
    assert Map(f, [p]) == [f(p)];
    UniqueSnoc(Map(f, s), f(p));
  }

  lemma EachSnoc(db: Db, s: seq<Proposal>, p: Proposal)
    ensures (forall q | q in s + [p] :: SoundProposal(db, q)) <==> (forall q | q in s :: SoundProposal(db, q)) && SoundProposal(db, p)
  {
    assert p in s + [p];
    assert forall q | q in s :: q in s + [p];
  }

  lemma ObservationsSnoc(s: seq<Proposal>, p: Proposal)
    requires Unique(FlatMap(ObservationIdsOf, s))
    ensures Unique(FlatMap(ObservationIdsOf, s + [p]))
            <==> Unique(p.observationIds) && forall id | id in p.observationIds :: id !in FlatMap(ObservationIdsOf, s)
  {
    FlatMapOne(ObservationIdsOf, s, p);
    UniqueAppend(FlatMap(ObservationIdsOf, s), p.observationIds);
  }

  lemma SoundSnoc(db: Db, s: seq<Proposal>, p: Proposal)
    requires SoundProposals(db, s)
    ensures SoundProposals(db, s + [p]) <==> Adds(db, s, p)
  {
    EachSnoc(db, s, p);
    UniqueMapSnoc(RevisionIdOf, s, p);
    UniqueMapSnoc(SourceOf(db), s, p);
    ObservationsSnoc(s, p);
  }

  lemma {:induction false} UniqueAppend(a: seq<string>, b: seq<string>)
    requires Unique(a)
    ensures Unique(a + b) <==> Unique(b) && forall x | x in b :: x !in a
  {
    if b == [] {
      assert a + b == a;
    } else {
      var n := |b| - 1;
      UniqueAppend(a, b[..n]);
      UniqueSnoc(a + b[..n], b[n]);
      UniqueSnoc(b[..n], b[n]);
      assert a + b == a + b[..n] + [b[n]] && b == b[..n] + [b[n]];
      assert forall x :: x in b <==> x in b[..n] || x == b[n];
      assert b[n] in a + b[..n] <==> b[n] in a || b[n] in b[..n];
    }
  }

  lemma MapSetStep(f: Proposal -> string, s: seq<Proposal>, p: Proposal, known: set<string>)
    requires forall x :: x in known <==> x in Map(f, s)
    ensures forall x :: x in known + {f(p)} <==> x in Map(f, s + [p])
  {
    MapAppend(f, s, [p]);
    assert Map(f, [p]) == [f(p)];
    forall x ensures x in Map(f, s + [p]) <==> x in Map(f, s) || x == f(p) { assert x in [f(p)] <==> x == f(p); }
  }

  lemma ObservationsStep(s: seq<Proposal>, p: Proposal, known: set<string>)
    requires forall x :: x in known <==> x in FlatMap(ObservationIdsOf, s)
    ensures forall x :: x in known + Elements(p.observationIds) <==> x in FlatMap(ObservationIdsOf, s + [p])
  {
    FlatMapOne(ObservationIdsOf, s, p);
  }

  lemma RolesSnoc(db: Db, role: Role, s: seq<Proposal>, p: Proposal)
    ensures SourcesWith(db, role, s + [p]) == SourcesWith(db, role, s) + (if p.role == role then {SourceOf(db)(p)} else {})
  {
    assert forall q :: q in s + [p] <==> q in s || q == p;
  }

  function Note(db: Db, p: Proposal, seen: Seen): Seen {
    var source := SourceOf(db)(p);
    Seen(seen.sources + {source}, seen.revisions + {p.revisionId}, seen.observations + Elements(p.observationIds),
         if p.role == Supporting then seen.supporting + {source} else seen.supporting,
         if p.role == NegativeControl then seen.controls + {source} else seen.controls)
  }

  lemma ScannedStep(db: Db, s: seq<Proposal>, p: Proposal, seen: Seen)
    requires Scanned(db, s, seen) && Adds(db, s, p)
    ensures Scanned(db, s + [p], Note(db, p, seen))
  {
    SoundSnoc(db, s, p);
    MapSetStep(RevisionIdOf, s, p, seen.revisions);
    MapSetStep(SourceOf(db), s, p, seen.sources);
    ObservationsStep(s, p, seen.observations);
    RolesSnoc(db, Supporting, s, p);
    RolesSnoc(db, NegativeControl, s, p);
  }

  /** One turn of the loop over the proposals: s are the ones before. */
  method ScanProposal(db: Db, ghost s: seq<Proposal>, p: Proposal, seen: Seen) returns (r: Result<Seen, Refusal>)
    requires Scanned(db, s, seen)
    ensures r.Ok? <==> Adds(db, s, p)
    ensures r.Ok? ==> Scanned(db, s + [p], r.value)
  {
    if Strip(p.summary) == "" { return Err(EmptySummary); }
    if p.observationIds == [] { return Err(NoObservations); }
    if p.revisionId in seen.revisions { return Err(DuplicateRevision); }
    var revision := GetRevision(db, p.revisionId);
    if revision.None? { return Err(UnknownRevision); }
    var source := revision.value.sourceId;
    if source in seen.sources { return Err(SourceCountedTwice); }
    var observations := CheckObservations(db, p, seen.observations);
    if observations.Err? { return Err(observations.error); }
    ScannedStep(db, s, p, seen);
    r := Ok(Seen(
      seen.sources + {source}, seen.revisions + {p.revisionId}, observations.value,
      if p.role == Supporting then seen.supporting + {source} else seen.supporting,
      if p.role == NegativeControl then seen.controls + {source} else seen.controls));
  }

  /** The loop over the ordered proposals. */
  method ScanProposals(store: ContractStore<Record>, ordered: seq<Proposal>) returns (r: Result<Seen, Refusal>)
    ensures r.Ok? <==> SoundProposals(store.rows, ordered)
    ensures r.Ok? ==> Scanned(store.rows, ordered, r.value)
  {
    var seen := Seen({}, {}, {}, {}, {});
    for i := 0 to |ordered|
      invariant Scanned(store.rows, ordered[..i], seen)
    {
      ScanFails(store.rows, ordered, i);
      var next := ScanProposal(store.rows, ordered[..i], ordered[i], seen);
      if next.Err? { return next; }
      PrefixSnoc(ordered, i);
      seen := next.value;
    }
    assert ordered[..|ordered|] == ordered;
    r := Ok(seen);
  }

  lemma ScanFails(db: Db, ordered: seq<Proposal>, i: nat)
    requires i < |ordered| && SoundProposals(db, ordered[..i])
    ensures SoundProposals(db, ordered) ==> Adds(db, ordered[..i], ordered[i])
  {
    var now := ordered[..i] + [ordered[i]];
    SoundSnoc(db, ordered[..i], ordered[i]);
    assert ordered == now + ordered[i + 1..];
    SoundPrefix(db, now, ordered[i + 1..]);
  }

  lemma SoundPrefix(db: Db, a: seq<Proposal>, b: seq<Proposal>)
    ensures SoundProposals(db, a + b) ==> SoundProposals(db, a)
  {
    MapAppend(RevisionIdOf, a, b);
    MapAppend(SourceOf(db), a, b);
    FlatMapAppend(ObservationIdsOf, a, b);
    UniquePrefix(Map(RevisionIdOf, a), Map(RevisionIdOf, b));
    UniquePrefix(Map(SourceOf(db), a), Map(SourceOf(db), b));
    UniquePrefix(FlatMap(ObservationIdsOf, a), FlatMap(ObservationIdsOf, b));
    assert forall p | p in a :: p in a + b;
  }

  // ----- each Source counts once -----

  /** Counting Sources is counting proposals: no Source is counted twice, so nothing is replicated. */
  lemma {:induction false} SourcesAreProposals(db: Db, role: Role, s: seq<Proposal>)
    requires SoundProposals(db, s)
    ensures |SourcesWith(db, role, s)| == Count(role, s)
  {
    if s != [] {
      var init, p := s[..|s| - 1], s[|s| - 1];
      assert s == init + [p];
      SoundPrefix(db, init, [p]);
      SourcesAreProposals(db, role, init);
      assert SourceOf(db)(p) !in Map(SourceOf(db), init) by { SoundSnoc(db, init, p); }
      OneMoreSource(db, role, init, p);
    }
  }

  lemma OneMoreSource(db: Db, role: Role, s: seq<Proposal>, p: Proposal)
    requires SourceOf(db)(p) !in Map(SourceOf(db), s) && |SourcesWith(db, role, s)| == Count(role, s)
    ensures |SourcesWith(db, role, s + [p])| == Count(role, s + [p])
  {
    RolesSnoc(db, role, s, p);
    SourceIsNew(db, role, s, p);
    FlatMapAppend(WithRole(role), s, [p]);
  }

  lemma SourceIsNew(db: Db, role: Role, s: seq<Proposal>, p: Proposal)
    requires SourceOf(db)(p) !in Map(SourceOf(db), s)
    ensures SourceOf(db)(p) !in SourcesWith(db, role, s)
  {
    forall q | q in s ensures SourceOf(db)(q) != SourceOf(db)(p) {
      var i :| 0 <= i < |s| && s[i] == q;
      assert Map(SourceOf(db), s)[i] == SourceOf(db)(q);
    }
  }

  lemma {:induction false} AllSources(db: Db, s: seq<Proposal>, sources: set<string>)
    requires SoundProposals(db, s) && forall x :: x in sources <==> x in Map(SourceOf(db), s)
    ensures |sources| == |s|
  {
    var mapped := Map(SourceOf(db), s);
    if s == [] {
      assert sources == {};
    } else {
      var init, p := s[..|s| - 1], s[|s| - 1];
      assert s == init + [p];
      SoundPrefix(db, init, [p]);
      SoundSnoc(db, init, p);
      MapAppend(SourceOf(db), init, [p]);
      assert Map(SourceOf(db), [p]) == [SourceOf(db)(p)];
      AllSources(db, init, sources - {SourceOf(db)(p)});
    }
  }

  // ----- a sound pattern stays sound -----

  /** Both services read the same provenance off an observation. */
  lemma LocalIsResolved(db: Db, revisionId: string, id: string)
    ensures Local(db, revisionId, id)
            <==> GetObservation(db, id).Some? && !GetObservation(db, id).value.rejected && R.ResolvesTo(db, id, revisionId)
  {
    ResolversAgree(db, id, {});
  }

  lemma ProposalStays(a: Db, b: Db, p: Proposal)
    requires R.Grows(a, b) && SoundProposal(a, p)
    ensures SoundProposal(b, p) && SourceOf(b)(p) == SourceOf(a)(p)
  {
    R.RevisionKept(a, b, p.revisionId);
    forall id | id in p.observationIds ensures Local(b, p.revisionId, id) {
      LocalIsResolved(a, p.revisionId, id);
      assert R.Rooted(a, id);
      R.RootStable(a, b, id);
      assert NameOf(ObservationKind, id) in a;
      LocalIsResolved(b, p.revisionId, id);
    }
  }

  /** What made the proposals acceptable stays true however the store grows afterwards. */
  lemma SoundStaysSound(a: Db, b: Db, s: seq<Proposal>)
    requires R.Grows(a, b) && SoundProposals(a, s)
    ensures SoundProposals(b, s)
  {
    forall p | p in s ensures SoundProposal(b, p) && SourceOf(b)(p) == SourceOf(a)(p) { ProposalStays(a, b, p); }
    assert Map(SourceOf(b), s) == Map(SourceOf(a), s) by {
      forall i | 0 <= i < |s| ensures SourceOf(b)(s[i]) == SourceOf(a)(s[i]) { assert s[i] in s; }
    }
  }

  // ----- order does not matter -----

  lemma SoundPermutes(db: Db, a: seq<Proposal>, b: seq<Proposal>)
    requires multiset(a) == multiset(b)
    ensures SoundProposals(db, a) <==> SoundProposals(db, b)
    ensures forall role :: Count(role, a) == Count(role, b)
  {
    MultisetMembers(a, b);
    MapMultiset(RevisionIdOf, a, b);
    MapMultiset(SourceOf(db), a, b);
    FlatMapMultiset(ObservationIdsOf, a, b);
    UniquePermutes(Map(RevisionIdOf, a), Map(RevisionIdOf, b));
    UniquePermutes(Map(SourceOf(db), a), Map(SourceOf(db), b));
    UniquePermutes(FlatMap(ObservationIdsOf, a), FlatMap(ObservationIdsOf, b));
    forall role ensures Count(role, a) == Count(role, b) {
      FlatMapMultiset(WithRole(role), a, b);
      MultisetMembers(FlatMap(WithRole(role), a), FlatMap(WithRole(role), b));
    }
  }

  // ----- the call -----

  function OccurrenceId(run: string, index: nat): string { "occurrence:" + run + ":" + Decimal(index) }

  function OccurrenceRow(run: string, pattern: string): (nat, Proposal) -> Row<Record> {
    (index: nat, p: Proposal) =>
      Row(NameOf(OccurrenceKind, OccurrenceId(run, index)), OccurrenceRecord(pattern, p.revisionId, p.role, Strip(p.summary)))
  }

  function OccurrenceEdgeRow(run: string, occurrence: nat): (nat, string) -> Row<Record> {
    (index: nat, id: string) =>
      Row(NameOf(OccurrenceSupportKind, "pattern-support:" + run + ":" + Decimal(occurrence) + ":" + Decimal(index)),
          OccurrenceEdgeRecord(OccurrenceId(run, occurrence), id))
  }

  /** The support edges of the proposals, occurrence by occurrence. */
  function OccurrenceEdges(run: string, s: seq<Proposal>): seq<Row<Record>> {
    if s == [] then []
    else
      var n := |s| - 1;
      OccurrenceEdges(run, s[..n]) + Numbered(OccurrenceEdgeRow(run, n + 1), SortBy(TextKey, s[n].observationIds))
  }

  function PatternBatch(c: PatternCall, runToken: string, patternToken: string): seq<Row<Record>> {
    var run, pattern := "run:" + runToken, "pattern:" + patternToken;
    var ordered := SortBy(ProposalKey, c.occurrences);
    [Row(NameOf(RunKind, run), RunRecord(Run(Synthesis, true, true))),
     Row(NameOf(PatternKind, pattern), PatternRecord(Strip(c.claim), c.epistemic, Strip(c.statement), run))]
    + Numbered(OccurrenceRow(run, pattern), ordered) + OccurrenceEdges(run, ordered)
  }

  // ----- what a Pattern leaves in the store -----

  predicate Held(db: Db, kind: Kind, id: string, body: Record) { NameOf(kind, id) in db && db[NameOf(kind, id)] == body }

  /** The body of the record of an occurrence, and of one of its edges. */
  predicate OccursAs(body: Record, pattern: string, p: Proposal) {
    && body.OccurrenceRecord? && body.patternId == pattern && body.revisionId == p.revisionId && body.role == p.role
    && body.summary == Strip(p.summary)
  }

  /** The k-th occurrence stands for the proposal, and has an edge for each of its observations. */
  ghost predicate Occurs(db: Db, run: string, pattern: string, p: Proposal, k: nat) {
    && NameOf(OccurrenceKind, OccurrenceId(run, k)) in db
    && OccursAs(db[NameOf(OccurrenceKind, OccurrenceId(run, k))], pattern, p)
    && forall id | id in p.observationIds :: exists n | n in db :: db[n] == OccurrenceEdgeRecord(OccurrenceId(run, k), id)
  }

  ghost predicate HasOccurrence(db: Db, run: string, pattern: string, p: Proposal) {
    exists k: nat :: Occurs(db, run, pattern, p, k)
  }

  /** The edge rows of one occurrence are those of its observations. */
  lemma EdgeRows(run: string, k: nat, ids: seq<string>, r: Row<Record>) returns (id: string)
    requires r in Numbered(OccurrenceEdgeRow(run, k), SortBy(TextKey, ids))
    ensures id in ids && r.body == OccurrenceEdgeRecord(OccurrenceId(run, k), id)
  {
    var sorted := SortBy(TextKey, ids);
    var rows := Numbered(OccurrenceEdgeRow(run, k), sorted);
    var j :| 0 <= j < |rows| && rows[j] == r;
    id := sorted[j];
  }

  lemma EdgeRowOf(run: string, k: nat, ids: seq<string>, id: string) returns (r: Row<Record>)
    requires id in ids
    ensures r in Numbered(OccurrenceEdgeRow(run, k), SortBy(TextKey, ids)) && r.body == OccurrenceEdgeRecord(OccurrenceId(run, k), id)
  {
    var sorted := SortBy(TextKey, ids);
    var rows := Numbered(OccurrenceEdgeRow(run, k), sorted);
    assert id in sorted;
    var j :| 0 <= j < |sorted| && sorted[j] == id;
    r := rows[j];
  }

  lemma EdgesStep(run: string, s: seq<Proposal>, r: Row<Record>)
    requires s != []
    ensures r in OccurrenceEdges(run, s)
            <==> || r in OccurrenceEdges(run, s[..|s| - 1])
                 || r in Numbered(OccurrenceEdgeRow(run, |s|), SortBy(TextKey, s[|s| - 1].observationIds))
  {
    var n := |s| - 1;
    InEither(OccurrenceEdges(run, s[..n]), Numbered(OccurrenceEdgeRow(run, n + 1), SortBy(TextKey, s[n].observationIds)), r);
  }

  lemma InEither<T>(a: seq<T>, b: seq<T>, x: T)
    ensures x in a + b <==> x in a || x in b
  {}

  lemma {:induction false} EdgeListed(run: string, s: seq<Proposal>, k: nat, id: string) returns (r: Row<Record>)
    requires k < |s| && id in s[k].observationIds
    ensures r in OccurrenceEdges(run, s) && r.body == OccurrenceEdgeRecord(OccurrenceId(run, k + 1), id)
    decreases |s|
  {
    if k < |s| - 1 { r := EdgeListedBefore(run, s, k, id); } else { r := EdgeListedLast(run, s, id); }
  }

  lemma {:induction false} EdgeListedBefore(run: string, s: seq<Proposal>, k: nat, id: string) returns (r: Row<Record>)
    requires k < |s| - 1 && id in s[k].observationIds
    ensures r in OccurrenceEdges(run, s) && r.body == OccurrenceEdgeRecord(OccurrenceId(run, k + 1), id)
    decreases |s|, 0
  {
    r := EdgeListed(run, s[..|s| - 1], k, id);
    EdgesStep(run, s, r);
  }

  lemma EdgeListedLast(run: string, s: seq<Proposal>, id: string) returns (r: Row<Record>)
    requires s != [] && id in s[|s| - 1].observationIds
    ensures r in OccurrenceEdges(run, s) && r.body == OccurrenceEdgeRecord(OccurrenceId(run, |s|), id)
  {
    r := EdgeRowOf(run, |s|, s[|s| - 1].observationIds, id);
    EdgesStep(run, s, r);
  }

  /** The row is the edge from the (k + 1)-th occurrence to one of its observations. */
  predicate StandsFor(r: Row<Record>, run: string, s: seq<Proposal>, k: nat, id: string) {
    k < |s| && id in s[k].observationIds && r.body == OccurrenceEdgeRecord(OccurrenceId(run, k + 1), id)
  }

  lemma {:induction false} EdgeOrigin(run: string, s: seq<Proposal>, r: Row<Record>) returns (k: nat, id: string)
    requires r in OccurrenceEdges(run, s)
    ensures StandsFor(r, run, s, k, id)
    decreases |s|
  {
    EdgesStep(run, s, r);
    if r in OccurrenceEdges(run, s[..|s| - 1]) {
      k, id := EdgeOriginBefore(run, s, r);
    } else {
      k, id := EdgeOriginLast(run, s, r);
    }
  }

  lemma {:induction false} EdgeOriginBefore(run: string, s: seq<Proposal>, r: Row<Record>) returns (k: nat, id: string)
    requires s != [] && r in OccurrenceEdges(run, s[..|s| - 1])
    ensures StandsFor(r, run, s, k, id)
    decreases |s|, 0
  {
    k, id := EdgeOrigin(run, s[..|s| - 1], r);
  }

  lemma EdgeOriginLast(run: string, s: seq<Proposal>, r: Row<Record>) returns (k: nat, id: string)
    requires s != [] && r in Numbered(OccurrenceEdgeRow(run, |s|), SortBy(TextKey, s[|s| - 1].observationIds))
    ensures StandsFor(r, run, s, k, id)
  {
    k := |s| - 1;
    id := EdgeRows(run, |s|, s[k].observationIds, r);
  }

  /** What the batch of a Pattern consists of. */
  lemma BatchParts(c: PatternCall, runToken: string, patternToken: string)
    ensures var run, pattern, ordered := "run:" + runToken, "pattern:" + patternToken, SortBy(ProposalKey, c.occurrences);
            forall r :: r in PatternBatch(c, runToken, patternToken)
              <==> || r == Row(NameOf(RunKind, run), RunRecord(Run(Synthesis, true, true)))
                   || r == Row(NameOf(PatternKind, pattern), PatternRecord(Strip(c.claim), c.epistemic, Strip(c.statement), run))
                   || r in Numbered(OccurrenceRow(run, pattern), ordered) || r in OccurrenceEdges(run, ordered)
  {}

  /**
    A Pattern written under new names leaves its own record and its run, an occurrence for every proposal with an
    edge for each of its observations, and nothing else.
  */
  lemma PatternIsRecorded(db: Db, c: PatternCall, runToken: string, patternToken: string)
    requires NewNames(db, PatternBatch(c, runToken, patternToken))
    ensures var after, run, pattern := Insert(db, PatternBatch(c, runToken, patternToken)), "run:" + runToken, "pattern:" + patternToken;
            && Held(after, RunKind, run, RunRecord(Run(Synthesis, true, true)))
            && Held(after, PatternKind, pattern, PatternRecord(Strip(c.claim), c.epistemic, Strip(c.statement), run))
            && (forall p | p in c.occurrences :: HasOccurrence(after, run, pattern, p))
            && forall n | n in after && n !in db :: Described(c, run, pattern, after[n])
  {
    var batch := PatternBatch(c, runToken, patternToken);
    var after, run, pattern, ordered := Insert(db, batch), "run:" + runToken, "pattern:" + patternToken, SortBy(ProposalKey, c.occurrences);
    NewNamesConsistent(db, batch);
    BatchParts(c, runToken, patternToken);
    InsertFinds(db, batch, Row(NameOf(RunKind, run), RunRecord(Run(Synthesis, true, true))));
    InsertFinds(db, batch, Row(NameOf(PatternKind, pattern), PatternRecord(Strip(c.claim), c.epistemic, Strip(c.statement), run)));
    assert forall p | p in c.occurrences :: HasOccurrence(after, run, pattern, p) by {
      OccurrencesWritten(db, batch, run, pattern, ordered);
    }
    forall n | n in after && n !in db ensures Described(c, run, pattern, after[n]) {
      var r := NewRow(db, batch, n);
      RowDescribed(c, runToken, patternToken, r);
    }
  }

  /** A record that the call accounts for. */
  ghost predicate Described(c: PatternCall, run: string, pattern: string, body: Record) {
    || body == RunRecord(Run(Synthesis, true, true))
    || body == PatternRecord(Strip(c.claim), c.epistemic, Strip(c.statement), run)
    || (exists p | p in c.occurrences :: OccursAs(body, pattern, p))
    || exists p, k, id | p in c.occurrences && id in p.observationIds :: body == OccurrenceEdgeRecord(OccurrenceId(run, k), id)
  }

  lemma OccurrenceWritten(db: Db, batch: seq<Row<Record>>, run: string, pattern: string, ordered: seq<Proposal>, i: nat) returns (k: nat)
    requires Consistent(db, batch) && i < |ordered|
    requires forall r | r in Numbered(OccurrenceRow(run, pattern), ordered) :: r in batch
    requires forall r | r in OccurrenceEdges(run, ordered) :: r in batch
    ensures Occurs(Insert(db, batch), run, pattern, ordered[i], k)
  {
    var after, rows := Insert(db, batch), Numbered(OccurrenceRow(run, pattern), ordered);
    assert rows[i] in rows;
    InsertFinds(db, batch, rows[i]);
    k := i + 1;
    assert rows[i].name == NameOf(OccurrenceKind, OccurrenceId(run, k)) && OccursAs(rows[i].body, pattern, ordered[i]);
    forall id | id in ordered[i].observationIds ensures exists n | n in after :: after[n] == OccurrenceEdgeRecord(OccurrenceId(run, k), id) {
      EdgeWritten(db, batch, run, ordered, i, id);
    }
  }

  lemma OccurrencesWritten(db: Db, batch: seq<Row<Record>>, run: string, pattern: string, ordered: seq<Proposal>)
    requires Consistent(db, batch)
    requires forall r | r in Numbered(OccurrenceRow(run, pattern), ordered) :: r in batch
    requires forall r | r in OccurrenceEdges(run, ordered) :: r in batch
    ensures forall p | p in ordered :: HasOccurrence(Insert(db, batch), run, pattern, p)
  {
    forall p | p in ordered ensures HasOccurrence(Insert(db, batch), run, pattern, p) {
      var i :| 0 <= i < |ordered| && ordered[i] == p;
      var k := OccurrenceWritten(db, batch, run, pattern, ordered, i);
    }
  }

  lemma EdgeWritten(db: Db, batch: seq<Row<Record>>, run: string, ordered: seq<Proposal>, i: nat, id: string)
    requires Consistent(db, batch) && i < |ordered| && id in ordered[i].observationIds
    requires forall r | r in OccurrenceEdges(run, ordered) :: r in batch
    ensures exists n | n in Insert(db, batch) :: Insert(db, batch)[n] == OccurrenceEdgeRecord(OccurrenceId(run, i + 1), id)
  {
    var r := EdgeListed(run, ordered, i, id);
    InsertFinds(db, batch, r);
  }

  lemma NewRow(db: Db, batch: seq<Row<Record>>, n: Name) returns (r: Row<Record>)
    requires Consistent(db, batch) && n in Insert(db, batch) && n !in db
    ensures r in batch && r.name == n && Insert(db, batch)[n] == r.body
  {
    NameBefore(db, batch, n);
    var i :| 0 <= i < |batch| && batch[i].name == n;
    r := batch[i];
    InsertFinds(db, batch, r);
  }

  lemma OccurrenceDescribed(c: PatternCall, run: string, pattern: string, r: Row<Record>)
    requires r in Numbered(OccurrenceRow(run, pattern), SortBy(ProposalKey, c.occurrences))
    ensures Described(c, run, pattern, r.body)
  {
    var ordered := SortBy(ProposalKey, c.occurrences);
    var j :| 0 <= j < |ordered| && r == Numbered(OccurrenceRow(run, pattern), ordered)[j];
    assert ordered[j] in ordered && OccursAs(r.body, pattern, ordered[j]);
  }

  lemma EdgeDescribed(c: PatternCall, run: string, pattern: string, r: Row<Record>)
    requires r in OccurrenceEdges(run, SortBy(ProposalKey, c.occurrences))
    ensures Described(c, run, pattern, r.body)
  {
    var ordered := SortBy(ProposalKey, c.occurrences);
    var k, id := EdgeOrigin(run, ordered, r);
    assert ordered[k] in ordered;
  }

  lemma RowDescribed(c: PatternCall, runToken: string, patternToken: string, r: Row<Record>)
    requires r in PatternBatch(c, runToken, patternToken)
    ensures Described(c, "run:" + runToken, "pattern:" + patternToken, r.body)
  {
    var run, pattern, ordered := "run:" + runToken, "pattern:" + patternToken, SortBy(ProposalKey, c.occurrences);
    BatchParts(c, runToken, patternToken);
    if r in Numbered(OccurrenceRow(run, pattern), ordered) {
      OccurrenceDescribed(c, run, pattern, r);
    } else if r in OccurrenceEdges(run, ordered) {
      EdgeDescribed(c, run, pattern, r);
    }
  }

  /** Everything that is checked before a Pattern is written; the order of the proposals does not matter. */
  method JudgePattern(store: ContractStore<Record>, c: PatternCall) returns (r: Result<(), Refusal>)
    ensures r.Ok? <==> SoundPattern(store.rows, c)
  {
    if Strip(c.claim) == "" { return Err(EmptyClaim); }
    if Strip(c.statement) == "" { return Err(EmptyStatement); }
    if c.minimumSupporting < 2 { return Err(TooFewSupporting); }
    if c.minimumControls < 0 { return Err(NegativeMinimum); }
    if |c.occurrences| < 2 { return Err(TooFewProposals); }
    var ordered := SortBy(ProposalKey, c.occurrences);
    SoundPermutes(store.rows, ordered, c.occurrences);
    var seen := ScanProposals(store, ordered);
    if seen.Err? { return Err(seen.error); }
    AllSources(store.rows, ordered, seen.value.sources);
    SourcesAreProposals(store.rows, Supporting, ordered);
    SourcesAreProposals(store.rows, NegativeControl, ordered);
    if |seen.value.sources| < 2 {
      assert false;
      return Err(OneSourceOnly);
    }
    if |seen.value.supporting| < c.minimumSupporting { return Err(SupportingMissed); }
    if |seen.value.controls| < c.minimumControls { return Err(ControlsMissed); }
    r := Ok(());
  }

  method CreatePattern(store: ContractStore<Record>, c: PatternCall, runToken: string, patternToken: string)
    returns (r: Result<(), Refusal>)
    modifies store
    ensures r.Ok? <==> SoundPattern(old(store.rows), c) && Consistent(old(store.rows), PatternBatch(c, runToken, patternToken))
    ensures store.rows == if r.Ok? then Insert(old(store.rows), PatternBatch(c, runToken, patternToken)) else old(store.rows)
  {
    r := JudgePattern(store, c);
    if r.Err? { return; }
    var put := store.PutMany(PatternBatch(c, runToken, patternToken));
    if put.Err? { return Err(Conflict); }
  }
}
