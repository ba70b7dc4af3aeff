/**
  Candidate Observations, version 1 and version 2, over an append-only store
  (src/lemmamind/observations.py, src/lemmamind/observations_v2.py).
*/
module Observations {
  import opened Wrappers
  import opened Orders
  import opened Texts
  import opened Digests
  import opened Store
  import opened SupportGraph

  // ----- what a call asks for and what it would write -----

  datatype Call = Call(claim: string, epistemic: Epistemic, statement: string, supports: seq<SupportRef>, supersedes: Option<string>)

  datatype CreateError =
    | EmptyClaim | EmptyStatement | NoSupports | DuplicateSupports | Unresolved(error: ResolveError) | RevisionGone | ManyRevisions
    | MissingSuperseded | OtherClaim | OtherRevision | OtherSource | UnresolvedSuperseded(failure: ResolveError) | Conflict

  function TypeName(t: SupportType): string {
    match t
    case EvidenceFact => "EvidenceFact"
    case SourceAssertion => "SourceAssertion"
    case ObservationSupport => "Observation"
  }

  function SupportKey(s: SupportRef): Key { [Text(TypeName(s.supportType)), Text(s.id)] }

  function Ordered(call: Call): (r: seq<SupportRef>)
    ensures multiset(r) == multiset(call.supports)
    ensures forall s :: s in r <==> s in call.supports
  {
    SortBy(SupportKey, call.supports)
  }

  /** The part that both versions share: the one revision that all supports resolve to. */
  function CommonRevision(db: Db, call: Call): Result<set<string>, CreateError> {
    if Strip(call.claim) == "" then Err(EmptyClaim)
    else if Strip(call.statement) == "" then Err(EmptyStatement)
    else if call.supports == [] then Err(NoSupports)
    else if !Unique(Ordered(call)) then Err(DuplicateSupports)
    else
      var all := AllRevisions(db, Ordered(call), {});
      if all.Err? then Err(Unresolved(all.error))
      else if |all.value| != 1 then Err(ManyRevisions)
      else Ok(all.value)
  }

  /** The superseded observation, if it exists and makes the same claim, with what it resolves to. */
  function Superseded(db: Db, call: Call, id: string): Result<set<string>, CreateError> {
    var previous := GetObservation(db, id);
    if previous.None? then Err(MissingSuperseded)
    else if previous.value.claim != Strip(call.claim) then Err(OtherClaim)
    else
      var revisions := ObservationRevisions(db, id, {});
      if revisions.Err? then Err(UnresolvedSuperseded(revisions.error)) else Ok(revisions.value)
  }

  function AcceptV1(db: Db, call: Call): Result<set<string>, CreateError> {
    var all := CommonRevision(db, call);
    if all.Err? || call.supersedes.None? then all
    else
      var previous := Superseded(db, call, call.supersedes.value);
      if previous.Err? then Err(previous.error)
      else if previous.value != all.value then Err(OtherRevision)
      else all
  }

  function TheOne(s: set<string>): (x: string)
    requires |s| == 1
    ensures s == {x}
  {
    OneElement(s);
    var x :| x in s;
    x
  }

  lemma OneElement(s: set<string>)
    requires |s| == 1
    ensures forall x, y | x in s && y in s :: x == y
    ensures forall x | x in s :: s == {x}
  {
    var x :| x in s;
    assert |s - {x}| == 0;
    assert s - {x} == {};
  }

  function SourceOfRevision(db: Db, id: string): Option<string> {
    match GetRevision(db, id) case None => None case Some(r) => Some(r.sourceId)
  }

  function AcceptV2(db: Db, call: Call): Result<set<string>, CreateError> {
    var all := CommonRevision(db, call);
    if all.Err? then all
    else
      assert |all.value| == 1;
      var current := SourceOfRevision(db, TheOne(all.value));
      if current.None? then Err(RevisionGone)
      else if call.supersedes.None? then all
      else
        var previous := Superseded(db, call, call.supersedes.value);
        if previous.Err? then Err(previous.error)
        else if |previous.value| != 1 then Err(ManyRevisions)
        else
          var source := SourceOfRevision(db, TheOne(previous.value));
          if source.None? then Err(RevisionGone)
          else if source != current then Err(OtherSource)
          else all
  }

  function RunIdOf(token: string): string { "run:" + token }

  function ObservationIdOf(token: string): string { "observation:" + token }

  function EdgeRow(run: string, observation: string): (nat, SupportRef) -> Row<Record> {
    (index: nat, s: SupportRef) =>
      Row(NameOf(SupportKind, "support:" + run + ":" + Decimal(index)), EdgeRecord(Edge(observation, s)))
  }

  function NewObservation(call: Call, runId: string): Observation {
    Observation(Strip(call.claim), call.epistemic, Strip(call.statement), false, runId, call.supersedes)
  }

  /** Two identifiers the id factory hands out. */
  datatype Tokens = Tokens(run: string, observation: string)

  function Batch(call: Call, t: Tokens): seq<Row<Record>> {
    var run, id := RunIdOf(t.run), ObservationIdOf(t.observation);
    [Row(NameOf(RunKind, run), RunRecord(Run(Reasoning, true, true))),
     Row(NameOf(ObservationKind, id), ObservationRecord(NewObservation(call, run)))]
    + Numbered(EdgeRow(run, id), Ordered(call))
  }

  // ----- the two methods -----

  type PerSupport = map<SupportRef, set<string>>

  function UnionOf(m: PerSupport): set<string> { set s, r | s in m && r in m[s] :: r }

  lemma UnionGrows(m: PerSupport, s: SupportRef, more: set<string>)
    requires s !in m
    ensures UnionOf(m[s := more]) == UnionOf(m) + more
  {
    var after := m[s := more];
    forall r | r in UnionOf(m) ensures r in UnionOf(after) {
      var t :| t in m && r in m[t];
      assert t in after && r in after[t];
    }
    forall r | r in more ensures r in UnionOf(after) { assert s in after && r in after[s]; }
  }

  /** The loop that resolves every support of the ordered list. */
  method ResolveAll(store: ContractStore<Record>, supports: seq<SupportRef>) returns (r: Result<set<string>, CreateError>)
    requires Unique(supports)
    ensures AllRevisions(store.rows, supports, {}).Ok? ==> r == Ok(AllRevisions(store.rows, supports, {}).value)
    ensures AllRevisions(store.rows, supports, {}).Err? ==> r == Err(Unresolved(AllRevisions(store.rows, supports, {}).error))
  {
    var supportRevisions: PerSupport := map[];
    assert supports[..0] == [] && UnionOf(supportRevisions) == {};
    for i := 0 to |supports|
      invariant supportRevisions.Keys == set s | s in supports[..i]
      invariant AllRevisions(store.rows, supports[..i], {}) == Ok(UnionOf(supportRevisions))
    {
      AllStep(store.rows, supports, i, {});
      assert supports[..i + 1] == supports[..i] + [supports[i]];
      assert supports[i] !in supports[..i];
      var revisions := ResolveSupport(store, supports[i], {});
      if revisions.Err? { return Err(Unresolved(revisions.error)); }
      if revisions.value == {} {
        ResolvedNotEmpty(store.rows, supports[i], {});
        assert false;
      }
      UnionGrows(supportRevisions, supports[i], revisions.value);
      supportRevisions := supportRevisions[supports[i] := revisions.value];
    }
    assert supports[..|supports|] == supports;
    r := Ok(UnionOf(supportRevisions));
  }

  method Prepare(store: ContractStore<Record>, call: Call) returns (r: Result<set<string>, CreateError>)
    ensures r == CommonRevision(store.rows, call)
  {
    if Strip(call.claim) == "" { return Err(EmptyClaim); }
    if Strip(call.statement) == "" { return Err(EmptyStatement); }
    if call.supports == [] { return Err(NoSupports); }
    var ordered := SortBy(SupportKey, call.supports);
    if !Unique(ordered) { return Err(DuplicateSupports); }
    r := ResolveAll(store, ordered);
    if r.Ok? && |r.value| != 1 { return Err(ManyRevisions); }
  }

  /** The checks both versions make of the observation to supersede. */
  method ResolveSuperseded(store: ContractStore<Record>, call: Call, id: string) returns (r: Result<set<string>, CreateError>)
    ensures r == Superseded(store.rows, call, id)
  {
    var previous := GetObservation(store.rows, id);
    if previous.None? { return Err(MissingSuperseded); }
    if previous.value.claim != Strip(call.claim) { return Err(OtherClaim); }
    var revisions := ResolveObservation(store, id, {});
    if revisions.Err? { return Err(UnresolvedSuperseded(revisions.error)); }
    r := Ok(revisions.value);
  }

  method CreateV1(store: ContractStore<Record>, call: Call, t: Tokens) returns (r: Result<set<string>, CreateError>)
    modifies store
    ensures r.Ok? <==> AcceptV1(old(store.rows), call).Ok? && Consistent(old(store.rows), Batch(call, t))
    ensures AcceptV1(old(store.rows), call).Err? ==> r == AcceptV1(old(store.rows), call)
    ensures r.Ok? ==> r == AcceptV1(old(store.rows), call) && store.rows == Insert(old(store.rows), Batch(call, t))
    ensures r.Err? ==> store.rows == old(store.rows)
  {
    r := Prepare(store, call);
    if r.Err? { return; }
    if call.supersedes.Some? {
      var previous := ResolveSuperseded(store, call, call.supersedes.value);
      if previous.Err? { return previous; }
      if previous.value != r.value { return Err(OtherRevision); }
    }
    var put := store.PutMany(Batch(call, t));
    if put.Err? { return Err(Conflict); }
  }

  /** Everything version 2 checks before it writes. */
  method JudgeV2(store: ContractStore<Record>, call: Call) returns (r: Result<set<string>, CreateError>)
    ensures r == AcceptV2(store.rows, call)
  {
    r := Prepare(store, call);
    if r.Err? { return; }
    var current := SourceOfRevision(store.rows, TheOne(r.value));
    if current.None? { return Err(RevisionGone); }
    if call.supersedes.Some? {
      var previous := ResolveSuperseded(store, call, call.supersedes.value);
      if previous.Err? { return previous; }
      if |previous.value| != 1 { return Err(ManyRevisions); }
      var before := SourceOfRevision(store.rows, TheOne(previous.value));
      if before.None? { return Err(RevisionGone); }
      if before != current { return Err(OtherSource); }
    }
  }

  method CreateV2(store: ContractStore<Record>, call: Call, t: Tokens) returns (r: Result<set<string>, CreateError>)
    modifies store
    ensures r.Ok? <==> AcceptV2(old(store.rows), call).Ok? && Consistent(old(store.rows), Batch(call, t))
    ensures AcceptV2(old(store.rows), call).Err? ==> r == AcceptV2(old(store.rows), call)
    ensures r.Ok? ==> r == AcceptV2(old(store.rows), call) && store.rows == Insert(old(store.rows), Batch(call, t))
    ensures r.Err? ==> store.rows == old(store.rows)
  {
    r := JudgeV2(store, call);
    if r.Err? { return; }
    var put := store.PutMany(Batch(call, t));
    if put.Err? { return Err(Conflict); }
  }

  // ----- version 2 accepts whatever version 1 accepts -----

  lemma {:induction false} RevisionsExist(db: Db, s: SupportRef, seen: set<string>)
    requires SupportRevisions(db, s, seen).Ok?
    ensures forall r | r in SupportRevisions(db, s, seen).value :: GetRevision(db, r).Some?
    decreases ObservationIds(db) - seen, 0
  {
    if s.supportType.ObservationSupport? {
      ObservationHasId(db, s.id);
      assert s.id in (ObservationIds(db) - seen) - (ObservationIds(db) - (seen + {s.id}));
      AllRevisionsExist(db, EdgesOf(db, s.id), seen + {s.id});
    }
  }

  lemma {:induction false} AllRevisionsExist(db: Db, supports: seq<SupportRef>, seen: set<string>)
    requires AllRevisions(db, supports, seen).Ok?
    ensures forall r | r in AllRevisions(db, supports, seen).value :: GetRevision(db, r).Some?
    decreases ObservationIds(db) - seen, 1
  {
    AllResolve(db, supports, seen);
    forall r | r in AllRevisions(db, supports, seen).value ensures GetRevision(db, r).Some? {
      var s :| s in supports && r in SupportRevisions(db, s, seen).value;
      RevisionsExist(db, s, seen);
    }
  }

  /** What the call supersedes, if anything, resolves to the revisions of the new supports. */
  predicate StaysWithinRevision(db: Db, call: Call) {
    call.supersedes.Some? ==> ObservationRevisions(db, call.supersedes.value, {}) == AllRevisions(db, Ordered(call), {})
  }

  /** On every store, version 1 accepts a call if and only if version 2 does and nothing of another revision is superseded. */
  lemma V1IsV2WithinRevision(db: Db, call: Call)
    ensures AcceptV1(db, call).Ok? <==> AcceptV2(db, call).Ok? && StaysWithinRevision(db, call)
    ensures AcceptV1(db, call).Ok? ==> AcceptV2(db, call) == AcceptV1(db, call)
  {
    if CommonRevision(db, call).Ok? {
      var all := CommonSound(db, call);
      if call.supersedes.Some? { SupersededIs(db, call, call.supersedes.value); }
    }
  }

  lemma CommonSound(db: Db, call: Call) returns (all: set<string>)
    requires CommonRevision(db, call).Ok?
    ensures CommonRevision(db, call) == Ok(all) && AllRevisions(db, Ordered(call), {}) == Ok(all)
    ensures |all| == 1 && SourceOfRevision(db, TheOne(all)).Some?
  {
    all := CommonRevision(db, call).value;
    assert AllRevisions(db, Ordered(call), {}) == Ok(all);
    assert GetRevision(db, TheOne(all)).Some? by {
      AllRevisionsExist(db, Ordered(call), {});
      assert TheOne(all) in all;
    }
  }

  lemma SupersededIs(db: Db, call: Call, id: string)
    ensures Superseded(db, call, id).Ok? ==> ObservationRevisions(db, id, {}) == Ok(Superseded(db, call, id).value)
  {}
}
