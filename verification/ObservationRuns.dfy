/**
  Every store that calls of both Observation services and appended evidence can reach
  (src/lemmamind/observations.py, src/lemmamind/observations_v2.py).
*/
module ObservationRuns {
  import opened Wrappers
  import opened Orders
  import opened Texts
  import opened Digests
  import opened Store
  import opened SupportGraph
  import opened Observations

  // ----- appending keeps what is resolved -----

  /** b keeps every record of a and adds no support edge to an observation of a. */
  ghost predicate Grows(a: Db, b: Db) {
    && Extends(a, b)
    && forall id | GetObservation(a, id).Some? :: forall s :: s in EdgesOf(b, id) <==> s in EdgesOf(a, id)
  }

  lemma GrowsKeeps(a: Db, b: Db, s: SupportRef)
    requires Extends(a, b)
    ensures LeafRevision(a, s).Ok? ==> LeafRevision(b, s) == LeafRevision(a, s)
    ensures NestedCheck(a, s.id).Ok? ==> NestedCheck(b, s.id).Ok?
  {}

  /** An observation that resolves goes on resolving to the same revisions, whatever new ids have been seen. */
  lemma {:induction false} ResolutionStable(a: Db, b: Db, id: string, seen: set<string>, more: set<string>)
    requires Grows(a, b) && more !! ObservationIds(a) && ObservationRevisions(a, id, seen).Ok?
    ensures ObservationRevisions(b, id, seen + more) == ObservationRevisions(a, id, seen)
    decreases ObservationIds(a) - seen, 1
  {
    ObservationHasId(a, id);
    assert id in (ObservationIds(a) - seen) - (ObservationIds(a) - (seen + {id}));
    ResolvedNode(a, id, seen);
    assert EdgesOf(b, id) != [] by {
      assert EdgesOf(a, id)[0] in EdgesOf(b, id);
    }
    assert seen + more + {id} == seen + {id} + more;
    ListStable(a, b, EdgesOf(a, id), EdgesOf(b, id), seen + {id}, more);
  }

  lemma {:induction false} ListStable(a: Db, b: Db, was: seq<SupportRef>, now: seq<SupportRef>, seen: set<string>, more: set<string>)
    requires Grows(a, b) && more !! ObservationIds(a) && AllRevisions(a, was, seen).Ok?
    requires forall s :: s in now <==> s in was
    ensures AllRevisions(b, now, seen + more) == AllRevisions(a, was, seen)
    decreases ObservationIds(a) - seen, 3
  {
    AllResolve(a, was, seen);
    AllResolve(b, now, seen + more);
    forall s | s in was ensures SupportRevisions(b, s, seen + more) == SupportRevisions(a, s, seen) {
      SupportStable(a, b, s, seen, more);
    }
    assert AllRevisions(b, now, seen + more).value == AllRevisions(a, was, seen).value;
  }

  lemma {:induction false} SupportStable(a: Db, b: Db, s: SupportRef, seen: set<string>, more: set<string>)
    requires Grows(a, b) && more !! ObservationIds(a) && SupportRevisions(a, s, seen).Ok?
    ensures SupportRevisions(b, s, seen + more) == SupportRevisions(a, s, seen)
    decreases ObservationIds(a) - seen, 2
  {
    GrowsKeeps(a, b, s);
    if s.supportType.ObservationSupport? { ResolutionStable(a, b, s.id, seen, more); }
  }

  // ----- steps -----

  datatype Step =
    | MakeV1(call: Call, tokens: Tokens)
    | MakeV2(call: Call, tokens: Tokens)
    | AppendEvidence(batch: seq<Row<Record>>)

  /** Extraction, capture and revision records: anything but observations and their edges. */
  predicate EvidenceOnly(batch: seq<Row<Record>>) {
    forall r | r in batch :: r.name.kind != ObservationKind && r.name.kind != SupportKind
  }

  /** The step succeeds; the id factory hands out identifiers the store does not hold. */
  predicate Possible(db: Db, step: Step) {
    match step
    case MakeV1(call, t) => AcceptV1(db, call).Ok? && NewNames(db, Batch(call, t))
    case MakeV2(call, t) => AcceptV2(db, call).Ok? && NewNames(db, Batch(call, t))
    case AppendEvidence(batch) => EvidenceOnly(batch) && Consistent(db, batch)
  }

  function Apply(db: Db, step: Step): Db {
    match step
    case MakeV1(call, t) => Insert(db, Batch(call, t))
    case MakeV2(call, t) => Insert(db, Batch(call, t))
    case AppendEvidence(batch) => Insert(db, batch)
  }

  /** The store after a sequence of steps, from an empty one. */
  function After(steps: seq<Step>): Db {
    if steps == [] then map[] else Apply(After(steps[..|steps| - 1]), steps[|steps| - 1])
  }

  predicate Run(steps: seq<Step>) {
    steps != [] ==> Run(steps[..|steps| - 1]) && Possible(After(steps[..|steps| - 1]), steps[|steps| - 1])
  }

  // ----- the invariant -----

  ghost predicate ResolvesTo(db: Db, id: string, revision: string) {
    ObservationRevisions(db, id, {}) == Ok({revision})
  }

  /** Resolves to one revision, of a known Source. */
  ghost predicate Rooted(db: Db, id: string) {
    exists r :: ResolvesTo(db, id, r) && GetRevision(db, r).Some?
  }

  /** Same logical claim, and revisions of the same Source. */
  ghost predicate SameLine(db: Db, a: string, b: string) {
    && GetObservation(db, a).Some? && GetObservation(db, b).Some?
    && GetObservation(db, a).value.claim == GetObservation(db, b).value.claim
    && forall r, q | ResolvesTo(db, a, r) && ResolvesTo(db, b, q) :: SourceOfRevision(db, r) == SourceOfRevision(db, q)
  }

  /** What the i-th observation rests on and supersedes was there before it. */
  ghost predicate Ordered(db: Db, log: seq<string>, i: nat)
    requires i < |log|
  {
    && (forall b | Linked(db, log[i], b) :: b in log[..i])
    && (forall p | Supersedes(db, log[i], p) :: p in log[..i] && SameLine(db, log[i], p))
  }

  predicate Supersedes(db: Db, id: string, previous: string) {
    GetObservation(db, id).Some? && GetObservation(db, id).value.supersedes == Some(previous)
  }

  /** log lists the observations of the store in the order they were made. */
  ghost predicate Inv(db: Db, log: seq<string>) {
    && Unique(log)
    && (forall id :: id in log <==> GetObservation(db, id).Some?)
    && (forall id :: id !in log ==> EdgesOf(db, id) == [])
    && (forall id | id in log :: Rooted(db, id))
    && (forall i | 0 <= i < |log| :: Ordered(db, log, i))
  }

  lemma IdsLogged(db: Db, log: seq<string>, id: string)
    requires Inv(db, log) && GetObservation(db, id).None?
    ensures id !in log && EdgesOf(db, id) == []
  {}

  // ----- appended evidence -----

  lemma {:induction false} ListingUnmoved(rows: Db, batch: seq<Row<Record>>, kind: Kind)
    requires forall r | r in batch :: r.name.kind != kind
    ensures Listing(Insert(rows, batch), kind) == Listing(rows, kind)
    ensures forall id :: Name(kind, id) in Insert(rows, batch) <==> Name(kind, id) in rows
    ensures forall id | Name(kind, id) in rows :: Insert(rows, batch)[Name(kind, id)] == rows[Name(kind, id)]
  {
    if batch != [] {
      var init, last := batch[..|batch| - 1], batch[|batch| - 1];
      assert batch == init + [last];
      assert last in batch;
      ListingUnmoved(rows, init, kind);
      KindUnmoved(Insert(rows, init), last, kind);
    }
  }

  lemma KindUnmoved(rows: Db, r: Row<Record>, kind: Kind)
    requires r.name.kind != kind
    ensures Listing(rows[r.name := r.body], kind) == Listing(rows, kind)
  {
    var after := rows[r.name := r.body];
    assert IdsOf(after, kind) == IdsOf(rows, kind) by {
      forall id ensures id in IdsOf(after, kind) <==> id in IdsOf(rows, kind) {
        assert id in IdsOf(after, kind) <==> Name(kind, id) in after;
        assert id in IdsOf(rows, kind) <==> Name(kind, id) in rows;
      }
    }
  }

  lemma EvidenceGrows(db: Db, batch: seq<Row<Record>>)
    requires EvidenceOnly(batch) && Consistent(db, batch)
    ensures Grows(db, Insert(db, batch))
    ensures forall id :: EdgesOf(Insert(db, batch), id) == EdgesOf(db, id)
    ensures forall id :: GetObservation(Insert(db, batch), id) == GetObservation(db, id)
  {
    InsertExtends(db, batch);
    ListingUnmoved(db, batch, SupportKind);
    ListingUnmoved(db, batch, ObservationKind);
  }

  lemma RevisionKept(a: Db, b: Db, r: string)
    requires Extends(a, b) && GetRevision(a, r).Some?
    ensures GetRevision(b, r) == GetRevision(a, r)
  {}

  lemma RootStable(a: Db, b: Db, id: string)
    requires Grows(a, b) && Rooted(a, id)
    ensures Rooted(b, id) && ObservationRevisions(b, id, {}) == ObservationRevisions(a, id, {})
    ensures forall r | ResolvesTo(a, id, r) :: GetRevision(a, r).Some? && SourceOfRevision(b, r) == SourceOfRevision(a, r)
  {
    var r :| ResolvesTo(a, id, r) && GetRevision(a, r).Some?;
    var none: set<string> := {};
    ResolutionStable(a, b, id, none, none);
    assert none + none == none;
    RevisionKept(a, b, r);
    assert ResolvesTo(b, id, r);
    forall q | ResolvesTo(a, id, q) ensures q == r { assert r in {q}; }
  }

  lemma LineStable(a: Db, b: Db, x: string, y: string)
    requires Grows(a, b) && Rooted(a, x) && Rooted(a, y) && SameLine(a, x, y)
    ensures SameLine(b, x, y)
  {
    RootStable(a, b, x);
    RootStable(a, b, y);
  }

  lemma OrderedStable(a: Db, b: Db, log: seq<string>, more: seq<string>, i: nat)
    requires Grows(a, b) && Inv(a, log) && i < |log|
    requires forall id | id in log :: GetObservation(b, id) == GetObservation(a, id)
    ensures Ordered(b, log + more, i)
  {
    assert (log + more)[i] == log[i] && (log + more)[..i] == log[..i];
    assert log[i] in log && Ordered(a, log, i);
    forall x | Linked(b, log[i], x) ensures x in log[..i] { assert Linked(a, log[i], x); }
    forall p | Supersedes(b, log[i], p) ensures p in log[..i] && SameLine(b, log[i], p) {
      assert Supersedes(a, log[i], p);
      assert p in log;
      LineStable(a, b, log[i], p);
    }
  }

  /** Appending evidence keeps the invariant. */
  lemma EvidenceKeepsInv(db: Db, log: seq<string>, batch: seq<Row<Record>>)
    requires Inv(db, log) && EvidenceOnly(batch) && Consistent(db, batch)
    ensures Inv(Insert(db, batch), log)
  {
    var after := Insert(db, batch);
    EvidenceGrows(db, batch);
    forall id | id in log ensures Rooted(after, id) { RootStable(db, after, id); }
    forall i | 0 <= i < |log| ensures Ordered(after, log, i) {
      OrderedStable(db, after, log, [], i);
      assert log + [] == log;
    }
  }

  // ----- a new observation -----

  function HereFrom(id: string): Row<Record> -> seq<SupportRef> { OfKind(SupportKind, EdgeFrom(id)) }

  lemma EdgeRowsRead(run: string, observation: string, supports: seq<SupportRef>, id: string)
    ensures FlatMap(HereFrom(id), Numbered(EdgeRow(run, observation), supports)) == if id == observation then supports else []
  {
    if id == observation {
      NumberedRead(HereFrom(id), EdgeRow(run, observation), Itself(), supports);
      MapItself(supports);
    } else {
      NothingRead(HereFrom(id), Numbered(EdgeRow(run, observation), supports));
    }
  }

  function Heads(call: Call, t: Tokens): seq<Row<Record>> {
    [Row(NameOf(RunKind, RunIdOf(t.run)), RunRecord(SupportGraph.Run(Reasoning, true, true))),
     Row(NameOf(ObservationKind, ObservationIdOf(t.observation)), ObservationRecord(NewObservation(call, RunIdOf(t.run))))]
  }

  lemma TwoHeads<T, X>(f: T -> seq<X>, x: T, y: T, rest: seq<T>)
    requires f(x) == [] && f(y) == []
    ensures FlatMap(f, [x, y] + rest) == FlatMap(f, rest)
  {
    NothingRead(f, [x, y]);
    FlatMapAppend(f, [x, y], rest);
  }

  lemma BatchRead(call: Call, t: Tokens, id: string)
    ensures FlatMap(HereFrom(id), Batch(call, t)) == if id == ObservationIdOf(t.observation) then Observations.Ordered(call) else []
  {
    var run, o := RunIdOf(t.run), ObservationIdOf(t.observation);
    EdgeRowsRead(run, o, Observations.Ordered(call), id);
    HeadsUnread(call, t, id, Numbered(EdgeRow(run, o), Observations.Ordered(call)));
  }

  lemma HeadsUnread(call: Call, t: Tokens, id: string, rest: seq<Row<Record>>)
    ensures FlatMap(HereFrom(id), Heads(call, t) + rest) == FlatMap(HereFrom(id), rest)
  {
    var heads := Heads(call, t);
    assert HereFrom(id)(heads[0]) == [] && HereFrom(id)(heads[1]) == [];
    assert heads == [heads[0], heads[1]];
    TwoHeads(HereFrom(id), heads[0], heads[1], rest);
  }

  /** Only the new observation gets edges, and it gets the supports of the call. */
  lemma EdgesAfter(db: Db, call: Call, t: Tokens, id: string)
    requires NewNames(db, Batch(call, t))
    ensures multiset(EdgesOf(Insert(db, Batch(call, t)), id))
            == multiset(EdgesOf(db, id))
             + (if id == ObservationIdOf(t.observation) then multiset(Observations.Ordered(call)) else multiset{})
  {
    ListingAfter(db, Batch(call, t), SupportKind, EdgeFrom(id));
    BatchRead(call, t, id);
  }

  lemma BatchObservation(db: Db, call: Call, t: Tokens)
    requires NewNames(db, Batch(call, t))
    ensures var o := ObservationIdOf(t.observation);
            GetObservation(db, o).None?
            && GetObservation(Insert(db, Batch(call, t)), o) == Some(NewObservation(call, RunIdOf(t.run)))
  {
    var batch := Batch(call, t);
    NewNamesConsistent(db, batch);
    assert batch[1] in batch;
    assert batch[1] == Heads(call, t)[1];
    InsertFinds(db, batch, batch[1]);
  }

  /** What an accepted call leaves under its new names: the observation it asked for, its supports, its run, and what it supersedes. */
  lemma NewIsRecorded(db: Db, call: Call, t: Tokens)
    requires NewNames(db, Batch(call, t))
    ensures var after, id, run := Insert(db, Batch(call, t)), "observation:" + t.observation, "run:" + t.run;
            && GetObservation(after, id).Some? && Says(GetObservation(after, id).value, call, run)
            && GetRun(after, run) == Some(SupportGraph.Run(Reasoning, true, true))
            && multiset(EdgesOf(after, id)) == multiset(EdgesOf(db, id)) + multiset(call.supports)
            && forall p :: Supersedes(after, id, p) <==> call.supersedes == Some(p)
  {
    BatchObservation(db, call, t);
    EdgesAfter(db, call, t, ObservationIdOf(t.observation));
    BatchRun(db, call, t);
  }

  /** The observation is the one the call describes, not rejected, and a product of the run. */
  predicate Says(o: Observation, call: Call, run: string) {
    && o.claim == Strip(call.claim) && o.statement == Strip(call.statement) && o.epistemic == call.epistemic
    && !o.rejected && o.runId == run && o.supersedes == call.supersedes
  }

  lemma BatchRun(db: Db, call: Call, t: Tokens)
    requires NewNames(db, Batch(call, t))
    ensures GetRun(Insert(db, Batch(call, t)), RunIdOf(t.run)) == Some(SupportGraph.Run(Reasoning, true, true))
  {
    var batch := Batch(call, t);
    NewNamesConsistent(db, batch);
    assert batch[0] in batch;
    assert batch[0] == Heads(call, t)[0];
    InsertFinds(db, batch, batch[0]);
  }

  lemma OtherObservation(db: Db, call: Call, t: Tokens, id: string)
    requires NewNames(db, Batch(call, t)) && id != ObservationIdOf(t.observation)
    ensures GetObservation(Insert(db, Batch(call, t)), id) == GetObservation(db, id)
  {
    var batch, n := Batch(call, t), NameOf(ObservationKind, id);
    NewNamesConsistent(db, batch);
    if n in db { InsertKeeps(db, batch, n); }
    NameBefore(db, batch, n);
    forall i | 0 <= i < |batch| ensures batch[i].name != n {
      if i < 2 { assert batch[i] == Heads(call, t)[i]; }
      else { assert batch[i] == Numbered(EdgeRow(RunIdOf(t.run), ObservationIdOf(t.observation)), Observations.Ordered(call))[i - 2]; }
      assert NameOf(ObservationKind, ObservationIdOf(t.observation)).id[0] != n.id[0];
    }
  }

  lemma CreationGrows(db: Db, log: seq<string>, call: Call, t: Tokens)
    requires Inv(db, log) && NewNames(db, Batch(call, t))
    ensures Grows(db, Insert(db, Batch(call, t)))
  {
    NewNamesConsistent(db, Batch(call, t));
    InsertExtends(db, Batch(call, t));
    BatchObservation(db, call, t);
    forall id, s | GetObservation(db, id).Some?
      ensures s in EdgesOf(Insert(db, Batch(call, t)), id) <==> s in EdgesOf(db, id)
    {
      EdgesAfter(db, call, t, id);
      MultisetMembers(EdgesOf(Insert(db, Batch(call, t)), id), EdgesOf(db, id));
    }
  }

  /** What both versions guarantee of an accepted call. */
  ghost predicate Accepted(db: Db, call: Call, revision: string) {
    && AllRevisions(db, Observations.Ordered(call), {}) == Ok({revision})
    && Observations.Ordered(call) != [] && GetRevision(db, revision).Some?
    && forall p | call.supersedes == Some(p) :: Continues(db, call, p, revision)
  }

  /** The superseded observation makes the same claim about the same Source. */
  ghost predicate Continues(db: Db, call: Call, p: string, revision: string) {
    && GetObservation(db, p).Some? && GetObservation(db, p).value.claim == NewObservation(call, "").claim
    && exists q :: ResolvesTo(db, p, q) && SourceOfRevision(db, q) == SourceOfRevision(db, revision)
  }

  lemma V2Accepted(db: Db, call: Call) returns (revision: string)
    requires AcceptV2(db, call).Ok?
    ensures AcceptV2(db, call) == Ok({revision}) && Accepted(db, call, revision)
  {
    var all := CommonSound(db, call);
    revision := TheOne(all);
    assert Observations.Ordered(call) != [] by {
      assert call.supports[0] in Observations.Ordered(call);
    }
    if call.supersedes.Some? {
      var p := call.supersedes.value;
      SupersededIs(db, call, p);
      var previous := Superseded(db, call, p).value;
      var q := TheOne(previous);
      assert ResolvesTo(db, p, q);
    }
  }

  /** The claim and the statement say something, and the supports are distinct, complete, and all of one revision. */
  ghost predicate Grounded(db: Db, call: Call, revision: string) {
    && Strip(call.claim) != "" && Strip(call.statement) != "" && call.supports != [] && Unique(call.supports)
    && forall s | s in call.supports :: SupportRevisions(db, s, {}) == Resolved.Ok({revision})
  }

  /** What is superseded exists, makes the same claim, and resolves to the revision q. */
  ghost predicate Succeeds(db: Db, call: Call, p: string, q: string) {
    GetObservation(db, p).Some? && GetObservation(db, p).value.claim == Strip(call.claim) && ResolvesTo(db, p, q)
  }

  ghost predicate SameSource(db: Db, q: string, r: string) {
    GetRevision(db, q).Some? && GetRevision(db, r).Some? && GetRevision(db, q).value.sourceId == GetRevision(db, r).value.sourceId
  }

  lemma CommonIff(db: Db, call: Call, revision: string)
    ensures CommonRevision(db, call) == Ok({revision}) <==> Grounded(db, call, revision)
  {
    var ordered := Observations.Ordered(call);
    UniquePermutes(ordered, call.supports);
    if call.supports != [] {
      assert call.supports[0] in ordered;
      AllIff(db, ordered, revision);
    }
  }

  lemma AllIff(db: Db, supports: seq<SupportRef>, revision: string)
    requires exists s :: s in supports
    ensures AllRevisions(db, supports, {}) == Resolved.Ok({revision})
            <==> forall s | s in supports :: SupportRevisions(db, s, {}) == Resolved.Ok({revision})
  {
    AllResolve(db, supports, {});
    if AllRevisions(db, supports, {}) == Resolved.Ok({revision}) {
      forall s | s in supports ensures SupportRevisions(db, s, {}) == Resolved.Ok({revision}) { OneOfAll(db, supports, s, revision); }
    }
    if forall s | s in supports :: SupportRevisions(db, s, {}) == Resolved.Ok({revision}) {
      var s :| s in supports;
      assert AllRevisions(db, supports, {}).value == {revision};
    }
  }

  lemma OneOfAll(db: Db, supports: seq<SupportRef>, s: SupportRef, revision: string)
    requires AllRevisions(db, supports, {}) == Resolved.Ok({revision}) && s in supports
    ensures SupportRevisions(db, s, {}) == Resolved.Ok({revision})
  {
    AllResolve(db, supports, {});
    ResolvedNotEmpty(db, s, {});
    var all := SupportRevisions(db, s, {}).value;
    forall r | r in all ensures r == revision {
      assert r in AllRevisions(db, supports, {}).value;
      assert r in {revision};
    }
    assert all == {revision} by {
      var r :| r in all;
    }
  }

  /** Version 1 accepts exactly the grounded calls whose superseded observation, if any, makes the same claim of the same revision. */
  lemma V1Iff(db: Db, call: Call, revision: string)
    ensures AcceptV1(db, call) == Ok({revision})
            <==> Grounded(db, call, revision) && forall p | call.supersedes == Some(p) :: Succeeds(db, call, p, revision)
  {
    CommonIff(db, call, revision);
  }

  /** Version 2 accepts exactly the grounded calls whose superseded observation, if any, makes the same claim of the same Source. */
  lemma V2Iff(db: Db, call: Call, revision: string)
    ensures AcceptV2(db, call) == Ok({revision})
            <==> && Grounded(db, call, revision)
                 && forall p | call.supersedes == Some(p) :: exists q :: Succeeds(db, call, p, q) && SameSource(db, q, revision)
  {
    CommonIff(db, call, revision);
    if Grounded(db, call, revision) {
      var all := CommonSound(db, call);
      assert TheOne(all) == revision by { assert revision in {TheOne(all)}; }
      if call.supersedes.Some? { V2Superseded(db, call, call.supersedes.value, revision); }
    }
  }

  lemma V2Superseded(db: Db, call: Call, p: string, revision: string)
    ensures (&& Superseded(db, call, p).Ok? && |Superseded(db, call, p).value| == 1
             && SourceOfRevision(db, TheOne(Superseded(db, call, p).value)).Some?
             && SourceOfRevision(db, TheOne(Superseded(db, call, p).value)) == SourceOfRevision(db, revision))
            <==> exists q :: Succeeds(db, call, p, q) && SameSource(db, q, revision)
  {
    SupersededIff(db, call, p);
    if Superseded(db, call, p).Ok? && |Superseded(db, call, p).value| == 1 {
      var q := TheOne(Superseded(db, call, p).value);
      assert Succeeds(db, call, p, q);
      forall x | Succeeds(db, call, p, x) ensures x == q { assert x in {q}; }
    }
    if q :| Succeeds(db, call, p, q) && SameSource(db, q, revision) { OnlyOne(q, Superseded(db, call, p).value); }
  }

  lemma OnlyOne(q: string, s: set<string>)
    requires s == {q}
    ensures |s| == 1 && TheOne(s) == q
  {
    assert q in {TheOne(s)};
  }

  lemma SupersededIff(db: Db, call: Call, p: string)
    ensures forall q :: Superseded(db, call, p) == Ok({q}) <==> Succeeds(db, call, p, q)
  {}

  lemma NewEdges(db: Db, log: seq<string>, call: Call, t: Tokens)
    requires Inv(db, log) && NewNames(db, Batch(call, t))
    ensures forall s :: s in EdgesOf(Insert(db, Batch(call, t)), ObservationIdOf(t.observation)) <==> s in Observations.Ordered(call)
  {
    var o := ObservationIdOf(t.observation);
    BatchObservation(db, call, t);
    IdsLogged(db, log, o);
    EdgesAfter(db, call, t, o);
    MultisetMembers(EdgesOf(Insert(db, Batch(call, t)), o), Observations.Ordered(call));
  }

  /** The new observation resolves to exactly the revision of its supports. */
  lemma NewResolves(db: Db, log: seq<string>, call: Call, t: Tokens, revision: string)
    requires Inv(db, log) && NewNames(db, Batch(call, t)) && Accepted(db, call, revision)
    ensures ResolvesTo(Insert(db, Batch(call, t)), ObservationIdOf(t.observation), revision)
  {
    var after, o := Insert(db, Batch(call, t)), ObservationIdOf(t.observation);
    CreationGrows(db, log, call, t);
    BatchObservation(db, call, t);
    NewEdges(db, log, call, t);
    IdIsNamed(db, o);
    assert EdgesOf(after, o) != [] by { assert Observations.Ordered(call)[0] in EdgesOf(after, o); }
    ListStable(db, after, Observations.Ordered(call), EdgesOf(after, o), {}, {o});
    assert {} + {o} == {o};
  }

  lemma IdIsNamed(db: Db, id: string)
    ensures id in ObservationIds(db) ==> NameOf(ObservationKind, id) in db
  {
    if id in ObservationIds(db) {
      var n :| n in db && n.kind == ObservationKind && |n.id| == 1 && n.id[0].Text? && n.id[0].s == id;
      assert n.id == [Text(id)];
    }
  }

  lemma NewOrdered(db: Db, log: seq<string>, call: Call, t: Tokens, revision: string)
    requires Inv(db, log) && NewNames(db, Batch(call, t)) && Accepted(db, call, revision)
    ensures Ordered(Insert(db, Batch(call, t)), log + [ObservationIdOf(t.observation)], |log|)
  {
    var after, o := Insert(db, Batch(call, t)), ObservationIdOf(t.observation);
    var now := log + [o];
    assert now[|log|] == o && now[..|log|] == log;
    NewEdges(db, log, call, t);
    BatchObservation(db, call, t);
    AllResolve(db, Observations.Ordered(call), {});
    forall b | Linked(after, o, b) ensures b in log {
      assert SupportRevisions(db, SupportRef(ObservationSupport, b), {}).Ok?;
      assert GetObservation(db, b).Some?;
    }
    forall p | Supersedes(after, o, p) ensures p in log && SameLine(after, o, p) {
      assert Continues(db, call, p, revision);
      NewLine(db, log, call, t, revision, p);
    }
  }

  lemma NewLine(db: Db, log: seq<string>, call: Call, t: Tokens, revision: string, p: string)
    requires Inv(db, log) && NewNames(db, Batch(call, t)) && Accepted(db, call, revision) && Continues(db, call, p, revision)
    ensures SameLine(Insert(db, Batch(call, t)), ObservationIdOf(t.observation), p)
  {
    var after, o := Insert(db, Batch(call, t)), ObservationIdOf(t.observation);
    CreationGrows(db, log, call, t);
    NewResolves(db, log, call, t, revision);
    BatchObservation(db, call, t);
    OtherObservation(db, call, t, p);
    RevisionKept(db, after, revision);
    assert p in log;
    RootStable(db, after, p);
    var q :| ResolvesTo(db, p, q) && SourceOfRevision(db, q) == SourceOfRevision(db, revision);
    assert SourceOfRevision(after, q) == SourceOfRevision(db, q);
    OneLine(after, o, p, revision, q);
  }

  lemma OneLine(db: Db, a: string, b: string, r: string, q: string)
    requires GetObservation(db, a).Some? && GetObservation(db, b).Some?
    requires GetObservation(db, a).value.claim == GetObservation(db, b).value.claim
    requires ResolvesTo(db, a, r) && ResolvesTo(db, b, q) && SourceOfRevision(db, r) == SourceOfRevision(db, q)
    ensures SameLine(db, a, b)
  {
    forall r', q' | ResolvesTo(db, a, r') && ResolvesTo(db, b, q') ensures r' == r && q' == q {
      assert r' in {r} && q' in {q};
    }
  }

  /** Creating an observation keeps the invariant and appends the observation to the log. */
  lemma CreationKeepsInv(db: Db, log: seq<string>, call: Call, t: Tokens, revision: string)
    requires Inv(db, log) && NewNames(db, Batch(call, t)) && Accepted(db, call, revision)
    ensures Inv(Insert(db, Batch(call, t)), log + [ObservationIdOf(t.observation)])
  {
    var after, o := Insert(db, Batch(call, t)), ObservationIdOf(t.observation);
    var now := log + [o];
    CreationGrows(db, log, call, t);
    CreationLog(db, log, call, t);
    forall id | id in now ensures Rooted(after, id) {
      if id in log {
        RootStable(db, after, id);
      } else {
        NewResolves(db, log, call, t, revision);
        RevisionKept(db, after, revision);
        assert ResolvesTo(after, o, revision);
      }
    }
    forall i | 0 <= i < |now| ensures Ordered(after, now, i) {
      if i < |log| { OrderedStable(db, after, log, [o], i); } else { NewOrdered(db, log, call, t, revision); }
    }
  }

  lemma CreationLog(db: Db, log: seq<string>, call: Call, t: Tokens)
    requires Inv(db, log) && NewNames(db, Batch(call, t))
    ensures var after, now := Insert(db, Batch(call, t)), log + [ObservationIdOf(t.observation)];
            && Unique(now)
            && (forall id :: id in now <==> GetObservation(after, id).Some?)
            && (forall id :: id !in now ==> EdgesOf(after, id) == [])
            && (forall id | id in log :: GetObservation(after, id) == GetObservation(db, id))
  {
    var after, o := Insert(db, Batch(call, t)), ObservationIdOf(t.observation);
    BatchObservation(db, call, t);
    IdsLogged(db, log, o);
    UniqueSnoc(log, o);
    forall id | id != o ensures GetObservation(after, id) == GetObservation(db, id) { OtherObservation(db, call, t, id); }
    forall id | id != o && id !in log ensures EdgesOf(after, id) == [] {
      EdgesAfter(db, call, t, id);
      MultisetMembers(EdgesOf(after, id), EdgesOf(db, id));
    }
  }

  // ----- every reachable store -----

  lemma V1Accepted(db: Db, call: Call) returns (revision: string)
    requires AcceptV1(db, call).Ok?
    ensures AcceptV1(db, call) == Ok({revision}) && Accepted(db, call, revision)
  {
    V1IsV2WithinRevision(db, call);
    revision := V2Accepted(db, call);
  }

  /** One step: the invariant is kept, nothing recorded changes, and every observation resolves as before. */
  lemma StepKeepsInv(db: Db, log: seq<string>, step: Step) returns (now: seq<string>)
    requires Inv(db, log) && Possible(db, step)
    ensures Inv(Apply(db, step), now) && log <= now && Grows(db, Apply(db, step))
  {
    match step
    case MakeV1(call, t) =>
      var revision := V1Accepted(db, call);
      CreationKeepsInv(db, log, call, t, revision);
      CreationGrows(db, log, call, t);
      now := log + [ObservationIdOf(t.observation)];
    case MakeV2(call, t) =>
      var revision := V2Accepted(db, call);
      CreationKeepsInv(db, log, call, t, revision);
      CreationGrows(db, log, call, t);
      now := log + [ObservationIdOf(t.observation)];
    case AppendEvidence(batch) =>
      EvidenceKeepsInv(db, log, batch);
      EvidenceGrows(db, batch);
      now := log;
  }

  lemma EmptyInv()
    ensures Inv(map[], [])
  {
    forall id ensures EdgesOf(map[], id) == [] {
      var none: Db := map[];
      assert IdsOf(none, SupportKind) == {};
      assert Listing(none, SupportKind) == [];
    }
  }

  lemma {:induction false} ReachableInv(steps: seq<Step>) returns (log: seq<string>)
    requires Run(steps)
    ensures Inv(After(steps), log)
  {
    if steps == [] {
      EmptyInv();
      log := [];
    } else {
      var n := |steps| - 1;
      var before := ReachableInv(steps[..n]);
      log := StepKeepsInv(After(steps[..n]), before, steps[n]);
    }
  }

  /**
    In every reachable store every observation resolves to exactly one revision, and the graph it
    rests on is acyclic: no path of supports meets an observation twice.
  */
  lemma ReachableResolves(steps: seq<Step>, id: string)
    requires Run(steps) && GetObservation(After(steps), id).Some?
    ensures exists r :: ResolvesTo(After(steps), id, r)
    ensures forall p | Path(After(steps), id, p) :: Unique(p) && NodeSound(After(steps), p[|p| - 1])
  {
    var log := ReachableInv(steps);
    assert id in log && Rooted(After(steps), id);
    ResolvesIffSound(After(steps), id, {});
    forall p | Path(After(steps), id, p) ensures PathSound(After(steps), p, {}) {}
  }

  lemma StepIsFinal(db: Db, log: seq<string>, step: Step, id: string)
    requires Inv(db, log) && Possible(db, step) && GetObservation(db, id).Some?
    ensures GetObservation(Apply(db, step), id) == GetObservation(db, id)
    ensures ObservationRevisions(Apply(db, step), id, {}) == ObservationRevisions(db, id, {})
  {
    var now := StepKeepsInv(db, log, step);
    assert id in log;
    RootStable(db, Apply(db, step), id);
    assert NameOf(ObservationKind, id) in db;
  }

  lemma RunAppends(steps: seq<Step>, more: seq<Step>)
    requires more != []
    ensures (steps + more)[..|steps + more| - 1] == steps + more[..|more| - 1]
    ensures (steps + more)[|steps + more| - 1] == more[|more| - 1]
  {}

  /** What an observation resolves to never changes again. */
  lemma {:induction false} ResolutionIsFinal(steps: seq<Step>, more: seq<Step>, id: string)
    requires Run(steps + more) && GetObservation(After(steps), id).Some?
    ensures GetObservation(After(steps + more), id) == GetObservation(After(steps), id)
    ensures ObservationRevisions(After(steps + more), id, {}) == ObservationRevisions(After(steps), id, {})
    decreases |more|
  {
    if more == [] {
      assert steps + more == steps;
    } else {
      var n := |more| - 1;
      RunAppends(steps, more);
      ResolutionIsFinal(steps, more[..n], id);
      var log := ReachableInv(steps + more[..n]);
      StepIsFinal(After(steps + more[..n]), log, more[n], id);
    }
  }

  /** c follows supersession backwards from its first observation. */
  predicate Supersession(db: Db, c: seq<string>) {
    && c != [] && GetObservation(db, c[0]).Some?
    && forall i | 0 <= i < |c| - 1 :: Supersedes(db, c[i], c[i + 1])
  }

  /**
    Supersession chains are finite and stay on one line: every chain is shorter than the number of
    observations, repeats none of them, and keeps one logical claim and one Source throughout.
  */
  lemma ReachableSupersession(steps: seq<Step>, c: seq<string>) returns (log: seq<string>)
    requires Run(steps) && Supersession(After(steps), c)
    ensures Inv(After(steps), log) && |c| <= |log| && Unique(c)
    ensures forall i | 0 <= i < |c| :: SameLine(After(steps), c[0], c[i])
  {
    log := ReachableInv(steps);
    ChainFalls(After(steps), log, c);
    forall i | 0 <= i < |c| ensures SameLine(After(steps), c[0], c[i]) { ChainLine(After(steps), log, c, i); }
  }

  function PositionIn(log: seq<string>, id: string): (i: nat)
    requires id in log
    ensures i < |log| && log[i] == id
  {
    if log[|log| - 1] == id then |log| - 1 else PositionIn(log[..|log| - 1], id)
  }

  lemma EarlierInLog(db: Db, log: seq<string>, id: string, p: string)
    requires Inv(db, log) && id in log && Supersedes(db, id, p)
    ensures p in log && PositionIn(log, p) < PositionIn(log, id) && SameLine(db, id, p)
  {
    var i := PositionIn(log, id);
    assert Ordered(db, log, i);
    var j :| 0 <= j < i && log[j] == p;
    assert PositionIn(log, p) == j;
  }

  lemma {:induction false} ChainFalls(db: Db, log: seq<string>, c: seq<string>)
    requires Inv(db, log) && Supersession(db, c)
    ensures forall x | x in c :: x in log && PositionIn(log, x) <= PositionIn(log, c[0])
    ensures Unique(c) && |c| <= PositionIn(log, c[0]) + 1
    decreases |c|
  {
    assert c[0] in log;
    if |c| > 1 {
      var rest := c[1..];
      assert Supersedes(db, c[0], c[1]);
      EarlierInLog(db, log, c[0], c[1]);
      forall i | 0 <= i < |rest| - 1 ensures Supersedes(db, rest[i], rest[i + 1]) { assert Supersedes(db, c[i + 1], c[i + 2]); }
      ChainFalls(db, log, rest);
      assert c == [c[0]] + rest;
    }
  }

  lemma {:induction false} ChainLine(db: Db, log: seq<string>, c: seq<string>, i: nat)
    requires Inv(db, log) && Supersession(db, c) && i < |c|
    ensures SameLine(db, c[0], c[i])
  {
    if i > 0 {
      ChainLine(db, log, c[..i], i - 1);
      ChainFalls(db, log, c);
      assert Supersedes(db, c[i - 1], c[i]);
      assert c[i - 1] in c && c[i - 1] in log && Rooted(db, c[i - 1]);
      EarlierInLog(db, log, c[i - 1], c[i]);
      SameLineJoins(db, c[0], c[i - 1], c[i]);
    }
  }

  lemma SameLineJoins(db: Db, a: string, b: string, c: string)
    requires SameLine(db, a, b) && SameLine(db, b, c) && Rooted(db, b)
    ensures SameLine(db, a, c)
  {
    var q :| ResolvesTo(db, b, q);
  }
}
