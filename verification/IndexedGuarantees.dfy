/** What the indexed repair protocol guarantees, and where its per-thread state leaks (scripts/run_m5_frozen_inference_v13.py). */
module IndexedGuarantees {
  import opened Wrappers
  import opened Orders
  import opened Texts
  import opened Json
  import opened Inference
  import opened RepairLoop
  import opened IndexedRepair
  import opened RepairSequence

  // ----- the lock -----

  /** A reference whose fields pass validation and whose proof lies in the packet. */
  predicate SoundLock(p: Packet, lock: IndexedReference) {
    FieldsOf(lock.base).Ok? && ProofInside(p, lock.proof)
  }

  /** A support failure leaves nothing unchecked but the supports. */
  lemma IndexedFailureIsLast(p: Packet, choice: Option<string>, r: Response)
    requires NormalizeIndexed(p, choice, r).Err? && SupportFailure(NormalizeIndexed(p, choice, r).error)
    ensures IndexedReferenceOf(r).Some? && SoundLock(p, IndexedReferenceOf(r).value)
  {
    if r.decision != Some(JString("decline")) {
      var t := Translated(p, choice, r).value;
      SupportFailureIsLast(p, t);
    }
  }

  /** The lock is only ever taken from an output whose other fields, decision proof included, all passed. */
  lemma {:induction false} IndexedLockIsSound(p: Packet, parse: Parser, left: Option<string>, outputs: seq<string>)
    requires IndexedLockAfter(p, parse, left, outputs).Some?
    ensures SoundLock(p, IndexedLockAfter(p, parse, left, outputs).value)
    ensures exists i | 0 <= i < |outputs| :: parse(outputs[i]).Object?
                                             && IndexedReferenceOf(View(parse(outputs[i]).fields)) == IndexedLockAfter(p, parse, left, outputs)
  {
    var n := |outputs| - 1;
    var before := IndexedLockAfter(p, parse, left, outputs[..n]);
    if before.Some? {
      IndexedLockIsSound(p, parse, left, outputs[..n]);
      var i :| 0 <= i < n && parse(outputs[..n][i]).Object? && IndexedReferenceOf(View(parse(outputs[..n][i]).fields)) == before;
      assert outputs[..n][i] == outputs[i];
    } else {
      IndexedFailureIsLast(p, left, View(parse(outputs[n]).fields));
    }
  }

  lemma FieldsRigid(a: Reference, b: Reference)
    requires FieldsOf(a).Ok? && SameReference(b, a)
    ensures b == a
  {
    FieldsShaped(a);
    ShapedRigid(a, b);
  }

  lemma TranslatedFields(p: Packet, choice: Option<string>, r: Response)
    requires NormalizeIndexed(p, choice, r).Ok? && ReferenceOf(r).Some?
    ensures NormalizeIndexed(p, choice, r).value.Review? && FieldsOf(ReferenceOf(r).value).Ok?
    ensures var s, v := FieldsOf(ReferenceOf(r).value).value, NormalizeIndexed(p, choice, r).value;
            && SemanticsOf(v.proposal) == (s.types, s.mechanism, s.summary) && v.proposal.notes == FinalNotes(p, s.notes)
            && Canonicalize(r.proof) == Some(v.proof)
  {
    var t := Translated(p, choice, r).value;
    assert ReferenceOf(t) == ReferenceOf(r);
  }

  /**
    Under the lock whatever is accepted is an interpretation with exactly the locked types, mechanism,
    summary, notes and decision proof.
  */
  lemma IndexedLockHolds(p: Packet, parse: Parser, left: Option<string>, outputs: seq<string>, n: nat)
    requires n < |outputs| && IndexedLockAfter(p, parse, left, outputs[..n]).Some?
    requires IndexedJudged(p, parse, left, outputs, n).Ok?
    ensures IndexedJudged(p, parse, left, outputs, n).value.Review?
    ensures var lock, v := IndexedLockAfter(p, parse, left, outputs[..n]).value, IndexedJudged(p, parse, left, outputs, n).value;
            && FieldsOf(lock.base).Ok? && v.proof == lock.proof
            && SemanticsOf(v.proposal) == (FieldsOf(lock.base).value.types, FieldsOf(lock.base).value.mechanism, FieldsOf(lock.base).value.summary)
            && v.proposal.notes == FinalNotes(p, FieldsOf(lock.base).value.notes)
  {
    var lock := IndexedLockAfter(p, parse, left, outputs[..n]).value;
    var r := View(parse(outputs[n]).fields);
    IndexedLockIsSound(p, parse, left, outputs[..n]);
    FieldsRigid(lock.base, IndexedReferenceOf(r).value.base);
    TranslatedFields(p, Some(p.key), r);
  }

  /** Every review rests on the packet: supports inside it, all gaps retained, a semantic one, and each test witnessed. */
  lemma ReviewSupported(p: Packet, choice: Option<string>, r: Response)
    requires NormalizeIndexed(p, choice, r).Ok? && NormalizeIndexed(p, choice, r).value.Review?
    ensures var v := NormalizeIndexed(p, choice, r).value;
            && (forall s | s in v.proposal.supports :: InPacket(p, s))
            && (forall id | id in p.gaps :: Support(GapSignal, id) in v.proposal.supports)
            && (exists s | s in v.proposal.supports :: Semantic(s.supportType))
            && ProofInside(p, v.proof)
  {
    ProposalSupported(p, Translated(p, choice, r).value);
  }

  // ----- progress by index -----

  function Picks(choices: seq<Support>, items: seq<Json>): set<Support>
    requires InRange(choices, items)
  {
    set i | 0 <= i < |items| :: Pick(choices, items[i])
  }

  lemma ChosenArePicks(choices: seq<Support>, items: seq<Json>)
    requires InRange(choices, items)
    ensures (set s | s in Chosen(choices, items)) == Picks(choices, items)
  {
    forall s | s in Chosen(choices, items) ensures s in Picks(choices, items) {
      var i := ChosenIsPicked(choices, items, s);
    }
    forall s | s in Picks(choices, items) ensures s in Chosen(choices, items) {
      var i :| 0 <= i < |items| && Pick(choices, items[i]) == s;
      PickIsChosen(choices, items, i);
    }
  }

  /** The response repeats the locked fields and adds nothing but a non-empty list of choices in range. */
  predicate IndexedAnswer(p: Packet, lock: IndexedReference, r: Response) {
    && IndexedReferenceOf(r) == Some(lock) && r.supports.None? && !r.other
    && r.indices.Some? && r.indices.value.JArray? && r.indices.value.items != [] && InRange(Choices(p), r.indices.value.items)
  }

  lemma IndexedSupports(p: Packet, items: seq<Json>)
    requires items != [] && InRange(Choices(p), items)
    ensures CheckIndices(p, JArray(items)).Ok?
    ensures CheckSupports(p, JArray(Map(SupportJson, CheckIndices(p, JArray(items)).value))) == Ok(Picks(Choices(p), items) + GapSupports(p))
  {
    var selected := Chosen(Choices(p), items);
    PickIsChosen(Choices(p), items, 0);
    forall s | s in selected ensures Semantic(s.supportType) && InPacket(p, s) {
      var i := ChosenIsPicked(Choices(p), items, s);
      assert s in Choices(p);
      ChoiceMembers(p, s);
    }
    ChosenArePicks(Choices(p), items);
    ChosenPass(p, selected);
  }

  /**
    Index repair always succeeds: once the lock is set, the locked fields with any non-empty list of
    choices in range are accepted, and the supports are the chosen ones and every gap of the packet.
  */
  lemma IndexRepairAccepted(p: Packet, parse: Parser, raw: string, lock: IndexedReference, r: Response)
    requires SoundLock(p, lock) && parse(raw).Object? && View(parse(raw).fields) == r && IndexedAnswer(p, lock, r)
    ensures JudgeIndexed(p, parse, Some(lock), Some(p.key), raw)
            == Ok(Review(Complete(p, FieldsOf(lock.base).value, Picks(Choices(p), r.indices.value.items) + GapSupports(p)), lock.proof))
  {
    KeepsItself(lock, r);
    AnswerAccepted(p, lock, r);
    JudgedAsKept(p, parse, lock, raw, r);
  }

  lemma JudgedAsKept(p: Packet, parse: Parser, lock: IndexedReference, raw: string, r: Response)
    requires parse(raw).Object? && View(parse(raw).fields) == r && KeepsIndexedLock(lock, r)
    ensures JudgeIndexed(p, parse, Some(lock), Some(p.key), raw) == NormalizeIndexed(p, Some(p.key), r)
  {}

  lemma KeepsItself(lock: IndexedReference, r: Response)
    requires IndexedReferenceOf(r) == Some(lock)
    ensures KeepsIndexedLock(lock, r)
  {
    PyEqReflexive(lock.base.types);
    PyEqReflexive(lock.base.mechanism);
    PyEqReflexive(lock.base.summary);
    if lock.base.notes.Some? { PyEqReflexive(lock.base.notes.value); }
  }

  lemma AnswerAccepted(p: Packet, lock: IndexedReference, r: Response)
    requires SoundLock(p, lock) && IndexedAnswer(p, lock, r)
    ensures NormalizeIndexed(p, Some(p.key), r)
            == Ok(Review(Complete(p, FieldsOf(lock.base).value, Picks(Choices(p), r.indices.value.items) + GapSupports(p)), lock.proof))
  {
    NotDecline(r);
    TranslatedAnswer(p, lock, r);
  }

  lemma TranslatedAnswer(p: Packet, lock: IndexedReference, r: Response)
    requires SoundLock(p, lock) && IndexedAnswer(p, lock, r)
    ensures Translated(p, Some(p.key), r).Ok?
    ensures Normalize(p, Translated(p, Some(p.key), r).value)
            == Ok(Interpreted(Complete(p, FieldsOf(lock.base).value, Picks(Choices(p), r.indices.value.items) + GapSupports(p))))
  {
    IndexedSupports(p, r.indices.value.items);
    NotDecline(r);
    assert CheckSemantics(Translated(p, Some(p.key), r).value) == FieldsOf(lock.base);
  }

  lemma NotDecline(r: Response)
    requires ReferenceOf(r).Some?
    ensures r.decision == Some(JString("interpret")) && r.decision != Some(JString("decline"))
  {
    assert "interpret"[0] == 'i' && "decline"[0] == 'd';
  }

  // ----- indices before the lock -----

  /** Without a lock, a well-formed indexed answer is accepted if and only if an earlier sequence of this packet left index mode on. */
  lemma UnlockedIndices(p: Packet, parse: Parser, left: Option<string>, raw: string, lock: IndexedReference, r: Response)
    requires SoundLock(p, lock) && parse(raw).Object? && View(parse(raw).fields) == r && IndexedAnswer(p, lock, r)
    ensures JudgeIndexed(p, parse, None, left, raw).Ok? <==> left == Some(p.key)
  {
    JudgedUnlocked(p, parse, left, raw, r);
    if left == Some(p.key) { AnswerAccepted(p, lock, r); } else { IndicesRefused(p, left, r); }
  }

  lemma JudgedUnlocked(p: Packet, parse: Parser, left: Option<string>, raw: string, r: Response)
    requires parse(raw).Object? && View(parse(raw).fields) == r
    ensures JudgeIndexed(p, parse, None, left, raw) == NormalizeIndexed(p, left, r)
  {}

  lemma IndicesRefused(p: Packet, left: Option<string>, r: Response)
    requires r.indices.Some? && left != Some(p.key)
    ensures NormalizeIndexed(p, left, r).Err?
  {
    if r.decision == Some(JString("decline")) { assert Normalize(p, r).Err?; }
  }

  lemma SampleFields() returns (base: Reference)
    ensures FieldsOf(base).Ok? && base.notes.None?
  {
    base := Reference(JArray([JString("unknown")]), JString("m"), JString("s"), None);
    var items := base.types.items;
    assert Strings(items) == ["unknown"];
    assert SetOf(Strings(items)) == {"unknown"};
    assert "unknown" !in GENERIC_TYPES by { assert "unknown"[0] == 'u' && "introduction"[0] == 'i' && "modification"[0] == 'm'; }
    assert {"unknown"} * GENERIC_TYPES == {};
    assert Strip("m") == "m" && Strip("s") == "s";
  }

  lemma LedgerReadsBack(ledger: Ledger)
    requires |ledger| == |TESTS| && forall i | 0 <= i < |ledger| :: CanonicalEntry(ledger[i])
    ensures Canonicalize(Some(LedgerJson(ledger))) == Some(ledger)
  {
    TestsDistinct();
    EntryFields(TESTS, ledger);
    FieldsReadBack(LedgerFields(TESTS, ledger), TESTS, ledger);
  }

  lemma SampleProof() returns (ledger: Ledger)
    ensures |ledger| == |TESTS| && Canonicalize(Some(LedgerJson(ledger))) == Some(ledger)
    ensures forall i | 0 <= i < |ledger| :: ledger[i] == [Witness("SourceAssertion", "a")]
  {
    var entry := [Witness("SourceAssertion", "a")];
    ledger := [entry, entry, entry, entry, entry];
    assert CanonicalEntry(entry);
    LedgerReadsBack(ledger);
  }

  lemma SampleAnswer() returns (p: Packet, lock: IndexedReference, r: Response)
    ensures SoundLock(p, lock) && IndexedAnswer(p, lock, r)
  {
    var base := SampleFields();
    var ledger := SampleProof();
    p := Packet("k", {}, {}, {"a"}, {});
    lock := IndexedReference(base, ledger);
    SampleInside(p, ledger);
    r := Response(Some(JString("interpret")), Some(base.types), Some(base.mechanism), Some(base.summary), None, base.notes,
                  Some(LedgerJson(ledger)), Some(JArray([JInt(1)])), false);
    assert ReferenceOf(r) == Some(base);
  }

  lemma SampleInside(p: Packet, ledger: Ledger)
    requires p.assertions == {"a"} && forall i | 0 <= i < |ledger| :: ledger[i] == [Witness("SourceAssertion", "a")]
    ensures ProofInside(p, ledger) && InRange(Choices(p), [JInt(1)])
  {
    ChoiceMembers(p, Support(SourceAssertion, "a"));
    NameReadsBack(SourceAssertion);
    assert Support(SourceAssertion, "a") in Choices(p);
    forall i, w | 0 <= i < |ledger| && w in ledger[i] ensures Witnessed(p, w) {
      assert w == Witness("SourceAssertion", "a");
    }
  }

  /** Indices are meant for repairs under the lock, yet here is a first answer, without any lock, that a leftover index mode lets through. */
  lemma LeftoverIndices() returns (p: Packet, r: Response)
    ensures r.indices.Some? && NormalizeIndexed(p, None, r) == Err(IndicesOutsideRepair)
    ensures NormalizeIndexed(p, Some(p.key), r).Ok? && NormalizeIndexed(p, Some(p.key), r).value.Review?
  {
    var lock;
    p, lock, r := SampleAnswer();
    AnswerAccepted(p, lock, r);
    NotDecline(r);
  }

  /** From a thread that left no index mode on for this packet, indices are accepted only under the lock. */
  lemma IndicesNeedLock(p: Packet, parse: Parser, left: Option<string>, outputs: seq<string>, n: nat)
    requires n < |outputs| && left != Some(p.key) && parse(outputs[n]).Object?
    requires View(parse(outputs[n]).fields).indices.Some? && IndexedJudged(p, parse, left, outputs, n).Ok?
    ensures IndexedLockAfter(p, parse, left, outputs[..n]).Some?
  {
    IndicesRefused(p, left, View(parse(outputs[n]).fields));
  }

  /** The run on a packet, from the index mode that was left, ended as this protocol allows. */
  ghost predicate Concluded(p: Packet, parse: Parser, left: Option<string>, provider: Provider, r: Result<IndexedVerdict, InferError>) {
    exists n, prompts :: IndexedEnds(p, parse, left, Heard(provider, n), prompts, r)
  }

  /** No packet before the i-th left index mode on for a packet of another key. */
  predicate LeftBy(packets: seq<Packet>, i: nat, left: Option<string>)
    requires i <= |packets|
  {
    left == None || exists k | 0 <= k < i :: left == Some(packets[k].key)
  }

  predicate DistinctKeys(packets: seq<Packet>) {
    forall i, j | 0 <= i < j < |packets| :: packets[i].key != packets[j].key
  }

  lemma LeftByOthers(packets: seq<Packet>, i: nat, left: Option<string>)
    requires i < |packets| && DistinctKeys(packets) && LeftBy(packets, i, left)
    ensures left != Some(packets[i].key)
    ensures LeftBy(packets, i + 1, left) && LeftBy(packets, i + 1, Some(packets[i].key)) && LeftBy(packets, i + 1, None)
  {}

  /** A thread that takes packets of distinct keys one after the other always starts a packet with index mode off for it. */
  method WorkThrough(thread: Thread, packets: seq<Packet>, providers: seq<Provider>, parse: Parser)
    returns (results: seq<Result<IndexedVerdict, InferError>>, ghost left: seq<Option<string>>)
    requires |providers| == |packets| && thread.choicePacketKey == None && DistinctKeys(packets)
    modifies thread
    ensures |results| == |left| == |packets|
    ensures forall i | 0 <= i < |packets| :: left[i] != Some(packets[i].key)
    ensures forall i | 0 <= i < |packets| :: Concluded(packets[i], parse, left[i], providers[i], results[i])
  {
    results, left := [], [];
    for i := 0 to |packets|
      invariant |results| == |left| == i
      invariant LeftBy(packets, i, thread.choicePacketKey)
      invariant forall k | 0 <= k < i :: left[k] != Some(packets[k].key)
      invariant forall k | 0 <= k < i :: Concluded(packets[k], parse, left[k], providers[k], results[k])
    {
      ghost var before := thread.choicePacketKey;
      assert before != Some(packets[i].key) by { LeftByOthers(packets, i, before); }
      var r := InferOne(thread, packets[i], providers[i], parse);
      assert LeftBy(packets, i + 1, thread.choicePacketKey) by { LeftByOthers(packets, i, before); }
      left := left + [before];
      results := results + [r];
    }
  }

  method InferOne(thread: Thread, p: Packet, provider: Provider, parse: Parser) returns (r: Result<IndexedVerdict, InferError>)
    modifies thread
    ensures Concluded(p, parse, old(thread.choicePacketKey), provider, r)
    ensures thread.choicePacketKey == old(thread.choicePacketKey) || thread.choicePacketKey == None || thread.choicePacketKey == Some(p.key)
  {
    var prompts, invocations;
    ghost var outputs;
    r, prompts, invocations, outputs := thread.InferPacket(p, provider, parse);
    assert IndexedEnds(p, parse, old(thread.choicePacketKey), Heard(provider, invocations), prompts, r);
  }
}
