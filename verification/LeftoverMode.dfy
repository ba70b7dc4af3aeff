/**
  Two sequences of one worker thread over the same packet: the first gives up with index mode left on, the
  second accepts indices in its very first answer (scripts/run_m5_frozen_inference_v13.py).
*/
module LeftoverMode {
  import opened Wrappers
  import opened Json
  import opened Inference
  import opened RepairLoop
  import opened IndexedRepair
  import opened RepairSequence
  import opened IndexedGuarantees

  /** The fields that both answers share. */
  function Shared(lock: IndexedReference): map<string, Json>
    requires |lock.proof| == |TESTS|
  {
    map["decision" := JString("interpret"), "interpretation_types" := lock.base.types, "mechanism" := lock.base.mechanism,
        "summary" := lock.base.summary, "decision_proof" := LedgerJson(lock.proof)]
  }

  /** An interpretation that cites nothing, and one that chooses the first support by index. */
  function Unsupported(lock: IndexedReference): map<string, Json>
    requires |lock.proof| == |TESTS|
  {
    Shared(lock)["supports" := JArray([])]
  }

  function ByIndex(lock: IndexedReference): map<string, Json>
    requires |lock.proof| == |TESTS|
  {
    Shared(lock)["support_choice_indices" := JArray([JInt(1)])]
  }

  function ParserFor(lock: IndexedReference): Parser
    requires |lock.proof| == |TESTS|
  {
    (raw: string) => if raw == "u" then Object(Unsupported(lock)) else if raw == "i" then Object(ByIndex(lock)) else Malformed
  }

  /** The first provider never cites a support; the second answers by index at once. */
  function GivesUp(): Provider { (n: nat) => if n == 0 then Said("u") else Said("x") }

  function Answers(): Provider { (n: nat) => Said("i") }

  predicate Sample(p: Packet, lock: IndexedReference) {
    && SoundLock(p, lock) && lock.base.notes.None? && |lock.proof| == |TESTS| && Canonicalize(Some(LedgerJson(lock.proof))) == Some(lock.proof)
    && InRange(Choices(p), [JInt(1)])
  }

  lemma SampleExists() returns (p: Packet, lock: IndexedReference)
    ensures Sample(p, lock)
  {
    var base := SampleFields();
    var ledger := SampleProof();
    p := Packet("k", {}, {}, {"a"}, {});
    lock := IndexedReference(base, ledger);
    SampleInside(p, ledger);
  }

  lemma SharedView(lock: IndexedReference)
    requires |lock.proof| == |TESTS|
    ensures View(Unsupported(lock)) == Response(
              Some(JString("interpret")), Some(lock.base.types), Some(lock.base.mechanism), Some(lock.base.summary),
              Some(JArray([])), None, Some(LedgerJson(lock.proof)), None, false)
    ensures View(ByIndex(lock)) == Response(
              Some(JString("interpret")), Some(lock.base.types), Some(lock.base.mechanism), Some(lock.base.summary),
              None, None, Some(LedgerJson(lock.proof)), Some(JArray([JInt(1)])), false)
  {}

  lemma ReferencesAgree(lock: IndexedReference)
    requires lock.base.notes.None? && |lock.proof| == |TESTS| && Canonicalize(Some(LedgerJson(lock.proof))) == Some(lock.proof)
    ensures IndexedReferenceOf(View(Unsupported(lock))) == Some(lock) && IndexedReferenceOf(View(ByIndex(lock))) == Some(lock)
  {
    SharedView(lock);
  }

  /** The first answer is rejected for its supports alone, whatever mode the thread is in, and so takes the lock. */
  lemma UnsupportedRejected(p: Packet, lock: IndexedReference, choice: Option<string>)
    requires Sample(p, lock)
    ensures NormalizeIndexed(p, choice, View(Unsupported(lock))) == Err(SupportsEmpty)
  {
    var r := View(Unsupported(lock));
    SharedView(lock);
    ReferencesAgree(lock);
    NotDecline(r);
    BaseRejects(p, lock, r.(proof := None));
    assert Canonicalize(r.proof) == Some(lock.proof);
    assert Translated(p, choice, r) == Ok(r.(proof := None));
  }

  lemma BaseRejects(p: Packet, lock: IndexedReference, r: Response)
    requires SoundLock(p, lock) && ReferenceOf(r) == Some(lock.base) && r.supports == Some(JArray([]))
    requires r.proof.None? && r.indices.None? && !r.other
    ensures Normalize(p, r) == Err(SupportsEmpty)
  {
    NotDecline(r);
    assert CheckSemantics(r) == FieldsOf(lock.base);
  }

  lemma {:induction false} HeardFirst(n: nat)
    ensures |Heard(GivesUp(), n)| == n && (n > 0 ==> Heard(GivesUp(), n)[0] == "u")
    ensures forall i | 1 <= i < n :: Heard(GivesUp(), n)[i] == "x"
  {
    if n > 0 { HeardFirst(n - 1); }
  }

  lemma {:induction false} HeardSecond(n: nat)
    ensures |Heard(Answers(), n)| == n && forall i | 0 <= i < n :: Heard(Answers(), n)[i] == "i"
  {
    if n > 0 { HeardSecond(n - 1); }
  }

  /** How the three texts are judged. */
  ghost predicate Script(p: Packet, lock: IndexedReference, parse: Parser) {
    && (forall choice :: JudgeIndexed(p, parse, None, choice, "u") == Err(SupportsEmpty))
    && NextIndexedLock(parse, None, "u", SupportsEmpty) == Some(lock)
    && (forall l, choice :: JudgeIndexed(p, parse, l, choice, "x") == Err(NotJson))
    && !Crashes(parse, "u") && !Crashes(parse, "x")
    && JudgeIndexed(p, parse, None, Some(p.key), "i").Ok? && CarriesIndices(parse, "i")
  }

  lemma ParserFollowsScript(p: Packet, lock: IndexedReference)
    requires Sample(p, lock)
    ensures Script(p, lock, ParserFor(lock))
  {
    var parse := ParserFor(lock);
    WordsApart();
    Unanswered(p, lock);
    Indexed(p, lock);
    Unreadable(p, lock);
  }

  lemma Unreadable(p: Packet, lock: IndexedReference)
    requires |lock.proof| == |TESTS|
    ensures forall l, choice :: JudgeIndexed(p, ParserFor(lock), l, choice, "x") == Err(NotJson)
    ensures !Crashes(ParserFor(lock), "x")
  {
    WordsApart();
    assert ParserFor(lock)("x") == Malformed;
  }

  lemma Unanswered(p: Packet, lock: IndexedReference)
    requires Sample(p, lock)
    ensures forall choice :: JudgeIndexed(p, ParserFor(lock), None, choice, "u") == Err(SupportsEmpty)
    ensures NextIndexedLock(ParserFor(lock), None, "u", SupportsEmpty) == Some(lock) && !Crashes(ParserFor(lock), "u")
  {
    var parse := ParserFor(lock);
    assert parse("u") == Object(Unsupported(lock));
    ReferencesAgree(lock);
    forall choice ensures JudgeIndexed(p, parse, None, choice, "u") == Err(SupportsEmpty) {
      JudgedUnlocked(p, parse, choice, "u", View(Unsupported(lock)));
      UnsupportedRejected(p, lock, choice);
    }
    assert Unsupported(lock)["supports"] == JArray([]);
  }

  lemma Indexed(p: Packet, lock: IndexedReference)
    requires Sample(p, lock)
    ensures JudgeIndexed(p, ParserFor(lock), None, Some(p.key), "i").Ok? && CarriesIndices(ParserFor(lock), "i")
  {
    var parse := ParserFor(lock);
    WordsApart();
    assert parse("i") == Object(ByIndex(lock));
    SharedView(lock);
    ReferencesAgree(lock);
    UnlockedIndices(p, parse, Some(p.key), "i", lock, View(ByIndex(lock)));
  }

  lemma WordsApart()
    ensures "u" != "i" && "u" != "x" && "i" != "x"
  {
    assert "u"[0] != "i"[0] && "u"[0] != "x"[0] && "i"[0] != "x"[0];
  }

  predicate Tail(outputs: seq<string>) {
    outputs != [] && outputs[0] == "u" && forall i | 1 <= i < |outputs| :: outputs[i] == "x"
  }

  /** After the first answer the lock is set, and no later text is accepted. */
  lemma {:induction false} LockSet(p: Packet, lock: IndexedReference, parse: Parser, outputs: seq<string>)
    requires Script(p, lock, parse) && Tail(outputs)
    ensures IndexedLockAfter(p, parse, None, outputs) == Some(lock)
    decreases |outputs|
  {
    var n := |outputs| - 1;
    if n == 0 {
      assert outputs[..0] == [];
    } else {
      LockSet(p, lock, parse, outputs[..n]);
    }
  }

  lemma NothingAccepted(p: Packet, lock: IndexedReference, parse: Parser, outputs: seq<string>, i: nat)
    requires Script(p, lock, parse) && Tail(outputs) && i < |outputs|
    ensures IndexedJudged(p, parse, None, outputs, i).Err? && !Crashes(parse, outputs[i])
  {
    if i == 0 { assert outputs[..0] == []; }
  }

  /** The first sequence ends without an answer, and leaves index mode on for the packet. */
  lemma FirstSequence(p: Packet, lock: IndexedReference, parse: Parser, outputs: seq<string>, prompts: nat, r: Result<IndexedVerdict, InferError>)
    requires Script(p, lock, parse) && IndexedEnds(p, parse, None, outputs, prompts, r) && Tail(outputs)
    requires r != Err(ProviderTimedOut) && r != Err(ProviderFailed)
    ensures r == Err(StillInvalid) && ModeAfter(p, parse, None, outputs, prompts, r) == Some(p.key)
  {
    FirstGivesUp(p, lock, parse, outputs, prompts, r);
    LockSet(p, lock, parse, outputs[..prompts - 1]);
  }

  lemma FirstGivesUp(p: Packet, lock: IndexedReference, parse: Parser, outputs: seq<string>, prompts: nat, r: Result<IndexedVerdict, InferError>)
    requires Script(p, lock, parse) && IndexedEnds(p, parse, None, outputs, prompts, r) && Tail(outputs)
    requires r != Err(ProviderTimedOut) && r != Err(ProviderFailed)
    ensures r == Err(StillInvalid) && |outputs| == prompts == MAX_SEMANTIC_REPAIRS + 1
  {
    AllHeard(p, parse, outputs, prompts, r);
    NothingAccepted(p, lock, parse, outputs, prompts - 1);
    LastRejected(p, parse, outputs, prompts, r);
  }

  lemma AllHeard(p: Packet, parse: Parser, outputs: seq<string>, prompts: nat, r: Result<IndexedVerdict, InferError>)
    requires IndexedEnds(p, parse, None, outputs, prompts, r) && r != Err(ProviderTimedOut) && r != Err(ProviderFailed)
    ensures |outputs| == prompts >= 1
  {}

  lemma LastRejected(p: Packet, parse: Parser, outputs: seq<string>, prompts: nat, r: Result<IndexedVerdict, InferError>)
    requires IndexedEnds(p, parse, None, outputs, prompts, r) && r != Err(ProviderTimedOut) && r != Err(ProviderFailed)
    requires |outputs| == prompts >= 1 && IndexedJudged(p, parse, None, outputs, prompts - 1).Err? && !Crashes(parse, outputs[prompts - 1])
    ensures r == Err(StillInvalid) && prompts == MAX_SEMANTIC_REPAIRS + 1
  {}

  /** The second sequence accepts its first answer, which carries indices and has no lock behind it. */
  lemma SecondSequence(p: Packet, lock: IndexedReference, parse: Parser, outputs: seq<string>, prompts: nat, r: Result<IndexedVerdict, InferError>)
    requires Script(p, lock, parse) && IndexedEnds(p, parse, Some(p.key), outputs, prompts, r) && outputs != [] && outputs[0] == "i"
    requires r != Err(ProviderTimedOut) && r != Err(ProviderFailed)
    ensures r.Ok? && prompts == 1 && CarriesIndices(parse, outputs[0])
  {
    assert outputs[..0] == [];
    assert IndexedJudged(p, parse, Some(p.key), outputs, 0).Ok?;
    if prompts > 1 { NotRepaired(p, parse, outputs, prompts); }
  }

  lemma NotRepaired(p: Packet, parse: Parser, outputs: seq<string>, prompts: nat)
    requires 1 < prompts <= |outputs| && IndexedJudged(p, parse, Some(p.key), outputs, 0).Ok?
    ensures !IndexedRepaired(p, parse, Some(p.key), outputs[..prompts - 1])
  {
    var before := outputs[..prompts - 1];
    assert before[..0] == outputs[..0] && before[0] == outputs[0];
    assert IndexedJudged(p, parse, Some(p.key), before, 0).Ok?;
  }

  /** Both sequences, one after the other, on a fresh thread. */
  method TwoSequences(p: Packet, lock: IndexedReference)
      returns (first: Result<IndexedVerdict, InferError>, mode: Option<string>, second: Result<IndexedVerdict, InferError>, prompts: nat)
    requires Sample(p, lock)
    ensures first == Err(StillInvalid) && mode == Some(p.key)
    ensures second.Ok? && prompts == 1 && CarriesIndices(ParserFor(lock), "i")
  {
    ParserFollowsScript(p, lock);
    var thread := new Thread();
    first := RunFirst(thread, p, lock, ParserFor(lock));
    mode := thread.choicePacketKey;
    second, prompts := RunSecond(thread, p, lock, ParserFor(lock));
  }

  method RunFirst(thread: Thread, p: Packet, lock: IndexedReference, parse: Parser) returns (r: Result<IndexedVerdict, InferError>)
    requires Script(p, lock, parse) && thread.choicePacketKey == None
    modifies thread
    ensures r == Err(StillInvalid) && thread.choicePacketKey == Some(p.key)
  {
    var prompts, invocations;
    ghost var outputs;
    r, prompts, invocations, outputs := thread.InferPacket(p, GivesUp(), parse);
    HeardFirst(invocations);
    FirstSequence(p, lock, parse, outputs, prompts, r);
  }

  method RunSecond(thread: Thread, p: Packet, lock: IndexedReference, parse: Parser) returns (r: Result<IndexedVerdict, InferError>, prompts: nat)
    requires Script(p, lock, parse) && thread.choicePacketKey == Some(p.key)
    modifies thread
    ensures r.Ok? && prompts == 1
  {
    var invocations;
    ghost var outputs;
    r, prompts, invocations, outputs := thread.InferPacket(p, Answers(), parse);
    HeardSecond(invocations);
    SecondSequence(p, lock, parse, outputs, prompts, r);
  }
}
