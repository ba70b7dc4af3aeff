/**
  The bounded repair loop: parse, validate, lock the semantics, repair the supports, give up
  (scripts/run_m5_frozen_inference.py).
*/
module RepairLoop {
  import opened Wrappers
  import opened Orders
  import opened Texts
  import opened Json
  import opened Inference
  import opened Acceptance

  // ----- the provider -----

  /** What one provider invocation ends in. */
  datatype Reply = Said(text: string) | TimedOut | Failed

  /** The provider: its n-th invocation gives the n-th reply. */
  type Provider = nat -> Reply

  datatype Parsed = Malformed | NotObject | Object(fields: map<string, Json>)

  type Parser = string -> Parsed

  datatype InferError = ProviderTimedOut | ProviderFailed | RepairCrashed | StillInvalid

  /** The texts among the first n replies, in order. */
  function Heard(provider: Provider, n: nat): seq<string> {
    if n == 0 then [] else Heard(provider, n - 1) + (match provider(n - 1) case Said(text) => [text] case _ => [])
  }

  /** One prompt: a timeout is retried once, any other failure ends the run. */
  method Ask(provider: Provider, at: nat) returns (r: Result<string, InferError>, next: nat)
    ensures at < next <= at + 1 + MAX_TIMEOUT_RETRIES
    ensures r.Ok? ==> Heard(provider, next) == Heard(provider, at) + [r.value]
    ensures r.Err? ==> Heard(provider, next) == Heard(provider, at) && !r.error.StillInvalid? && !r.error.RepairCrashed?
    ensures r.Err? ==> !provider(next - 1).Said?
    ensures r == Err(ProviderTimedOut) <==> forall k: nat | at <= k <= at + MAX_TIMEOUT_RETRIES :: provider(k).TimedOut?
  {
    next := at;
    for attempt := 0 to MAX_TIMEOUT_RETRIES + 1
      invariant next == at + attempt && Heard(provider, next) == Heard(provider, at)
      invariant forall k: nat | at <= k < next :: provider(k).TimedOut?
    {
      var reply := provider(next);
      next := next + 1;
      match reply
      case Said(text) => return Ok(text), next;
      case Failed => return Err(ProviderFailed), next;
      case TimedOut =>
    }
    r := Err(ProviderTimedOut);
  }

  // ----- the semantic lock -----

  /** The non-support fields of an interpretation, as the provider wrote them. */
  datatype Reference = Reference(types: Json, mechanism: Json, summary: Json, notes: Option<Json>)

  function ReferenceOf(r: Response): Option<Reference> {
    if r.decision != Some(JString("interpret")) || r.types.None? || r.mechanism.None? || r.summary.None? then None
    else Some(Reference(r.types.value, r.mechanism.value, r.summary.value, r.notes))
  }

  /** Equality of the two dictionaries in Python. */
  predicate SameReference(a: Reference, b: Reference) {
    && PyEq(a.types, b.types) && PyEq(a.mechanism, b.mechanism) && PyEq(a.summary, b.summary)
    && a.notes.Some? == b.notes.Some? && (a.notes.Some? ==> PyEq(a.notes.value, b.notes.value))
  }

  predicate KeepsLock(lock: Reference, r: Response) {
    ReferenceOf(r).Some? && SameReference(ReferenceOf(r).value, lock)
  }

  /** One turn: parse, compare with the lock if there is one, validate. */
  function Judge(p: Packet, parse: Parser, lock: Option<Reference>, raw: string): Result<Verdict, NormError> {
    match parse(raw)
    case Malformed => Err(NotJson)
    case NotObject => Err(NotAnObject)
    case Object(m) =>
      if lock.Some? && !KeepsLock(lock.value, View(m)) then Err(LockChanged) else Normalize(p, View(m))
  }

  function NextLock(parse: Parser, lock: Option<Reference>, raw: string, error: NormError): Option<Reference> {
    if lock.Some? then lock
    else if SupportFailure(error) && parse(raw).Object? then ReferenceOf(View(parse(raw).fields))
    else None
  }

  /** The lock after outputs that were all rejected. */
  function LockAfter(p: Packet, parse: Parser, outputs: seq<string>): Option<Reference> {
    if outputs == [] then None
    else
      var n := |outputs| - 1;
      var lock := LockAfter(p, parse, outputs[..n]);
      match Judge(p, parse, lock, outputs[n])
      case Ok(_) => lock
      case Err(error) => NextLock(parse, lock, outputs[n], error)
  }

  /** How the n-th output was judged, under the lock the outputs before it had left. */
  function Judged(p: Packet, parse: Parser, outputs: seq<string>, n: nat): Result<Verdict, NormError>
    requires n < |outputs|
  {
    Judge(p, parse, LockAfter(p, parse, outputs[..n]), outputs[n])
  }

  /** An unhashable support type makes the repair prompt itself fail. */
  predicate Crashes(parse: Parser, raw: string) {
    && parse(raw).Object? && "supports" in parse(raw).fields && parse(raw).fields["supports"].JArray?
    && exists i | 0 <= i < |parse(raw).fields["supports"].items| :: UnhashableType(parse(raw).fields["supports"].items[i])
  }

  predicate UnhashableType(item: Json) {
    item.JObject? && "support_type" in item.fields && (item.fields["support_type"].JArray? || item.fields["support_type"].JObject?)
  }

  /** Every output was rejected and answered by a repair prompt. */
  predicate Repaired(p: Packet, parse: Parser, outputs: seq<string>) {
    forall i | 0 <= i < |outputs| :: Judged(p, parse, outputs, i).Err? && !Crashes(parse, outputs[i])
  }

  lemma RepairedSnoc(p: Packet, parse: Parser, outputs: seq<string>, raw: string)
    requires Repaired(p, parse, outputs)
    requires Judge(p, parse, LockAfter(p, parse, outputs), raw).Err? && !Crashes(parse, raw)
    ensures Repaired(p, parse, outputs + [raw])
    ensures LockAfter(p, parse, outputs + [raw])
            == NextLock(parse, LockAfter(p, parse, outputs), raw, Judge(p, parse, LockAfter(p, parse, outputs), raw).error)
  {
    var all := outputs + [raw];
    assert all[..|outputs|] == outputs;
    forall i | 0 <= i < |all| ensures Judged(p, parse, all, i).Err? && !Crashes(parse, all[i]) {
      if i < |outputs| {
        assert all[..i] == outputs[..i];
        assert Judged(p, parse, outputs, i).Err?;
      }
    }
  }

  lemma JudgedLast(p: Packet, parse: Parser, outputs: seq<string>, raw: string)
    ensures (outputs + [raw])[..|outputs|] == outputs
    ensures Judged(p, parse, outputs + [raw], |outputs|) == Judge(p, parse, LockAfter(p, parse, outputs), raw)
  {
    assert (outputs + [raw])[..|outputs|] == outputs;
  }

  /** How a run of this many prompts, having heard these outputs, may end. */
  predicate Ends(p: Packet, parse: Parser, outputs: seq<string>, prompts: nat, r: Result<Verdict, InferError>) {
    && 1 <= prompts <= MAX_SEMANTIC_REPAIRS + 1
    && match r
       case Ok(verdict) =>
         |outputs| == prompts && Repaired(p, parse, outputs[..prompts - 1]) && Judged(p, parse, outputs, prompts - 1) == Ok(verdict)
       case Err(StillInvalid) =>
         && |outputs| == prompts == MAX_SEMANTIC_REPAIRS + 1
         && Repaired(p, parse, outputs[..prompts - 1]) && Judged(p, parse, outputs, prompts - 1).Err?
       case Err(RepairCrashed) =>
         && |outputs| == prompts <= MAX_SEMANTIC_REPAIRS
         && Repaired(p, parse, outputs[..prompts - 1]) && Judged(p, parse, outputs, prompts - 1).Err?
         && Crashes(parse, outputs[prompts - 1])
       case Err(_) => |outputs| == prompts - 1 && Repaired(p, parse, outputs)
  }

  /** What is accepted is what the last output says: its proposal, or its decline. */
  ghost predicate Answered(p: Packet, parse: Parser, outputs: seq<string>, r: Result<Verdict, InferError>) {
    r.Ok? ==> outputs != [] && Says(p, parse(outputs[|outputs| - 1]), r.value)
  }

  ghost predicate Says(p: Packet, parsed: Parsed, v: Verdict) {
    parsed.Object? && match v
                      case Interpreted(q) => Proposes(p, parsed.fields, q)
                      case Declined => parsed.fields == map["decision" := JString("decline")]
  }

  lemma VerdictIsRead(p: Packet, parse: Parser, lock: Option<Reference>, raw: string)
    requires Judge(p, parse, lock, raw).Ok?
    ensures Says(p, parse(raw), Judge(p, parse, lock, raw).value)
  {
    var m := parse(raw).fields;
    match Judge(p, parse, lock, raw).value
    case Interpreted(q) => ProposalIsRead(p, m, q);
    case Declined => DeclineIsRead(p, m);
  }

  /** The end of one turn, if it is the last. */
  method Turn(p: Packet, parse: Parser, lock: Option<Reference>, raw: string, repairs: nat, ghost outputs: seq<string>)
    returns (r: Option<Result<Verdict, InferError>>, next: Option<Reference>)
    requires repairs == |outputs| <= MAX_SEMANTIC_REPAIRS && Repaired(p, parse, outputs) && lock == LockAfter(p, parse, outputs)
    ensures r.Some? ==> Ends(p, parse, outputs + [raw], repairs + 1, r.value)
    ensures r.Some? ==> Answered(p, parse, outputs + [raw], r.value)
    ensures r.None? ==> repairs < MAX_SEMANTIC_REPAIRS && Repaired(p, parse, outputs + [raw])
    ensures r.None? ==> next == LockAfter(p, parse, outputs + [raw])
  {
    JudgedLast(p, parse, outputs, raw);
    next := lock;
    var verdict := Judge(p, parse, lock, raw);
    if verdict.Ok? {
      VerdictIsRead(p, parse, lock, raw);
      return Some(Ok(verdict.value)), next;
    }
    if repairs >= MAX_SEMANTIC_REPAIRS { return Some(Err(StillInvalid)), next; }
    if Crashes(parse, raw) { return Some(Err(RepairCrashed)), next; }
    RepairedSnoc(p, parse, outputs, raw);
    return None, NextLock(parse, lock, raw, verdict.error);
  }

  /**
    At most three prompts and six invocations. A result is the verdict on the last output heard,
    every earlier one having been rejected and repaired; without one, three outputs were rejected,
    the provider failed, or the rejected output could not be put into a repair prompt.
  */
  method InferPacket(p: Packet, provider: Provider, parse: Parser)
    returns (r: Result<Verdict, InferError>, prompts: nat, invocations: nat, ghost outputs: seq<string>)
    ensures prompts <= MAX_SEMANTIC_REPAIRS + 1 && invocations <= prompts * (MAX_TIMEOUT_RETRIES + 1)
    ensures outputs == Heard(provider, invocations) && Ends(p, parse, outputs, prompts, r)
    ensures Answered(p, parse, outputs, r)
  {
    var lock: Option<Reference> := None;
    outputs := [];
    prompts := 1;
    var reply;
    reply, invocations := Ask(provider, 0);
    if reply.Err? { return Err(reply.error), prompts, invocations, outputs; }
    var raw := reply.value;
    for repairs := 0 to MAX_SEMANTIC_REPAIRS + 1
      invariant prompts == repairs + 1 && invocations <= prompts * (MAX_TIMEOUT_RETRIES + 1)
      invariant repairs <= MAX_SEMANTIC_REPAIRS
      invariant |outputs| == repairs && Heard(provider, invocations) == outputs + [raw]
      invariant Repaired(p, parse, outputs) && lock == LockAfter(p, parse, outputs)
    {
      var end;
      end, lock := Turn(p, parse, lock, raw, repairs, outputs);
      outputs := outputs + [raw];
      if end.Some? { return end.value, prompts, invocations, outputs; }
      prompts := prompts + 1;
      reply, invocations := Ask(provider, invocations);
      if reply.Err? { return Err(reply.error), prompts, invocations, outputs; }
      raw := reply.value;
    }
    assert false;
  }

  // ----- what the lock guarantees -----

  /** The response a lock was taken from: every field but the supports had passed. */
  predicate Validated(p: Packet, parse: Parser, raw: string, lock: Reference) {
    && parse(raw).Object?
    && ReferenceOf(View(parse(raw).fields)) == Some(lock)
    && CheckSemantics(View(parse(raw).fields)).Ok?
    && CheckSupports(p, View(parse(raw).fields).supports.value).Err?
  }

  /** A lock is only ever taken from an output whose non-support fields all pass validation. */
  lemma {:induction false} LockIsValidated(p: Packet, parse: Parser, outputs: seq<string>)
    requires LockAfter(p, parse, outputs).Some?
    ensures exists i | 0 <= i < |outputs| ::
              Validated(p, parse, outputs[i], LockAfter(p, parse, outputs).value)
              && LockAfter(p, parse, outputs[..i]).None?
  {
    var n := |outputs| - 1;
    var before := LockAfter(p, parse, outputs[..n]);
    if before.Some? {
      LockIsValidated(p, parse, outputs[..n]);
      var i :| 0 <= i < n && Validated(p, parse, outputs[..n][i], before.value) && LockAfter(p, parse, outputs[..n][..i]).None?;
      assert outputs[..n][i] == outputs[i] && outputs[..n][..i] == outputs[..i];
    } else {
      SupportFailureIsLast(p, View(parse(outputs[n]).fields));
    }
  }

  /** Once taken, the lock stays. */
  lemma {:induction false} LockStays(p: Packet, parse: Parser, outputs: seq<string>, i: nat)
    requires i <= |outputs| && LockAfter(p, parse, outputs[..i]).Some?
    ensures LockAfter(p, parse, outputs) == LockAfter(p, parse, outputs[..i])
    decreases |outputs|
  {
    if i == |outputs| {
      assert outputs[..i] == outputs;
    } else {
      var n := |outputs| - 1;
      assert outputs[..n][..i] == outputs[..i];
      LockStays(p, parse, outputs[..n], i);
    }
  }

  lemma PyEqTexts(a: Json, b: Json)
    requires a.JArray? && AllStrings(a.items) && PyEq(b, a)
    ensures b == a
  {
    forall i | 0 <= i < |a.items| ensures b.items[i] == a.items[i] { assert PyEq(b.items[i], a.items[i]); }
    assert b.items == a.items;
  }

  /** Lists of strings and strings, as validation leaves them. */
  predicate Shaped(r: Reference) {
    && r.types.JArray? && AllStrings(r.types.items) && r.mechanism.JString? && r.summary.JString?
    && (r.notes.Some? ==> r.notes.value.JArray? && AllStrings(r.notes.value.items))
  }

  function FieldsOf(r: Reference): Result<Semantics, NormError> { CheckFields(r.types, r.mechanism, r.summary, r.notes) }

  lemma FieldsShaped(r: Reference)
    requires FieldsOf(r).Ok?
    ensures Shaped(r)
  {}

  /** Fields that passed validation are equal in Python only to themselves. */
  lemma ShapedRigid(lock: Reference, other: Reference)
    requires Shaped(lock) && SameReference(other, lock)
    ensures other == lock
  {
    PyEqTexts(lock.types, other.types);
    if lock.notes.Some? { PyEqTexts(lock.notes.value, other.notes.value); }
  }

  lemma ValidatedFieldsRigid(p: Packet, r: Response, lock: Reference, other: Reference)
    requires CheckSemantics(r).Ok? && ReferenceOf(r) == Some(lock) && SameReference(other, lock)
    ensures other == lock
  {
    assert CheckSemantics(r) == FieldsOf(lock);
    FieldsShaped(lock);
    ShapedRigid(lock, other);
  }

  function SemanticsOf(r: Proposal): (seq<string>, string, string) { (r.types, r.mechanism, r.summary) }

  lemma SameFieldsSameSemantics(a: Response, b: Response)
    requires CheckSemantics(a).Ok? && CheckSemantics(b).Ok? && ReferenceOf(a).Some? && ReferenceOf(a) == ReferenceOf(b)
    ensures CheckSemantics(a) == CheckSemantics(b)
  {}

  lemma LockedVerdict(p: Packet, parse: Parser, source: Response, lock: Reference, raw: string)
    requires CheckSemantics(source).Ok? && ReferenceOf(source) == Some(lock)
    requires Judge(p, parse, Some(lock), raw).Ok?
    ensures Judge(p, parse, Some(lock), raw).value.Interpreted?
    ensures var s, proposal := CheckSemantics(source).value, Judge(p, parse, Some(lock), raw).value.proposal;
            SemanticsOf(proposal) == (s.types, s.mechanism, s.summary) && proposal.notes == FinalNotes(p, s.notes)
  {
    var r := View(parse(raw).fields);
    ValidatedFieldsRigid(p, source, lock, ReferenceOf(r).value);
    SameFieldsSameSemantics(source, r);
  }

  lemma UnhashableSupport(p: Packet, items: seq<Json>)
    requires CheckList(p, items) == Err(Unhashable)
    ensures exists i | 0 <= i < |items| :: UnhashableType(items[i])
  {
    var results := Map(CheckedBy(p), items);
    GatherMembers(results);
    var i :| 0 <= i < |results| && results[i] == Checked.Err(Unhashable);
    assert CheckSupport(p, items[i]) == Err(Unhashable);
    assert UnhashableType(items[i]);
  }

  /** An output rejected for an unhashable support type can never be repaired: the repair prompt fails on it too. */
  lemma UnhashableEscapes(p: Packet, parse: Parser, lock: Option<Reference>, raw: string)
    requires Judge(p, parse, lock, raw) == Err(Unhashable)
    ensures Crashes(parse, raw)
  {
    var r := View(parse(raw).fields);
    SemanticErrors(r);
    assert CheckSupports(p, r.supports.value) == Err(Unhashable);
    UnhashableSupport(p, r.supports.value.items);
  }

  /** An output whose supports alone fail, without breaking a lock or the repair prompt, leaves its own fields as the lock. */
  lemma FailureLocks(p: Packet, parse: Parser, outputs: seq<string>, i: nat)
    requires i < |outputs| && parse(outputs[i]).Object? && OnlySupportsFail(p, parse(outputs[i]).fields)
    requires !Crashes(parse, outputs[i]) && Judged(p, parse, outputs, i) != Err(LockChanged)
    ensures CheckSemantics(View(parse(outputs[i]).fields)).Ok?
    ensures LockAfter(p, parse, outputs[..i + 1]) == ReferenceOf(View(parse(outputs[i]).fields))
    ensures ReferenceOf(View(parse(outputs[i]).fields)).Some?
  {
    var r := View(parse(outputs[i]).fields);
    var before := LockAfter(p, parse, outputs[..i]);
    assert outputs[..i + 1][..i] == outputs[..i];
    SupportFailureIff(p, parse(outputs[i]).fields);
    if Judged(p, parse, outputs, i) == Err(Unhashable) { UnhashableEscapes(p, parse, before, outputs[i]); }
    SupportFailureIsLast(p, r);
    if before.Some? { LockRestated(p, parse, outputs[..i], before.value, r); }
  }

  lemma LockRestated(p: Packet, parse: Parser, outputs: seq<string>, lock: Reference, r: Response)
    requires LockAfter(p, parse, outputs) == Some(lock) && KeepsLock(lock, r)
    ensures ReferenceOf(r) == Some(lock)
  {
    LockIsValidated(p, parse, outputs);
    var i :| 0 <= i < |outputs| && Validated(p, parse, outputs[i], lock) && LockAfter(p, parse, outputs[..i]).None?;
    ValidatedFieldsRigid(p, View(parse(outputs[i]).fields), lock, ReferenceOf(r).value);
  }

  /**
    The lock holds. After an output in which nothing but the supports is wrong, whatever result comes back is
    an interpretation, never a decline, and its types, mechanism, summary and notes are what that output says.
  */
  lemma LockHolds(p: Packet, parse: Parser, outputs: seq<string>, i: nat, n: nat)
    requires i < n < |outputs| && parse(outputs[i]).Object? && OnlySupportsFail(p, parse(outputs[i]).fields)
    requires !Crashes(parse, outputs[i]) && Judged(p, parse, outputs, i) != Err(LockChanged)
    requires Judged(p, parse, outputs, n).Ok?
    ensures Judged(p, parse, outputs, n).value.Interpreted?
    ensures ReadsFields(p, parse(outputs[i]).fields, Judged(p, parse, outputs, n).value.proposal)
  {
    FailureLocks(p, parse, outputs, i);
    var source := View(parse(outputs[i]).fields);
    assert outputs[..n][..i + 1] == outputs[..i + 1];
    LockStays(p, parse, outputs[..n], i + 1);
    LockedVerdict(p, parse, source, ReferenceOf(source).value, outputs[n]);
    LockedRead(p, parse(outputs[i]).fields, Judged(p, parse, outputs, n).value.proposal);
  }

  lemma LockedRead(p: Packet, m: Fields, q: Proposal)
    requires CheckSemantics(View(m)).Ok?
    requires var s := CheckSemantics(View(m)).value;
             SemanticsOf(q) == (s.types, s.mechanism, s.summary) && q.notes == FinalNotes(p, s.notes)
    ensures ReadsFields(p, m, q)
  {
    SemanticsRead(p, View(m), q);
    FieldsViewed(p, m, q);
  }

  /** The two objects hold the same types, mechanism, summary and notes, word for word. */
  predicate SameWords(a: Fields, b: Fields) {
    forall k | k in {"interpretation_types", "mechanism", "summary", "uncertainty_notes"} :: SameAt(a, b, k)
  }

  /**
    Under that lock an output is accepted if and only if it is an acceptable interpretation in the same words:
    repairing the supports, and nothing else, is enough.
  */
  lemma RepairAccepted(p: Packet, parse: Parser, outputs: seq<string>, i: nat, n: nat, q: Proposal)
    requires i < n < |outputs| && parse(outputs[i]).Object? && OnlySupportsFail(p, parse(outputs[i]).fields)
    requires !Crashes(parse, outputs[i]) && Judged(p, parse, outputs, i) != Err(LockChanged)
    ensures Judged(p, parse, outputs, n) == Ok(Interpreted(q))
            <==> && parse(outputs[n]).Object? && Proposes(p, parse(outputs[n]).fields, q)
                 && SameWords(parse(outputs[i]).fields, parse(outputs[n]).fields)
  {
    FailureLocks(p, parse, outputs, i);
    var source := View(parse(outputs[i]).fields);
    assert outputs[..n][..i + 1] == outputs[..i + 1];
    LockStays(p, parse, outputs[..n], i + 1);
    if parse(outputs[n]).Object? { LockedAnswer(p, parse, parse(outputs[i]).fields, ReferenceOf(source).value, outputs[n], q); }
  }

  lemma LockedAnswer(p: Packet, parse: Parser, source: Fields, lock: Reference, raw: string, q: Proposal)
    requires parse(raw).Object? && CheckSemantics(View(source)).Ok? && ReferenceOf(View(source)) == Some(lock)
    ensures Judge(p, parse, Some(lock), raw) == Ok(Interpreted(q))
            <==> Proposes(p, parse(raw).fields, q) && SameWords(source, parse(raw).fields)
  {
    var m := parse(raw).fields;
    ProposalIsRead(p, m, q);
    JudgedUnder(p, parse, lock, raw, q);
    KeepsExactly(p, View(source), lock, View(m));
    if WellKeyed(m) { KeptWords(source, m); }
  }

  lemma JudgedUnder(p: Packet, parse: Parser, lock: Reference, raw: string, q: Proposal)
    requires parse(raw).Object?
    ensures Judge(p, parse, Some(lock), raw) == Ok(Interpreted(q))
            <==> KeepsLock(lock, View(parse(raw).fields)) && Normalize(p, View(parse(raw).fields)) == Ok(Interpreted(q))
  {}

  lemma KeepsExactly(p: Packet, source: Response, lock: Reference, r: Response)
    requires CheckSemantics(source).Ok? && ReferenceOf(source) == Some(lock)
    ensures KeepsLock(lock, r) <==> ReferenceOf(r) == Some(lock)
  {
    if KeepsLock(lock, r) { ValidatedFieldsRigid(p, source, lock, ReferenceOf(r).value); }
    SameAsItself(lock);
  }

  lemma SameAsItself(lock: Reference)
    ensures SameReference(lock, lock)
  {
    PyEqReflexive(lock.types);
    PyEqReflexive(lock.mechanism);
    PyEqReflexive(lock.summary);
    if lock.notes.Some? { PyEqReflexive(lock.notes.value); }
  }

  lemma KeptWords(a: Fields, b: Fields)
    requires ReferenceOf(View(a)).Some? && WellKeyed(b)
    ensures ReferenceOf(View(a)) == ReferenceOf(View(b)) <==> SameWords(a, b)
  {
    assert "interpretation_types" in b && "mechanism" in b && "summary" in b;
    var keys := {"interpretation_types", "mechanism", "summary", "uncertainty_notes"};
    assert SameWords(a, b) <==> && SameAt(a, b, "interpretation_types") && SameAt(a, b, "mechanism") && SameAt(a, b, "summary")
                                && SameAt(a, b, "uncertainty_notes");
  }

  predicate SameAt(a: Fields, b: Fields, k: string) { (k in a <==> k in b) && (k in a ==> a[k] == b[k]) }
}
