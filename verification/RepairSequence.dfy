/**
  The indexed repair loop with its per-thread state: the lock, the support choices by index and
  the ids that stay forbidden through one sequence (scripts/run_m5_frozen_inference_v13.py).
*/
module RepairSequence {
  import opened Wrappers
  import opened Orders
  import opened Texts
  import opened Json
  import opened Inference
  import opened RepairLoop
  import opened IndexedRepair

  // ----- support choices -----

  function Supports(t: SupportType): string -> Support { (id: string) => Support(t, id) }

  /** The semantic supports of a packet, type by type and sorted; choice n is the n-th of them. */
  function Choices(p: Packet): seq<Support> {
    Map(Supports(SourceAssertion), SortedTexts(p.assertions)) + Map(Supports(StructuralDelta), SortedTexts(p.structural))
  }

  lemma TypedMembers(t: SupportType, ids: set<string>, s: Support)
    ensures s in Map(Supports(t), SortedTexts(ids)) <==> s.supportType == t && s.id in ids
  {
    var sorted := SortedTexts(ids);
    if s.supportType == t && s.id in ids {
      var i :| 0 <= i < |sorted| && sorted[i] == s.id;
      assert Map(Supports(t), sorted)[i] == s;
    }
    if s in Map(Supports(t), sorted) {
      var i :| 0 <= i < |sorted| && Map(Supports(t), sorted)[i] == s;
      assert sorted[i] in sorted;
    }
  }

  lemma ChoiceMembers(p: Packet, s: Support)
    ensures s in Choices(p) <==> Semantic(s.supportType) && InPacket(p, s)
  {
    TypedMembers(SourceAssertion, p.assertions, s);
    TypedMembers(StructuralDelta, p.structural, s);
  }

  predicate AllInts(items: seq<Json>) { forall i | 0 <= i < |items| :: items[i].JInt? }

  predicate InRange(choices: seq<Support>, items: seq<Json>) {
    AllInts(items) && forall i | 0 <= i < |items| :: 1 <= items[i].n <= |choices|
  }

  function Pick(choices: seq<Support>, item: Json): Support
    requires item.JInt? && 1 <= item.n <= |choices|
  {
    choices[item.n - 1]
  }

  /** The chosen supports, each at its first mention. */
  function Chosen(choices: seq<Support>, items: seq<Json>): seq<Support>
    requires InRange(choices, items)
  {
    if items == [] then []
    else
      var n := |items| - 1;
      Chosen(choices, items[..n]) + (if items[n] in items[..n] then [] else [Pick(choices, items[n])])
  }

  lemma {:induction false} PickIsChosen(choices: seq<Support>, items: seq<Json>, i: nat)
    requires InRange(choices, items) && i < |items|
    ensures Pick(choices, items[i]) in Chosen(choices, items)
    decreases |items|
  {
    var n := |items| - 1;
    var init := items[..n];
    if i < n {
      PickIsChosen(choices, init, i);
      assert init[i] == items[i];
    } else if items[n] in init {
      var j :| 0 <= j < n && init[j] == items[n];
      PickIsChosen(choices, init, j);
    }
  }

  lemma {:induction false} ChosenIsPicked(choices: seq<Support>, items: seq<Json>, s: Support) returns (i: nat)
    requires InRange(choices, items) && s in Chosen(choices, items)
    ensures i < |items| && Pick(choices, items[i]) == s
    decreases |items|
  {
    var n := |items| - 1;
    var init := items[..n];
    if s in Chosen(choices, init) {
      i := ChosenIsPicked(choices, init, s);
      assert init[i] == items[i];
    } else {
      i := n;
    }
  }

  function CheckIndices(p: Packet, j: Json): Result<seq<Support>, NormError> {
    if !j.JArray? || j.items == [] || !AllInts(j.items) then Err(IndicesShape)
    else if !InRange(Choices(p), j.items) then Err(IndexRange)
    else Ok(Chosen(Choices(p), j.items))
  }

  lemma ChosenStep(choices: seq<Support>, items: seq<Json>, i: nat)
    requires i < |items| && AllInts(items) && InRange(choices, items[..i])
    ensures InRange(choices, items[..i + 1]) <==> 1 <= items[i].n <= |choices|
    ensures !InRange(choices, items[..i + 1]) ==> !InRange(choices, items)
    ensures InRange(choices, items[..i + 1]) ==>
              Chosen(choices, items[..i + 1])
              == Chosen(choices, items[..i]) + (if items[i] in items[..i] then [] else [choices[items[i].n - 1]])
  {
    assert items[..i + 1][..i] == items[..i] && items[..i + 1][i] == items[i];
    if !InRange(choices, items[..i + 1]) { assert !(1 <= items[i].n <= |choices|); }
  }

  /** The loop over the indices. */
  method PickEach(choices: seq<Support>, items: seq<Json>) returns (r: Option<seq<Support>>)
    requires AllInts(items)
    ensures r == if InRange(choices, items) then Some(Chosen(choices, items)) else None
  {
    var selected: seq<Support> := [];
    var seen: set<int> := {};
    for i := 0 to |items|
      invariant InRange(choices, items[..i]) && selected == Chosen(choices, items[..i])
      invariant forall n :: n in seen <==> JInt(n) in items[..i]
    {
      var index := items[i].n;
      ChosenStep(choices, items, i);
      PrefixSnoc(items, i);
      assert items[i] == JInt(index);
      if index < 1 || index > |choices| { return None; }
      if index in seen { continue; }
      seen := seen + {index};
      selected := selected + [choices[index - 1]];
    }
    assert items[..|items|] == items;
    r := Some(selected);
  }

  method SelectSupports(p: Packet, j: Json) returns (r: Result<seq<Support>, NormError>)
    ensures r == CheckIndices(p, j)
  {
    if !j.JArray? || j.items == [] || !AllInts(j.items) { return Err(IndicesShape); }
    var picked := PickEach(Choices(p), j.items);
    r := if picked.None? then Err(IndexRange) else Ok(picked.value);
  }

  function SupportJson(s: Support): Json {
    JObject(map["support_type" := JString(TypeName(s.supportType)), "support_id" := JString(s.id)])
  }

  lemma SupportReadsBack(p: Packet, s: Support)
    requires InPacket(p, s)
    ensures CheckSupport(p, SupportJson(s)) == Ok(s)
  {
    NameReadsBack(s.supportType);
  }

  lemma CopiesGathered(p: Packet, selected: seq<Support>)
    requires forall s | s in selected :: InPacket(p, s)
    ensures CheckList(p, Map(SupportJson, selected)) == Ok(set s | s in selected)
  {
    var results := Map(CheckedBy(p), Map(SupportJson, selected));
    forall i | 0 <= i < |results| ensures results[i] == Checked.Ok(selected[i]) {
      assert selected[i] in selected;
      SupportReadsBack(p, selected[i]);
    }
    AllGathered(results, selected);
  }

  lemma AllGathered(results: seq<Checked>, selected: seq<Support>)
    requires |results| == |selected| && forall i | 0 <= i < |results| :: results[i] == Checked.Ok(selected[i])
    ensures Gather(results) == Ok(set s | s in selected)
  {
    GatherMembers(results);
    forall s | s in selected ensures Checked.Ok(s) in results {
      var i :| 0 <= i < |selected| && selected[i] == s;
      assert results[i] == Checked.Ok(s);
    }
    assert Gather(results).value == set s | s in selected;
  }

  lemma GatheredPass(p: Packet, items: seq<Json>, cited: set<Support>, s: Support)
    requires items != [] && CheckList(p, items) == Ok(cited) && s in cited && Semantic(s.supportType)
    requires forall x | x in cited :: !x.supportType.GapSignal?
    ensures CheckSupports(p, JArray(items)) == Ok(cited + GapSupports(p))
  {}

  /** Supports copied from the choices always pass. */
  lemma ChosenPass(p: Packet, selected: seq<Support>)
    requires selected != [] && forall s | s in selected :: Semantic(s.supportType) && InPacket(p, s)
    ensures CheckSupports(p, JArray(Map(SupportJson, selected))) == Ok((set s | s in selected) + GapSupports(p))
  {
    CopiesGathered(p, selected);
    GatheredPass(p, Map(SupportJson, selected), (set s | s in selected), selected[0]);
  }

  // ----- validation with proofs and indices -----

  datatype IndexedVerdict = NoReview | Review(proposal: Proposal, proof: Ledger)

  /** The witness is an exact semantic support of the packet. */
  predicate Witnessed(p: Packet, w: Witness) {
    TypeOf(w.supportType).Some? && Support(TypeOf(w.supportType).value, w.id) in Choices(p)
  }

  predicate ProofInside(p: Packet, ledger: Ledger) {
    forall i | 0 <= i < |ledger| :: forall w | w in ledger[i] :: Witnessed(p, w)
  }

  /** The response handed to the base validation: without the proof, and with chosen supports in place of indices. */
  function Translated(p: Packet, choice: Option<string>, r: Response): Result<Response, NormError> {
    if r.indices.None? then Ok(r.(proof := None))
    else if choice != Some(p.key) then Err(IndicesOutsideRepair)
    else if r.supports.Some? then Err(IndicesWithSupports)
    else
      var selected := CheckIndices(p, r.indices.value);
      if selected.Err? then Err(selected.error)
      else Ok(r.(proof := None, indices := None, supports := Some(JArray(Map(SupportJson, selected.value)))))
  }

  /** choice is the packet key for which indices are currently allowed. */
  function NormalizeIndexed(p: Packet, choice: Option<string>, r: Response): Result<IndexedVerdict, NormError> {
    if r.decision == Some(JString("decline")) then
      var base := Normalize(p, r);
      if base.Err? then Err(base.error) else Ok(NoReview)
    else
      var ledger := Canonicalize(r.proof);
      if ledger.None? then Err(ProofShape)
      else if !ProofInside(p, ledger.value) then Err(ProofOutside)
      else
        var translated := Translated(p, choice, r);
        if translated.Err? then Err(translated.error)
        else
          var base := Normalize(p, translated.value);
          if base.Err? then Err(base.error)
          else if base.value.Declined? then Ok(NoReview)
          else Ok(Review(base.value.proposal, ledger.value))
  }

  // ----- the lock -----

  datatype IndexedReference = IndexedReference(base: Reference, proof: Ledger)

  function IndexedReferenceOf(r: Response): Option<IndexedReference> {
    if ReferenceOf(r).None? || Canonicalize(r.proof).None? then None
    else Some(IndexedReference(ReferenceOf(r).value, Canonicalize(r.proof).value))
  }

  predicate KeepsIndexedLock(lock: IndexedReference, r: Response) {
    && IndexedReferenceOf(r).Some? && SameReference(IndexedReferenceOf(r).value.base, lock.base)
    && IndexedReferenceOf(r).value.proof == lock.proof
  }

  type Lock = Option<IndexedReference>

  function JudgeIndexed(p: Packet, parse: Parser, lock: Lock, choice: Option<string>, raw: string): Result<IndexedVerdict, NormError> {
    match parse(raw)
    case Malformed => Err(NotJson)
    case NotObject => Err(NotAnObject)
    case Object(m) =>
      if lock.Some? && !KeepsIndexedLock(lock.value, View(m)) then Err(LockChanged) else NormalizeIndexed(p, choice, View(m))
  }

  function NextIndexedLock(parse: Parser, lock: Lock, raw: string, error: NormError): Lock {
    if lock.Some? then lock
    else if SupportFailure(error) && parse(raw).Object? then IndexedReferenceOf(View(parse(raw).fields))
    else None
  }

  /** Indices are allowed for this packet once its lock is set; before that, as an earlier sequence left it. */
  function ChoiceUnder(p: Packet, left: Option<string>, lock: Lock): Option<string> {
    if lock.Some? then Some(p.key) else left
  }

  function IndexedLockAfter(p: Packet, parse: Parser, left: Option<string>, outputs: seq<string>): Lock {
    if outputs == [] then None
    else
      var n := |outputs| - 1;
      var lock := IndexedLockAfter(p, parse, left, outputs[..n]);
      match JudgeIndexed(p, parse, lock, ChoiceUnder(p, left, lock), outputs[n])
      case Ok(_) => lock
      case Err(error) => NextIndexedLock(parse, lock, outputs[n], error)
  }

  function IndexedJudged(p: Packet, parse: Parser, left: Option<string>, outputs: seq<string>, n: nat): Result<IndexedVerdict, NormError>
    requires n < |outputs|
  {
    var lock := IndexedLockAfter(p, parse, left, outputs[..n]);
    JudgeIndexed(p, parse, lock, ChoiceUnder(p, left, lock), outputs[n])
  }

  // ----- forbidden ids -----

  /** The support that an item of a rejected list names although the packet does not hold it. */
  function InvalidSupport(p: Packet, item: Json): seq<Support> {
    if item.JObject? && "support_type" in item.fields && "support_id" in item.fields
       && item.fields["support_type"].JString? && item.fields["support_id"].JString?
       && TypeOf(item.fields["support_type"].s).Some?
       && item.fields["support_id"].s !in AllowedIds(p, TypeOf(item.fields["support_type"].s).value)
    then [Support(TypeOf(item.fields["support_type"].s).value, item.fields["support_id"].s)]
    else []
  }

  function InvalidAt(p: Packet): Json -> seq<Support> { (item: Json) => InvalidSupport(p, item) }

  function ListOf(parse: Parser, raw: string): seq<Json> {
    if parse(raw).Object? && "supports" in parse(raw).fields && parse(raw).fields["supports"].JArray?
    then parse(raw).fields["supports"].items else []
  }

  /** The ids of a rejected output that lie outside the packet. */
  function Invalid(p: Packet, parse: Parser, raw: string): set<Support> {
    set s | s in FlatMap(InvalidAt(p), ListOf(parse, raw))
  }

  function InvalidIn(p: Packet, parse: Parser, outputs: seq<string>): set<Support> {
    if outputs == [] then {} else InvalidIn(p, parse, outputs[..|outputs| - 1]) + Invalid(p, parse, outputs[|outputs| - 1])
  }

  /** No forbidden id is ever one the packet allows. */
  lemma {:induction false} ForbiddenOutside(p: Packet, parse: Parser, outputs: seq<string>)
    ensures forall s | s in InvalidIn(p, parse, outputs) :: !InPacket(p, s)
  {
    if outputs != [] {
      var n := |outputs| - 1;
      ForbiddenOutside(p, parse, outputs[..n]);
      forall s | s in Invalid(p, parse, outputs[n]) ensures !InPacket(p, s) {
        var items := ListOf(parse, outputs[n]);
        FlatMapMembers(InvalidAt(p), items, s);
        var i :| 0 <= i < |items| && s in InvalidAt(p)(items[i]);
        assert s == InvalidSupport(p, items[i])[0];
      }
    }
  }

  // ----- how a run of prompts ends -----

  predicate IndexedRepaired(p: Packet, parse: Parser, left: Option<string>, outputs: seq<string>) {
    forall i | 0 <= i < |outputs| :: IndexedJudged(p, parse, left, outputs, i).Err? && !Crashes(parse, outputs[i])
  }

  predicate IndexedEnds(p: Packet, parse: Parser, left: Option<string>, outputs: seq<string>, prompts: nat, r: Result<IndexedVerdict, InferError>) {
    && 1 <= prompts <= MAX_SEMANTIC_REPAIRS + 1
    && match r
       case Ok(verdict) =>
         && |outputs| == prompts && IndexedRepaired(p, parse, left, outputs[..prompts - 1])
         && IndexedJudged(p, parse, left, outputs, prompts - 1) == Ok(verdict)
       case Err(StillInvalid) =>
         && |outputs| == prompts == MAX_SEMANTIC_REPAIRS + 1
         && IndexedRepaired(p, parse, left, outputs[..prompts - 1]) && IndexedJudged(p, parse, left, outputs, prompts - 1).Err?
       case Err(RepairCrashed) =>
         && |outputs| == prompts <= MAX_SEMANTIC_REPAIRS
         && IndexedRepaired(p, parse, left, outputs[..prompts - 1]) && IndexedJudged(p, parse, left, outputs, prompts - 1).Err?
         && Crashes(parse, outputs[prompts - 1])
       case Err(_) => |outputs| == prompts - 1 && IndexedRepaired(p, parse, left, outputs)
  }

  /** An output that chooses its supports by index. */
  predicate CarriesIndices(parse: Parser, raw: string) { parse(raw).Object? && View(parse(raw).fields).indices.Some? }

  predicate Accepted(parse: Parser, raw: string, v: Result<IndexedVerdict, InferError>) {
    v.Ok? && v.value.Review? && CarriesIndices(parse, raw)
  }

  /**
    The index mode a run leaves behind: on for its packet once a repair under the lock was prompted, and as
    it was before otherwise; an accepted review that carries indices turns it off.
  */
  function ModeAfter(
      p: Packet, parse: Parser, left: Option<string>, outputs: seq<string>, prompts: nat, r: Result<IndexedVerdict, InferError>): Option<string>
    requires IndexedEnds(p, parse, left, outputs, prompts, r)
  {
    if r.Ok? && Accepted(parse, outputs[prompts - 1], r) then None
    else ChoiceUnder(p, left, IndexedLockAfter(p, parse, left, outputs[..prompts - 1]))
  }

  lemma IndexedLast(p: Packet, parse: Parser, left: Option<string>, outputs: seq<string>, raw: string)
    ensures (outputs + [raw])[..|outputs|] == outputs
    ensures var lock := IndexedLockAfter(p, parse, left, outputs);
            IndexedJudged(p, parse, left, outputs + [raw], |outputs|) == JudgeIndexed(p, parse, lock, ChoiceUnder(p, left, lock), raw)
  {
    assert (outputs + [raw])[..|outputs|] == outputs;
  }

  lemma IndexedSnoc(p: Packet, parse: Parser, left: Option<string>, outputs: seq<string>, raw: string)
    requires IndexedRepaired(p, parse, left, outputs) && !Crashes(parse, raw)
    requires IndexedJudged(p, parse, left, outputs + [raw], |outputs|).Err?
    ensures IndexedRepaired(p, parse, left, outputs + [raw])
    ensures IndexedLockAfter(p, parse, left, outputs + [raw])
            == NextIndexedLock(parse, IndexedLockAfter(p, parse, left, outputs), raw,
                               IndexedJudged(p, parse, left, outputs + [raw], |outputs|).error)
  {
    var all := outputs + [raw];
    assert all[..|outputs|] == outputs;
    forall i | 0 <= i < |all| ensures IndexedJudged(p, parse, left, all, i).Err? && !Crashes(parse, all[i]) {
      if i < |outputs| {
        assert all[..i] == outputs[..i];
        assert IndexedJudged(p, parse, left, outputs, i).Err?;
      }
    }
  }

  lemma InvalidSnoc(p: Packet, parse: Parser, outputs: seq<string>, raw: string)
    ensures InvalidIn(p, parse, outputs + [raw]) == InvalidIn(p, parse, outputs) + Invalid(p, parse, raw)
  {
    assert (outputs + [raw])[..|outputs|] == outputs;
  }

  // ----- one thread -----

  /** The state a worker thread keeps between repairs; forbidden holds the pairs of a type and an id. */
  class Thread {
    var packetKey: Option<string>
    var forbidden: set<Support>
    var choicePacketKey: Option<string>

    constructor ()
      ensures packetKey == None && forbidden == {} && choicePacketKey == None
    {
      packetKey, forbidden, choicePacketKey := None, {}, None;
    }

    /** An indexed result that is accepted ends index mode. */
    method Normalized(p: Packet, r: Response) returns (v: Result<IndexedVerdict, NormError>)
      modifies this`choicePacketKey
      ensures v == NormalizeIndexed(p, old(choicePacketKey), r)
      ensures choicePacketKey == if v.Ok? && v.value.Review? && r.indices.Some? then None else old(choicePacketKey)
    {
      v := NormalizeIndexed(p, choicePacketKey, r);
      if v.Ok? && v.value.Review? && r.indices.Some? { choicePacketKey := None; }
    }

    /** The ids forbidden so far in this packet's sequence, with those of the output just rejected. */
    method SequenceForbidden(p: Packet, parse: Parser, previous: string, attempt: nat)
      modifies this`packetKey, this`forbidden
      ensures packetKey == Some(p.key)
      ensures forbidden == (if attempt == 1 || old(packetKey) != Some(p.key) then {} else old(forbidden)) + Invalid(p, parse, previous)
    {
      if attempt == 1 || packetKey != Some(p.key) {
        packetKey := Some(p.key);
        forbidden := {};
      }
      var items := ListOf(parse, previous);
      var merged := forbidden;
      for i := 0 to |items|
        invariant merged == forbidden + set s | s in FlatMap(InvalidAt(p), items[..i])
        invariant packetKey == Some(p.key)
        invariant forbidden == if attempt == 1 || old(packetKey) != Some(p.key) then {} else old(forbidden)
      {
        FlatMapStep(InvalidAt(p), items, i);
        merged := merged + set s | s in InvalidSupport(p, items[i]);
      }
      assert items[..|items|] == items;
      forbidden := merged;
    }

    /** What a repair prompt does to the state; it fails on an unhashable support type. */
    method RepairPrompt(p: Packet, parse: Parser, previous: string, attempt: nat, lock: Lock) returns (ok: bool)
      modifies this
      ensures ok == !Crashes(parse, previous)
      ensures ok ==> packetKey == Some(p.key)
      ensures ok ==> forbidden == (if attempt == 1 || old(packetKey) != Some(p.key) then {} else old(forbidden)) + Invalid(p, parse, previous)
      ensures choicePacketKey == if ok && lock.Some? then Some(p.key) else old(choicePacketKey)
    {
      if Crashes(parse, previous) {
        if attempt == 1 || packetKey != Some(p.key) {
          packetKey := Some(p.key);
          forbidden := {};
        }
        return false;
      }
      SequenceForbidden(p, parse, previous, attempt);
      if lock.Some? { choicePacketKey := Some(p.key); }
      ok := true;
    }

    /** The state after these outputs were repaired. */
    ghost predicate Ready(p: Packet, parse: Parser, lock: Lock, left: Option<string>, outputs: seq<string>)
      reads this
    {
      && |outputs| <= MAX_SEMANTIC_REPAIRS && IndexedRepaired(p, parse, left, outputs)
      && lock == IndexedLockAfter(p, parse, left, outputs) && choicePacketKey == ChoiceUnder(p, left, lock)
      && (outputs != [] ==> packetKey == Some(p.key) && forbidden == InvalidIn(p, parse, outputs))
    }

    /** One turn of the loop: judge the output, and prepare the repair if there is to be one. */
    method Turn(p: Packet, parse: Parser, lock: Lock, raw: string, repairs: nat, ghost left: Option<string>, ghost outputs: seq<string>)
      returns (r: Option<Result<IndexedVerdict, InferError>>, next: Lock)
      modifies this
      requires repairs == |outputs| && Ready(p, parse, lock, left, outputs)
      ensures r.Some? ==> IndexedEnds(p, parse, left, outputs + [raw], repairs + 1, r.value)
      ensures r.Some? ==> choicePacketKey == if Accepted(parse, raw, r.value) then None else old(choicePacketKey)
      ensures r.Some? && r.value != Err(RepairCrashed) ==> forbidden == old(forbidden)
      ensures r.None? ==> Ready(p, parse, next, left, outputs + [raw])
    {
      IndexedLast(p, parse, left, outputs, raw);
      next := lock;
      var verdict := JudgeHere(p, parse, lock, raw);
      if verdict.Ok? { return Some(Ok(verdict.value)), next; }
      if repairs >= MAX_SEMANTIC_REPAIRS { return Some(Err(StillInvalid)), next; }
      next := NextIndexedLock(parse, lock, raw, verdict.error);
      var prompted := RepairPrompt(p, parse, raw, repairs + 1, next);
      if !prompted { return Some(Err(RepairCrashed)), next; }
      IndexedSnoc(p, parse, left, outputs, raw);
      InvalidSnoc(p, parse, outputs, raw);
      r := None;
    }

    /** Parse, compare with the lock, validate. */
    method JudgeHere(p: Packet, parse: Parser, lock: Lock, raw: string) returns (v: Result<IndexedVerdict, NormError>)
      modifies this`choicePacketKey
      ensures v == JudgeIndexed(p, parse, lock, old(choicePacketKey), raw)
      ensures choicePacketKey == if v.Ok? && v.value.Review? && CarriesIndices(parse, raw) then None else old(choicePacketKey)
    {
      match parse(raw)
      case Malformed => v := Err(NotJson);
      case NotObject => v := Err(NotAnObject);
      case Object(m) =>
        if lock.Some? && !KeepsIndexedLock(lock.value, View(m)) { return Err(LockChanged); }
        v := Normalized(p, View(m));
    }

    /** An output was heard and is to be judged. */
    ghost predicate Waiting(
        p: Packet, provider: Provider, parse: Parser, lock: Lock, left: Option<string>, outputs: seq<string>, raw: string, invocations: nat)
      reads this
    {
      && Ready(p, parse, lock, left, outputs)
      && Heard(provider, invocations) == outputs + [raw] && invocations <= (|outputs| + 1) * (MAX_TIMEOUT_RETRIES + 1)
    }

    /** The run is over. */
    ghost predicate Done(
        p: Packet, provider: Provider, parse: Parser, left: Option<string>, outputs: seq<string>, prompts: nat, invocations: nat,
        r: Result<IndexedVerdict, InferError>)
      reads this
    {
      && IndexedEnds(p, parse, left, outputs, prompts, r)
      && outputs == Heard(provider, invocations) && invocations <= prompts * (MAX_TIMEOUT_RETRIES + 1)
      && choicePacketKey == ModeAfter(p, parse, left, outputs, prompts, r)
      && (r == Err(ProviderTimedOut) || r == Err(ProviderFailed) ==> invocations > 0 && !provider(invocations - 1).Said?)
      && (prompts > 1 && r != Err(RepairCrashed) ==> forbidden == InvalidIn(p, parse, outputs[..prompts - 1]))
    }

    /** The output is judged; if it is to be repaired, the next one is asked for. */
    method Round(p: Packet, provider: Provider, parse: Parser, lock: Lock, repairs: nat, raw: string, invocations: nat,
                 ghost left: Option<string>, ghost outputs: seq<string>)
      returns (end: Option<Result<IndexedVerdict, InferError>>, prompts: nat, next: Lock, raw': string, invocations': nat)
      modifies this
      requires repairs == |outputs| && Waiting(p, provider, parse, lock, left, outputs, raw, invocations)
      ensures end.Some? ==> Done(p, provider, parse, left, outputs + [raw], prompts, invocations', end.value)
      ensures end.None? ==> Waiting(p, provider, parse, next, left, outputs + [raw], raw', invocations')
    {
      AppendTake(outputs, raw);
      end, next := Turn(p, parse, lock, raw, repairs, left, outputs);
      prompts, raw', invocations' := repairs + 1, raw, invocations;
      if end.Some? { return; }
      var reply;
      reply, invocations' := AskAgain(p, provider, parse, next, invocations, left, outputs + [raw]);
      prompts := repairs + 2;
      if reply.Err? { return Some(Err(reply.error)), prompts, next, raw, invocations'; }
      raw' := reply.value;
    }

    /** The next prompt after outputs that were all repaired. */
    method AskAgain(p: Packet, provider: Provider, parse: Parser, lock: Lock, at: nat, ghost left: Option<string>, ghost outputs: seq<string>)
      returns (reply: Result<string, InferError>, next: nat)
      requires Ready(p, parse, lock, left, outputs) && outputs == Heard(provider, at) && at <= |outputs| * (MAX_TIMEOUT_RETRIES + 1)
      requires outputs != []
      ensures reply.Err? ==> Done(p, provider, parse, left, outputs, |outputs| + 1, next, Err(reply.error))
      ensures reply.Ok? ==> Waiting(p, provider, parse, lock, left, outputs, reply.value, next)
    {
      reply, next := Ask(provider, at);
      AppendTake(outputs, "");
    }

    /**
      The bounds of the base loop, with the lock and the index mode of this protocol; what is forbidden
      is the union of the invalid ids of every output repaired in this sequence.
    */
    method InferPacket(p: Packet, provider: Provider, parse: Parser)
      returns (r: Result<IndexedVerdict, InferError>, prompts: nat, invocations: nat, ghost outputs: seq<string>)
      modifies this
      ensures prompts <= MAX_SEMANTIC_REPAIRS + 1 && invocations <= prompts * (MAX_TIMEOUT_RETRIES + 1)
      ensures outputs == Heard(provider, invocations) && IndexedEnds(p, parse, old(choicePacketKey), outputs, prompts, r)
      ensures choicePacketKey == ModeAfter(p, parse, old(choicePacketKey), outputs, prompts, r)
      ensures r == Err(ProviderTimedOut) || r == Err(ProviderFailed) ==> invocations > 0 && !provider(invocations - 1).Said?
      ensures prompts > 1 && r != Err(RepairCrashed) ==> forbidden == InvalidIn(p, parse, outputs[..prompts - 1])
    {
      var reply;
      reply, invocations := Ask(provider, 0);
      if reply.Err? {
        NothingHeard(p, parse, choicePacketKey, reply.error);
        return Err(reply.error), 1, invocations, [];
      }
      r, prompts, invocations, outputs := Rounds(p, provider, parse, reply.value, invocations);
    }

    /** The loop, from the first output on. */
    method Rounds(p: Packet, provider: Provider, parse: Parser, first: string, heard: nat)
      returns (r: Result<IndexedVerdict, InferError>, prompts: nat, invocations: nat, ghost outputs: seq<string>)
      modifies this
      requires Heard(provider, heard) == [first] && heard <= MAX_TIMEOUT_RETRIES + 1
      ensures Done(p, provider, parse, old(choicePacketKey), outputs, prompts, invocations, r)
    {
      ghost var left := choicePacketKey;
      var lock: Lock := None;
      var raw := first;
      outputs := [];
      invocations := heard;
      assert outputs + [raw] == [raw];
      for repairs := 0 to MAX_SEMANTIC_REPAIRS + 1
        invariant |outputs| == repairs && left == old(choicePacketKey)
        invariant Waiting(p, provider, parse, lock, left, outputs, raw, invocations)
      {
        ghost var now := outputs + [raw];
        var end;
        end, prompts, lock, raw, invocations := Round(p, provider, parse, lock, repairs, raw, invocations, left, outputs);
        outputs := now;
        if end.Some? { return end.value, prompts, invocations, outputs; }
      }
      assert false;
    }
  }

  lemma NothingHeard(p: Packet, parse: Parser, left: Option<string>, error: InferError)
    requires !error.StillInvalid? && !error.RepairCrashed?
    ensures IndexedEnds(p, parse, left, [], 1, Err(error)) && ModeAfter(p, parse, left, [], 1, Err(error)) == left
  {}

  lemma AppendTake(s: seq<string>, x: string)
    ensures (s + [x])[..|s|] == s && s[..|s|] == s
  {}
}
