/**
  What an accepted review says, read off the object the provider wrote: its proposal, its decision proof and, under
  the lock, its supports by index (scripts/run_m5_frozen_inference_v13.py).
*/
module ReviewAcceptance {
  import opened Wrappers
  import opened Orders
  import opened Texts
  import opened Json
  import opened Inference
  import opened Acceptance
  import opened RepairLoop
  import opened IndexedRepair
  import opened RepairSequence
  import opened IndexedGuarantees

  // ----- decision proofs -----

  predicate Witnesses(item: Json, w: Witness) { item == Citation(w.supportType, w.id) }

  ghost predicate IsWitness(item: Json) { exists w :: Witnesses(item, w) }

  predicate WitnessIn(items: seq<Json>, w: Witness) { exists i | 0 <= i < |items| :: Witnesses(items[i], w) }

  /** The packet holds the witness as an assertion or as a structural delta. */
  predicate Held(p: Packet, w: Witness) {
    (w.supportType == "SourceAssertion" && w.id in p.assertions) || (w.supportType == "StructuralDelta" && w.id in p.structural)
  }

  /** The entry of one test is proven by a list of witnesses the packet holds; they are kept sorted and once each. */
  ghost predicate ReadsEntry(p: Packet, j: Json, ws: seq<Witness>) {
    && j.JObject? && j.fields.Keys == {"status", "supports"} && j.fields["status"] == JString("proven")
    && j.fields["supports"].JArray? && j.fields["supports"].items != []
    && (forall i | 0 <= i < |j.fields["supports"].items| :: IsWitness(j.fields["supports"].items[i]))
    && Increasing(WitnessKey, ws)
    && (forall w :: w in ws <==> WitnessIn(j.fields["supports"].items, w))
    && forall w | w in ws :: Held(p, w)
  }

  /** Each test has its entry. */
  ghost predicate ReadsEntries(p: Packet, m: Fields, tests: seq<string>, ledger: Ledger) {
    |ledger| == |tests| && forall i | 0 <= i < |tests| :: tests[i] in m && ReadsEntry(p, m[tests[i]], ledger[i])
  }

  /** The proof has an entry for each of the five tests and for nothing else. */
  ghost predicate ReadsProof(p: Packet, j: Json, ledger: Ledger) {
    j.JObject? && j.fields.Keys == TestSet() && ReadsEntries(p, j.fields, TESTS, ledger)
  }

  lemma WitnessRead(j: Json, w: Witness)
    ensures WitnessOf(j) == Some(w) <==> Witnesses(j, w)
  {
    CitationRead(j, w.supportType, w.id);
  }

  lemma IsWitnessRead(j: Json)
    ensures WitnessOf(j).Some? <==> IsWitness(j)
  {
    if WitnessOf(j).Some? { WitnessRead(j, WitnessOf(j).value); }
    if w :| Witnesses(j, w) { WitnessRead(j, w); }
  }

  lemma WitnessesRead(items: seq<Json>, ws: seq<Witness>)
    ensures WitnessesOf(items).Some? && SortedWitnesses(WitnessesOf(items).value) == ws
            <==> && (forall i | 0 <= i < |items| :: IsWitness(items[i]))
                 && Increasing(WitnessKey, ws) && forall w :: w in ws <==> WitnessIn(items, w)
  {
    forall i | 0 <= i < |items| ensures WitnessOf(items[i]).Some? <==> IsWitness(items[i]) { IsWitnessRead(items[i]); }
    if WitnessesOf(items).Some? {
      var all := WitnessesOf(items).value;
      WitnessSet(items);
      if Increasing(WitnessKey, ws) && forall w :: w in ws <==> w in all { IncreasingUnique(WitnessKey, ws, SortedWitnesses(all)); }
    }
  }

  lemma WitnessSet(items: seq<Json>)
    requires WitnessesOf(items).Some?
    ensures forall w :: w in WitnessesOf(items).value <==> WitnessIn(items, w)
  {
    var all := WitnessesOf(items).value;
    forall w ensures w in all <==> WitnessIn(items, w) {
      if w in all {
        var i :| 0 <= i < |items| && WitnessOf(items[i]).value == w;
        WitnessRead(items[i], w);
      }
      if i :| 0 <= i < |items| && Witnesses(items[i], w) { WitnessRead(items[i], w); }
    }
  }

  lemma HeldIsWitnessed(p: Packet, w: Witness)
    ensures Witnessed(p, w) <==> Held(p, w)
  {
    NameReadsBack(SourceAssertion);
    NameReadsBack(StructuralDelta);
    if TypeOf(w.supportType).Some? { ChoiceMembers(p, Support(TypeOf(w.supportType).value, w.id)); }
  }

  lemma EntryRead(p: Packet, j: Json, ws: seq<Witness>)
    ensures CanonEntry(j) == Some(ws) && (forall w | w in ws :: Witnessed(p, w)) <==> ReadsEntry(p, j, ws)
  {
    forall w | w in ws ensures Witnessed(p, w) <==> Held(p, w) { HeldIsWitnessed(p, w); }
    if j.JObject? && j.fields.Keys == ENTRY_FIELDS && j.fields["supports"].JArray? { WitnessesRead(j.fields["supports"].items, ws); }
  }

  lemma {:induction false} EntriesAre(m: Fields, tests: seq<string>, ledger: Ledger)
    ensures CanonEntries(m, tests) == Some(ledger)
            <==> |ledger| == |tests| && forall i | 0 <= i < |tests| :: tests[i] in m && CanonEntry(m[tests[i]]) == Some(ledger[i])
  {
    if tests == [] {
    } else if ledger == [] {
      if CanonEntries(m, tests).Some? { EntriesCanonical(m, tests); }
    } else {
      EntriesAre(m, tests[1..], ledger[1..]);
      assert ledger == [ledger[0]] + ledger[1..];
      if CanonEntries(m, tests) == Some(ledger) { EntriesCanonical(m, tests); }
    }
  }

  lemma LedgerRead(p: Packet, m: Fields, tests: seq<string>, ledger: Ledger)
    ensures CanonEntries(m, tests) == Some(ledger) && ProofInside(p, ledger) <==> ReadsEntries(p, m, tests, ledger)
  {
    EntriesAre(m, tests, ledger);
    if |ledger| == |tests| {
      forall i | 0 <= i < |tests| && tests[i] in m
        ensures CanonEntry(m[tests[i]]) == Some(ledger[i]) && (forall w | w in ledger[i] :: Witnessed(p, w))
                <==> ReadsEntry(p, m[tests[i]], ledger[i])
      {
        EntryRead(p, m[tests[i]], ledger[i]);
      }
    }
  }

  /** A decision proof is accepted exactly when it can be read so, and there is only one way to read it. */
  lemma ProofIsRead(p: Packet, j: Json, ledger: Ledger)
    ensures Canonicalize(Some(j)) == Some(ledger) && ProofInside(p, ledger) <==> ReadsProof(p, j, ledger)
  {
    if j.JObject? && j.fields.Keys == TestSet() { LedgerRead(p, j.fields, TESTS, ledger); }
  }

  // ----- supports by index -----

  /** Choices are the assertions and then the structural deltas of the packet, each kind sorted by id. */
  lemma ChoicesInOrder(p: Packet, s: Support)
    ensures Increasing(SupportKey, Choices(p))
    ensures s in Choices(p) <==> (s.supportType.SourceAssertion? && s.id in p.assertions) || (s.supportType.StructuralDelta? && s.id in p.structural)
  {
    ChoiceMembers(p, s);
    TypedIncreasing(SourceAssertion, p.assertions);
    TypedIncreasing(StructuralDelta, p.structural);
    TypesInOrder(Map(Supports(SourceAssertion), SortedTexts(p.assertions)), Map(Supports(StructuralDelta), SortedTexts(p.structural)));
  }

  lemma TypedIncreasing(t: SupportType, ids: set<string>)
    ensures Increasing(SupportKey, Map(Supports(t), SortedTexts(ids)))
    ensures forall i | 0 <= i < |Map(Supports(t), SortedTexts(ids))| :: Map(Supports(t), SortedTexts(ids))[i].supportType == t
  {
    var sorted := SortedTexts(ids);
    var r := Map(Supports(t), sorted);
    forall i, j | 0 <= i < j < |r| ensures KeyLess(SupportKey(r[i]), SupportKey(r[j])) { SameTypeLess(t, sorted[i], sorted[j]); }
  }

  lemma TypesInOrder(a: seq<Support>, b: seq<Support>)
    requires Increasing(SupportKey, a) && Increasing(SupportKey, b)
    requires forall i | 0 <= i < |a| :: a[i].supportType.SourceAssertion?
    requires forall i | 0 <= i < |b| :: b[i].supportType.StructuralDelta?
    ensures Increasing(SupportKey, a + b)
  {
    var c := a + b;
    forall i, j | 0 <= i < j < |c| ensures KeyLess(SupportKey(c[i]), SupportKey(c[j])) {
      if i < |a| <= j { assert AtomLess(SupportKey(c[i])[0], SupportKey(c[j])[0]); }
    }
  }

  lemma SameTypeLess(t: SupportType, x: string, y: string)
    requires KeyLess(TextKey(x), TextKey(y))
    ensures KeyLess(SupportKey(Support(t, x)), SupportKey(Support(t, y)))
  {
    assert SupportKey(Support(t, x))[1..] == TextKey(x) && SupportKey(Support(t, y))[1..] == TextKey(y);
  }

  predicate PickedIn(choices: seq<Support>, items: seq<Json>, s: Support) {
    exists i | 0 <= i < |items| :: items[i].JInt? && 1 <= items[i].n <= |choices| && choices[items[i].n - 1] == s
  }

  /** The list holds numbers of choices, counted from one; the supports are the chosen ones and every gap, sorted. */
  ghost predicate ReadsChoices(p: Packet, j: Json, supports: seq<Support>) {
    && j.JArray? && j.items != []
    && (forall i | 0 <= i < |j.items| :: j.items[i].JInt? && 1 <= j.items[i].n <= |Choices(p)|)
    && Increasing(SupportKey, supports)
    && forall s :: s in supports <==> IsGap(p, s) || PickedIn(Choices(p), j.items, s)
  }

  lemma ChoicesRead(p: Packet, j: Json, supports: seq<Support>)
    ensures CheckIndices(p, j).Ok? && ReadsSupports(p, JArray(Map(SupportJson, CheckIndices(p, j).value)), supports)
            <==> ReadsChoices(p, j, supports)
  {
    if CheckIndices(p, j).Ok? { ChosenRead(p, j.items, supports); }
  }

  lemma ChosenRead(p: Packet, items: seq<Json>, supports: seq<Support>)
    requires items != [] && InRange(Choices(p), items)
    ensures ReadsSupports(p, JArray(Map(SupportJson, Chosen(Choices(p), items))), supports) <==> ReadsChoices(p, JArray(items), supports)
  {
    CopiesRead(p, items, supports);
    ChosenSorted(p, items, supports);
    ChoicesSorted(p, items, supports);
  }

  lemma CopiesRead(p: Packet, items: seq<Json>, supports: seq<Support>)
    requires items != [] && InRange(Choices(p), items)
    ensures ReadsSupports(p, JArray(Map(SupportJson, Chosen(Choices(p), items))), supports)
            <==> SortedSupports(Picks(Choices(p), items) + GapSupports(p)) == supports
  {
    IndexedSupports(p, items);
    assert CheckIndices(p, JArray(items)).value == Chosen(Choices(p), items);
    SupportsRead(p, JArray(Map(SupportJson, Chosen(Choices(p), items))), supports);
  }

  lemma ChoicesSorted(p: Packet, items: seq<Json>, supports: seq<Support>)
    requires items != [] && InRange(Choices(p), items)
    ensures ReadsChoices(p, JArray(items), supports)
            <==> Increasing(SupportKey, supports) && forall s :: s in supports <==> IsGap(p, s) || PickedIn(Choices(p), items, s)
  {}

  lemma ChosenSorted(p: Packet, items: seq<Json>, supports: seq<Support>)
    requires InRange(Choices(p), items)
    ensures SortedSupports(Picks(Choices(p), items) + GapSupports(p)) == supports
            <==> Increasing(SupportKey, supports) && forall s :: s in supports <==> IsGap(p, s) || PickedIn(Choices(p), items, s)
  {
    var all := Picks(Choices(p), items) + GapSupports(p);
    forall s ensures s in all <==> IsGap(p, s) || PickedIn(Choices(p), items, s) { PicksRead(p, items, s); }
    if Increasing(SupportKey, supports) && forall s :: s in supports <==> s in all {
      IncreasingUnique(SupportKey, supports, SortedSupports(all));
    }
  }

  lemma PicksRead(p: Packet, items: seq<Json>, s: Support)
    requires InRange(Choices(p), items)
    ensures s in Picks(Choices(p), items) <==> PickedIn(Choices(p), items, s)
    ensures s in GapSupports(p) <==> IsGap(p, s)
  {
    if IsGap(p, s) { assert s == Support(GapSignal, s.id); }
  }

  // ----- the whole answer -----

  const CITING := {"decision", "interpretation_types", "mechanism", "summary", "supports", "decision_proof"}

  const CHOOSING := {"decision", "interpretation_types", "mechanism", "summary", "support_choice_indices", "decision_proof"}

  /** The object has these keys, and nothing more than notes beside them. */
  predicate Keyed(m: Fields, keys: set<string>) { keys <= m.Keys <= keys + {"uncertainty_notes"} }

  /** The supports are cited by id or, when this packet is in index mode, chosen by number. */
  ghost predicate ReadsEvidence(p: Packet, choice: Option<string>, m: Fields, supports: seq<Support>) {
    if "support_choice_indices" !in m then Keyed(m, CITING) && ReadsSupports(p, m["supports"], supports)
    else Keyed(m, CHOOSING) && choice == Some(p.key) && ReadsChoices(p, m["support_choice_indices"], supports)
  }

  ghost predicate Reviews(p: Packet, choice: Option<string>, m: Fields, q: Proposal, ledger: Ledger) {
    && "decision" in m && m["decision"] == JString("interpret")
    && ReadsFields(p, m, q)
    && "decision_proof" in m && ReadsProof(p, m["decision_proof"], ledger)
    && ReadsEvidence(p, choice, m, q.supports)
  }

  lemma CitingKeys(m: Fields)
    ensures Keyed(m, CITING)
            <==> var r := View(m);
                 && r.decision.Some? && r.types.Some? && r.mechanism.Some? && r.summary.Some? && r.supports.Some? && r.proof.Some?
                 && r.indices.None? && !r.other
  {
    assert |"support_choice_indices"| == 22 && |"uncertainty_notes"| == 17;
    assert KNOWN == CITING + {"uncertainty_notes"} + {"support_choice_indices"};
    assert "support_choice_indices" !in CITING + {"uncertainty_notes"};
  }

  lemma ChoosingKeys(m: Fields)
    ensures Keyed(m, CHOOSING)
            <==> var r := View(m);
                 && r.decision.Some? && r.types.Some? && r.mechanism.Some? && r.summary.Some? && r.indices.Some? && r.proof.Some?
                 && r.supports.None? && !r.other
  {
    assert |"supports"| == 8 && |"uncertainty_notes"| == 17 && "supports"[0] == 's' && "decision"[0] == 'd';
    assert KNOWN == CHOOSING + {"uncertainty_notes"} + {"supports"};
    assert "supports" !in CHOOSING + {"uncertainty_notes"};
  }

  lemma InterpretRead(p: Packet, choice: Option<string>, r: Response, q: Proposal, ledger: Ledger)
    requires r.decision == Some(JString("interpret"))
    ensures NormalizeIndexed(p, choice, r) == Ok(Review(q, ledger))
            <==> && r.proof.Some? && ReadsProof(p, r.proof.value, ledger)
                 && Translated(p, choice, r).Ok? && Normalize(p, Translated(p, choice, r).value) == Ok(Interpreted(q))
  {
    InterpretJudged(p, choice, r, q, ledger);
    if r.proof.Some? { ProofIsRead(p, r.proof.value, ledger); }
  }

  lemma InterpretJudged(p: Packet, choice: Option<string>, r: Response, q: Proposal, ledger: Ledger)
    requires r.decision == Some(JString("interpret"))
    ensures NormalizeIndexed(p, choice, r) == Ok(Review(q, ledger))
            <==> && Canonicalize(r.proof) == Some(ledger) && ProofInside(p, ledger)
                 && Translated(p, choice, r).Ok? && Normalize(p, Translated(p, choice, r).value) == Ok(Interpreted(q))
  {
    DecisionsDiffer();
  }

  predicate FieldsGiven(r: Response) { r.types.Some? && r.mechanism.Some? && r.summary.Some? && !r.other }

  lemma NeedsFields(p: Packet, r: Response)
    requires Normalize(p, r).Ok? && Normalize(p, r).value.Interpreted?
    ensures FieldsGiven(r) && r.supports.Some?
  {}

  lemma CitingRead(p: Packet, choice: Option<string>, r: Response, q: Proposal)
    requires r.decision == Some(JString("interpret")) && r.indices.None?
    ensures Normalize(p, r.(proof := None)) == Ok(Interpreted(q))
            <==> FieldsGiven(r) && r.supports.Some? && FieldsRead(p, r, q) && ReadsSupports(p, r.supports.value, q.supports)
  {
    var t := r.(proof := None);
    if FieldsGiven(r) && r.supports.Some? { ResponseRead(p, t, q); }
    if Normalize(p, t) == Ok(Interpreted(q)) { NeedsFields(p, t); }
    assert FieldsRead(p, t, q) <==> FieldsRead(p, r, q);
  }

  lemma ChoosingRead(p: Packet, r: Response, selected: seq<Support>, q: Proposal)
    requires r.decision == Some(JString("interpret")) && r.indices.Some? && r.supports.None?
    ensures Normalize(p, r.(proof := None, indices := None, supports := Some(JArray(Map(SupportJson, selected))))) == Ok(Interpreted(q))
            <==> FieldsGiven(r) && FieldsRead(p, r, q) && ReadsSupports(p, JArray(Map(SupportJson, selected)), q.supports)
  {
    var t := r.(proof := None, indices := None, supports := Some(JArray(Map(SupportJson, selected))));
    if FieldsGiven(r) { ResponseRead(p, t, q); }
    if Normalize(p, t) == Ok(Interpreted(q)) { NeedsFields(p, t); }
    assert FieldsRead(p, t, q) <==> FieldsRead(p, r, q);
  }

  lemma TranslatedRead(p: Packet, choice: Option<string>, r: Response, q: Proposal)
    requires r.decision == Some(JString("interpret"))
    ensures Translated(p, choice, r).Ok? && Normalize(p, Translated(p, choice, r).value) == Ok(Interpreted(q))
            <==> && FieldsGiven(r) && FieldsRead(p, r, q)
                 && if r.indices.None? then r.supports.Some? && ReadsSupports(p, r.supports.value, q.supports)
                    else r.supports.None? && choice == Some(p.key) && ReadsChoices(p, r.indices.value, q.supports)
  {
    if r.indices.None? {
      CitingRead(p, choice, r, q);
    } else {
      ChoicesRead(p, r.indices.value, q.supports);
      if choice == Some(p.key) && r.supports.None? && CheckIndices(p, r.indices.value).Ok? {
        ChoosingRead(p, r, CheckIndices(p, r.indices.value).value, q);
      }
    }
  }

  lemma OnlyInterpretationsReviewed(p: Packet, choice: Option<string>, r: Response)
    requires NormalizeIndexed(p, choice, r).Ok? && NormalizeIndexed(p, choice, r).value.Review?
    ensures r.decision == Some(JString("interpret"))
  {}

  /**
    A review is accepted if and only if the object says one: the proposal and the decision proof are what it says,
    and the supports those it cites or, in index mode, those it chooses, with every gap of the packet.
  */
  lemma ReviewIsRead(p: Packet, choice: Option<string>, m: Fields, q: Proposal, ledger: Ledger)
    ensures NormalizeIndexed(p, choice, View(m)) == Ok(Review(q, ledger)) <==> Reviews(p, choice, m, q, ledger)
  {
    var r := View(m);
    if r.decision == Some(JString("interpret")) {
      InterpretRead(p, choice, r, q, ledger);
      TranslatedRead(p, choice, r, q);
      CitingKeys(m);
      ChoosingKeys(m);
      if r.types.Some? && r.mechanism.Some? && r.summary.Some? { FieldsViewed(p, m, q); }
    } else if NormalizeIndexed(p, choice, r) == Ok(Review(q, ledger)) {
      OnlyInterpretationsReviewed(p, choice, r);
    }
  }

  /** Declining is saying nothing but the decision. */
  lemma NoReviewIsRead(p: Packet, choice: Option<string>, m: Fields)
    ensures NormalizeIndexed(p, choice, View(m)) == Ok(NoReview) <==> m == map["decision" := JString("decline")]
  {
    DeclineIsRead(p, m);
    if View(m).decision != Some(JString("decline")) { NeverDeclined(p, choice, View(m)); }
  }

  lemma NeverDeclined(p: Packet, choice: Option<string>, r: Response)
    requires r.decision != Some(JString("decline"))
    ensures NormalizeIndexed(p, choice, r) != Ok(NoReview)
  {}

  // ----- what comes back -----

  /** The verdict is what the output says. */
  ghost predicate SaysReview(p: Packet, choice: Option<string>, parsed: Parsed, v: IndexedVerdict) {
    parsed.Object? && match v
                      case Review(q, ledger) => Reviews(p, choice, parsed.fields, q, ledger)
                      case NoReview => parsed.fields == map["decision" := JString("decline")]
  }

  lemma IndexedVerdictIsRead(p: Packet, parse: Parser, lock: Lock, choice: Option<string>, raw: string)
    requires JudgeIndexed(p, parse, lock, choice, raw).Ok?
    ensures SaysReview(p, choice, parse(raw), JudgeIndexed(p, parse, lock, choice, raw).value)
  {
    var m := parse(raw).fields;
    match JudgeIndexed(p, parse, lock, choice, raw).value
    case Review(q, ledger) => ReviewIsRead(p, choice, m, q, ledger);
    case NoReview => NoReviewIsRead(p, choice, m);
  }

  /** A run that ends with a verdict ends with what its last output says, in the index mode of that moment. */
  lemma ResultIsRead(p: Packet, parse: Parser, left: Option<string>, outputs: seq<string>, prompts: nat, v: IndexedVerdict)
    requires IndexedEnds(p, parse, left, outputs, prompts, Ok(v))
    ensures |outputs| == prompts > 0
    ensures SaysReview(p, ChoiceUnder(p, left, IndexedLockAfter(p, parse, left, outputs[..prompts - 1])), parse(outputs[prompts - 1]), v)
  {
    var lock := IndexedLockAfter(p, parse, left, outputs[..prompts - 1]);
    IndexedVerdictIsRead(p, parse, lock, ChoiceUnder(p, left, lock), outputs[prompts - 1]);
  }

  // ----- the lock -----

  /** The object is a well-formed review with its supports cited, but for these supports. */
  ghost predicate OnlyCitationsFail(p: Packet, m: Fields) {
    && Keyed(m, CITING) && "support_choice_indices" !in m && m["decision"] == JString("interpret")
    && (exists q :: ReadsFields(p, m, q)) && (exists ledger :: ReadsProof(p, m["decision_proof"], ledger))
    && forall supports :: !ReadsSupports(p, m["supports"], supports)
  }

  lemma CitationsFail(p: Packet, choice: Option<string>, m: Fields)
    requires OnlyCitationsFail(p, m)
    ensures NormalizeIndexed(p, choice, View(m)).Err? && AboutSupports(NormalizeIndexed(p, choice, View(m)).error)
    ensures IndexedReferenceOf(View(m)).Some? && SoundLock(p, IndexedReferenceOf(View(m)).value)
    ensures NormalizeIndexed(p, choice, View(m)).error.Unhashable? ==> CheckSupports(p, m["supports"]) == Err(Unhashable)
  {
    CitingKeys(m);
    BaseFails(p, m);
    ProofPasses(p, m);
    ProvenFailure(p, choice, View(m), Canonicalize(View(m).proof).value);
  }

  lemma BaseFails(p: Packet, m: Fields)
    requires OnlyCitationsFail(p, m)
    ensures Normalize(p, View(m).(proof := None)).Err? && AboutSupports(Normalize(p, View(m).(proof := None)).error)
    ensures Normalize(p, View(m).(proof := None)).error.Unhashable? ==> CheckSupports(p, m["supports"]) == Err(Unhashable)
    ensures ReferenceOf(View(m)).Some? && FieldsOf(ReferenceOf(View(m)).value).Ok?
  {
    CitingKeys(m);
    FieldsPass(p, m);
    SupportsFail(p, m["supports"]);
    DecisionsDiffer();
  }

  lemma ProofPasses(p: Packet, m: Fields)
    requires OnlyCitationsFail(p, m)
    ensures Canonicalize(View(m).proof).Some? && ProofInside(p, Canonicalize(View(m).proof).value)
  {
    var ledger :| ReadsProof(p, m["decision_proof"], ledger);
    ProofIsRead(p, m["decision_proof"], ledger);
  }

  lemma ProvenFailure(p: Packet, choice: Option<string>, r: Response, ledger: Ledger)
    requires r.decision == Some(JString("interpret")) && r.indices.None? && Canonicalize(r.proof) == Some(ledger) && ProofInside(p, ledger)
    requires Normalize(p, r.(proof := None)).Err?
    ensures NormalizeIndexed(p, choice, r) == Err(Normalize(p, r.(proof := None)).error)
  {
    DecisionsDiffer();
  }

  lemma CitationsCrash(p: Packet, parse: Parser, raw: string)
    requires parse(raw).Object? && "supports" in parse(raw).fields && CheckSupports(p, parse(raw).fields["supports"]) == Err(Unhashable)
    ensures Crashes(parse, raw)
  {
    UnhashableSupport(p, parse(raw).fields["supports"].items);
  }

  lemma {:induction false} IndexedLockStays(p: Packet, parse: Parser, left: Option<string>, outputs: seq<string>, i: nat)
    requires i <= |outputs| && IndexedLockAfter(p, parse, left, outputs[..i]).Some?
    ensures IndexedLockAfter(p, parse, left, outputs) == IndexedLockAfter(p, parse, left, outputs[..i])
    decreases |outputs|
  {
    if i == |outputs| {
      assert outputs[..i] == outputs;
    } else {
      var n := |outputs| - 1;
      assert outputs[..n][..i] == outputs[..i];
      IndexedLockStays(p, parse, left, outputs[..n], i);
    }
  }

  lemma IndexedLockRestated(p: Packet, parse: Parser, left: Option<string>, outputs: seq<string>, lock: IndexedReference, r: Response)
    requires IndexedLockAfter(p, parse, left, outputs) == Some(lock) && KeepsIndexedLock(lock, r)
    ensures IndexedReferenceOf(r) == Some(lock)
  {
    IndexedLockIsSound(p, parse, left, outputs);
    FieldsRigid(lock.base, IndexedReferenceOf(r).value.base);
  }

  lemma CitationsJudged(p: Packet, parse: Parser, left: Option<string>, outputs: seq<string>, i: nat)
    requires i < |outputs| && parse(outputs[i]).Object? && OnlyCitationsFail(p, parse(outputs[i]).fields)
    requires !Crashes(parse, outputs[i]) && IndexedJudged(p, parse, left, outputs, i) != Err(LockChanged)
    ensures IndexedJudged(p, parse, left, outputs, i).Err? && SupportFailure(IndexedJudged(p, parse, left, outputs, i).error)
    ensures var before := IndexedLockAfter(p, parse, left, outputs[..i]);
            before.Some? ==> KeepsIndexedLock(before.value, View(parse(outputs[i]).fields))
  {
    var before := IndexedLockAfter(p, parse, left, outputs[..i]);
    JudgedUnbroken(p, parse, before, ChoiceUnder(p, left, before), outputs[i]);
    FailsCleanly(p, parse, ChoiceUnder(p, left, before), outputs[i]);
  }

  lemma JudgedUnbroken(p: Packet, parse: Parser, lock: Lock, choice: Option<string>, raw: string)
    requires parse(raw).Object? && JudgeIndexed(p, parse, lock, choice, raw) != Err(LockChanged)
    ensures lock.Some? ==> KeepsIndexedLock(lock.value, View(parse(raw).fields))
    ensures JudgeIndexed(p, parse, lock, choice, raw) == NormalizeIndexed(p, choice, View(parse(raw).fields))
  {}

  lemma FailsCleanly(p: Packet, parse: Parser, choice: Option<string>, raw: string)
    requires parse(raw).Object? && OnlyCitationsFail(p, parse(raw).fields) && !Crashes(parse, raw)
    ensures NormalizeIndexed(p, choice, View(parse(raw).fields)).Err?
    ensures SupportFailure(NormalizeIndexed(p, choice, View(parse(raw).fields)).error)
  {
    CitationsFail(p, choice, parse(raw).fields);
    if CheckSupports(p, parse(raw).fields["supports"]) == Err(Unhashable) { CitationsCrash(p, parse, raw); }
  }

  lemma LockStep(p: Packet, parse: Parser, left: Option<string>, outputs: seq<string>, i: nat)
    requires i < |outputs| && IndexedJudged(p, parse, left, outputs, i).Err?
    ensures IndexedLockAfter(p, parse, left, outputs[..i + 1])
            == NextIndexedLock(parse, IndexedLockAfter(p, parse, left, outputs[..i]), outputs[i],
                               IndexedJudged(p, parse, left, outputs, i).error)
  {
    assert outputs[..i + 1][..i] == outputs[..i];
  }

  lemma CitationsLock(p: Packet, parse: Parser, left: Option<string>, outputs: seq<string>, i: nat)
    requires i < |outputs| && parse(outputs[i]).Object? && OnlyCitationsFail(p, parse(outputs[i]).fields)
    requires !Crashes(parse, outputs[i]) && IndexedJudged(p, parse, left, outputs, i) != Err(LockChanged)
    ensures IndexedReferenceOf(View(parse(outputs[i]).fields)).Some?
    ensures IndexedLockAfter(p, parse, left, outputs[..i + 1]) == IndexedReferenceOf(View(parse(outputs[i]).fields))
  {
    var m, before := parse(outputs[i]).fields, IndexedLockAfter(p, parse, left, outputs[..i]);
    CitationsFail(p, None, m);
    CitationsJudged(p, parse, left, outputs, i);
    LockStep(p, parse, left, outputs, i);
    if before.Some? { IndexedLockRestated(p, parse, left, outputs[..i], before.value, View(m)); }
  }

  lemma LockReaches(p: Packet, parse: Parser, left: Option<string>, outputs: seq<string>, i: nat, n: nat)
    requires i < n < |outputs| && IndexedLockAfter(p, parse, left, outputs[..i + 1]).Some?
    ensures IndexedLockAfter(p, parse, left, outputs[..n]) == IndexedLockAfter(p, parse, left, outputs[..i + 1])
    ensures SoundLock(p, IndexedLockAfter(p, parse, left, outputs[..n]).value)
  {
    assert outputs[..n][..i + 1] == outputs[..i + 1];
    IndexedLockStays(p, parse, left, outputs[..n], i + 1);
    IndexedLockIsSound(p, parse, left, outputs[..n]);
  }

  /**
    The lock holds. After an output in which nothing but the cited supports is wrong, whatever result comes back is
    a review whose types, mechanism, summary, notes and decision proof are what that output says.
  */
  lemma ReviewLockHolds(p: Packet, parse: Parser, left: Option<string>, outputs: seq<string>, i: nat, n: nat)
    requires i < n < |outputs| && parse(outputs[i]).Object? && OnlyCitationsFail(p, parse(outputs[i]).fields)
    requires !Crashes(parse, outputs[i]) && IndexedJudged(p, parse, left, outputs, i) != Err(LockChanged)
    requires IndexedJudged(p, parse, left, outputs, n).Ok?
    ensures IndexedJudged(p, parse, left, outputs, n).value.Review?
    ensures SaysSame(p, parse(outputs[i]).fields, IndexedJudged(p, parse, left, outputs, n).value)
  {
    CitationsLock(p, parse, left, outputs, i);
    LockReaches(p, parse, left, outputs, i, n);
    IndexedLockHolds(p, parse, left, outputs, n);
    var v := IndexedJudged(p, parse, left, outputs, n).value;
    LockRead(p, parse(outputs[i]).fields, IndexedLockAfter(p, parse, left, outputs[..n]).value, v.proposal, v.proof);
  }

  /** The review has the types, mechanism, summary, notes and decision proof that the object names. */
  ghost predicate SaysSame(p: Packet, m: Fields, v: IndexedVerdict) {
    v.Review? && ReadsFields(p, m, v.proposal) && "decision_proof" in m && ReadsProof(p, m["decision_proof"], v.proof)
  }

  lemma LockRead(p: Packet, m: Fields, lock: IndexedReference, q: Proposal, ledger: Ledger)
    requires IndexedReferenceOf(View(m)) == Some(lock) && SoundLock(p, lock) && ledger == lock.proof
    requires var s := FieldsOf(lock.base).value; SemanticsOf(q) == (s.types, s.mechanism, s.summary) && q.notes == FinalNotes(p, s.notes)
    ensures ReadsFields(p, m, q) && "decision_proof" in m && ReadsProof(p, m["decision_proof"], ledger)
  {
    SemanticsRead(p, View(m), q);
    FieldsViewed(p, m, q);
    ProofIsRead(p, m["decision_proof"], ledger);
  }

  // ----- forbidden ids -----

  /** The item names, under one of the four types, an id that the packet does not hold under that type. */
  predicate NamesOutside(p: Packet, item: Json, s: Support) {
    && item.JObject? && "support_type" in item.fields && "support_id" in item.fields && item.fields["support_id"] == JString(s.id)
    && match s.supportType
       case ArtifactDelta => item.fields["support_type"] == JString("ArtifactDelta") && s.id !in p.artifacts
       case GapSignal => item.fields["support_type"] == JString("CandidateExtractionGapSignal") && s.id !in p.gaps
       case SourceAssertion => item.fields["support_type"] == JString("SourceAssertion") && s.id !in p.assertions
       case StructuralDelta => item.fields["support_type"] == JString("StructuralDelta") && s.id !in p.structural
  }

  lemma OutsideRead(p: Packet, item: Json, s: Support)
    ensures s in InvalidSupport(p, item) <==> NamesOutside(p, item, s)
  {
    NameReadsBack(s.supportType);
  }

  /** The forbidden ids of a rejected output are exactly those its supports name outside the packet. */
  lemma InvalidIsRead(p: Packet, parse: Parser, raw: string, s: Support)
    ensures s in Invalid(p, parse, raw)
            <==> && parse(raw).Object? && "supports" in parse(raw).fields && parse(raw).fields["supports"].JArray?
                 && exists i | 0 <= i < |parse(raw).fields["supports"].items| :: NamesOutside(p, parse(raw).fields["supports"].items[i], s)
  {
    var items := ListOf(parse, raw);
    FlatMapMembers(InvalidAt(p), items, s);
    forall i | 0 <= i < |items| ensures s in InvalidAt(p)(items[i]) <==> NamesOutside(p, items[i], s) { OutsideRead(p, items[i], s); }
  }
}
