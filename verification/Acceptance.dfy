/**
  What an accepted answer says, read off the object the provider wrote: exactly which objects are accepted, and
  what the proposal then holds (scripts/run_m5_frozen_inference.py, scripts/run_m5_frozen_inference_v13.py).
*/
module Acceptance {
  import opened Wrappers
  import opened Orders
  import opened Texts
  import opened Json
  import opened Inference

  type Fields = map<string, Json>

  // ----- the proposal, field by field -----

  /** The field is a text that is not blank and within the limit; it is kept stripped. */
  predicate ReadsText(j: Json, limit: nat, text: string) {
    j.JString? && text == Strip(j.s) && 1 <= |text| <= limit
  }

  predicate TextList(j: Json) { j.JArray? && forall i | 0 <= i < |j.items| :: j.items[i].JString? }

  predicate Generic(name: string) { name == "introduction" || name == "modification" }

  /** The types are those of the list, sorted; "unknown" stands alone and generic types are not mixed with others. */
  ghost predicate ReadsTypes(j: Json, types: seq<string>) {
    && TextList(j) && j.items != []
    && Increasing(TextKey, types)
    && (forall x :: x in types <==> JString(x) in j.items)
    && (forall x | x in types :: x in ALLOWED_TYPES)
    && ("unknown" in types ==> forall x | x in types :: x == "unknown")
    && forall x, y | x in types && y in types && Generic(x) :: Generic(y)
  }

  /** The notes are those of the list that are not blank, stripped, and the coverage note when the packet has gaps, sorted. */
  ghost predicate ReadsNotes(p: Packet, j: Option<Json>, notes: seq<string>) {
    && (j.Some? ==> TextList(j.value) && forall i | 0 <= i < |j.value.items| :: |Strip(j.value.items[i].s)| <= MAX_NOTE)
    && Increasing(TextKey, notes)
    && forall x :: x in notes <==>
         (x == GAP_NOTE && p.gaps != {})
         || (x != "" && j.Some? && exists i | 0 <= i < |j.value.items| :: Strip(j.value.items[i].s) == x)
  }

  function Citation(name: string, id: string): Json {
    JObject(map["support_type" := JString(name), "support_id" := JString(id)])
  }

  /** The item is an object of exactly a type and an id, and the packet holds that id under that type. */
  predicate Cites(p: Packet, item: Json, s: Support) {
    match s.supportType
    case ArtifactDelta => item == Citation("ArtifactDelta", s.id) && s.id in p.artifacts
    case GapSignal => item == Citation("CandidateExtractionGapSignal", s.id) && s.id in p.gaps
    case SourceAssertion => item == Citation("SourceAssertion", s.id) && s.id in p.assertions
    case StructuralDelta => item == Citation("StructuralDelta", s.id) && s.id in p.structural
  }

  predicate Evidential(s: Support) { s.supportType.SourceAssertion? || s.supportType.StructuralDelta? }

  predicate IsGap(p: Packet, s: Support) { s.supportType.GapSignal? && s.id in p.gaps }

  /** Some item of the list cites the support. */
  predicate Named(p: Packet, items: seq<Json>, s: Support) { exists i | 0 <= i < |items| :: Cites(p, items[i], s) }

  ghost predicate IsCitation(p: Packet, item: Json) { exists s :: Cites(p, item, s) }

  /** Every item cites a support, one of them semantic; the supports are the cited ones and every gap, sorted. */
  ghost predicate ReadsSupports(p: Packet, j: Json, supports: seq<Support>) {
    && j.JArray? && j.items != []
    && (forall i | 0 <= i < |j.items| :: IsCitation(p, j.items[i]))
    && Increasing(SupportKey, supports)
    && (forall s :: s in supports <==> IsGap(p, s) || Named(p, j.items, s))
    && exists s | s in supports :: Evidential(s)
  }

  const REQUIRED := {"decision", "interpretation_types", "mechanism", "summary", "supports"}

  /** The types, mechanism, summary and notes of a proposal are those the object names. */
  ghost predicate ReadsFields(p: Packet, m: Fields, q: Proposal) {
    && "interpretation_types" in m && "mechanism" in m && "summary" in m
    && ReadsTypes(m["interpretation_types"], q.types)
    && ReadsText(m["mechanism"], 240, q.mechanism)
    && ReadsText(m["summary"], 1600, q.summary)
    && ReadsNotes(p, if "uncertainty_notes" in m then Some(m["uncertainty_notes"]) else None, q.notes)
  }

  /** An interpretation with the required fields, and nothing more than notes beside them. */
  predicate WellKeyed(m: Fields) {
    REQUIRED <= m.Keys <= REQUIRED + {"uncertainty_notes"} && m["decision"] == JString("interpret")
  }

  ghost predicate Proposes(p: Packet, m: Fields, q: Proposal) {
    WellKeyed(m) && ReadsFields(p, m, q) && ReadsSupports(p, m["supports"], q.supports)
  }

  // ----- validation reads exactly that -----

  lemma TextRead(j: Json, limit: nat, error: NormError, text: string)
    ensures CheckText(j, limit, error) == Ok(text) <==> ReadsText(j, limit, text)
  {}

  lemma TypesListed(j: Json, x: string)
    requires TextList(j)
    ensures x in SetOf(Strings(j.items)) <==> JString(x) in j.items
  {
    var names := Strings(j.items);
    if JString(x) in j.items {
      var i :| 0 <= i < |j.items| && j.items[i] == JString(x);
      assert names[i] == x;
    }
    if x in names {
      var i :| 0 <= i < |names| && names[i] == x;
      assert j.items[i] == JString(x);
    }
  }

  predicate SortsAcceptable(types: set<string>) {
    && types <= ALLOWED_TYPES
    && !("unknown" in types && types != {"unknown"})
    && !(types * GENERIC_TYPES != {} && !(types <= GENERIC_TYPES))
  }

  lemma TypesRead(j: Json, types: seq<string>)
    ensures CheckTypes(j) == Ok(types) <==> ReadsTypes(j, types)
  {
    if TextList(j) && j.items != [] {
      var names := SetOf(Strings(j.items));
      forall x ensures x in names <==> JString(x) in j.items { TypesListed(j, x); }
      SortedRead(names, types);
    }
  }

  lemma SortedRead(names: set<string>, types: seq<string>)
    ensures SortsAcceptable(names) && types == SortedTexts(names)
            <==> && Increasing(TextKey, types) && (forall x :: x in types <==> x in names)
                 && (forall x | x in types :: x in ALLOWED_TYPES)
                 && ("unknown" in types ==> forall x | x in types :: x == "unknown")
                 && forall x, y | x in types && y in types && Generic(x) :: Generic(y)
  {
    var sorted := SortedTexts(names);
    if Increasing(TextKey, types) && forall x :: x in types <==> x in names {
      IncreasingUnique(TextKey, types, sorted);
    }
    if types == sorted { AcceptableRead(names, types); }
  }

  lemma AcceptableRead(names: set<string>, types: seq<string>)
    requires forall x :: x in types <==> x in names
    ensures SortsAcceptable(names)
            <==> && (forall x | x in types :: x in ALLOWED_TYPES)
                 && ("unknown" in types ==> forall x | x in types :: x == "unknown")
                 && forall x, y | x in types && y in types && Generic(x) :: Generic(y)
  {
    GenericRead(names);
    assert "unknown" in names ==> (names == {"unknown"} <==> forall x | x in names :: x == "unknown");
  }

  lemma GenericRead(names: set<string>)
    ensures !(names * GENERIC_TYPES != {} && !(names <= GENERIC_TYPES)) <==> forall x, y | x in names && y in names && Generic(x) :: Generic(y)
  {
    assert forall x :: x in GENERIC_TYPES <==> Generic(x);
    if names * GENERIC_TYPES != {} { var x :| x in names * GENERIC_TYPES; }
    if x, y :| x in names && y in names && Generic(x) && !Generic(y) { assert x in names * GENERIC_TYPES; }
  }

  lemma {:induction false} KeptMembers(notes: seq<string>, x: string)
    ensures x in Kept(notes) <==> x != "" && exists i | 0 <= i < |notes| :: Strip(notes[i]) == x
  {
    if notes != [] {
      KeptMembers(notes[1..], x);
      if i :| 0 <= i < |notes| && Strip(notes[i]) == x { assert i == 0 || notes[1..][i - 1] == notes[i]; }
    }
  }

  lemma NotesRead(p: Packet, j: Option<Json>, notes: seq<string>)
    ensures CheckNotes(j).Ok? && FinalNotes(p, CheckNotes(j).value) == notes <==> ReadsNotes(p, j, notes)
  {
    if j.None? {
      NotesFinal(p, [], notes);
    } else if TextList(j.value) {
      var listed, kept := Strings(j.value.items), Kept(Strings(j.value.items));
      forall x ensures x in kept <==> x != "" && exists i | 0 <= i < |j.value.items| :: Strip(j.value.items[i].s) == x {
        KeptMembers(listed, x);
        if i :| 0 <= i < |listed| && Strip(listed[i]) == x { assert Strip(j.value.items[i].s) == x; }
        if i :| 0 <= i < |j.value.items| && Strip(j.value.items[i].s) == x { assert Strip(listed[i]) == x; }
      }
      ShortNotes(j.value.items, kept);
      NotesFinal(p, kept, notes);
    }
  }

  lemma ShortNotes(items: seq<Json>, kept: seq<string>)
    requires AllStrings(items) && forall x :: x in kept <==> x != "" && exists i | 0 <= i < |items| :: Strip(items[i].s) == x
    ensures (exists note | note in kept :: |note| > MAX_NOTE) <==> exists i | 0 <= i < |items| :: |Strip(items[i].s)| > MAX_NOTE
  {
    if i :| 0 <= i < |items| && |Strip(items[i].s)| > MAX_NOTE { assert Strip(items[i].s) in kept; }
  }

  lemma NotesFinal(p: Packet, kept: seq<string>, notes: seq<string>)
    ensures FinalNotes(p, kept) == notes
            <==> Increasing(TextKey, notes) && forall x :: x in notes <==> (x == GAP_NOTE && p.gaps != {}) || x in kept
  {
    var final := FinalNotes(p, kept);
    assert forall x :: x in final <==> (x == GAP_NOTE && p.gaps != {}) || x in kept;
    if Increasing(TextKey, notes) && forall x :: x in notes <==> (x == GAP_NOTE && p.gaps != {}) || x in kept {
      IncreasingUnique(TextKey, notes, final);
    }
  }

  // ----- supports -----

  /** Two keys, each with a text. */
  lemma CitationRead(j: Json, name: string, id: string)
    ensures j == Citation(name, id)
            <==> && j.JObject? && j.fields.Keys == SUPPORT_FIELDS
                 && j.fields["support_type"] == JString(name) && j.fields["support_id"] == JString(id)
  {
    if j.JObject? && j.fields.Keys == SUPPORT_FIELDS && j.fields["support_type"] == JString(name) && j.fields["support_id"] == JString(id) {
      assert j.fields == Citation(name, id).fields;
    }
  }

  lemma CiteRead(p: Packet, j: Json, s: Support)
    ensures CheckSupport(p, j) == Ok(s) <==> Cites(p, j, s)
  {
    NameReadsBack(s.supportType);
    CitationRead(j, TypeName(s.supportType), s.id);
    assert Cites(p, j, s) <==> j == Citation(TypeName(s.supportType), s.id) && InPacket(p, s);
  }

  lemma CitedRead(p: Packet, j: Json, s: Support)
    requires j.JArray?
    ensures Cited(p, j, s) <==> Named(p, j.items, s)
  {
    forall i | 0 <= i < |j.items| ensures CheckSupport(p, j.items[i]) == Ok(s) <==> Cites(p, j.items[i], s) { CiteRead(p, j.items[i], s); }
  }

  lemma PassesRead(p: Packet, j: Json)
    ensures CheckSupport(p, j).Ok? <==> IsCitation(p, j)
  {
    if CheckSupport(p, j).Ok? { CiteRead(p, j, CheckSupport(p, j).value); }
    if s :| Cites(p, j, s) { CiteRead(p, j, s); }
  }

  /** Supports pass exactly when the list can be read so, and there is only one way to read it. */
  lemma SupportsRead(p: Packet, j: Json, supports: seq<Support>)
    ensures CheckSupports(p, j).Ok? && SortedSupports(CheckSupports(p, j).value) == supports <==> ReadsSupports(p, j, supports)
  {
    SupportsAccepted(p, j);
    if ReadsSupports(p, j, supports) { ReadPasses(p, j, supports); }
    if CheckSupports(p, j).Ok? {
      var all := CheckSupports(p, j).value;
      PassedRead(p, j, all);
      SupportsSorted(p, j, all, supports);
    }
  }

  lemma ReadPasses(p: Packet, j: Json, supports: seq<Support>)
    requires ReadsSupports(p, j, supports)
    ensures CheckSupports(p, j).Ok?
  {
    SupportsAccepted(p, j);
    forall i | 0 <= i < |j.items| ensures CheckSupport(p, j.items[i]).Ok? { PassesRead(p, j.items[i]); }
    SemanticCited(p, j, supports);
  }

  lemma SemanticCited(p: Packet, j: Json, supports: seq<Support>)
    requires ReadsSupports(p, j, supports)
    ensures exists s :: Cited(p, j, s) && Semantic(s.supportType)
  {
    var s :| s in supports && Evidential(s);
    NotAGap(p, s);
    CitedRead(p, j, s);
    assert Cited(p, j, s) && Semantic(s.supportType);
  }

  lemma NotAGap(p: Packet, s: Support)
    requires Evidential(s)
    ensures !IsGap(p, s) && Semantic(s.supportType)
  {}

  lemma PassedRead(p: Packet, j: Json, all: set<Support>)
    requires CheckSupports(p, j) == Ok(all)
    ensures j.JArray? && j.items != [] && exists s | s in all :: Evidential(s)
    ensures forall i | 0 <= i < |j.items| :: IsCitation(p, j.items[i])
    ensures forall s :: s in all <==> IsGap(p, s) || Named(p, j.items, s)
  {
    SupportsAccepted(p, j);
    forall i | 0 <= i < |j.items| ensures IsCitation(p, j.items[i]) { PassesRead(p, j.items[i]); }
    PassedMembers(p, j, all);
    var s :| Cited(p, j, s) && Semantic(s.supportType);
    assert s in all && Evidential(s);
  }

  lemma PassedMembers(p: Packet, j: Json, all: set<Support>)
    requires CheckSupports(p, j) == Ok(all)
    ensures forall s :: s in all <==> IsGap(p, s) || (j.JArray? && Named(p, j.items, s))
  {
    SupportsAccepted(p, j);
    forall s ensures s in all <==> IsGap(p, s) || Named(p, j.items, s) { CitedRead(p, j, s); }
  }

  lemma SupportsSorted(p: Packet, j: Json, all: set<Support>, supports: seq<Support>)
    requires j.JArray? && exists s | s in all :: Evidential(s)
    requires forall s :: s in all <==> IsGap(p, s) || Named(p, j.items, s)
    ensures SortedSupports(all) == supports
            <==> && Increasing(SupportKey, supports)
                 && (forall s :: s in supports <==> IsGap(p, s) || Named(p, j.items, s))
                 && exists s | s in supports :: Evidential(s)
  {
    if Increasing(SupportKey, supports) && forall s :: s in supports <==> s in all {
      IncreasingUnique(SupportKey, supports, SortedSupports(all));
    }
  }

  // ----- the keys of the object -----

  lemma KeysRead(m: Fields)
    ensures REQUIRED <= m.Keys <= REQUIRED + {"uncertainty_notes"}
            <==> var r := View(m);
                 && r.decision.Some? && r.types.Some? && r.mechanism.Some? && r.summary.Some? && r.supports.Some?
                 && r.proof.None? && r.indices.None? && !r.other
  {
    assert |"decision_proof"| == 14 && |"support_choice_indices"| == 22 && |"uncertainty_notes"| == 17;
    assert KNOWN == REQUIRED + {"uncertainty_notes"} + {"decision_proof", "support_choice_indices"};
    assert "decision_proof" !in REQUIRED + {"uncertainty_notes"} && "support_choice_indices" !in REQUIRED + {"uncertainty_notes"};
  }

  /**
    An object is accepted as an interpretation if and only if it says one, and the proposal is then what it
    says: stripped texts within their limits, exactly its types, notes and citations, and every gap of the packet.
  */
  lemma ProposalIsRead(p: Packet, m: Fields, q: Proposal)
    ensures Normalize(p, View(m)) == Ok(Interpreted(q)) <==> Proposes(p, m, q)
  {
    KeysRead(m);
    DecisionsDiffer();
    if WellKeyed(m) {
      ResponseRead(p, View(m), q);
      FieldsViewed(p, m, q);
    }
  }

  lemma FieldsViewed(p: Packet, m: Fields, q: Proposal)
    requires "interpretation_types" in m && "mechanism" in m && "summary" in m
    ensures FieldsRead(p, View(m), q) <==> ReadsFields(p, m, q)
  {}

  lemma ResponseRead(p: Packet, r: Response, q: Proposal)
    requires r.decision == Some(JString("interpret"))
    requires r.types.Some? && r.mechanism.Some? && r.summary.Some? && r.supports.Some? && r.proof.None? && r.indices.None? && !r.other
    ensures Normalize(p, r) == Ok(Interpreted(q)) <==> FieldsRead(p, r, q) && ReadsSupports(p, r.supports.value, q.supports)
  {
    DecisionsDiffer();
    SemanticsRead(p, r, q);
    SupportsRead(p, r.supports.value, q.supports);
  }

  lemma DecisionsDiffer()
    ensures JString("interpret") != JString("decline")
  {
    assert "interpret"[0] == 'i' && "decline"[0] == 'd';
  }

  /** The four fields of a proposal against what the response holds. */
  ghost predicate FieldsRead(p: Packet, r: Response, q: Proposal) {
    && r.types.Some? && r.mechanism.Some? && r.summary.Some?
    && ReadsTypes(r.types.value, q.types) && ReadsText(r.mechanism.value, 240, q.mechanism)
    && ReadsText(r.summary.value, 1600, q.summary) && ReadsNotes(p, r.notes, q.notes)
  }

  lemma SemanticsRead(p: Packet, r: Response, q: Proposal)
    requires r.types.Some? && r.mechanism.Some? && r.summary.Some?
    ensures var s := CheckFields(r.types.value, r.mechanism.value, r.summary.value, r.notes);
            (&& s.Ok? && s.value.types == q.types && s.value.mechanism == q.mechanism && s.value.summary == q.summary
             && FinalNotes(p, s.value.notes) == q.notes)
            <==> FieldsRead(p, r, q)
  {
    TypesRead(r.types.value, q.types);
    TextRead(r.mechanism.value, 240, MechanismLength, q.mechanism);
    TextRead(r.summary.value, 1600, SummaryLength, q.summary);
    NotesRead(p, r.notes, q.notes);
  }

  /** Declining says nothing but the decision. */
  lemma DeclineIsRead(p: Packet, m: Fields)
    ensures Normalize(p, View(m)) == Ok(Declined) <==> m == map["decision" := JString("decline")]
  {
    var r := View(m);
    DecisionKnown();
    if r.decision == Some(JString("decline")) && OnlyDecision(r) {
      assert forall k | k in m :: k == "decision";
      assert m == map["decision" := JString("decline")];
    }
    if m == map["decision" := JString("decline")] {
      assert OnlyDecision(r);
    }
  }

  lemma DecisionKnown()
    ensures forall k | k in KNOWN && k != "decision" :: k !in {"decision"}
    ensures "decision" != "interpretation_types" && "decision" != "mechanism" && "decision" != "summary" && "decision" != "supports"
    ensures "decision" != "uncertainty_notes" && "decision" != "decision_proof" && "decision" != "support_choice_indices"
  {
    assert |"decision"| == 8 && |"supports"| == 8 && "decision"[0] == 'd' && "supports"[0] == 's';
  }

  // ----- when only the supports fail -----

  /** The object is a well-formed interpretation, but for its supports. */
  ghost predicate OnlySupportsFail(p: Packet, m: Fields) {
    && WellKeyed(m) && (exists q :: ReadsFields(p, m, q))
    && forall supports :: !ReadsSupports(p, m["supports"], supports)
  }

  lemma FieldsPass(p: Packet, m: Fields)
    requires "interpretation_types" in m && "mechanism" in m && "summary" in m
    ensures (exists q :: ReadsFields(p, m, q))
            <==> CheckFields(m["interpretation_types"], m["mechanism"], m["summary"],
                             if "uncertainty_notes" in m then Some(m["uncertainty_notes"]) else None).Ok?
  {
    var r := View(m);
    var s := CheckFields(r.types.value, r.mechanism.value, r.summary.value, r.notes);
    if s.Ok? {
      var q := Proposal(s.value.types, s.value.mechanism, s.value.summary, FinalNotes(p, s.value.notes), []);
      SemanticsRead(p, r, q);
      FieldsViewed(p, m, q);
    }
    if q :| ReadsFields(p, m, q) {
      SemanticsRead(p, r, q);
      FieldsViewed(p, m, q);
    }
  }

  lemma SupportsFail(p: Packet, j: Json)
    ensures (forall supports :: !ReadsSupports(p, j, supports)) <==> CheckSupports(p, j).Err?
    ensures CheckSupports(p, j).Err? ==> CheckSupports(p, j).error.Unhashable? || SupportFailure(CheckSupports(p, j).error)
  {
    if CheckSupports(p, j).Ok? { SupportsRead(p, j, SortedSupports(CheckSupports(p, j).value)); }
    forall supports ensures CheckSupports(p, j).Err? ==> !ReadsSupports(p, j, supports) { SupportsRead(p, j, supports); }
    if j.JArray? { ListInPacket(p, j.items); }
  }

  predicate AboutSupports(e: NormError) { SupportFailure(e) || e.Unhashable? }

  /** The failures that belong to the supports arise exactly when nothing else is wrong. */
  lemma SupportFailureIff(p: Packet, m: Fields)
    ensures OnlySupportsFail(p, m) <==> Normalize(p, View(m)).Err? && AboutSupports(Normalize(p, View(m)).error)
  {
    if WellKeyed(m) { KeyedFailure(p, m); } else { OtherFailure(p, m); }
  }

  lemma KeyedFailure(p: Packet, m: Fields)
    requires WellKeyed(m)
    ensures OnlySupportsFail(p, m) <==> Normalize(p, View(m)).Err? && AboutSupports(Normalize(p, View(m)).error)
  {
    KeysRead(m);
    ResponseFailure(p, View(m));
    FieldsPass(p, m);
    SupportsFail(p, m["supports"]);
  }

  lemma ResponseFailure(p: Packet, r: Response)
    requires r.decision == Some(JString("interpret"))
    requires r.types.Some? && r.mechanism.Some? && r.summary.Some? && r.supports.Some? && r.proof.None? && r.indices.None? && !r.other
    ensures Normalize(p, r).Err? && AboutSupports(Normalize(p, r).error)
            <==> CheckFields(r.types.value, r.mechanism.value, r.summary.value, r.notes).Ok? && CheckSupports(p, r.supports.value).Err?
  {
    DecisionsDiffer();
    FieldErrors(r.types.value, r.mechanism.value, r.summary.value, r.notes);
    SupportsFail(p, r.supports.value);
  }

  lemma OtherFailure(p: Packet, m: Fields)
    requires !WellKeyed(m)
    ensures Normalize(p, View(m)).Err? ==> !AboutSupports(Normalize(p, View(m)).error)
  {
    KeysRead(m);
  }
}
