/**
  The bounded inference-repair loop against an arbitrary provider
  (scripts/run_m5_frozen_inference.py).

  JSON parsing is a function of the provider's text; nothing is assumed of it. A provider reply
  is anything at all: a text, a timeout or a failed invocation.
*/
module Inference {
  import opened Wrappers
  import opened Orders
  import opened Texts
  import opened Json

  const MAX_TIMEOUT_RETRIES := 1
  const MAX_SEMANTIC_REPAIRS := 2
  const MAX_MECHANISM := 240
  const MAX_SUMMARY := 1600
  const MAX_NOTE := 800

  const GAP_NOTE :=
    "Deterministic extraction coverage is incomplete for one or more paths in this candidate; the mechanism statement is limited to the cited extracted evidence."

  // ----- packets and supports -----

  datatype SupportType = ArtifactDelta | GapSignal | SourceAssertion | StructuralDelta

  datatype Support = Support(supportType: SupportType, id: string)

  /** The ids a packet admits, by support type. */
  datatype Packet = Packet(key: string, artifacts: set<string>, structural: set<string>, assertions: set<string>, gaps: set<string>)

  function TypeName(t: SupportType): string {
    match t
    case ArtifactDelta => "ArtifactDelta"
    case GapSignal => "CandidateExtractionGapSignal"
    case SourceAssertion => "SourceAssertion"
    case StructuralDelta => "StructuralDelta"
  }

  function TypeOf(name: string): (t: Option<SupportType>)
    ensures t.Some? ==> TypeName(t.value) == name
  {
    if name == "ArtifactDelta" then Some(ArtifactDelta)
    else if name == "CandidateExtractionGapSignal" then Some(GapSignal)
    else if name == "SourceAssertion" then Some(SourceAssertion)
    else if name == "StructuralDelta" then Some(StructuralDelta)
    else None
  }

  lemma NameReadsBack(t: SupportType)
    ensures TypeOf(TypeName(t)) == Some(t)
  {
    assert TypeName(ArtifactDelta)[0] == 'A' && TypeName(GapSignal)[0] == 'C';
    assert TypeName(SourceAssertion)[1] == 'o' && TypeName(StructuralDelta)[1] == 't';
  }

  function AllowedIds(p: Packet, t: SupportType): set<string> {
    match t
    case ArtifactDelta => p.artifacts
    case GapSignal => p.gaps
    case SourceAssertion => p.assertions
    case StructuralDelta => p.structural
  }

  predicate InPacket(p: Packet, s: Support) { s.id in AllowedIds(p, s.supportType) }

  predicate Semantic(t: SupportType) { t.SourceAssertion? || t.StructuralDelta? }

  function TypeRank(t: SupportType): nat {
    match t case ArtifactDelta => 0 case GapSignal => 1 case SourceAssertion => 2 case StructuralDelta => 3
  }

  /** Support types sort by name, which is the order they are declared in. */
  function SupportKey(s: Support): Key { [Num(TypeRank(s.supportType)), Text(s.id)] }

  lemma SupportKeyInjective(a: Support, b: Support)
    requires SupportKey(a) == SupportKey(b)
    ensures a == b
  {
    assert SupportKey(a)[0] == SupportKey(b)[0] && SupportKey(a)[1] == SupportKey(b)[1];
  }

  function SortedSupports(s: set<Support>): (r: seq<Support>)
    ensures Increasing(SupportKey, r)
    ensures forall x :: x in r <==> x in s
  {
    assert Distinguishes(SupportKey, s) by {
      forall x, y | x in s && y in s && SupportKey(x) == SupportKey(y) ensures x == y { SupportKeyInjective(x, y); }
    }
    SortSet(SupportKey, s)
  }

  function SortedTexts(s: set<string>): (r: seq<string>)
    ensures Increasing(TextKey, r)
    ensures forall x :: x in r <==> x in s
  {
    SortSet(TextKey, s)
  }

  // ----- responses -----

  /** The fields of a response object that mean anything; other says whether there are more. */
  datatype Response = Response(
    decision: Option<Json>, types: Option<Json>, mechanism: Option<Json>, summary: Option<Json>, supports: Option<Json>,
    notes: Option<Json>, proof: Option<Json>, indices: Option<Json>, other: bool)

  const KNOWN := {"decision", "interpretation_types", "mechanism", "summary", "supports", "uncertainty_notes", "decision_proof",
                  "support_choice_indices"}

  function Field(m: map<string, Json>, k: string): Option<Json> { if k in m then Some(m[k]) else None }

  function View(m: map<string, Json>): Response {
    Response(Field(m, "decision"), Field(m, "interpretation_types"), Field(m, "mechanism"), Field(m, "summary"), Field(m, "supports"),
             Field(m, "uncertainty_notes"), Field(m, "decision_proof"), Field(m, "support_choice_indices"),
             exists k | k in m :: k !in KNOWN)
  }

  datatype NormError =
    | NotJson | NotAnObject | DeclineFields | BadDecision | MissingFields | UnexpectedFields
    | TypesShape | UnknownType | UnknownNotAlone | GenericMixed | MechanismLength | SummaryLength | NotesShape | NoteTooLong
    | SupportsEmpty | SupportShape | UnsupportedType | OutsidePacket | NoSemanticSupport | GapAbsent | Unhashable
    | LockChanged | ProofShape | ProofOutside | IndicesOutsideRepair | IndicesWithSupports | IndicesShape | IndexRange

  /** The failures after which the non-support fields are kept. */
  predicate SupportFailure(e: NormError) {
    e.SupportsEmpty? || e.SupportShape? || e.UnsupportedType? || e.OutsidePacket? || e.NoSemanticSupport? || e.GapAbsent?
  }

  // ----- the fields besides supports -----

  predicate AllStrings(items: seq<Json>) { forall i | 0 <= i < |items| :: items[i].JString? }

  function Strings(items: seq<Json>): (r: seq<string>)
    requires AllStrings(items)
    ensures |r| == |items| && forall i | 0 <= i < |items| :: r[i] == items[i].s
  {
    if items == [] then [] else [items[0].s] + Strings(items[1..])
  }

  const ALLOWED_TYPES := {"introduction", "modification", "removal", "reversal", "deprecation", "failure", "repair",
                          "authority_governance", "project_state", "temporal_correctness", "unknown"}

  const GENERIC_TYPES := {"introduction", "modification"}

  function SetOf(s: seq<string>): set<string> { set x | x in s }

  function CheckTypes(j: Json): Result<seq<string>, NormError> {
    if !j.JArray? || j.items == [] || !AllStrings(j.items) then Err(TypesShape)
    else
      var types := SetOf(Strings(j.items));
      if !(types <= ALLOWED_TYPES) then Err(UnknownType)
      else if "unknown" in types && types != {"unknown"} then Err(UnknownNotAlone)
      else if types * GENERIC_TYPES != {} && !(types <= GENERIC_TYPES) then Err(GenericMixed)
      else Ok(SortedTexts(types))
  }

  function CheckText(j: Json, limit: nat, error: NormError): Result<string, NormError> {
    if !j.JString? || Strip(j.s) == "" || |Strip(j.s)| > limit then Err(error) else Ok(Strip(j.s))
  }

  /** The notes that are not blank, stripped. */
  function Kept(notes: seq<string>): seq<string> {
    if notes == [] then [] else (if Strip(notes[0]) == "" then [] else [Strip(notes[0])]) + Kept(notes[1..])
  }

  function CheckNotes(j: Option<Json>): Result<seq<string>, NormError> {
    if j.None? then Ok([])
    else if !j.value.JArray? || !AllStrings(j.value.items) then Err(NotesShape)
    else
      var notes := Kept(Strings(j.value.items));
      if exists note | note in notes :: |note| > MAX_NOTE then Err(NoteTooLong) else Ok(notes)
  }

  /** The interpretation proper, before supports are looked at. */
  datatype Semantics = Semantics(types: seq<string>, mechanism: string, summary: string, notes: seq<string>)

  function CheckFields(types: Json, mechanism: Json, summary: Json, notes: Option<Json>): Result<Semantics, NormError> {
    var checkedTypes := CheckTypes(types);
    if checkedTypes.Err? then Err(checkedTypes.error)
    else
      var checkedMechanism := CheckText(mechanism, MAX_MECHANISM, MechanismLength);
      if checkedMechanism.Err? then Err(checkedMechanism.error)
      else
        var checkedSummary := CheckText(summary, MAX_SUMMARY, SummaryLength);
        if checkedSummary.Err? then Err(checkedSummary.error)
        else
          var checkedNotes := CheckNotes(notes);
          if checkedNotes.Err? then Err(checkedNotes.error)
          else Ok(Semantics(checkedTypes.value, checkedMechanism.value, checkedSummary.value, checkedNotes.value))
  }

  /** Everything validation checks of an interpretation before its supports. */
  function CheckSemantics(r: Response): Result<Semantics, NormError> {
    if r.types.None? || r.mechanism.None? || r.summary.None? || r.supports.None? then Err(MissingFields)
    else if r.other || r.proof.Some? || r.indices.Some? then Err(UnexpectedFields)
    else CheckFields(r.types.value, r.mechanism.value, r.summary.value, r.notes)
  }

  // ----- supports -----

  /** The keys a support object has. */
  const SUPPORT_FIELDS := {"support_type", "support_id"}

  function CheckSupport(p: Packet, j: Json): Result<Support, NormError> {
    if !j.JObject? || j.fields.Keys != SUPPORT_FIELDS then Err(SupportShape)
    else
      var t, id := j.fields["support_type"], j.fields["support_id"];
      if t.JArray? || t.JObject? then Err(Unhashable)
      else if !t.JString? || TypeOf(t.s).None? then Err(UnsupportedType)
      else if !id.JString? || id.s !in AllowedIds(p, TypeOf(t.s).value) then Err(OutsidePacket)
      else Ok(Support(TypeOf(t.s).value, id.s))
  }

  lemma CheckedInPacket(p: Packet, j: Json)
    ensures CheckSupport(p, j).Ok? ==> InPacket(p, CheckSupport(p, j).value)
    ensures CheckSupport(p, j).Err? ==>
              CheckSupport(p, j).error.Unhashable?
              || (SupportFailure(CheckSupport(p, j).error) && !CheckSupport(p, j).error.GapAbsent?)
  {}

  type Checked = Result<Support, NormError>

  function CheckedBy(p: Packet): Json -> Checked { j => CheckSupport(p, j) }

  /** The supports of a list, or the first failure. */
  function Gather(results: seq<Checked>): Result<set<Support>, NormError> {
    if results == [] then Ok({})
    else
      var n := |results| - 1;
      var before := Gather(results[..n]);
      if before.Err? then before
      else if results[n].Err? then Err(results[n].error)
      else Ok(before.value + {results[n].value})
  }

  function CheckList(p: Packet, items: seq<Json>): Result<set<Support>, NormError> { Gather(Map(CheckedBy(p), items)) }

  lemma {:induction false} GatherMembers(results: seq<Checked>)
    ensures Gather(results).Ok? <==> forall i | 0 <= i < |results| :: results[i].Ok?
    ensures Gather(results).Ok? ==> forall s :: s in Gather(results).value <==> Checked.Ok(s) in results
    ensures Gather(results).Err? ==> Checked.Err(Gather(results).error) in results
  {
    if results != [] {
      var init, last := results[..|results| - 1], results[|results| - 1];
      GatherMembers(init);
      assert results == init + [last];
      assert forall x :: x in results <==> x in init || x == last;
    }
  }

  lemma {:induction false} GatherFails(results: seq<Checked>, i: nat)
    requires i < |results| && Gather(results[..i]).Ok? && results[i].Err?
    ensures Gather(results) == Err(results[i].error)
    decreases |results|
  {
    var n := |results| - 1;
    if i < n {
      assert results[..n][..i] == results[..i];
      GatherFails(results[..n], i);
    }
  }

  lemma GatherStep(results: seq<Checked>, i: nat)
    requires i < |results| && Gather(results[..i]).Ok?
    ensures results[i].Ok? ==> Gather(results[..i + 1]) == Ok(Gather(results[..i]).value + {results[i].value})
    ensures results[i].Err? ==> Gather(results) == Err(results[i].error)
  {
    assert results[..i + 1][..i] == results[..i];
    if results[i].Err? { GatherFails(results, i); }
  }

  function GapSupports(p: Packet): set<Support> { set id | id in p.gaps :: Support(GapSignal, id) }

  function CheckSupports(p: Packet, j: Json): Result<set<Support>, NormError> {
    if !j.JArray? || j.items == [] then Err(SupportsEmpty)
    else
      var cited := CheckList(p, j.items);
      if cited.Err? then cited
      else if !exists s | s in cited.value :: Semantic(s.supportType) then Err(NoSemanticSupport)
      else if p.gaps == {} && exists s | s in cited.value :: s.supportType.GapSignal? then Err(GapAbsent)
      else Ok(cited.value + GapSupports(p))
  }

  lemma ListInPacket(p: Packet, items: seq<Json>)
    ensures CheckList(p, items).Ok? ==> forall s | s in CheckList(p, items).value :: InPacket(p, s)
    ensures CheckList(p, items).Err? ==> CheckList(p, items).error.Unhashable? || SupportFailure(CheckList(p, items).error)
    ensures CheckList(p, items) != Err(GapAbsent)
  {
    var results := Map(CheckedBy(p), items);
    GatherMembers(results);
    forall i | 0 <= i < |results|
      ensures results[i].Ok? ==> InPacket(p, results[i].value)
      ensures results[i].Err? ==> results[i].error.Unhashable? || (SupportFailure(results[i].error) && !results[i].error.GapAbsent?)
    {
      CheckedInPacket(p, items[i]);
    }
  }

  /** A cited gap signal is always one of the packet's, so the check for an absent one is dead code. */
  lemma GapAbsentIsDead(p: Packet, j: Json)
    ensures CheckSupports(p, j) != Err(GapAbsent)
  {
    if j.JArray? { ListInPacket(p, j.items); }
  }

  // ----- the whole validation -----

  datatype Proposal = Proposal(types: seq<string>, mechanism: string, summary: string, notes: seq<string>, supports: seq<Support>)

  datatype Verdict = Declined | Interpreted(proposal: Proposal)

  /** The notes of a proposal: sorted, without repetition, with the coverage note when the packet has gaps. */
  function FinalNotes(p: Packet, notes: seq<string>): seq<string> {
    SortedTexts(SetOf(notes) + (if p.gaps == {} then {} else {GAP_NOTE}))
  }

  function Complete(p: Packet, s: Semantics, supports: set<Support>): Proposal {
    Proposal(s.types, s.mechanism, s.summary, FinalNotes(p, s.notes), SortedSupports(supports))
  }

  predicate OnlyDecision(r: Response) {
    && r.types.None? && r.mechanism.None? && r.summary.None? && r.supports.None? && r.notes.None? && r.proof.None? && r.indices.None?
    && !r.other
  }

  function Normalize(p: Packet, r: Response): Result<Verdict, NormError> {
    if r.decision == Some(JString("decline")) then if OnlyDecision(r) then Ok(Declined) else Err(DeclineFields)
    else if r.decision != Some(JString("interpret")) then Err(BadDecision)
    else
      var semantics := CheckSemantics(r);
      if semantics.Err? then Err(semantics.error)
      else
        var supports := CheckSupports(p, r.supports.value);
        if supports.Err? then Err(supports.error)
        else Ok(Interpreted(Complete(p, semantics.value, supports.value)))
  }

  /** The loop that fills the dictionary of normalized supports. */
  method GatherSupports(p: Packet, items: seq<Json>) returns (r: Result<set<Support>, NormError>)
    ensures r == CheckList(p, items)
  {
    var normalized: set<Support> := {};
    ghost var results := Map(CheckedBy(p), items);
    for i := 0 to |items|
      invariant Gather(results[..i]) == Ok(normalized)
    {
      GatherStep(results, i);
      var support := CheckSupport(p, items[i]);
      assert results[i] == support;
      if support.Err? { return Err(support.error); }
      normalized := normalized + {support.value};
    }
    assert results[..|items|] == results;
    r := Ok(normalized);
  }

  /** Some item of the list cites the support. */
  predicate Cited(p: Packet, j: Json, s: Support) {
    j.JArray? && exists i | 0 <= i < |j.items| :: CheckSupport(p, j.items[i]) == Ok(s)
  }

  /**
    Supports are accepted if and only if they are a list of citations that all pass, one of them semantic;
    the result is then what is cited and every gap of the packet.
  */
  lemma SupportsAccepted(p: Packet, j: Json)
    ensures CheckSupports(p, j).Ok?
            <==> && j.JArray? && j.items != [] && (forall i | 0 <= i < |j.items| :: CheckSupport(p, j.items[i]).Ok?)
                 && exists s :: Cited(p, j, s) && Semantic(s.supportType)
    ensures CheckSupports(p, j).Ok? ==>
              forall s :: s in CheckSupports(p, j).value <==> Cited(p, j, s) || (s.supportType.GapSignal? && s.id in p.gaps)
  {
    if j.JArray? && j.items != [] {
      CitedGathered(p, j);
      GapAbsentIsDead(p, j);
    }
  }

  lemma CitedGathered(p: Packet, j: Json)
    requires j.JArray?
    ensures CheckList(p, j.items).Ok? <==> forall i | 0 <= i < |j.items| :: CheckSupport(p, j.items[i]).Ok?
    ensures CheckList(p, j.items).Ok? ==> forall s :: s in CheckList(p, j.items).value <==> Cited(p, j, s)
  {
    var results := Map(CheckedBy(p), j.items);
    GatherMembers(results);
    forall s ensures Checked.Ok(s) in results <==> Cited(p, j, s) {
      if Cited(p, j, s) {
        var i :| 0 <= i < |j.items| && CheckSupport(p, j.items[i]) == Ok(s);
        assert results[i] == Checked.Ok(s);
      }
    }
  }

  method NormalizeSupports(p: Packet, j: Json) returns (r: Result<set<Support>, NormError>)
    ensures r == CheckSupports(p, j)
  {
    if !j.JArray? || j.items == [] { return Err(SupportsEmpty); }
    r := GatherSupports(p, j.items);
    if r.Err? { return; }
    if !exists s | s in r.value :: Semantic(s.supportType) { return Err(NoSemanticSupport); }
    if p.gaps != {} {
      r := Ok(r.value + GapSupports(p));
    } else {
      if exists s | s in r.value :: s.supportType.GapSignal? { return Err(GapAbsent); }
      assert GapSupports(p) == {} && r.value + {} == r.value;
    }
  }

  /** Every accepted proposal rests on the packet: its supports lie in it, all its gaps are retained, one is semantic. */
  lemma ProposalSupported(p: Packet, r: Response)
    requires Normalize(p, r).Ok? && Normalize(p, r).value.Interpreted?
    ensures forall s | s in Normalize(p, r).value.proposal.supports :: InPacket(p, s)
    ensures forall id | id in p.gaps :: Support(GapSignal, id) in Normalize(p, r).value.proposal.supports
    ensures exists s | s in Normalize(p, r).value.proposal.supports :: Semantic(s.supportType)
    ensures Increasing(SupportKey, Normalize(p, r).value.proposal.supports)
  {
    var cited := CheckList(p, r.supports.value.items).value;
    ListInPacket(p, r.supports.value.items);
    var s :| s in cited && Semantic(s.supportType);
    assert s in Normalize(p, r).value.proposal.supports;
    forall id | id in p.gaps ensures Support(GapSignal, id) in Normalize(p, r).value.proposal.supports {
      assert Support(GapSignal, id) in GapSupports(p);
    }
  }

  lemma FieldErrors(types: Json, mechanism: Json, summary: Json, notes: Option<Json>)
    ensures var s := CheckFields(types, mechanism, summary, notes);
            s.Err? ==> !SupportFailure(s.error) && !s.error.Unhashable?
  {}

  lemma SemanticErrors(r: Response)
    ensures CheckSemantics(r).Err? ==> !SupportFailure(CheckSemantics(r).error) && !CheckSemantics(r).error.Unhashable?
  {
    if r.types.Some? && r.mechanism.Some? && r.summary.Some? {
      FieldErrors(r.types.value, r.mechanism.value, r.summary.value, r.notes);
    }
  }

  /** A support failure comes only after every other field has passed. */
  lemma SupportFailureIsLast(p: Packet, r: Response)
    requires Normalize(p, r).Err? && SupportFailure(Normalize(p, r).error)
    ensures r.decision == Some(JString("interpret")) && CheckSemantics(r).Ok? && CheckSupports(p, r.supports.value).Err?
  {
    SemanticErrors(r);
  }
}
