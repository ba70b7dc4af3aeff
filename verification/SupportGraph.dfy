/**
  Provenance resolution over the Observation support graph, in its two implementations
  (src/lemmamind/observations.py, src/lemmamind/pattern_intelligence.py).
*/
module SupportGraph {
  import opened Wrappers
  import opened Orders
  import opened Digests
  import opened Store

  // ----- records -----

  datatype RunType = Extraction | Reasoning | Synthesis | OtherRun

  datatype Run = Run(runType: RunType, finished: bool, hasOutputs: bool)

  datatype SupportType = EvidenceFact | SourceAssertion | ObservationSupport

  datatype SupportRef = SupportRef(supportType: SupportType, id: string)

  /** A fact or an assertion, as far as provenance is concerned. */
  datatype Evidence = Evidence(artifactId: string, runId: string)

  datatype Artifact = Artifact(captureId: string, contentHash: string)

  datatype ArtifactRef = ArtifactRef(artifactId: string, contentHash: Option<string>)

  datatype Manifest = Manifest(revisionId: string, artifacts: seq<ArtifactRef>)

  datatype Revision = Revision(sourceId: string)

  datatype Epistemic = Interpretation | Inference | Hypothesis | Evaluation | Opinion | Unknown

  datatype Observation = Observation(
    claim: string, epistemic: Epistemic, statement: string, rejected: bool, runId: string, supersedes: Option<string>)

  datatype Edge = Edge(observationId: string, support: SupportRef)

  datatype Role = Supporting | NegativeControl | Contradicting

  datatype Record =
    | EvidenceRecord(evidence: Evidence)
    | ArtifactRecord(artifact: Artifact)
    | ManifestRecord(manifest: Manifest)
    | RevisionRecord(revision: Revision)
    | RunRecord(run: Run)
    | ObservationRecord(observation: Observation)
    | EdgeRecord(edge: Edge)
    | PatternRecord(claim: string, epistemic: Epistemic, statement: string, runId: string)
    | OccurrenceRecord(patternId: string, revisionId: string, role: Role, summary: string)
    | OccurrenceEdgeRecord(occurrenceId: string, observationId: string)

  type Db = Rows<Record>

  function NameOf(kind: Kind, id: string): Name { Name(kind, [Text(id)]) }

  function GetEvidence(db: Db, kind: Kind, id: string): Option<Evidence> {
    var n := NameOf(kind, id);
    if n in db && db[n].EvidenceRecord? then Some(db[n].evidence) else None
  }

  function GetArtifact(db: Db, id: string): Option<Artifact> {
    var n := NameOf(ArtifactKind, id);
    if n in db && db[n].ArtifactRecord? then Some(db[n].artifact) else None
  }

  function GetManifest(db: Db, id: string): Option<Manifest> {
    var n := NameOf(ManifestKind, id);
    if n in db && db[n].ManifestRecord? then Some(db[n].manifest) else None
  }

  function GetRevision(db: Db, id: string): Option<Revision> {
    var n := NameOf(RevisionKind, id);
    if n in db && db[n].RevisionRecord? then Some(db[n].revision) else None
  }

  function GetRun(db: Db, id: string): Option<Run> {
    var n := NameOf(RunKind, id);
    if n in db && db[n].RunRecord? then Some(db[n].run) else None
  }

  function GetObservation(db: Db, id: string): Option<Observation> {
    var n := NameOf(ObservationKind, id);
    if n in db && db[n].ObservationRecord? then Some(db[n].observation) else None
  }

  function EdgeFrom(id: string): Record -> seq<SupportRef> {
    (r: Record) => if r.EdgeRecord? && r.edge.observationId == id then [r.edge.support] else []
  }

  /** The supports of an observation, in the order the store lists its edges. */
  function EdgesOf(db: Db, id: string): seq<SupportRef> { FlatMap(EdgeFrom(id), Listing(db, SupportKind)) }

  // ----- leaves -----

  datatype ResolveError =
    | MissingSupport | MissingRun | WrongRunType | IncompleteRun | MissingArtifact | MissingManifest | MissingRevision
    | NotContentBound | CycleDetected | MissingObservation | NoEdges

  function ArtifactRevision(db: Db, id: string): Result<string, ResolveError> {
    var artifact := GetArtifact(db, id);
    if artifact.None? then Err(MissingArtifact)
    else
      var manifest := GetManifest(db, artifact.value.captureId);
      if manifest.None? then Err(MissingManifest)
      else if GetRevision(db, manifest.value.revisionId).None? then Err(MissingRevision)
      else if ArtifactRef(id, Some(artifact.value.contentHash)) !in manifest.value.artifacts then Err(NotContentBound)
      else Ok(manifest.value.revisionId)
  }

  function RequireRun(db: Db, id: string, expected: RunType): Result<(), ResolveError> {
    var run := GetRun(db, id);
    if run.None? then Err(MissingRun)
    else if run.value.runType != expected then Err(WrongRunType)
    else if !run.value.finished || !run.value.hasOutputs then Err(IncompleteRun)
    else Ok(())
  }

  function KindOf(t: SupportType): Kind {
    match t
    case EvidenceFact => FactKind
    case SourceAssertion => AssertionKind
    case ObservationSupport => ObservationKind
  }

  /** The revision of a fact or an assertion. */
  function LeafRevision(db: Db, s: SupportRef): Result<string, ResolveError> {
    var evidence := GetEvidence(db, KindOf(s.supportType), s.id);
    if evidence.None? then Err(MissingSupport)
    else
      var run := RequireRun(db, evidence.value.runId, Extraction);
      if run.Err? then Err(run.error) else ArtifactRevision(db, evidence.value.artifactId)
  }

  /** The check of a supporting observation before its own supports are followed. */
  function NestedCheck(db: Db, id: string): Result<(), ResolveError> {
    var o := GetObservation(db, id);
    if o.None? then Err(MissingSupport) else RequireRun(db, o.value.runId, Reasoning)
  }

  /** The run is of this type, finished and hashed. */
  predicate RanAs(db: Db, runId: string, t: RunType) { GetRun(db, runId) == Some(Run(t, true, true)) }

  /** The artifact was captured, with just this content, by the capture of the revision. */
  predicate CapturedIn(db: Db, artifactId: string, revision: string) {
    && GetArtifact(db, artifactId).Some?
    && GetManifest(db, GetArtifact(db, artifactId).value.captureId).Some?
    && var manifest := GetManifest(db, GetArtifact(db, artifactId).value.captureId).value;
    && manifest.revisionId == revision && GetRevision(db, revision).Some?
    && ArtifactRef(artifactId, Some(GetArtifact(db, artifactId).value.contentHash)) in manifest.artifacts
  }

  predicate EvidenceFrom(db: Db, kind: Kind, id: string, revision: string) {
    && GetEvidence(db, kind, id).Some?
    && RanAs(db, GetEvidence(db, kind, id).value.runId, Extraction)
    && CapturedIn(db, GetEvidence(db, kind, id).value.artifactId, revision)
  }

  /** A fact or an assertion has a revision exactly when a complete extraction drew it from an artifact that revision binds. */
  lemma LeafIff(db: Db, id: string, revision: string)
    ensures LeafRevision(db, SupportRef(EvidenceFact, id)) == Ok(revision) <==> EvidenceFrom(db, FactKind, id, revision)
    ensures LeafRevision(db, SupportRef(SourceAssertion, id)) == Ok(revision) <==> EvidenceFrom(db, AssertionKind, id, revision)
  {
    LeafOf(db, EvidenceFact, id, revision);
    LeafOf(db, SourceAssertion, id, revision);
  }

  lemma LeafOf(db: Db, t: SupportType, id: string, revision: string)
    ensures LeafRevision(db, SupportRef(t, id)) == Ok(revision) <==> EvidenceFrom(db, KindOf(t), id, revision)
  {
    if GetEvidence(db, KindOf(t), id).Some? {
      RunIff(db, GetEvidence(db, KindOf(t), id).value.runId, Extraction);
      CapturedIff(db, GetEvidence(db, KindOf(t), id).value.artifactId, revision);
    }
  }

  lemma RunIff(db: Db, runId: string, t: RunType)
    ensures RequireRun(db, runId, t).Ok? <==> RanAs(db, runId, t)
  {}

  lemma CapturedIff(db: Db, artifactId: string, revision: string)
    ensures ArtifactRevision(db, artifactId) == Ok(revision) <==> CapturedIn(db, artifactId, revision)
  {}

  /** A supporting observation passes its own check exactly when a complete reasoning run made it. */
  lemma NestedIff(db: Db, id: string)
    ensures NestedCheck(db, id).Ok? <==> GetObservation(db, id).Some? && RanAs(db, GetObservation(db, id).value.runId, Reasoning)
  {
    if GetObservation(db, id).Some? { RunIff(db, GetObservation(db, id).value.runId, Reasoning); }
  }

  // ----- the resolver of the Observation service -----

  type Resolved = Result<set<string>, ResolveError>

  function ObservationIds(db: Db): set<string> {
    set n | n in db && n.kind == ObservationKind && |n.id| == 1 && n.id[0].Text? :: n.id[0].s
  }

  lemma ObservationHasId(db: Db, id: string)
    requires GetObservation(db, id).Some?
    ensures id in ObservationIds(db)
  {
    var n := NameOf(ObservationKind, id);
    assert n in db && n.id[0].s == id;
  }

  function SupportRevisions(db: Db, s: SupportRef, seen: set<string>): Resolved
    decreases ObservationIds(db) - seen, 1, 0
  {
    if s.supportType.ObservationSupport? then
      var check := NestedCheck(db, s.id);
      if check.Err? then Err(check.error) else ObservationRevisions(db, s.id, seen)
    else
      var revision := LeafRevision(db, s);
      if revision.Err? then Err(revision.error) else Ok({revision.value})
  }

  function ObservationRevisions(db: Db, id: string, seen: set<string>): Resolved
    decreases ObservationIds(db) - seen, 0, 0
  {
    if id in seen then Err(CycleDetected)
    else if GetObservation(db, id).None? then Err(MissingObservation)
    else if EdgesOf(db, id) == [] then Err(NoEdges)
    else
      ObservationHasId(db, id);
      assert id in (ObservationIds(db) - seen) - (ObservationIds(db) - (seen + {id}));
      AllRevisions(db, EdgesOf(db, id), seen + {id})
  }

  /** The union over a list of supports, or the first error. */
  function AllRevisions(db: Db, supports: seq<SupportRef>, seen: set<string>): Resolved
    decreases ObservationIds(db) - seen, 2, |supports|
  {
    if supports == [] then Ok({})
    else
      var n := |supports| - 1;
      var before := AllRevisions(db, supports[..n], seen);
      if before.Err? then before
      else
        var last := SupportRevisions(db, supports[n], seen);
        if last.Err? then last else Ok(before.value + last.value)
  }

  method ResolveSupport(store: ContractStore<Record>, s: SupportRef, seen: set<string>) returns (r: Resolved)
    ensures r == SupportRevisions(store.rows, s, seen)
    decreases ObservationIds(store.rows) - seen, 1
  {
    var db := store.rows;
    if s.supportType.ObservationSupport? {
      var check := NestedCheck(db, s.id);
      if check.Err? { return Err(check.error); }
      r := ResolveObservation(store, s.id, seen);
    } else {
      var revision := LeafRevision(db, s);
      if revision.Err? { return Err(revision.error); }
      r := Ok({revision.value});
    }
  }

  method ResolveObservation(store: ContractStore<Record>, id: string, seen: set<string>) returns (r: Resolved)
    ensures r == ObservationRevisions(store.rows, id, seen)
    decreases ObservationIds(store.rows) - seen, 0
  {
    if id in seen { return Err(CycleDetected); }
    if GetObservation(store.rows, id).None? { return Err(MissingObservation); }
    var listed := store.List(SupportKind);
    var edges := FlatMap(EdgeFrom(id), listed);
    if edges == [] { return Err(NoEdges); }
    ObservationHasId(store.rows, id);
    assert id in (ObservationIds(store.rows) - seen) - (ObservationIds(store.rows) - (seen + {id}));
    var revisions: set<string> := {};
    for i := 0 to |edges|
      invariant AllRevisions(store.rows, edges[..i], seen + {id}) == Ok(revisions)
    {
      AllStep(store.rows, edges, i, seen + {id});
      var more := ResolveSupport(store, edges[i], seen + {id});
      if more.Err? { return more; }
      revisions := revisions + more.value;
    }
    assert edges[..|edges|] == edges;
    r := Ok(revisions);
  }

  lemma AllStep(db: Db, supports: seq<SupportRef>, i: nat, seen: set<string>)
    requires i < |supports| && AllRevisions(db, supports[..i], seen).Ok?
    ensures AllRevisions(db, supports[..i + 1], seen)
            == if SupportRevisions(db, supports[i], seen).Err? then SupportRevisions(db, supports[i], seen)
               else Ok(AllRevisions(db, supports[..i], seen).value + SupportRevisions(db, supports[i], seen).value)
    ensures SupportRevisions(db, supports[i], seen).Err? ==>
              AllRevisions(db, supports, seen) == SupportRevisions(db, supports[i], seen)
  {
    assert supports[..i + 1][..i] == supports[..i];
    if SupportRevisions(db, supports[i], seen).Err? { ErrorStays(db, supports, i + 1, seen); }
  }

  lemma {:induction false} ErrorStays(db: Db, supports: seq<SupportRef>, i: nat, seen: set<string>)
    requires i <= |supports| && AllRevisions(db, supports[..i], seen).Err?
    ensures AllRevisions(db, supports, seen) == AllRevisions(db, supports[..i], seen)
    decreases |supports| - i
  {
    if i == |supports| {
      assert supports[..i] == supports;
    } else {
      assert supports[..i + 1][..i] == supports[..i];
      ErrorStays(db, supports, i + 1, seen);
    }
  }

  /** A list resolves exactly when each support does, to the union of what they resolve to. */
  lemma {:induction false} AllResolve(db: Db, supports: seq<SupportRef>, seen: set<string>)
    ensures AllRevisions(db, supports, seen).Ok? <==> forall s | s in supports :: SupportRevisions(db, s, seen).Ok?
    ensures AllRevisions(db, supports, seen).Ok? ==>
              forall r :: r in AllRevisions(db, supports, seen).value
                          <==> exists s | s in supports :: r in SupportRevisions(db, s, seen).value
  {
    if supports != [] {
      var init, last := supports[..|supports| - 1], supports[|supports| - 1];
      assert supports == init + [last];
      assert forall s :: s in supports <==> s in init || s == last;
      AllResolve(db, init, seen);
      var before, one := AllRevisions(db, init, seen), SupportRevisions(db, last, seen);
      assert AllRevisions(db, supports, seen)
             == if before.Err? then before else if one.Err? then one else Ok(before.value + one.value);
      assert last in supports;
      if before.Err? {
        var s :| s in init && SupportRevisions(db, s, seen).Err?;
        assert s in supports;
      }
    }
  }

  // ----- what resolution means -----

  predicate Linked(db: Db, a: string, b: string) {
    SupportRef(ObservationSupport, b) in EdgesOf(db, a)
  }

  /** p leads from root along observation supports. */
  predicate Path(db: Db, root: string, p: seq<string>) {
    p != [] && p[0] == root && forall i | 0 <= i < |p| - 1 :: Linked(db, p[i], p[i + 1])
  }

  predicate EdgeSound(db: Db, s: SupportRef) {
    if s.supportType.ObservationSupport? then NestedCheck(db, s.id).Ok? else LeafRevision(db, s).Ok?
  }

  /** The observation exists, is supported, and each of its supports is complete on its own. */
  predicate NodeSound(db: Db, id: string) {
    && GetObservation(db, id).Some? && EdgesOf(db, id) != []
    && forall s | s in EdgesOf(db, id) :: EdgeSound(db, s)
  }

  predicate PathSound(db: Db, p: seq<string>, seen: set<string>) {
    p != [] && Unique(p) && (forall x | x in p :: x !in seen) && NodeSound(db, p[|p| - 1])
  }

  lemma PathTail(db: Db, root: string, p: seq<string>)
    requires Path(db, root, p) && |p| > 1
    ensures Linked(db, root, p[1]) && Path(db, p[1], p[1..])
  {
    assert Linked(db, p[0], p[1]);
    forall i | 0 <= i < |p[1..]| - 1 ensures Linked(db, p[1..][i], p[1..][i + 1]) { assert Linked(db, p[i + 1], p[i + 2]); }
  }

  lemma PathExtends(db: Db, root: string, next: string, q: seq<string>)
    requires Linked(db, root, next) && Path(db, next, q)
    ensures Path(db, root, [root] + q)
  {
    var p := [root] + q;
    forall i | 0 <= i < |p| - 1 ensures Linked(db, p[i], p[i + 1]) {
      if i > 0 { assert Linked(db, q[i - 1], q[i]); }
    }
  }

  /** What a resolved observation says about itself and about the observations it rests on. */
  lemma ResolvedNode(db: Db, id: string, seen: set<string>)
    requires ObservationRevisions(db, id, seen).Ok?
    ensures id !in seen && NodeSound(db, id)
    ensures forall b | Linked(db, id, b) :: ObservationRevisions(db, b, seen + {id}).Ok?
  {
    AllResolve(db, EdgesOf(db, id), seen + {id});
    forall s | s in EdgesOf(db, id) ensures EdgeSound(db, s) { assert SupportRevisions(db, s, seen + {id}).Ok?; }
    forall b | Linked(db, id, b) ensures ObservationRevisions(db, b, seen + {id}).Ok? {
      assert SupportRevisions(db, SupportRef(ObservationSupport, b), seen + {id}).Ok?;
    }
  }

  lemma {:induction false} ResolvedPath(db: Db, root: string, seen: set<string>, p: seq<string>)
    requires ObservationRevisions(db, root, seen).Ok? && Path(db, root, p)
    ensures PathSound(db, p, seen)
    decreases |p|
  {
    ResolvedNode(db, root, seen);
    if |p| > 1 {
      PathTail(db, root, p);
      ResolvedPath(db, p[1], seen + {root}, p[1..]);
      assert p == [root] + p[1..];
      assert root !in p[1..];
    }
  }

  lemma NodeResolves(db: Db, id: string, seen: set<string>)
    requires id !in seen && NodeSound(db, id)
    requires forall b | Linked(db, id, b) :: ObservationRevisions(db, b, seen + {id}).Ok?
    ensures ObservationRevisions(db, id, seen).Ok?
  {
    AllResolve(db, EdgesOf(db, id), seen + {id});
    forall s | s in EdgesOf(db, id) ensures SupportRevisions(db, s, seen + {id}).Ok? {
      assert EdgeSound(db, s);
      if s.supportType.ObservationSupport? {
        assert s == SupportRef(ObservationSupport, s.id);
        assert Linked(db, id, s.id);
      }
    }
  }

  /** Every path from root is simple, avoids seen and ends in a complete observation. */
  ghost predicate PathsSound(db: Db, root: string, seen: set<string>) {
    forall p | Path(db, root, p) :: PathSound(db, p, seen)
  }

  lemma {:induction false} SoundResolves(db: Db, root: string, seen: set<string>)
    requires PathsSound(db, root, seen)
    ensures ObservationRevisions(db, root, seen).Ok?
    decreases ObservationIds(db) - seen
  {
    assert Path(db, root, [root]);
    assert PathSound(db, [root], seen);
    assert root in [root];
    ObservationHasId(db, root);
    assert root in (ObservationIds(db) - seen) - (ObservationIds(db) - (seen + {root}));
    forall b | Linked(db, root, b) ensures ObservationRevisions(db, b, seen + {root}).Ok? {
      forall q | Path(db, b, q) ensures PathSound(db, q, seen + {root}) { TailSound(db, root, b, q, seen); }
      SoundResolves(db, b, seen + {root});
    }
    NodeResolves(db, root, seen);
  }

  lemma TailSound(db: Db, root: string, b: string, q: seq<string>, seen: set<string>)
    requires PathsSound(db, root, seen) && Linked(db, root, b) && Path(db, b, q)
    ensures PathSound(db, q, seen + {root})
  {
    var p := [root] + q;
    PathExtends(db, root, b, q);
    assert PathSound(db, p, seen);
    assert p[0] == root && p[|p| - 1] == q[|q| - 1];
    assert forall i | 0 <= i < |q| :: q[i] == p[i + 1];
    forall x | x in q ensures x !in seen + {root} { assert x in p; }
  }

  /**
    Resolution succeeds exactly when the reachable support graph is acyclic and complete: every path
    of observation supports is simple, avoids what was already seen, and every observation on it
    exists, is supported, and has complete supports.
  */
  lemma ResolvesIffSound(db: Db, root: string, seen: set<string>)
    ensures ObservationRevisions(db, root, seen).Ok? <==> PathsSound(db, root, seen)
  {
    if ObservationRevisions(db, root, seen).Ok? {
      forall p | Path(db, root, p) ensures PathSound(db, p, seen) { ResolvedPath(db, root, seen, p); }
    }
    if PathsSound(db, root, seen) { SoundResolves(db, root, seen); }
  }

  /** p leads from root to an observation that rests on a leaf of revision r. */
  predicate LeafVia(db: Db, root: string, p: seq<string>, s: SupportRef, r: string) {
    && Path(db, root, p) && s in EdgesOf(db, p[|p| - 1])
    && !s.supportType.ObservationSupport? && LeafRevision(db, s) == Ok(r)
  }

  ghost predicate Rests(db: Db, root: string, r: string) {
    exists p, s :: LeafVia(db, root, p, s, r)
  }

  lemma {:induction false} LeafResolved(db: Db, root: string, seen: set<string>, p: seq<string>, s: SupportRef, r: string)
    requires ObservationRevisions(db, root, seen).Ok? && LeafVia(db, root, p, s, r)
    ensures r in ObservationRevisions(db, root, seen).value
    decreases |p|
  {
    ResolvedNode(db, root, seen);
    AllResolve(db, EdgesOf(db, root), seen + {root});
    if |p| == 1 {
      assert r in SupportRevisions(db, s, seen + {root}).value;
    } else {
      PathTail(db, root, p);
      LeafResolved(db, p[1], seen + {root}, p[1..], s, r);
      assert r in SupportRevisions(db, SupportRef(ObservationSupport, p[1]), seen + {root}).value;
    }
  }

  lemma {:induction false} ResolvedLeaf(db: Db, root: string, seen: set<string>, r: string)
    requires ObservationRevisions(db, root, seen).Ok? && r in ObservationRevisions(db, root, seen).value
    ensures Rests(db, root, r)
    decreases ObservationIds(db) - seen
  {
    ResolvedNode(db, root, seen);
    ObservationHasId(db, root);
    assert root in (ObservationIds(db) - seen) - (ObservationIds(db) - (seen + {root}));
    AllResolve(db, EdgesOf(db, root), seen + {root});
    var s :| s in EdgesOf(db, root) && r in SupportRevisions(db, s, seen + {root}).value;
    if s.supportType.ObservationSupport? {
      assert s == SupportRef(ObservationSupport, s.id);
      assert Linked(db, root, s.id);
      ResolvedLeaf(db, s.id, seen + {root}, r);
      var q, t :| LeafVia(db, s.id, q, t, r);
      PathExtends(db, root, s.id, q);
      assert LeafVia(db, root, [root] + q, t, r);
    } else {
      assert LeafVia(db, root, [root], s, r);
    }
  }

  /** What resolution returns is exactly the revisions of the reachable leaf evidence. */
  lemma ResolvesExactly(db: Db, root: string, seen: set<string>)
    requires ObservationRevisions(db, root, seen).Ok?
    ensures forall r :: r in ObservationRevisions(db, root, seen).value <==> Rests(db, root, r)
  {
    forall r | Rests(db, root, r) ensures r in ObservationRevisions(db, root, seen).value {
      var p, s :| LeafVia(db, root, p, s, r);
      LeafResolved(db, root, seen, p, s, r);
    }
    forall r | r in ObservationRevisions(db, root, seen).value ensures Rests(db, root, r) { ResolvedLeaf(db, root, seen, r); }
  }

  /** A resolved observation has at least one revision, so the check for none is dead code. */
  lemma {:induction false} ResolvedNotEmpty(db: Db, s: SupportRef, seen: set<string>)
    requires SupportRevisions(db, s, seen).Ok?
    ensures SupportRevisions(db, s, seen).value != {}
    decreases ObservationIds(db) - seen
  {
    if s.supportType.ObservationSupport? {
      var edges, next := EdgesOf(db, s.id), seen + {s.id};
      ObservationHasId(db, s.id);
      assert s.id in (ObservationIds(db) - seen) - (ObservationIds(db) - next);
      AllResolve(db, edges, next);
      assert edges[0] in edges;
      ResolvedNotEmpty(db, edges[0], next);
      var r :| r in SupportRevisions(db, edges[0], next).value;
      assert r in AllRevisions(db, edges, next).value;
    }
  }

  // ----- the resolver of the Pattern service -----

  datatype PatternError =
    | NoFact | NoAssertion | NoObservation | NoRun | RunNotComplete | NoArtifact | NoManifest | NoRevision | Unbound | Cycle
    | NoSupport

  type PatternResolved = Result<set<string>, PatternError>

  function CompleteRun(db: Db, id: string, expected: RunType): Result<(), PatternError> {
    var run := GetRun(db, id);
    if run.None? then Err(NoRun)
    else if run.value.runType != expected || !run.value.finished || !run.value.hasOutputs then Err(RunNotComplete)
    else Ok(())
  }

  function BoundRevision(db: Db, artifactId: string): Result<string, PatternError> {
    match GetArtifact(db, artifactId)
    case None => Err(NoArtifact)
    case Some(artifact) =>
      match GetManifest(db, artifact.captureId)
      case None => Err(NoManifest)
      case Some(manifest) =>
        if GetRevision(db, manifest.revisionId).None? then Err(NoRevision)
        else if !exists ref | ref in manifest.artifacts :: ref.artifactId == artifactId && ref.contentHash == Some(artifact.contentHash)
        then Err(Unbound)
        else Ok(manifest.revisionId)
  }

  function PatternSupport(db: Db, s: SupportRef, seen: set<string>): PatternResolved
    decreases ObservationIds(db) - seen, 1, 0
  {
    match s.supportType
    case EvidenceFact =>
      (match GetEvidence(db, FactKind, s.id)
       case None => Err(NoFact)
       case Some(fact) => PatternLeaf(db, fact))
    case SourceAssertion =>
      (match GetEvidence(db, AssertionKind, s.id)
       case None => Err(NoAssertion)
       case Some(assertion) => PatternLeaf(db, assertion))
    case ObservationSupport =>
      match GetObservation(db, s.id)
      case None => Err(NoObservation)
      case Some(nested) =>
        var run := CompleteRun(db, nested.runId, Reasoning);
        if run.Err? then Err(run.error) else PatternRevisions(db, s.id, seen)
  }

  function PatternLeaf(db: Db, e: Evidence): PatternResolved {
    var run := CompleteRun(db, e.runId, Extraction);
    if run.Err? then Err(run.error)
    else
      match BoundRevision(db, e.artifactId)
      case Err(error) => Err(error)
      case Ok(revision) => Ok({revision})
  }

  function PatternRevisions(db: Db, id: string, seen: set<string>): PatternResolved
    decreases ObservationIds(db) - seen, 0, 0
  {
    if id in seen then Err(Cycle)
    else if GetObservation(db, id).None? then Err(NoObservation)
    else if EdgesOf(db, id) == [] then Err(NoSupport)
    else
      ObservationHasId(db, id);
      assert id in (ObservationIds(db) - seen) - (ObservationIds(db) - (seen + {id}));
      PatternAll(db, EdgesOf(db, id), seen + {id})
  }

  function PatternAll(db: Db, supports: seq<SupportRef>, seen: set<string>): PatternResolved
    decreases ObservationIds(db) - seen, 2, |supports|
  {
    if supports == [] then Ok({})
    else
      var n := |supports| - 1;
      match PatternAll(db, supports[..n], seen)
      case Err(error) => Err(error)
      case Ok(before) =>
        match PatternSupport(db, supports[n], seen)
        case Err(error) => Err(error)
        case Ok(last) => Ok(before + last)
  }

  /** The same failure as the Observation service names it; the Pattern service tells fewer run failures apart, and more missing records. */
  predicate SameFailure(e: ResolveError, p: PatternError) {
    match p
    case NoFact => e.MissingSupport?
    case NoAssertion => e.MissingSupport?
    case NoObservation => e.MissingSupport? || e.MissingObservation?
    case NoRun => e.MissingRun?
    case RunNotComplete => e.WrongRunType? || e.IncompleteRun?
    case NoArtifact => e.MissingArtifact?
    case NoManifest => e.MissingManifest?
    case NoRevision => e.MissingRevision?
    case Unbound => e.NotContentBound?
    case Cycle => e.CycleDetected?
    case NoSupport => e.NoEdges?
  }

  predicate Agree(r: Resolved, p: PatternResolved) {
    match (r, p)
    case (Ok(a), Ok(b)) => a == b
    case (Err(e), Err(f)) => SameFailure(e, f)
    case _ => false
  }

  lemma LeavesAgree(db: Db, s: SupportRef, seen: set<string>)
    requires !s.supportType.ObservationSupport?
    ensures Agree(SupportRevisions(db, s, seen), PatternSupport(db, s, seen))
  {
    var e := GetEvidence(db, KindOf(s.supportType), s.id);
    if e.Some? {
      RunsAgree(db, e.value.runId, Extraction);
      ArtifactsAgree(db, e.value.artifactId);
    }
  }

  lemma RunsAgree(db: Db, id: string, expected: RunType)
    ensures RequireRun(db, id, expected).Ok? <==> CompleteRun(db, id, expected).Ok?
    ensures RequireRun(db, id, expected).Err? ==> SameFailure(RequireRun(db, id, expected).error, CompleteRun(db, id, expected).error)
  {}

  lemma ArtifactsAgree(db: Db, id: string)
    ensures ArtifactRevision(db, id).Ok? <==> BoundRevision(db, id).Ok?
    ensures ArtifactRevision(db, id).Ok? ==> ArtifactRevision(db, id).value == BoundRevision(db, id).value
    ensures ArtifactRevision(db, id).Err? ==> SameFailure(ArtifactRevision(db, id).error, BoundRevision(db, id).error)
  {
    var artifact := GetArtifact(db, id);
    if artifact.Some? {
      var manifest := GetManifest(db, artifact.value.captureId);
      if manifest.Some? {
        var ref := ArtifactRef(id, Some(artifact.value.contentHash));
        forall other | other in manifest.value.artifacts && other.artifactId == id && other.contentHash == Some(artifact.value.contentHash)
          ensures other == ref
        {}
      }
    }
  }

  /** The two resolvers agree on every store, observation and set of observations already seen, down to the failure. */
  lemma {:induction false} ResolversAgree(db: Db, id: string, seen: set<string>)
    ensures Agree(ObservationRevisions(db, id, seen), PatternRevisions(db, id, seen))
    decreases ObservationIds(db) - seen, 0, 0
  {
    if id !in seen && GetObservation(db, id).Some? && EdgesOf(db, id) != [] {
      ObservationHasId(db, id);
      assert id in (ObservationIds(db) - seen) - (ObservationIds(db) - (seen + {id}));
      ListsAgree(db, EdgesOf(db, id), seen + {id});
    }
  }

  lemma {:induction false} SupportsAgree(db: Db, s: SupportRef, seen: set<string>)
    ensures Agree(SupportRevisions(db, s, seen), PatternSupport(db, s, seen))
    decreases ObservationIds(db) - seen, 1, 0
  {
    if s.supportType.ObservationSupport? {
      if GetObservation(db, s.id).Some? { RunsAgree(db, GetObservation(db, s.id).value.runId, Reasoning); }
      ResolversAgree(db, s.id, seen);
    } else {
      LeavesAgree(db, s, seen);
    }
  }

  lemma {:induction false} ListsAgree(db: Db, supports: seq<SupportRef>, seen: set<string>)
    ensures Agree(AllRevisions(db, supports, seen), PatternAll(db, supports, seen))
    decreases ObservationIds(db) - seen, 2, |supports|
  {
    if supports != [] {
      var n := |supports| - 1;
      ListsAgree(db, supports[..n], seen);
      SupportsAgree(db, supports[n], seen);
    }
  }
}
