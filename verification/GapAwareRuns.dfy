/**
  Which paths gap-aware comparison leaves out: from failing extractors to the excluded set
  (src/lemmamind/extraction_diagnostics.py, src/lemmamind/gap_aware_change.py,
  src/lemmamind/change_intelligence.py).
*/
module GapAwareRuns {
  import opened Wrappers
  import opened Orders
  import opened Store
  import opened Authentication
  import opened ExtractionRuns
  import C = Changes
  import D = Determinism

  function AsDiagnostic(d: DiagnosticSpec): D.Diagnostic {
    D.Diagnostic(d.captureId, d.revisionId, d.artifactId, d.locator, d.name, d.version, d.errorType, d.errorMessage)
  }

  /** The stored diagnostics of the run all belong to the capture and to the profile. */
  predicate NoFault(rows: Rows<Record>, run: string, c: C.Capture, profile: set<(string, string)>) {
    forall d | d in ListedDiagnostics(rows, run) :: D.Fault(c, profile, AsDiagnostic(d)).None?
  }

  function GapPaths(rows: Rows<Record>, run: string): set<string> { set d | d in ListedDiagnostics(rows, run) :: d.locator }

  /** The paths one generation excludes, read off the store; the run must authenticate. */
  method ExcludedPaths(
      store: ContractStore<Record>, stable: Printer, run: string, outputs: Outputs, c: C.Capture, profile: set<(string, string)>)
    returns (r: Result<set<string>, C.ChangeError>)
    ensures r.Ok? <==> Authentic(store.rows, stable, run, outputs) && NoFault(store.rows, run, c, profile)
    ensures r.Ok? ==> r.value == GapPaths(store.rows, run) && r.value <= C.Locators(c)
  {
    var listed := store.List(DiagnosticKind);
    var specs := FlatMap(DiagnosticOfRun(run), listed);
    var diagnostics := Map(AsDiagnostic, specs);
    var authentic := Authenticate(store, stable, run, outputs);
    r := D.DiagnosticPaths(c, profile, diagnostics, authentic);
    MappedDiagnostics(specs);
  }

  lemma MappedDiagnostics(specs: seq<DiagnosticSpec>)
    ensures forall d | d in specs :: AsDiagnostic(d) in Map(AsDiagnostic, specs)
    ensures forall x | x in Map(AsDiagnostic, specs) :: exists d :: d in specs && AsDiagnostic(d) == x
    ensures (set x | x in Map(AsDiagnostic, specs) :: x.locator) == (set d | d in specs :: d.locator)
  {
    var mapped := Map(AsDiagnostic, specs);
    forall d | d in specs ensures AsDiagnostic(d) in mapped {
      var i :| 0 <= i < |specs| && specs[i] == d;
      assert mapped[i] == AsDiagnostic(d);
    }
    forall x | x in mapped ensures exists d :: d in specs && AsDiagnostic(d) == x {
      var i :| 0 <= i < |mapped| && mapped[i] == x;
      assert AsDiagnostic(specs[i]) == x;
    }
    var a, b := set x | x in mapped :: x.locator, set d | d in specs :: d.locator;
    forall l | l in a ensures l in b {
      var x :| x in mapped && x.locator == l;
      var d :| d in specs && AsDiagnostic(d) == x;
      assert d.locator == l;
    }
    forall l | l in b ensures l in a {
      var d :| d in specs && d.locator == l;
      assert AsDiagnostic(d).locator == l;
    }
  }

  // ----- from failing extractors -----

  /** The capture that was extracted: its artifacts are the ones that were read. */
  predicate CaptureOf(c: C.Capture, m: Manifest, artifacts: Artifacts) {
    && c.id == m.captureId && c.revision == m.revisionId
    && forall a | a in AllRead(m, artifacts) ::
         var found := C.CapturedById(c.artifacts, a.id); found.Some? && found.value.locator == a.locator
  }

  /** An extractor of the profile failed recoverably on an artifact at the path. */
  ghost predicate Gap(m: Manifest, artifacts: Artifacts, es: seq<Extractor>, path: string) {
    exists i, j | 0 <= i < |AllRead(m, artifacts)| && 0 <= j < |es| ::
      OutcomeOf(es[j], AllRead(m, artifacts)[i]).Recoverable? && AllRead(m, artifacts)[i].locator == path
  }

  function ProfileOf(es: seq<Extractor>): set<(string, string)> { set e | e in Map(Described, es) :: e }

  function Described(e: Extractor): (string, string) { (e.name, e.version) }

  lemma ProfileHolds(es: seq<Extractor>, j: nat)
    requires j < |es|
    ensures (es[j].name, es[j].version) in ProfileOf(es)
  {
    assert Map(Described, es)[j] == (es[j].name, es[j].version);
    assert Map(Described, es)[j] in Map(Described, es);
  }

  /** A recorded gap names its capture, its artifact and its extractor, so it is never taken for a foreign one. */
  lemma GapHasNoFault(c: C.Capture, m: Manifest, artifacts: Artifacts, es: seq<Extractor>, d: DiagnosticSpec)
    requires CaptureOf(c, m, artifacts) && d in CollectedFrom(m, artifacts, es).diagnostics
    ensures D.Fault(c, ProfileOf(es), AsDiagnostic(d)).None? && Gap(m, artifacts, es, d.locator)
  {
    GapsAreFailures(m, artifacts, es, d);
    var i, j :| 0 <= i < |AllRead(m, artifacts)| && 0 <= j < |es| && d in GapFrom(m, AllRead(m, artifacts)[i])(es[j]);
    var a := AllRead(m, artifacts)[i];
    assert a in AllRead(m, artifacts);
    ProfileHolds(es, j);
    FromFailure(m, a, es[j], d);
    OwnGap(c, m, a, es, d);
  }

  lemma FromFailure(m: Manifest, a: Stored, e: Extractor, d: DiagnosticSpec)
    requires d in GapFrom(m, a)(e)
    ensures OutcomeOf(e, a).Recoverable? && d.captureId == m.captureId && d.revisionId == m.revisionId
    ensures d.artifactId == a.id && d.locator == a.locator && (d.name, d.version) == (e.name, e.version)
  {}

  lemma OwnGap(c: C.Capture, m: Manifest, a: Stored, es: seq<Extractor>, d: DiagnosticSpec)
    requires c.id == m.captureId == d.captureId && c.revision == m.revisionId == d.revisionId
    requires d.artifactId == a.id && d.locator == a.locator && (d.name, d.version) in ProfileOf(es)
    requires C.CapturedById(c.artifacts, a.id).Some? && C.CapturedById(c.artifacts, a.id).value.locator == a.locator
    ensures D.Fault(c, ProfileOf(es), AsDiagnostic(d)).None?
  {}

  lemma GapIsRecorded(m: Manifest, artifacts: Artifacts, es: seq<Extractor>, path: string)
    requires Gap(m, artifacts, es, path)
    ensures exists d | d in CollectedFrom(m, artifacts, es).diagnostics :: d.locator == path
  {
    var i, j :| 0 <= i < |AllRead(m, artifacts)| && 0 <= j < |es|
                && OutcomeOf(es[j], AllRead(m, artifacts)[i]).Recoverable? && AllRead(m, artifacts)[i].locator == path;
    var d := GapFrom(m, AllRead(m, artifacts)[i])(es[j])[0];
    GapsAreFailures(m, artifacts, es, d);
    assert d in GapFrom(m, AllRead(m, artifacts)[i])(es[j]);
  }

  /**
    Gap-aware comparison leaves out exactly the paths on which an extractor failed. For a run whose store
    lists what was collected, the excluded paths can be computed and are those of the recoverable failures.
  */
  lemma ExcludedAreGaps(
      rows: Rows<Record>, stable: Printer, run: string, c: C.Capture, m: Manifest, artifacts: Artifacts, es: seq<Extractor>)
    requires CaptureOf(c, m, artifacts) && Lists(rows, run, CollectedFrom(m, artifacts, es))
    requires var k := CollectedFrom(m, artifacts, es);
             KeysDecide(stable, Map(Second(), k.facts), Map(Second(), k.assertions), k.diagnostics)
    ensures Authentic(rows, stable, run, OutputsOf(stable, CollectedFrom(m, artifacts, es))) && NoFault(rows, run, c, ProfileOf(es))
    ensures forall path :: path in GapPaths(rows, run) <==> Gap(m, artifacts, es, path)
  {
    var k := CollectedFrom(m, artifacts, es);
    AuthenticIffListed(rows, stable, run, k);
    MultisetMembers(ListedDiagnostics(rows, run), k.diagnostics);
    forall d | d in ListedDiagnostics(rows, run)
      ensures D.Fault(c, ProfileOf(es), AsDiagnostic(d)).None? && Gap(m, artifacts, es, d.locator)
    {
      GapHasNoFault(c, m, artifacts, es, d);
    }
    forall path | Gap(m, artifacts, es, path) ensures path in GapPaths(rows, run) {
      GapIsRecorded(m, artifacts, es, path);
      var d :| d in k.diagnostics && d.locator == path;
      assert d in ListedDiagnostics(rows, run);
    }
  }
}
