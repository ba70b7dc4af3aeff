/**
  Collecting the evidence of one capture and persisting it as a run that authenticates
  (src/lemmamind/extraction_diagnostics.py, src/lemmamind/change_intelligence.py).

  An extractor is a function of the artifact it is given: bytes are read from a
  content-addressed store, so they are determined by the artifact's content hash.
*/
module ExtractionRuns {
  import opened Wrappers
  import opened Orders
  import opened Texts
  import opened Digests
  import opened Store
  import opened Authentication
  import C = Changes

  // ----- collecting -----

  datatype Spec = FactOf(fact: FactSpec) | AssertionOf(assertion: AssertionSpec)

  /** Recoverable errors become diagnostics; any other exception propagates. */
  datatype Outcome = Extracted(specs: seq<Spec>) | Recoverable(errorType: string, errorMessage: string) | Fatal

  datatype Stored = Stored(id: string, captureId: string, locator: string, contentHash: string, media: string)

  datatype Extractor = Extractor(name: string, version: string, supports: Stored -> bool, extract: Stored -> Outcome)

  datatype Reference = Reference(artifactId: string, locator: string, status: C.Status, contentHash: string, media: string)

  datatype Manifest = Manifest(captureId: string, revisionId: string, references: seq<Reference>)

  datatype Collected = Collected(
    facts: seq<(string, FactSpec)>, assertions: seq<(string, AssertionSpec)>, diagnostics: seq<DiagnosticSpec>)

  datatype CollectError = MissingArtifact | ContractMismatch | Propagated

  predicate Matches(m: Manifest, r: Reference, a: Stored) {
    a.captureId == m.captureId && a.locator == r.locator && a.contentHash == r.contentHash && a.media == r.media
  }

  function OutcomeOf(e: Extractor, a: Stored): Outcome {
    if e.supports(a) then e.extract(a) else Extracted([])
  }

  function FactsIn(id: string): Spec -> seq<(string, FactSpec)> {
    (s: Spec) => if s.FactOf? then [(id, s.fact)] else []
  }

  function AssertionsIn(id: string): Spec -> seq<(string, AssertionSpec)> {
    (s: Spec) => if s.AssertionOf? then [(id, s.assertion)] else []
  }

  function SpecsFrom(a: Stored): Extractor -> seq<Spec> {
    (e: Extractor) => match OutcomeOf(e, a) case Extracted(specs) => specs case _ => []
  }

  function GapFrom(m: Manifest, a: Stored): Extractor -> seq<DiagnosticSpec> {
    (e: Extractor) =>
      match OutcomeOf(e, a)
      case Recoverable(errorType, errorMessage) =>
        [DiagnosticSpec(m.captureId, m.revisionId, a.id, a.locator, e.name, e.version, errorType, errorMessage)]
      case _ => []
  }

  type Artifacts = map<string, Stored>

  /** The artifacts of a manifest that are read, in manifest order. */
  function Read(artifacts: Artifacts): Reference -> seq<Stored> {
    (r: Reference) => if r.status.Captured? && r.artifactId in artifacts then [artifacts[r.artifactId]] else []
  }

  function FactsAt(es: seq<Extractor>): Stored -> seq<(string, FactSpec)> {
    (a: Stored) => FlatMap(FactsIn(a.id), FlatMap(SpecsFrom(a), es))
  }

  function AssertionsAt(es: seq<Extractor>): Stored -> seq<(string, AssertionSpec)> {
    (a: Stored) => FlatMap(AssertionsIn(a.id), FlatMap(SpecsFrom(a), es))
  }

  function GapsAt(m: Manifest, es: seq<Extractor>): Stored -> seq<DiagnosticSpec> {
    (a: Stored) => FlatMap(GapFrom(m, a), es)
  }

  function AllRead(m: Manifest, artifacts: Artifacts): seq<Stored> { FlatMap(Read(artifacts), m.references) }

  predicate Consistent(m: Manifest, artifacts: Artifacts, r: Reference) {
    r.status.Captured? ==> r.artifactId in artifacts && Matches(m, r, artifacts[r.artifactId])
  }

  predicate Survives(es: seq<Extractor>, a: Stored) {
    forall i | 0 <= i < |es| :: !OutcomeOf(es[i], a).Fatal?
  }

  predicate Collectable(m: Manifest, artifacts: Artifacts, es: seq<Extractor>, r: Reference) {
    Consistent(m, artifacts, r) && (r.status.Captured? ==> Survives(es, artifacts[r.artifactId]))
  }

  function CollectedFrom(m: Manifest, artifacts: Artifacts, es: seq<Extractor>): Collected {
    var read := AllRead(m, artifacts);
    Collected(FlatMap(FactsAt(es), read), FlatMap(AssertionsAt(es), read), SortBy(DiagnosticKey, FlatMap(GapsAt(m, es), read)))
  }

  /** The loop over what one extractor returned. */
  method SplitSpecs(id: string, specs: seq<Spec>) returns (facts: seq<(string, FactSpec)>, assertions: seq<(string, AssertionSpec)>)
    ensures facts == FlatMap(FactsIn(id), specs) && assertions == FlatMap(AssertionsIn(id), specs)
  {
    facts, assertions := [], [];
    for i := 0 to |specs|
      invariant facts == FlatMap(FactsIn(id), specs[..i]) && assertions == FlatMap(AssertionsIn(id), specs[..i])
    {
      FlatMapStep(FactsIn(id), specs, i);
      FlatMapStep(AssertionsIn(id), specs, i);
      match specs[i]
      case FactOf(fact) => facts := facts + [(id, fact)];
      case AssertionOf(assertion) => assertions := assertions + [(id, assertion)];
    }
    assert specs[..|specs|] == specs;
  }

  /** The loop over the extractors for one artifact. */
  method ReadArtifact(m: Manifest, a: Stored, es: seq<Extractor>)
    returns (r: Result<Collected, CollectError>)
    ensures r.Ok? <==> Survives(es, a)
    ensures r.Ok? ==> r.value == Collected(FactsAt(es)(a), AssertionsAt(es)(a), GapsAt(m, es)(a))
  {
    var facts: seq<(string, FactSpec)> := [];
    var assertions: seq<(string, AssertionSpec)> := [];
    var diagnostics: seq<DiagnosticSpec> := [];
    for i := 0 to |es|
      invariant forall k | 0 <= k < i :: !OutcomeOf(es[k], a).Fatal?
      invariant ReadSoFar(m, a, es[..i], facts, assertions, diagnostics)
    {
      var extractor := es[i];
      ReadStep(m, a, es, i, facts, assertions, diagnostics);
      if !extractor.supports(a) {
        assert facts + [] == facts && assertions + [] == assertions;
        continue;
      }
      match extractor.extract(a)
      case Fatal =>
        assert OutcomeOf(extractor, a).Fatal?;
        return Err(Propagated);
      case Recoverable(errorType, errorMessage) =>
        diagnostics := diagnostics
          + [DiagnosticSpec(m.captureId, m.revisionId, a.id, a.locator, extractor.name, extractor.version, errorType, errorMessage)];
      case Extracted(specs) =>
        var fs, ss := SplitSpecs(a.id, specs);
        facts := facts + fs;
        assertions := assertions + ss;
    }
    assert es[..|es|] == es;
    r := Ok(Collected(facts, assertions, diagnostics));
  }

  predicate ReadSoFar(
      m: Manifest, a: Stored, es: seq<Extractor>,
      facts: seq<(string, FactSpec)>, assertions: seq<(string, AssertionSpec)>, diagnostics: seq<DiagnosticSpec>)
  {
    facts == FactsAt(es)(a) && assertions == AssertionsAt(es)(a) && diagnostics == GapsAt(m, es)(a)
  }

  lemma ReadStep(
      m: Manifest, a: Stored, es: seq<Extractor>, i: nat,
      facts: seq<(string, FactSpec)>, assertions: seq<(string, AssertionSpec)>, diagnostics: seq<DiagnosticSpec>)
    requires i < |es| && ReadSoFar(m, a, es[..i], facts, assertions, diagnostics)
    ensures match OutcomeOf(es[i], a)
            case Extracted(specs) =>
              ReadSoFar(m, a, es[..i + 1], facts + FlatMap(FactsIn(a.id), specs), assertions + FlatMap(AssertionsIn(a.id), specs), diagnostics)
            case Recoverable(errorType, errorMessage) =>
              ReadSoFar(m, a, es[..i + 1], facts, assertions, diagnostics
                + [DiagnosticSpec(m.captureId, m.revisionId, a.id, a.locator, es[i].name, es[i].version, errorType, errorMessage)])
            case Fatal => true
  {
    FlatMapStep(SpecsFrom(a), es, i);
    FlatMapStep(GapFrom(m, a), es, i);
    FlatMapAppend(FactsIn(a.id), FlatMap(SpecsFrom(a), es[..i]), SpecsFrom(a)(es[i]));
    FlatMapAppend(AssertionsIn(a.id), FlatMap(SpecsFrom(a), es[..i]), SpecsFrom(a)(es[i]));
  }

  /** One captured reference: its artifact is looked up, compared and read. */
  method ReadReference(m: Manifest, artifacts: Artifacts, es: seq<Extractor>, reference: Reference) returns (r: Result<Collected, CollectError>)
    requires reference.status.Captured?
    ensures r.Ok? <==> Collectable(m, artifacts, es, reference)
    ensures r.Ok? ==> var a := artifacts[reference.artifactId]; r.value == Collected(FactsAt(es)(a), AssertionsAt(es)(a), GapsAt(m, es)(a))
  {
    if reference.artifactId !in artifacts { return Err(MissingArtifact); }
    var artifact := artifacts[reference.artifactId];
    if !Matches(m, reference, artifact) { return Err(ContractMismatch); }
    r := ReadArtifact(m, artifact, es);
  }

  /** What the references so far contribute. */
  ghost predicate CollectedSoFar(
      m: Manifest, artifacts: Artifacts, es: seq<Extractor>, references: seq<Reference>,
      facts: seq<(string, FactSpec)>, assertions: seq<(string, AssertionSpec)>, diagnostics: seq<DiagnosticSpec>)
  {
    && (forall r | r in references :: Collectable(m, artifacts, es, r))
    && Contributed(m, es, FlatMap(Read(artifacts), references), facts, assertions, diagnostics)
  }

  predicate Contributed(
      m: Manifest, es: seq<Extractor>, read: seq<Stored>,
      facts: seq<(string, FactSpec)>, assertions: seq<(string, AssertionSpec)>, diagnostics: seq<DiagnosticSpec>)
  {
    && facts == FlatMap(FactsAt(es), read) && assertions == FlatMap(AssertionsAt(es), read)
    && diagnostics == FlatMap(GapsAt(m, es), read)
  }

  lemma ReadMore(
      m: Manifest, es: seq<Extractor>, read: seq<Stored>, a: Stored,
      facts: seq<(string, FactSpec)>, assertions: seq<(string, AssertionSpec)>, diagnostics: seq<DiagnosticSpec>)
    requires Contributed(m, es, read, facts, assertions, diagnostics)
    ensures Contributed(m, es, read + [a], facts + FactsAt(es)(a), assertions + AssertionsAt(es)(a), diagnostics + GapsAt(m, es)(a))
  {
    FlatMapOne(FactsAt(es), read, a);
    FlatMapOne(AssertionsAt(es), read, a);
    FlatMapOne(GapsAt(m, es), read, a);
  }

  lemma CollectSkip(
      m: Manifest, artifacts: Artifacts, es: seq<Extractor>, i: nat,
      facts: seq<(string, FactSpec)>, assertions: seq<(string, AssertionSpec)>, diagnostics: seq<DiagnosticSpec>)
    requires i < |m.references| && !m.references[i].status.Captured?
    requires CollectedSoFar(m, artifacts, es, m.references[..i], facts, assertions, diagnostics)
    ensures CollectedSoFar(m, artifacts, es, m.references[..i + 1], facts, assertions, diagnostics)
  {
    CollectableStep(m, artifacts, es, i);
    FlatMapStep(Read(artifacts), m.references, i);
    assert FlatMap(Read(artifacts), m.references[..i + 1]) == FlatMap(Read(artifacts), m.references[..i]);
  }

  lemma CollectMore(
      m: Manifest, artifacts: Artifacts, es: seq<Extractor>, i: nat,
      facts: seq<(string, FactSpec)>, assertions: seq<(string, AssertionSpec)>, diagnostics: seq<DiagnosticSpec>)
    requires i < |m.references| && m.references[i].status.Captured? && Collectable(m, artifacts, es, m.references[i])
    requires CollectedSoFar(m, artifacts, es, m.references[..i], facts, assertions, diagnostics)
    ensures var a := artifacts[m.references[i].artifactId];
            CollectedSoFar(m, artifacts, es, m.references[..i + 1],
                           facts + FactsAt(es)(a), assertions + AssertionsAt(es)(a), diagnostics + GapsAt(m, es)(a))
  {
    var read, a := FlatMap(Read(artifacts), m.references[..i]), artifacts[m.references[i].artifactId];
    CollectableStep(m, artifacts, es, i);
    FlatMapStep(Read(artifacts), m.references, i);
    ReadMore(m, es, read, a, facts, assertions, diagnostics);
    assert FlatMap(Read(artifacts), m.references[..i + 1]) == read + [a];
  }

  lemma CollectableStep(m: Manifest, artifacts: Artifacts, es: seq<Extractor>, i: nat)
    requires i < |m.references| && Collectable(m, artifacts, es, m.references[i])
    requires forall r | r in m.references[..i] :: Collectable(m, artifacts, es, r)
    ensures forall r | r in m.references[..i + 1] :: Collectable(m, artifacts, es, r)
  {
    PrefixSnoc(m.references, i);
    assert forall q | q in m.references[..i + 1] :: q in m.references[..i] || q == m.references[i];
  }

  /** A failing extractor leaves a diagnostic and nothing else; every other one contributes all it found. */
  method Collect(m: Manifest, artifacts: Artifacts, es: seq<Extractor>) returns (r: Result<Collected, CollectError>)
    ensures r.Ok? <==> forall ref | ref in m.references :: Collectable(m, artifacts, es, ref)
    ensures r.Ok? ==> r.value == CollectedFrom(m, artifacts, es)
  {
    var facts: seq<(string, FactSpec)> := [];
    var assertions: seq<(string, AssertionSpec)> := [];
    var diagnostics: seq<DiagnosticSpec> := [];
    for i := 0 to |m.references|
      invariant CollectedSoFar(m, artifacts, es, m.references[..i], facts, assertions, diagnostics)
    {
      var reference := m.references[i];
      assert reference in m.references;
      if !reference.status.Captured? {
        CollectSkip(m, artifacts, es, i, facts, assertions, diagnostics);
        continue;
      }
      var one := ReadReference(m, artifacts, es, reference);
      if one.Err? { return Err(one.error); }
      CollectMore(m, artifacts, es, i, facts, assertions, diagnostics);
      facts := facts + one.value.facts;
      assertions := assertions + one.value.assertions;
      diagnostics := diagnostics + one.value.diagnostics;
    }
    assert m.references[..|m.references|] == m.references;
    r := Ok(Collected(facts, assertions, SortBy(DiagnosticKey, diagnostics)));
  }

  /** A gap is recorded exactly for the invocations that failed recoverably. */
  lemma GapsAreFailures(m: Manifest, artifacts: Artifacts, es: seq<Extractor>, d: DiagnosticSpec)
    ensures d in CollectedFrom(m, artifacts, es).diagnostics
            <==> exists i, j | 0 <= i < |AllRead(m, artifacts)| && 0 <= j < |es| ::
                   d in GapFrom(m, AllRead(m, artifacts)[i])(es[j])
  {
    var read := AllRead(m, artifacts);
    FlatMapMembers(GapsAt(m, es), read, d);
    forall i | 0 <= i < |read|
      ensures d in GapsAt(m, es)(read[i]) <==> exists j | 0 <= j < |es| :: d in GapFrom(m, read[i])(es[j])
    {
      FlatMapMembers(GapFrom(m, read[i]), es, d);
    }
  }

  // ----- what a record keeps of a spec -----

  /** The contracts strip white space off their identifier fields, the statement of an assertion included. */
  function KeptFact(s: FactSpec): FactSpec { s.(name := Strip(s.name), version := Strip(s.version)) }

  function KeptAssertion(s: AssertionSpec): AssertionSpec {
    s.(statement := Strip(s.statement), name := Strip(s.name), version := Strip(s.version))
  }

  function KeptDiagnostic(d: DiagnosticSpec): DiagnosticSpec {
    d.(captureId := Strip(d.captureId), revisionId := Strip(d.revisionId), artifactId := Strip(d.artifactId),
       name := Strip(d.name), version := Strip(d.version), errorType := Strip(d.errorType))
  }

  /** A blank identifier field, or an empty locator, keeps a record from being built. */
  predicate FactAllowed(artifactId: string, s: FactSpec) {
    Strip(artifactId) != "" && s.locator != "" && Strip(s.name) != "" && Strip(s.version) != ""
  }

  predicate AssertionAllowed(artifactId: string, s: AssertionSpec) {
    Strip(artifactId) != "" && s.locator != "" && Strip(s.statement) != "" && Strip(s.name) != "" && Strip(s.version) != ""
  }

  predicate DiagnosticAllowed(d: DiagnosticSpec) {
    && Strip(d.captureId) != "" && Strip(d.revisionId) != "" && Strip(d.artifactId) != "" && d.locator != ""
    && Strip(d.name) != "" && Strip(d.version) != "" && Strip(d.errorType) != ""
  }

  predicate Persistable(c: Collected) {
    && (forall p | p in c.facts :: FactAllowed(p.0, p.1))
    && (forall p | p in c.assertions :: AssertionAllowed(p.0, p.1))
    && (forall d | d in c.diagnostics :: DiagnosticAllowed(d))
  }

  /** Stripping changes none of the collected specs. */
  predicate Stripped(c: Collected) {
    && (forall s | s in Map(Second(), c.facts) :: KeptFact(s) == s)
    && (forall s | s in Map(Second(), c.assertions) :: KeptAssertion(s) == s)
    && (forall d | d in c.diagnostics :: KeptDiagnostic(d) == d)
  }

  // ----- persisting a run -----

  datatype Record =
    | FactRecord(artifactId: string, fact: FactSpec, run: string)
    | AssertionRecord(artifactId: string, assertion: AssertionSpec, run: string)
    | DiagnosticRecord(diagnostic: DiagnosticSpec, run: string)
    | RunRecord(outputs: Outputs, run: string)

  function FactRow(run: string): (nat, (string, FactSpec)) -> Row<Record> {
    (index: nat, p: (string, FactSpec)) =>
      Row(Name(FactKind, [Text("fact"), Text(run), Num(index), Text(p.1.name), Text(p.1.locator)]),
          FactRecord(Strip(p.0), KeptFact(p.1), run))
  }

  function AssertionRow(run: string): (nat, (string, AssertionSpec)) -> Row<Record> {
    (index: nat, p: (string, AssertionSpec)) =>
      Row(Name(AssertionKind, [Text("assertion"), Text(run), Num(index), Text(p.1.name), Text(p.1.locator)]),
          AssertionRecord(Strip(p.0), KeptAssertion(p.1), run))
  }

  function DiagnosticRow(run: string): (nat, DiagnosticSpec) -> Row<Record> {
    (index: nat, d: DiagnosticSpec) =>
      Row(Name(DiagnosticKind, [Text("diagnostic"), Text(run), Num(index), Text(d.captureId), Text(d.revisionId), Text(d.artifactId),
                                Text(d.name), Text(d.version), Text(d.errorType), Text(d.errorMessage)]),
          DiagnosticRecord(KeptDiagnostic(d), run))
  }

  function Second<S, T>(): ((S, T)) -> T { (p: (S, T)) => p.1 }

  function FactPairKey(stable: Printer): ((string, FactSpec)) -> Key { (p: (string, FactSpec)) => FactKey(stable)(p.1) }

  function AssertionPairKey(p: (string, AssertionSpec)): Key { AssertionKey(p.1) }

  function SortedFacts(stable: Printer, c: Collected): seq<(string, FactSpec)> { SortBy(FactPairKey(stable), c.facts) }

  function SortedAssertions(c: Collected): seq<(string, AssertionSpec)> { SortBy(AssertionPairKey, c.assertions) }

  function OutputsOf(stable: Printer, c: Collected): Outputs {
    Outputs(Map(Second(), SortedFacts(stable, c)), Map(Second(), SortedAssertions(c)), Some(c.diagnostics))
  }

  function RunRow(stable: Printer, run: string, c: Collected): Row<Record> {
    Row(Name(RunKind, [Text(run)]), RunRecord(OutputsOf(stable, c), run))
  }

  function BatchOf(stable: Printer, run: string, c: Collected): seq<Row<Record>> {
    Numbered(FactRow(run), SortedFacts(stable, c)) + Numbered(AssertionRow(run), SortedAssertions(c))
    + [RunRow(stable, run, c)]
    + Numbered(DiagnosticRow(run), c.diagnostics)
  }

  datatype PersistError = BlankField | Refused(error: StoreError)

  /** Records are built before anything is written, so a blank field leaves the store alone. */
  method PersistCollected(store: ContractStore<Record>, stable: Printer, run: string, c: Collected) returns (r: Result<nat, PersistError>)
    modifies store
    ensures r.Ok? <==> Persistable(c) && Store.Consistent(old(store.rows), BatchOf(stable, run, c))
    ensures r == Err(BlankField) <==> !Persistable(c)
    ensures store.rows == if r.Ok? then Insert(old(store.rows), BatchOf(stable, run, c)) else old(store.rows)
  {
    var facts := SortBy(FactPairKey(stable), c.facts);
    var assertions := SortBy(AssertionPairKey, c.assertions);
    var outputs := Outputs(Map(Second(), facts), Map(Second(), assertions), Some(c.diagnostics));
    if !Persistable(c) { return Err(BlankField); }
    var put := store.PutMany(Numbered(FactRow(run), facts) + Numbered(AssertionRow(run), assertions)
      + [Row(Name(RunKind, [Text(run)]), RunRecord(outputs, run))] + Numbered(DiagnosticRow(run), c.diagnostics));
    r := if put.Ok? then Ok(put.value) else Err(Refused(put.error));
  }

  // ----- sorting pairs by what their second part says -----

  lemma BelowOfMap<S, T>(key: T -> Key, pairKey: ((S, T)) -> Key, k: Key, s: seq<(S, T)>)
    requires forall p :: pairKey(p) == key(p.1)
    ensures Below(pairKey, k, s) == Below(key, k, Map(Second(), s))
  {
    if s != [] {
      BelowOfMap(key, pairKey, k, s[1..]);
      assert Map(Second(), s)[1..] == Map(Second(), s[1..]);
    }
  }

  lemma MapMiddle<S, T>(a: seq<(S, T)>, x: (S, T), b: seq<(S, T)>)
    ensures Map(Second(), a + [x] + b) == Map(Second(), a) + [x.1] + Map(Second(), b)
  {
    MapAppend(Second(), a + [x], b);
    MapAppend(Second(), a, [x]);
    assert Map(Second<S, T>(), [x]) == [x.1];
  }

  lemma MapAround<S, T>(x: (S, T), s: seq<(S, T)>, p: nat)
    requires p <= |s|
    ensures Map(Second(), s[..p] + [x] + s[p..]) == Map(Second(), s)[..p] + [x.1] + Map(Second(), s)[p..]
  {
    MapMiddle(s[..p], x, s[p..]);
    MapTakeDrop(Second(), s, p);
  }

  lemma InsertOfMap<S, T>(key: T -> Key, pairKey: ((S, T)) -> Key, x: (S, T), s: seq<(S, T)>)
    requires forall p :: pairKey(p) == key(p.1)
    ensures Map(Second(), InsertBy(pairKey, x, s)) == InsertBy(key, x.1, Map(Second(), s))
  {
    BelowOfMap(key, pairKey, key(x.1), s);
    MapAround(x, s, Below(pairKey, pairKey(x), s));
  }

  /** Sorting pairs by their second part and dropping the first is sorting the second parts. */
  lemma {:induction false} SortByOfMap<S(!new), T(!new)>(key: T -> Key, pairKey: ((S, T)) -> Key, s: seq<(S, T)>)
    requires forall p :: pairKey(p) == key(p.1)
    ensures Map(Second(), SortBy(pairKey, s)) == SortBy(key, Map(Second(), s))
  {
    if s != [] {
      SortByOfMap(key, pairKey, s[1..]);
      InsertOfMap(key, pairKey, s[0], SortBy(pairKey, s[1..]));
      assert Map(Second(), s)[1..] == Map(Second(), s[1..]);
    }
  }

  /** The hashed payload is the one recomputed from the collected specs. */
  lemma OutputsRecompute(stable: Printer, c: Collected)
    requires SortedBy(DiagnosticKey, c.diagnostics)
    ensures OutputsOf(stable, c) == Recompute(stable, Map(Second(), c.facts), Map(Second(), c.assertions), c.diagnostics)
  {
    SortByOfMap(FactKey(stable), FactPairKey(stable), c.facts);
    SortByOfMap(AssertionKey, AssertionPairKey, c.assertions);
    SortByKeeps(DiagnosticKey, c.diagnostics);
  }

  /** Sorting is stable: what is sorted already stays as it is. */
  lemma {:induction false} SortByKeeps<T(!new)>(key: T -> Key, s: seq<T>)
    requires SortedBy(key, s)
    ensures SortBy(key, s) == s
  {
    if s != [] {
      var rest := s[1..];
      SortByKeeps(key, rest);
      assert Below(key, key(s[0]), rest) == 0;
      assert rest[..0] + [s[0]] + rest[0..] == s;
    }
  }

  // ----- what a run left in the store -----

  function FactOfRun(run: string): Record -> seq<FactSpec> {
    (r: Record) => if r.FactRecord? && r.run == run then [r.fact] else []
  }

  function AssertionOfRun(run: string): Record -> seq<AssertionSpec> {
    (r: Record) => if r.AssertionRecord? && r.run == run then [r.assertion] else []
  }

  function DiagnosticOfRun(run: string): Record -> seq<DiagnosticSpec> {
    (r: Record) => if r.DiagnosticRecord? && r.run == run then [r.diagnostic] else []
  }

  function ListedFacts(rows: Rows<Record>, run: string): seq<FactSpec> { FlatMap(FactOfRun(run), Listing(rows, FactKind)) }

  function ListedAssertions(rows: Rows<Record>, run: string): seq<AssertionSpec> {
    FlatMap(AssertionOfRun(run), Listing(rows, AssertionKind))
  }

  function ListedDiagnostics(rows: Rows<Record>, run: string): seq<DiagnosticSpec> {
    FlatMap(DiagnosticOfRun(run), Listing(rows, DiagnosticKind))
  }

  predicate Authentic(rows: Rows<Record>, stable: Printer, run: string, outputs: Outputs) {
    outputs == Recompute(stable, ListedFacts(rows, run), ListedAssertions(rows, run), ListedDiagnostics(rows, run))
  }

  method Authenticate(store: ContractStore<Record>, stable: Printer, run: string, outputs: Outputs) returns (ok: bool)
    ensures ok == Authentic(store.rows, stable, run, outputs)
  {
    var facts := store.List(FactKind);
    var assertions := store.List(AssertionKind);
    var diagnostics := store.List(DiagnosticKind);
    ok := outputs == Recompute(stable, FlatMap(FactOfRun(run), facts), FlatMap(AssertionOfRun(run), assertions),
                               FlatMap(DiagnosticOfRun(run), diagnostics));
  }

  function FactKept(p: (string, FactSpec)): FactSpec { KeptFact(p.1) }

  function AssertionKept(p: (string, AssertionSpec)): AssertionSpec { KeptAssertion(p.1) }

  lemma FactRowsSkip<X>(kind: Kind, f: Record -> seq<X>, run: string, items: seq<(string, FactSpec)>)
    requires kind != FactKind
    ensures FlatMap(OfKind(kind, f), Numbered(FactRow(run), items)) == []
  {
    NothingRead(OfKind(kind, f), Numbered(FactRow(run), items));
  }

  lemma AssertionRowsSkip<X>(kind: Kind, f: Record -> seq<X>, run: string, items: seq<(string, AssertionSpec)>)
    requires kind != AssertionKind
    ensures FlatMap(OfKind(kind, f), Numbered(AssertionRow(run), items)) == []
  {
    NothingRead(OfKind(kind, f), Numbered(AssertionRow(run), items));
  }

  lemma DiagnosticRowsSkip<X>(kind: Kind, f: Record -> seq<X>, run: string, items: seq<DiagnosticSpec>)
    requires kind != DiagnosticKind
    ensures FlatMap(OfKind(kind, f), Numbered(DiagnosticRow(run), items)) == []
  {
    NothingRead(OfKind(kind, f), Numbered(DiagnosticRow(run), items));
  }

  lemma FactRowsRead(run: string, items: seq<(string, FactSpec)>)
    ensures FlatMap(OfKind(FactKind, FactOfRun(run)), Numbered(FactRow(run), items)) == Map(FactKept, items)
  {
    NumberedRead(OfKind(FactKind, FactOfRun(run)), FactRow(run), FactKept, items);
  }

  lemma AssertionRowsRead(run: string, items: seq<(string, AssertionSpec)>)
    ensures FlatMap(OfKind(AssertionKind, AssertionOfRun(run)), Numbered(AssertionRow(run), items)) == Map(AssertionKept, items)
  {
    NumberedRead(OfKind(AssertionKind, AssertionOfRun(run)), AssertionRow(run), AssertionKept, items);
  }

  lemma DiagnosticRowsRead(run: string, items: seq<DiagnosticSpec>)
    ensures FlatMap(OfKind(DiagnosticKind, DiagnosticOfRun(run)), Numbered(DiagnosticRow(run), items)) == Map(KeptDiagnostic, items)
  {
    NumberedRead(OfKind(DiagnosticKind, DiagnosticOfRun(run)), DiagnosticRow(run), KeptDiagnostic, items);
  }

  lemma PartsRead<X>(f: Row<Record> -> seq<X>, a: seq<Row<Record>>, b: seq<Row<Record>>, r: Row<Record>, d: seq<Row<Record>>)
    ensures FlatMap(f, a + b + [r] + d) == FlatMap(f, a) + FlatMap(f, b) + f(r) + FlatMap(f, d)
  {
    FlatMapAppend(f, a, b);
    FlatMapOne(f, a + b, r);
    FlatMapAppend(f, a + b + [r], d);
  }

  /** What f reads of a batch whose rows of all kinds but one it skips. */
  lemma OnlyFacts<X>(f: Row<Record> -> seq<X>, a: seq<Row<Record>>, b: seq<Row<Record>>, r: Row<Record>, d: seq<Row<Record>>)
    requires FlatMap(f, b) == [] && f(r) == [] && FlatMap(f, d) == []
    ensures FlatMap(f, a + b + [r] + d) == FlatMap(f, a)
  {
    PartsRead(f, a, b, r, d);
  }

  lemma OnlyAssertions<X>(f: Row<Record> -> seq<X>, a: seq<Row<Record>>, b: seq<Row<Record>>, r: Row<Record>, d: seq<Row<Record>>)
    requires FlatMap(f, a) == [] && f(r) == [] && FlatMap(f, d) == []
    ensures FlatMap(f, a + b + [r] + d) == FlatMap(f, b)
  {
    PartsRead(f, a, b, r, d);
  }

  lemma OnlyDiagnostics<X>(f: Row<Record> -> seq<X>, a: seq<Row<Record>>, b: seq<Row<Record>>, r: Row<Record>, d: seq<Row<Record>>)
    requires FlatMap(f, a) == [] && FlatMap(f, b) == [] && f(r) == []
    ensures FlatMap(f, a + b + [r] + d) == FlatMap(f, d)
  {
    PartsRead(f, a, b, r, d);
  }

  lemma ReadFacts(run: string, facts: seq<(string, FactSpec)>, assertions: seq<(string, AssertionSpec)>, r: Row<Record>,
                 diagnostics: seq<DiagnosticSpec>)
    requires r.name.kind == RunKind
    ensures FlatMap(OfKind(FactKind, FactOfRun(run)),
                    Numbered(FactRow(run), facts) + Numbered(AssertionRow(run), assertions) + [r] + Numbered(DiagnosticRow(run), diagnostics))
            == Map(FactKept, facts)
  {
    var f := OfKind(FactKind, FactOfRun(run));
    var a, b, d := Numbered(FactRow(run), facts), Numbered(AssertionRow(run), assertions), Numbered(DiagnosticRow(run), diagnostics);
    assert FlatMap(f, b) == [] by { AssertionRowsSkip(FactKind, FactOfRun(run), run, assertions); }
    assert FlatMap(f, d) == [] by { DiagnosticRowsSkip(FactKind, FactOfRun(run), run, diagnostics); }
    OnlyFacts(f, a, b, r, d);
    FactRowsRead(run, facts);
  }

  lemma BatchFacts(stable: Printer, run: string, c: Collected)
    ensures FlatMap(OfKind(FactKind, FactOfRun(run)), BatchOf(stable, run, c)) == Map(FactKept, SortedFacts(stable, c))
  {
    ReadFacts(run, SortedFacts(stable, c), SortedAssertions(c), RunRow(stable, run, c), c.diagnostics);
  }

  lemma ReadAssertions(run: string, facts: seq<(string, FactSpec)>, assertions: seq<(string, AssertionSpec)>, r: Row<Record>,
                      diagnostics: seq<DiagnosticSpec>)
    requires r.name.kind == RunKind
    ensures FlatMap(OfKind(AssertionKind, AssertionOfRun(run)),
                    Numbered(FactRow(run), facts) + Numbered(AssertionRow(run), assertions) + [r] + Numbered(DiagnosticRow(run), diagnostics))
            == Map(AssertionKept, assertions)
  {
    var f := OfKind(AssertionKind, AssertionOfRun(run));
    var a, b, d := Numbered(FactRow(run), facts), Numbered(AssertionRow(run), assertions), Numbered(DiagnosticRow(run), diagnostics);
    assert FlatMap(f, a) == [] by { FactRowsSkip(AssertionKind, AssertionOfRun(run), run, facts); }
    assert FlatMap(f, d) == [] by { DiagnosticRowsSkip(AssertionKind, AssertionOfRun(run), run, diagnostics); }
    OnlyAssertions(f, a, b, r, d);
    AssertionRowsRead(run, assertions);
  }

  lemma BatchAssertions(stable: Printer, run: string, c: Collected)
    ensures FlatMap(OfKind(AssertionKind, AssertionOfRun(run)), BatchOf(stable, run, c)) == Map(AssertionKept, SortedAssertions(c))
  {
    ReadAssertions(run, SortedFacts(stable, c), SortedAssertions(c), RunRow(stable, run, c), c.diagnostics);
  }

  lemma ReadDiagnostics(run: string, facts: seq<(string, FactSpec)>, assertions: seq<(string, AssertionSpec)>, r: Row<Record>,
                       diagnostics: seq<DiagnosticSpec>)
    requires r.name.kind == RunKind
    ensures FlatMap(OfKind(DiagnosticKind, DiagnosticOfRun(run)),
                    Numbered(FactRow(run), facts) + Numbered(AssertionRow(run), assertions) + [r] + Numbered(DiagnosticRow(run), diagnostics))
            == Map(KeptDiagnostic, diagnostics)
  {
    var f := OfKind(DiagnosticKind, DiagnosticOfRun(run));
    var a, b, d := Numbered(FactRow(run), facts), Numbered(AssertionRow(run), assertions), Numbered(DiagnosticRow(run), diagnostics);
    assert FlatMap(f, a) == [] by { FactRowsSkip(DiagnosticKind, DiagnosticOfRun(run), run, facts); }
    assert FlatMap(f, b) == [] by { AssertionRowsSkip(DiagnosticKind, DiagnosticOfRun(run), run, assertions); }
    OnlyDiagnostics(f, a, b, r, d);
    DiagnosticRowsRead(run, diagnostics);
  }

  lemma BatchDiagnostics(stable: Printer, run: string, c: Collected)
    ensures FlatMap(OfKind(DiagnosticKind, DiagnosticOfRun(run)), BatchOf(stable, run, c)) == Map(KeptDiagnostic, c.diagnostics)
  {
    ReadDiagnostics(run, SortedFacts(stable, c), SortedAssertions(c), RunRow(stable, run, c), c.diagnostics);
  }

  /** No record of the store belongs to the run. */
  predicate Untouched(rows: Rows<Record>, run: string) {
    forall n | n in rows :: rows[n].run != run
  }

  predicate Foreign(batch: seq<Row<Record>>, run: string) {
    forall i | 0 <= i < |batch| :: batch[i].body.run != run
  }

  lemma UntouchedReads(rows: Rows<Record>, run: string)
    requires Untouched(rows, run)
    ensures ListedFacts(rows, run) == [] && ListedAssertions(rows, run) == [] && ListedDiagnostics(rows, run) == []
  {
    forall kind, i | 0 <= i < |Listing(rows, kind)| ensures Listing(rows, kind)[i].run != run {
      ListingMember(rows, kind, Listing(rows, kind)[i]);
    }
    NothingRead(FactOfRun(run), Listing(rows, FactKind));
    NothingRead(AssertionOfRun(run), Listing(rows, AssertionKind));
    NothingRead(DiagnosticOfRun(run), Listing(rows, DiagnosticKind));
  }

  /** The store lists exactly the collected specs under the run, in some order. */
  predicate Lists(rows: Rows<Record>, run: string, c: Collected) {
    && multiset(ListedFacts(rows, run)) == multiset(Map(Second(), c.facts))
    && multiset(ListedAssertions(rows, run)) == multiset(Map(Second(), c.assertions))
    && multiset(ListedDiagnostics(rows, run)) == multiset(c.diagnostics)
  }

  /** The store lists exactly what records keep of the collected specs. */
  predicate ListsKept(rows: Rows<Record>, run: string, c: Collected) {
    && multiset(ListedFacts(rows, run)) == multiset(Map(FactKept, c.facts))
    && multiset(ListedAssertions(rows, run)) == multiset(Map(AssertionKept, c.assertions))
    && multiset(ListedDiagnostics(rows, run)) == multiset(Map(KeptDiagnostic, c.diagnostics))
  }

  /** A run persisted under new names is listed as its stripped specs: none lost, none added. */
  lemma PersistedIsListed(rows: Rows<Record>, stable: Printer, run: string, c: Collected)
    requires Untouched(rows, run) && NewNames(rows, BatchOf(stable, run, c))
    ensures ListsKept(Insert(rows, BatchOf(stable, run, c)), run, c)
  {
    var batch := BatchOf(stable, run, c);
    UntouchedReads(rows, run);
    ListingAfter(rows, batch, FactKind, FactOfRun(run));
    ListingAfter(rows, batch, AssertionKind, AssertionOfRun(run));
    ListingAfter(rows, batch, DiagnosticKind, DiagnosticOfRun(run));
    BatchFacts(stable, run, c);
    BatchAssertions(stable, run, c);
    BatchDiagnostics(stable, run, c);
    MapMultiset(FactKept, SortedFacts(stable, c), c.facts);
    MapMultiset(AssertionKept, SortedAssertions(c), c.assertions);
  }

  lemma ForeignReads<X>(kind: Kind, f: Record -> seq<X>, later: seq<Row<Record>>, run: string)
    requires Foreign(later, run) && forall r: Record | r.run != run :: f(r) == []
    ensures FlatMap(OfKind(kind, f), later) == []
  {
    NothingRead(OfKind(kind, f), later);
  }

  /** Records of other runs change nothing of what is listed for this one. */
  lemma ForeignKeeps(rows: Rows<Record>, later: seq<Row<Record>>, run: string, c: Collected)
    requires NewNames(rows, later) && Foreign(later, run) && ListsKept(rows, run, c)
    ensures ListsKept(Insert(rows, later), run, c)
  {
    ListingAfter(rows, later, FactKind, FactOfRun(run));
    ListingAfter(rows, later, AssertionKind, AssertionOfRun(run));
    ListingAfter(rows, later, DiagnosticKind, DiagnosticOfRun(run));
    ForeignReads(FactKind, FactOfRun(run), later, run);
    ForeignReads(AssertionKind, AssertionOfRun(run), later, run);
    ForeignReads(DiagnosticKind, DiagnosticOfRun(run), later, run);
  }

  /**
    Authentication is exact. In any store, a run whose sort keys decide its records authenticates
    against its recorded payload if and only if the store lists exactly the records that were hashed,
    whatever order it lists them in.
  */
  lemma AuthenticIffListed(rows: Rows<Record>, stable: Printer, run: string, c: Collected)
    requires SortedBy(DiagnosticKey, c.diagnostics)
    requires KeysDecide(stable, Map(Second(), c.facts), Map(Second(), c.assertions), c.diagnostics)
    ensures Authentic(rows, stable, run, OutputsOf(stable, c)) <==> Lists(rows, run, c)
  {
    OutputsRecompute(stable, c);
    var facts, assertions := Map(Second(), c.facts), Map(Second(), c.assertions);
    var lf, la, ld := ListedFacts(rows, run), ListedAssertions(rows, run), ListedDiagnostics(rows, run);
    if Authentic(rows, stable, run, OutputsOf(stable, c)) {
      AuthenticIsUntampered(stable, facts, assertions, c.diagnostics, lf, la, ld);
    }
    if Lists(rows, run, c) {
      AnyOrderAuthenticates(stable, facts, assertions, c.diagnostics, lf, la, ld);
    }
  }

  /** Records built from specs hold the same specs if and only if stripping changes none of them. */
  lemma KeptSame<T(!new)>(keep: T -> T, s: seq<T>)
    requires forall x :: keep(keep(x)) == keep(x)
    ensures multiset(Map(keep, s)) == multiset(s) <==> forall x | x in s :: keep(x) == x
  {
    if multiset(Map(keep, s)) == multiset(s) {
      forall x | x in s ensures keep(x) == x {
        MultisetMembers(Map(keep, s), s);
        var i :| 0 <= i < |s| && Map(keep, s)[i] == x;
        assert x == keep(s[i]);
      }
    }
    if forall x | x in s :: keep(x) == x { assert Map(keep, s) == s; }
  }

  lemma KeepingIsIdempotent()
    ensures forall s :: KeptFact(KeptFact(s)) == KeptFact(s)
    ensures forall s :: KeptAssertion(KeptAssertion(s)) == KeptAssertion(s)
    ensures forall d :: KeptDiagnostic(KeptDiagnostic(d)) == KeptDiagnostic(d)
  {
    forall s ensures KeptFact(KeptFact(s)) == KeptFact(s) {
      StripIdempotent(s.name);
      StripIdempotent(s.version);
    }
    forall s ensures KeptAssertion(KeptAssertion(s)) == KeptAssertion(s) {
      StripIdempotent(s.statement);
      StripIdempotent(s.name);
      StripIdempotent(s.version);
    }
    forall d ensures KeptDiagnostic(KeptDiagnostic(d)) == KeptDiagnostic(d) { DiagnosticIdempotent(d); }
  }

  lemma DiagnosticIdempotent(d: DiagnosticSpec)
    ensures KeptDiagnostic(KeptDiagnostic(d)) == KeptDiagnostic(d)
  {
    StripIdempotent(d.captureId);
    StripIdempotent(d.revisionId);
    StripIdempotent(d.artifactId);
    StripIdempotent(d.name);
    StripIdempotent(d.version);
    StripIdempotent(d.errorType);
  }

  /** Listing the kept specs is listing the specs exactly when all of them are stripped. */
  lemma ListsIffStripped(rows: Rows<Record>, run: string, c: Collected)
    requires ListsKept(rows, run, c)
    ensures Lists(rows, run, c) <==> Stripped(c)
  {
    FactsKeptSame(c.facts);
    AssertionsKeptSame(c.assertions);
    DiagnosticsKeptSame(c.diagnostics);
  }

  lemma FactsKeptSame(s: seq<(string, FactSpec)>)
    ensures multiset(Map(FactKept, s)) == multiset(Map(Second(), s)) <==> forall x | x in Map(Second(), s) :: KeptFact(x) == x
  {
    KeepingIsIdempotent();
    KeptSame(KeptFact, Map(Second(), s));
    assert Map(FactKept, s) == Map(KeptFact, Map(Second(), s));
  }

  lemma AssertionsKeptSame(s: seq<(string, AssertionSpec)>)
    ensures multiset(Map(AssertionKept, s)) == multiset(Map(Second(), s)) <==> forall x | x in Map(Second(), s) :: KeptAssertion(x) == x
  {
    KeepingIsIdempotent();
    KeptSame(KeptAssertion, Map(Second(), s));
    assert Map(AssertionKept, s) == Map(KeptAssertion, Map(Second(), s));
  }

  lemma DiagnosticsKeptSame(s: seq<DiagnosticSpec>)
    ensures multiset(Map(KeptDiagnostic, s)) == multiset(s) <==> forall x | x in s :: KeptDiagnostic(x) == x
  {
    KeepingIsIdempotent();
    KeptSame(KeptDiagnostic, s);
  }

  /**
    A persisted run authenticates if and only if stripping changed none of its specs, and whatever other
    runs are persisted after it: the payload is hashed over the specs, and recomputed from the records.
  */
  lemma PersistedAuthenticates(rows: Rows<Record>, stable: Printer, run: string, c: Collected, later: seq<Row<Record>>)
    requires Untouched(rows, run) && NewNames(rows, BatchOf(stable, run, c)) && SortedBy(DiagnosticKey, c.diagnostics)
    requires KeysDecide(stable, Map(Second(), c.facts), Map(Second(), c.assertions), c.diagnostics)
    requires NewNames(Insert(rows, BatchOf(stable, run, c)), later) && Foreign(later, run)
    ensures Authentic(Insert(Insert(rows, BatchOf(stable, run, c)), later), stable, run, OutputsOf(stable, c)) <==> Stripped(c)
  {
    var after := Insert(Insert(rows, BatchOf(stable, run, c)), later);
    PersistedIsListed(rows, stable, run, c);
    ForeignKeeps(Insert(rows, BatchOf(stable, run, c)), later, run, c);
    AuthenticIffListed(after, stable, run, c);
    ListsIffStripped(after, run, c);
  }

  /** The assertion of a module whose documentation string ends in a line break and an indent. */
  const DOCSTRING := AssertionSpec("m.py:L1-L3", "Doc.\n    ", "python-docstring", "1")

  function DocstringRun(): Collected { Collected([], [("a", DOCSTRING)], []) }

  /** One captured Python file with an ordinary documentation string: the run is persisted and never authenticates. */
  lemma DocstringNeverAuthenticates(stable: Printer, run: string)
    ensures Persistable(DocstringRun()) && NewNames(map[], BatchOf(stable, run, DocstringRun()))
    ensures !Authentic(Insert(map[], BatchOf(stable, run, DocstringRun())), stable, run, OutputsOf(stable, DocstringRun()))
  {
    DocstringPersists();
    BatchNamesNew(map[], stable, run, DocstringRun());
    NothingLater(map[], stable, run, DocstringRun());
  }

  lemma DocstringPersists()
    ensures Persistable(DocstringRun()) && !Stripped(DocstringRun()) && DocstringRun().facts == [] && DocstringRun().diagnostics == []
    ensures Map(Second(), DocstringRun().assertions) == [DOCSTRING]
  {
    DocstringStripped();
    assert DOCSTRING in Map(Second(), DocstringRun().assertions);
  }

  /** The same with nothing persisted afterwards, for a run of one assertion. */
  lemma NothingLater(rows: Rows<Record>, stable: Printer, run: string, c: Collected)
    requires Untouched(rows, run) && NewNames(rows, BatchOf(stable, run, c))
    requires c.facts == [] && c.diagnostics == [] && |c.assertions| == 1
    ensures Authentic(Insert(rows, BatchOf(stable, run, c)), stable, run, OutputsOf(stable, c)) <==> Stripped(c)
  {
    var empty: seq<Row<Record>> := [];
    assert |Map(Second(), c.assertions)| == 1;
    PersistedAuthenticates(rows, stable, run, c, empty);
  }

  lemma DocstringStripped()
    ensures Strip(DOCSTRING.statement) == "Doc." != DOCSTRING.statement
    ensures Strip(DOCSTRING.name) == DOCSTRING.name && Strip(DOCSTRING.version) == DOCSTRING.version && Strip("a") == "a"
  {
    var s := DOCSTRING.statement;
    assert s[..|s| - 1] == "Doc.\n   " && "Doc.\n   "[..7] == "Doc.\n  " && "Doc.\n  "[..6] == "Doc.\n " && "Doc.\n "[..5] == "Doc.\n";
    assert "Doc.\n"[..4] == "Doc.";
  }

  /** A blank documentation string is no statement at all, so its run is not persisted. */
  lemma BlankDocstringRefused(facts: seq<(string, FactSpec)>, artifactId: string)
    ensures !Persistable(Collected(facts, [(artifactId, DOCSTRING.(statement := "\n"))], []))
  {
    assert LStrip("\n") == LStrip("");
    assert (artifactId, DOCSTRING.(statement := "\n")) in [(artifactId, DOCSTRING.(statement := "\n"))];
  }

  /** A strict run has no diagnostics entry in its payload, so it never authenticates as a gap-tolerant one. */
  lemma StrictNeverAuthentic(rows: Rows<Record>, stable: Printer, run: string, outputs: Outputs)
    requires outputs.diagnostics.None?
    ensures !Authentic(rows, stable, run, outputs)
  {}

  /** The kind of a row and the number in its id tell the rows of one batch apart. */
  function PositionOf(n: Name): (Kind, Atom) { (n.kind, if |n.id| > 2 then n.id[2] else Num(0)) }

  predicate Apart(s: seq<Row<Record>>) {
    forall i, j | 0 <= i < j < |s| :: PositionOf(s[i].name) != PositionOf(s[j].name)
  }

  predicate OfOneKind(s: seq<Row<Record>>, kind: Kind) {
    forall i | 0 <= i < |s| :: s[i].name.kind == kind
  }

  predicate Lacks(s: seq<Row<Record>>, kind: Kind) {
    forall i | 0 <= i < |s| :: s[i].name.kind != kind
  }

  lemma AppendApart(a: seq<Row<Record>>, b: seq<Row<Record>>, kind: Kind)
    requires Apart(a) && Apart(b) && Lacks(a, kind) && OfOneKind(b, kind)
    ensures Apart(a + b)
    ensures forall k | k != kind && Lacks(a, k) :: Lacks(a + b, k)
  {}

  lemma NumberedApart<T(!new)>(row: (nat, T) -> Row<Record>, kind: Kind, items: seq<T>)
    requires forall i: nat, x :: PositionOf(row(i, x).name) == (kind, Num(i))
    ensures Apart(Numbered(row, items)) && OfOneKind(Numbered(row, items), kind)
  {
    var rows := Numbered(row, items);
    assert forall i | 0 <= i < |rows| :: PositionOf(rows[i].name) == (kind, Num(i + 1));
  }

  lemma PartsApart(f: seq<Row<Record>>, a: seq<Row<Record>>, r: Row<Record>, d: seq<Row<Record>>)
    requires Apart(f) && OfOneKind(f, FactKind) && Apart(a) && OfOneKind(a, AssertionKind)
    requires r.name.kind == RunKind && Apart(d) && OfOneKind(d, DiagnosticKind)
    ensures Apart(f + a + [r] + d)
  {
    AppendApart(f, a, AssertionKind);
    AppendApart(f + a, [r], RunKind);
    AppendApart(f + a + [r], d, DiagnosticKind);
  }

  lemma ApartNamesNew(rows: Rows<Record>, batch: seq<Row<Record>>)
    requires Apart(batch) && forall i | 0 <= i < |batch| :: batch[i].name !in rows
    ensures NewNames(rows, batch)
  {
    forall i, j | 0 <= i < j < |batch| ensures batch[i].name != batch[j].name {
      assert PositionOf(batch[i].name) != PositionOf(batch[j].name);
    }
  }

  /** A batch has new names whenever the store holds none of them. */
  lemma BatchNamesNew(rows: Rows<Record>, stable: Printer, run: string, c: Collected)
    requires forall i | 0 <= i < |BatchOf(stable, run, c)| :: BatchOf(stable, run, c)[i].name !in rows
    ensures NewNames(rows, BatchOf(stable, run, c))
  {
    assert Apart(BatchOf(stable, run, c)) by { BatchApart(stable, run, c); }
    ApartNamesNew(rows, BatchOf(stable, run, c));
  }

  lemma BatchApart(stable: Printer, run: string, c: Collected)
    ensures Apart(BatchOf(stable, run, c))
  {
    FactsApart(run, SortedFacts(stable, c));
    AssertionsApart(run, SortedAssertions(c));
    DiagnosticsApart(run, c.diagnostics);
    PartsApart(Numbered(FactRow(run), SortedFacts(stable, c)), Numbered(AssertionRow(run), SortedAssertions(c)),
               RunRow(stable, run, c), Numbered(DiagnosticRow(run), c.diagnostics));
  }

  lemma FactsApart(run: string, items: seq<(string, FactSpec)>)
    ensures Apart(Numbered(FactRow(run), items)) && OfOneKind(Numbered(FactRow(run), items), FactKind)
  {
    NumberedApart(FactRow(run), FactKind, items);
  }

  lemma AssertionsApart(run: string, items: seq<(string, AssertionSpec)>)
    ensures Apart(Numbered(AssertionRow(run), items)) && OfOneKind(Numbered(AssertionRow(run), items), AssertionKind)
  {
    NumberedApart(AssertionRow(run), AssertionKind, items);
  }

  lemma DiagnosticsApart(run: string, items: seq<DiagnosticSpec>)
    ensures Apart(Numbered(DiagnosticRow(run), items)) && OfOneKind(Numbered(DiagnosticRow(run), items), DiagnosticKind)
  {
    NumberedApart(DiagnosticRow(run), DiagnosticKind, items);
  }
}
