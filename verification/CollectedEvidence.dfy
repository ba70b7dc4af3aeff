/**
  What a collection holds and what its records say, in terms of the manifest, the artifacts and the extractors
  (src/lemmamind/extraction_diagnostics.py).
*/
module CollectedEvidence {
  import opened Wrappers
  import opened Orders
  import opened Texts
  import opened Digests
  import opened Store
  import opened Authentication
  import opened LineLocators
  import E = ExtractionRuns

  // ----- what is collected -----

  /** The i-th reference is captured and names the artifact a. */
  predicate Names(m: E.Manifest, artifacts: E.Artifacts, i: nat, a: E.Stored) {
    && i < |m.references| && m.references[i].status.Captured?
    && m.references[i].artifactId in artifacts && artifacts[m.references[i].artifactId] == a
  }

  /** The extractor takes the artifact, and what it returns holds the spec. */
  predicate Yields(e: E.Extractor, a: E.Stored, s: E.Spec) {
    e.supports(a) && e.extract(a).Extracted? && s in e.extract(a).specs
  }

  /** The extractor takes the artifact and fails on it recoverably; the diagnostic says where and how. */
  predicate Gap(m: E.Manifest, e: E.Extractor, a: E.Stored, d: DiagnosticSpec) {
    && e.supports(a) && e.extract(a).Recoverable?
    && d.captureId == m.captureId && d.revisionId == m.revisionId && d.artifactId == a.id && d.locator == a.locator
    && d.name == e.name && d.version == e.version
    && d.errorType == e.extract(a).errorType && d.errorMessage == e.extract(a).errorMessage
  }

  lemma ReadIsNamed(m: E.Manifest, artifacts: E.Artifacts, a: E.Stored)
    ensures a in E.AllRead(m, artifacts) <==> exists i: nat :: Names(m, artifacts, i, a)
  {
    FlatMapMembers(E.Read(artifacts), m.references, a);
    if i: nat :| Names(m, artifacts, i, a) { assert a in E.Read(artifacts)(m.references[i]); }
    if i :| 0 <= i < |m.references| && a in E.Read(artifacts)(m.references[i]) { assert Names(m, artifacts, i, a); }
  }

  lemma SpecYielded(a: E.Stored, es: seq<E.Extractor>, s: E.Spec)
    ensures s in FlatMap(E.SpecsFrom(a), es) <==> exists j | 0 <= j < |es| :: Yields(es[j], a, s)
  {
    FlatMapMembers(E.SpecsFrom(a), es, s);
    forall j | 0 <= j < |es| ensures s in E.SpecsFrom(a)(es[j]) <==> Yields(es[j], a, s) {}
  }

  lemma FactHere(a: E.Stored, es: seq<E.Extractor>, id: string, f: FactSpec)
    ensures (id, f) in E.FactsAt(es)(a) <==> id == a.id && exists j | 0 <= j < |es| :: Yields(es[j], a, E.FactOf(f))
  {
    var specs := FlatMap(E.SpecsFrom(a), es);
    FlatMapMembers(E.FactsIn(a.id), specs, (id, f));
    SpecYielded(a, es, E.FactOf(f));
    if id == a.id && E.FactOf(f) in specs {
      var k :| 0 <= k < |specs| && specs[k] == E.FactOf(f);
      assert (id, f) in E.FactsIn(a.id)(specs[k]);
    }
  }

  lemma AssertionHere(a: E.Stored, es: seq<E.Extractor>, id: string, s: AssertionSpec)
    ensures (id, s) in E.AssertionsAt(es)(a) <==> id == a.id && exists j | 0 <= j < |es| :: Yields(es[j], a, E.AssertionOf(s))
  {
    var specs := FlatMap(E.SpecsFrom(a), es);
    FlatMapMembers(E.AssertionsIn(a.id), specs, (id, s));
    SpecYielded(a, es, E.AssertionOf(s));
    if id == a.id && E.AssertionOf(s) in specs {
      var k :| 0 <= k < |specs| && specs[k] == E.AssertionOf(s);
      assert (id, s) in E.AssertionsIn(a.id)(specs[k]);
    }
  }

  lemma GapHere(m: E.Manifest, a: E.Stored, es: seq<E.Extractor>, d: DiagnosticSpec)
    ensures d in E.GapsAt(m, es)(a) <==> exists j | 0 <= j < |es| :: Gap(m, es[j], a, d)
  {
    FlatMapMembers(E.GapFrom(m, a), es, d);
    forall j | 0 <= j < |es| ensures d in E.GapFrom(m, a)(es[j]) <==> Gap(m, es[j], a, d) {}
  }

  lemma ReadMember<X(!new)>(m: E.Manifest, artifacts: E.Artifacts, f: E.Stored -> seq<X>, x: X)
    ensures x in FlatMap(f, E.AllRead(m, artifacts)) <==> exists i: nat, a :: Names(m, artifacts, i, a) && x in f(a)
  {
    var read := E.AllRead(m, artifacts);
    FlatMapMembers(f, read, x);
    if k :| 0 <= k < |read| && x in f(read[k]) {
      assert read[k] in read;
      ReadIsNamed(m, artifacts, read[k]);
    }
    if i: nat, a :| Names(m, artifacts, i, a) && x in f(a) {
      ReadIsNamed(m, artifacts, a);
      var k :| 0 <= k < |read| && read[k] == a;
    }
  }

  /** A fact is collected, under the id of its artifact, exactly when some extractor yields it on an artifact the manifest names. */
  lemma FactCollected(m: E.Manifest, artifacts: E.Artifacts, es: seq<E.Extractor>, id: string, f: FactSpec)
    ensures (id, f) in E.CollectedFrom(m, artifacts, es).facts
            <==> exists i: nat, a, j | Names(m, artifacts, i, a) && 0 <= j < |es| :: a.id == id && Yields(es[j], a, E.FactOf(f))
  {
    ReadMember(m, artifacts, E.FactsAt(es), (id, f));
    if i: nat, a :| Names(m, artifacts, i, a) && (id, f) in E.FactsAt(es)(a) { FactHere(a, es, id, f); }
    if i: nat, a, j :| Names(m, artifacts, i, a) && 0 <= j < |es| && a.id == id && Yields(es[j], a, E.FactOf(f)) { FactHere(a, es, id, f); }
  }

  lemma AssertionCollected(m: E.Manifest, artifacts: E.Artifacts, es: seq<E.Extractor>, id: string, s: AssertionSpec)
    ensures (id, s) in E.CollectedFrom(m, artifacts, es).assertions
            <==> exists i: nat, a, j | Names(m, artifacts, i, a) && 0 <= j < |es| :: a.id == id && Yields(es[j], a, E.AssertionOf(s))
  {
    ReadMember(m, artifacts, E.AssertionsAt(es), (id, s));
    if i: nat, a :| Names(m, artifacts, i, a) && (id, s) in E.AssertionsAt(es)(a) { AssertionHere(a, es, id, s); }
    if i: nat, a, j :| Names(m, artifacts, i, a) && 0 <= j < |es| && a.id == id && Yields(es[j], a, E.AssertionOf(s)) {
      AssertionHere(a, es, id, s);
    }
  }

  /** A diagnostic is collected exactly when some extractor failed so on an artifact the manifest names. */
  lemma GapCollected(m: E.Manifest, artifacts: E.Artifacts, es: seq<E.Extractor>, d: DiagnosticSpec)
    ensures d in E.CollectedFrom(m, artifacts, es).diagnostics
            <==> exists i: nat, a, j | Names(m, artifacts, i, a) && 0 <= j < |es| :: Gap(m, es[j], a, d)
  {
    ReadMember(m, artifacts, E.GapsAt(m, es), d);
    if i: nat, a :| Names(m, artifacts, i, a) && d in E.GapsAt(m, es)(a) { GapHere(m, a, es, d); }
    if i: nat, a, j :| Names(m, artifacts, i, a) && 0 <= j < |es| && Gap(m, es[j], a, d) { GapHere(m, a, es, d); }
  }

  // ----- in which order and how often -----

  lemma {:induction false} SharedCount(id: string, specs: seq<E.Spec>)
    ensures |FlatMap(E.FactsIn(id), specs)| + |FlatMap(E.AssertionsIn(id), specs)| == |specs|
  {
    if specs != [] { SharedCount(id, specs[..|specs| - 1]); }
  }

  /** What an extractor returned is shared out: each spec goes to one of the two lists, once and in order. */
  lemma SpecsShared(id: string, specs: seq<E.Spec>, k: nat)
    requires k < |specs|
    ensures var facts, assertions := FlatMap(E.FactsIn(id), specs), FlatMap(E.AssertionsIn(id), specs);
            && |facts| + |assertions| == |specs|
            && var f, a := |FlatMap(E.FactsIn(id), specs[..k])|, |FlatMap(E.AssertionsIn(id), specs[..k])|;
               && f + a == k
               && match specs[k]
                  case FactOf(fact) => f < |facts| && facts[f] == (id, fact)
                  case AssertionOf(assertion) => a < |assertions| && assertions[a] == (id, assertion)
  {
    SharedCount(id, specs);
    SharedCount(id, specs[..k]);
    PartAt(E.FactsIn(id), specs, k);
    PartAt(E.AssertionsIn(id), specs, k);
  }

  lemma PartAt<T, U>(f: T -> seq<U>, s: seq<T>, k: nat)
    requires k < |s|
    ensures |FlatMap(f, s[..k])| + |f(s[k])| <= |FlatMap(f, s)|
    ensures forall j | 0 <= j < |f(s[k])| :: FlatMap(f, s)[|FlatMap(f, s[..k])| + j] == f(s[k])[j]
    ensures f(s[k]) != [] ==> FlatMap(f, s)[|FlatMap(f, s[..k])|] == f(s[k])[0]
  {
    AroundIndex(s, k);
    FlatMapAppend(f, s[..k] + [s[k]], s[k + 1..]);
    FlatMapOne(f, s[..k], s[k]);
  }

  // ----- sort keys -----

  /** What the three sort keys look at. */
  lemma KeysCompare(stable: Printer, f: FactSpec, g: FactSpec, d: DiagnosticSpec, e: DiagnosticSpec)
    ensures FactKey(stable)(f) == FactKey(stable)(g)
            <==> f.name == g.name && f.locator == g.locator && stable(f.normalized) == stable(g.normalized)
    ensures DiagnosticKey(d) == DiagnosticKey(e)
            <==> && d.locator == e.locator && d.name == e.name && d.version == e.version
                 && d.errorType == e.errorType && d.errorMessage == e.errorMessage
  {
    var x, y, u, v := FactKey(stable)(f), FactKey(stable)(g), DiagnosticKey(d), DiagnosticKey(e);
    if x == y { assert x[0] == y[0] && x[1] == y[1] && x[2] == y[2]; }
    if u == v { assert u[0] == v[0] && u[1] == v[1] && u[2] == v[2] && u[3] == v[3] && u[4] == v[4]; }
  }

  // ----- what is recorded -----

  type Db = Rows<E.Record>

  /** The record of a fact: its identifier fields stripped, everything else as collected. */
  predicate FactHeld(r: E.Record, run: string, id: string, f: FactSpec) {
    && r.FactRecord? && r.run == run && r.artifactId == Strip(id)
    && r.fact.locator == f.locator && r.fact.raw == f.raw && r.fact.normalized == f.normalized
    && r.fact.name == Strip(f.name) && r.fact.version == Strip(f.version)
  }

  predicate AssertionHeld(r: E.Record, run: string, id: string, s: AssertionSpec) {
    && r.AssertionRecord? && r.run == run && r.artifactId == Strip(id)
    && r.assertion.locator == s.locator && r.assertion.statement == Strip(s.statement)
    && r.assertion.name == Strip(s.name) && r.assertion.version == Strip(s.version)
  }

  predicate DiagnosticHeld(r: E.Record, run: string, d: DiagnosticSpec) {
    && r.DiagnosticRecord? && r.run == run
    && r.diagnostic.captureId == Strip(d.captureId) && r.diagnostic.revisionId == Strip(d.revisionId)
    && r.diagnostic.artifactId == Strip(d.artifactId) && r.diagnostic.locator == d.locator
    && r.diagnostic.name == Strip(d.name) && r.diagnostic.version == Strip(d.version)
    && r.diagnostic.errorType == Strip(d.errorType) && r.diagnostic.errorMessage == d.errorMessage
  }

  /** A record that the collection accounts for. */
  ghost predicate Accounted(stable: Printer, run: string, c: E.Collected, r: E.Record) {
    || (exists p | p in c.facts :: FactHeld(r, run, p.0, p.1))
    || (exists p | p in c.assertions :: AssertionHeld(r, run, p.0, p.1))
    || (exists d | d in c.diagnostics :: DiagnosticHeld(r, run, d))
    || r == E.RunRecord(E.OutputsOf(stable, c), run)
  }

  lemma FactRows(stable: Printer, run: string, c: E.Collected, r: Row<E.Record>)
    requires r in Numbered(E.FactRow(run), E.SortedFacts(stable, c))
    ensures exists p | p in c.facts :: FactHeld(r.body, run, p.0, p.1)
  {
    var sorted, rows := E.SortedFacts(stable, c), Numbered(E.FactRow(run), E.SortedFacts(stable, c));
    var i :| 0 <= i < |rows| && rows[i] == r;
    assert sorted[i] in sorted && FactHeld(r.body, run, sorted[i].0, sorted[i].1);
  }

  lemma AssertionRows(run: string, c: E.Collected, r: Row<E.Record>)
    requires r in Numbered(E.AssertionRow(run), E.SortedAssertions(c))
    ensures exists p | p in c.assertions :: AssertionHeld(r.body, run, p.0, p.1)
  {
    var sorted, rows := E.SortedAssertions(c), Numbered(E.AssertionRow(run), E.SortedAssertions(c));
    var i :| 0 <= i < |rows| && rows[i] == r;
    assert sorted[i] in sorted && AssertionHeld(r.body, run, sorted[i].0, sorted[i].1);
  }

  lemma DiagnosticRows(run: string, c: E.Collected, r: Row<E.Record>)
    requires r in Numbered(E.DiagnosticRow(run), c.diagnostics)
    ensures exists d | d in c.diagnostics :: DiagnosticHeld(r.body, run, d)
  {
    var rows := Numbered(E.DiagnosticRow(run), c.diagnostics);
    var i :| 0 <= i < |rows| && rows[i] == r;
    assert c.diagnostics[i] in c.diagnostics && DiagnosticHeld(r.body, run, c.diagnostics[i]);
  }

  lemma BatchRows(stable: Printer, run: string, c: E.Collected)
    ensures forall r :: r in E.BatchOf(stable, run, c)
              <==> || r in Numbered(E.FactRow(run), E.SortedFacts(stable, c)) || r in Numbered(E.AssertionRow(run), E.SortedAssertions(c))
                   || r == E.RunRow(stable, run, c) || r in Numbered(E.DiagnosticRow(run), c.diagnostics)
  {}

  lemma RowAccounted(stable: Printer, run: string, c: E.Collected, r: Row<E.Record>)
    requires r in E.BatchOf(stable, run, c)
    ensures Accounted(stable, run, c, r.body)
  {
    BatchRows(stable, run, c);
    if r in Numbered(E.FactRow(run), E.SortedFacts(stable, c)) {
      FactRows(stable, run, c, r);
    } else if r in Numbered(E.AssertionRow(run), E.SortedAssertions(c)) {
      AssertionRows(run, c, r);
    } else if r in Numbered(E.DiagnosticRow(run), c.diagnostics) {
      DiagnosticRows(run, c, r);
    }
  }

  lemma RowFound(db: Db, stable: Printer, run: string, c: E.Collected, r: Row<E.Record>)
    requires NewNames(db, E.BatchOf(stable, run, c))
    requires || r in Numbered(E.FactRow(run), E.SortedFacts(stable, c)) || r in Numbered(E.AssertionRow(run), E.SortedAssertions(c))
             || r in Numbered(E.DiagnosticRow(run), c.diagnostics)
    ensures r.name in Insert(db, E.BatchOf(stable, run, c)) && Insert(db, E.BatchOf(stable, run, c))[r.name] == r.body
  {
    BatchRows(stable, run, c);
    NewNamesConsistent(db, E.BatchOf(stable, run, c));
    InsertFinds(db, E.BatchOf(stable, run, c), r);
  }

  lemma FactWritten(db: Db, stable: Printer, run: string, c: E.Collected, p: (string, FactSpec))
    requires NewNames(db, E.BatchOf(stable, run, c)) && p in c.facts
    ensures exists n | n in Insert(db, E.BatchOf(stable, run, c)) :: FactHeld(Insert(db, E.BatchOf(stable, run, c))[n], run, p.0, p.1)
  {
    var sorted, rows := E.SortedFacts(stable, c), Numbered(E.FactRow(run), E.SortedFacts(stable, c));
    var i :| 0 <= i < |sorted| && sorted[i] == p;
    assert rows[i] in rows;
    RowFound(db, stable, run, c, rows[i]);
  }

  lemma AssertionWritten(db: Db, stable: Printer, run: string, c: E.Collected, p: (string, AssertionSpec))
    requires NewNames(db, E.BatchOf(stable, run, c)) && p in c.assertions
    ensures exists n | n in Insert(db, E.BatchOf(stable, run, c)) :: AssertionHeld(Insert(db, E.BatchOf(stable, run, c))[n], run, p.0, p.1)
  {
    var sorted, rows := E.SortedAssertions(c), Numbered(E.AssertionRow(run), E.SortedAssertions(c));
    var i :| 0 <= i < |sorted| && sorted[i] == p;
    assert rows[i] in rows;
    RowFound(db, stable, run, c, rows[i]);
  }

  lemma DiagnosticWritten(db: Db, stable: Printer, run: string, c: E.Collected, d: DiagnosticSpec)
    requires NewNames(db, E.BatchOf(stable, run, c)) && d in c.diagnostics
    ensures exists n | n in Insert(db, E.BatchOf(stable, run, c)) :: DiagnosticHeld(Insert(db, E.BatchOf(stable, run, c))[n], run, d)
  {
    var rows := Numbered(E.DiagnosticRow(run), c.diagnostics);
    var i :| 0 <= i < |rows| && c.diagnostics[i] == d;
    assert rows[i] in rows;
    RowFound(db, stable, run, c, rows[i]);
  }

  /** A run persisted under new names has a record for everything collected, under the artifact it came from, and no other. */
  lemma CollectionIsRecorded(db: Db, stable: Printer, run: string, c: E.Collected)
    requires NewNames(db, E.BatchOf(stable, run, c))
    ensures var after := Insert(db, E.BatchOf(stable, run, c));
            && (forall p | p in c.facts :: exists n | n in after :: FactHeld(after[n], run, p.0, p.1))
            && (forall p | p in c.assertions :: exists n | n in after :: AssertionHeld(after[n], run, p.0, p.1))
            && (forall d | d in c.diagnostics :: exists n | n in after :: DiagnosticHeld(after[n], run, d))
            && (forall n | n in after && n !in db :: Accounted(stable, run, c, after[n]))
            && |after| == |db| + |c.facts| + |c.assertions| + |c.diagnostics| + 1
  {
    var batch := E.BatchOf(stable, run, c);
    var after := Insert(db, batch);
    NewNamesConsistent(db, batch);
    forall p | p in c.facts ensures exists n | n in after :: FactHeld(after[n], run, p.0, p.1) { FactWritten(db, stable, run, c, p); }
    forall p | p in c.assertions ensures exists n | n in after :: AssertionHeld(after[n], run, p.0, p.1) { AssertionWritten(db, stable, run, c, p); }
    forall d | d in c.diagnostics ensures exists n | n in after :: DiagnosticHeld(after[n], run, d) { DiagnosticWritten(db, stable, run, c, d); }
    forall n | n in after && n !in db ensures Accounted(stable, run, c, after[n]) {
      NameBefore(db, batch, n);
      var i :| 0 <= i < |batch| && batch[i].name == n;
      InsertFinds(db, batch, batch[i]);
      RowAccounted(stable, run, c, batch[i]);
    }
    NewRowsCount(db, batch);
  }

  lemma {:induction false} NewRowsCount(db: Db, batch: seq<Row<E.Record>>)
    requires NewNames(db, batch)
    ensures |Insert(db, batch)| == |db| + |batch|
  {
    if batch != [] {
      var init, last := batch[..|batch| - 1], batch[|batch| - 1];
      NewRowsCount(db, init);
      NameBefore(db, init, last.name);
    }
  }
}
