/**
  Gap-tolerant extraction runs and the authentication of their stored outputs
  (src/lemmamind/extraction_diagnostics.py, src/lemmamind/change_intelligence.py,
  src/lemmamind/extraction.py).

  `outputs_hash` is the digest of a payload and is modelled by that payload. `stable` prints
  a normalized value; nothing is assumed of it.
*/
module Authentication {
  import opened Wrappers
  import opened Orders
  import opened Digests
  import opened Json
  import opened LineLocators
  import opened Store

  // ----- what is extracted -----

  datatype FactSpec = FactSpec(locator: string, raw: Json, normalized: Json, name: string, version: string)

  datatype AssertionSpec = AssertionSpec(locator: string, statement: string, name: string, version: string)

  datatype DiagnosticSpec = DiagnosticSpec(
    captureId: string, revisionId: string, artifactId: string, locator: string, name: string, version: string,
    errorType: string, errorMessage: string)

  type Printer = Json -> string

  function FactKey(stable: Printer): FactSpec -> Key {
    (s: FactSpec) => [Text(s.name), Text(s.locator), Text(stable(s.normalized))]
  }

  function AssertionKey(s: AssertionSpec): Key {
    match ReadRange(s.locator)
    case None => [Text(s.locator), Num(-1), Num(-1), Text(s.name), Text(s.statement)]
    case Some(r) => [Text(r.path), Num(r.first), Num(r.last), Text(s.name), Text(s.statement)]
  }

  function DiagnosticKey(d: DiagnosticSpec): Key {
    [Text(d.locator), Text(d.name), Text(d.version), Text(d.errorType), Text(d.errorMessage)]
  }

  /** The hashed payload of a run; a strict run has no diagnostics entry at all. */
  datatype Outputs = Outputs(facts: seq<FactSpec>, assertions: seq<AssertionSpec>, diagnostics: Option<seq<DiagnosticSpec>>)

  /** The payload recomputed from the records a store lists. */
  function Recompute(stable: Printer, facts: seq<FactSpec>, assertions: seq<AssertionSpec>, diagnostics: seq<DiagnosticSpec>): Outputs {
    Outputs(SortBy(FactKey(stable), facts), SortBy(AssertionKey, assertions), Some(SortBy(DiagnosticKey, diagnostics)))
  }

  // ----- authentication against the records of a run -----

  /** Sorting two listings gives the same list exactly when they hold the same records, if keys decide records. */
  lemma SortAgrees<T(!new)>(key: T -> Key, a: seq<T>, b: seq<T>)
    ensures SortBy(key, a) == SortBy(key, b) ==> multiset(a) == multiset(b)
    ensures multiset(a) == multiset(b) && KeyDetermines(key, Itself(), a) ==> SortBy(key, a) == SortBy(key, b)
  {
    if multiset(a) == multiset(b) && KeyDetermines(key, Itself(), a) {
      SortForgetsOrder(key, Itself(), a, b);
      MapItself(SortBy(key, a));
      MapItself(SortBy(key, b));
    }
  }

  /** No two hashed records of a run share a sort key without being equal. */
  predicate KeysDecide(stable: Printer, facts: seq<FactSpec>, assertions: seq<AssertionSpec>, diagnostics: seq<DiagnosticSpec>) {
    && KeyDetermines(FactKey(stable), Itself(), facts)
    && KeyDetermines(AssertionKey, Itself(), assertions)
    && KeyDetermines(DiagnosticKey, Itself(), diagnostics)
  }

  /** A listing that authenticates holds exactly the hashed records: nothing added, dropped or altered. */
  lemma AuthenticIsUntampered(
      stable: Printer, facts: seq<FactSpec>, assertions: seq<AssertionSpec>, diagnostics: seq<DiagnosticSpec>,
      listedFacts: seq<FactSpec>, listedAssertions: seq<AssertionSpec>, listedDiagnostics: seq<DiagnosticSpec>)
    requires Recompute(stable, listedFacts, listedAssertions, listedDiagnostics) == Recompute(stable, facts, assertions, diagnostics)
    ensures multiset(listedFacts) == multiset(facts) && multiset(listedAssertions) == multiset(assertions)
    ensures multiset(listedDiagnostics) == multiset(diagnostics)
  {
    SortAgrees(FactKey(stable), facts, listedFacts);
    SortAgrees(AssertionKey, assertions, listedAssertions);
    SortAgrees(DiagnosticKey, diagnostics, listedDiagnostics);
  }

  /** When keys decide records, whatever order a store lists them in reproduces the payload. */
  lemma AnyOrderAuthenticates(
      stable: Printer, facts: seq<FactSpec>, assertions: seq<AssertionSpec>, diagnostics: seq<DiagnosticSpec>,
      listedFacts: seq<FactSpec>, listedAssertions: seq<AssertionSpec>, listedDiagnostics: seq<DiagnosticSpec>)
    requires KeysDecide(stable, facts, assertions, diagnostics)
    requires multiset(listedFacts) == multiset(facts) && multiset(listedAssertions) == multiset(assertions)
    requires multiset(listedDiagnostics) == multiset(diagnostics)
    ensures Recompute(stable, listedFacts, listedAssertions, listedDiagnostics) == Recompute(stable, facts, assertions, diagnostics)
  {
    SortAgrees(FactKey(stable), facts, listedFacts);
    SortAgrees(AssertionKey, assertions, listedAssertions);
    SortAgrees(DiagnosticKey, diagnostics, listedDiagnostics);
  }

  /** Otherwise the outcome depends on the listing order: some listing of the same records does not authenticate. */
  lemma SomeOrderFails(stable: Printer, facts: seq<FactSpec>, assertions: seq<AssertionSpec>, diagnostics: seq<DiagnosticSpec>)
      returns (f: seq<FactSpec>, a: seq<AssertionSpec>, d: seq<DiagnosticSpec>)
    requires !KeysDecide(stable, facts, assertions, diagnostics)
    ensures multiset(f) == multiset(facts) && multiset(a) == multiset(assertions) && multiset(d) == multiset(diagnostics)
    ensures Recompute(stable, f, a, d) != Recompute(stable, facts, assertions, diagnostics)
  {
    f, a, d := facts, assertions, diagnostics;
    if !KeyDetermines(FactKey(stable), Itself(), facts) {
      f := DisorderedBy(FactKey(stable), facts);
    } else if !KeyDetermines(AssertionKey, Itself(), assertions) {
      a := DisorderedBy(AssertionKey, assertions);
    } else {
      d := DisorderedBy(DiagnosticKey, diagnostics);
    }
  }

  lemma DisorderedBy<T(!new)>(key: T -> Key, s: seq<T>) returns (r: seq<T>)
    requires !KeyDetermines(key, Itself(), s)
    ensures multiset(r) == multiset(s) && SortBy(key, r) != SortBy(key, s)
  {
    var a, b := SortShowsOrder(key, Itself(), s);
    r := if SortBy(key, a) != SortBy(key, s) then a else b;
  }

  /** One version per extractor, one raw value per fact key and one locator per line range are enough. */
  lemma PlainRunsDecide(stable: Printer, facts: seq<FactSpec>, assertions: seq<AssertionSpec>)
    requires forall s, t | s in facts && t in facts && s.name == t.name && s.locator == t.locator
                           && stable(s.normalized) == stable(t.normalized) ::
               s.version == t.version && s.raw == t.raw && s.normalized == t.normalized
    requires forall s, t | s in assertions && t in assertions && s.name == t.name :: s.version == t.version
    requires forall s | s in assertions :: PlainLocator(s.locator)
    ensures KeyDetermines(FactKey(stable), Itself(), facts) && KeyDetermines(AssertionKey, Itself(), assertions)
  {
    forall i, j | 0 <= i < |facts| && 0 <= j < |facts| && FactKey(stable)(facts[i]) == FactKey(stable)(facts[j])
      ensures facts[i] == facts[j]
    {
      var k, l := FactKey(stable)(facts[i]), FactKey(stable)(facts[j]);
      assert k[0] == l[0] && k[1] == l[1] && k[2] == l[2];
    }
    forall i, j | 0 <= i < |assertions| && 0 <= j < |assertions| && AssertionKey(assertions[i]) == AssertionKey(assertions[j])
      ensures assertions[i] == assertions[j]
    {
      AssertionKeyDecides(assertions[i], assertions[j]);
    }
  }

  /** A locator that reads as a line range is the printed form of that range. */
  predicate PlainLocator(locator: string) {
    ReadRange(locator).Some? ==> PrintRange(ReadRange(locator).value) == locator
  }

  lemma AssertionKeyDecides(s: AssertionSpec, t: AssertionSpec)
    requires AssertionKey(s) == AssertionKey(t) && PlainLocator(s.locator) && PlainLocator(t.locator)
    requires s.name == t.name ==> s.version == t.version
    ensures s == t
  {
    var k, l := AssertionKey(s), AssertionKey(t);
    assert k[0] == l[0] && k[1] == l[1] && k[2] == l[2] && k[3] == l[3] && k[4] == l[4];
  }

  /** Another extractor version hides behind the same assertion key. */
  lemma AssertionKeysCollide()
    ensures var a, b := AssertionSpec("d.md:L1-L2", "s", "n", "1"), AssertionSpec("d.md:L1-L2", "s", "n", "2");
            AssertionKey(a) == AssertionKey(b) && a != b && !KeyDetermines(AssertionKey, Itself(), [a, b])
  {
    var a, b := AssertionSpec("d.md:L1-L2", "s", "n", "1"), AssertionSpec("d.md:L1-L2", "s", "n", "2");
    var s := [a, b];
    assert AssertionKey(s[0]) == AssertionKey(s[1]) && s[0] != s[1];
  }
}
