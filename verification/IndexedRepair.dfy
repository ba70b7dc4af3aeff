/**
  The indexed repair protocol: decision proofs, support choices by index, and the per-thread
  state that spans one repair sequence (scripts/run_m5_frozen_inference_v13.py).
*/
module IndexedRepair {
  import opened Wrappers
  import opened Orders
  import opened Texts
  import opened Json
  import opened Inference
  import opened RepairLoop

  // ----- decision proofs -----

  /** The five tests of a decision proof. */
  const TESTS := ["mechanism", "review_span", "review_leverage", "durable_knowledge", "boundary_effect"]

  /** A witness as the provider names it; its type need not be one of the packet's. */
  datatype Witness = Witness(supportType: string, id: string)

  function WitnessKey(w: Witness): Key { [Text(w.supportType), Text(w.id)] }

  lemma WitnessKeyInjective(a: Witness, b: Witness)
    requires WitnessKey(a) == WitnessKey(b)
    ensures a == b
  {
    assert WitnessKey(a)[0] == WitnessKey(b)[0] && WitnessKey(a)[1] == WitnessKey(b)[1];
  }

  function SortedWitnesses(s: set<Witness>): (r: seq<Witness>)
    ensures Increasing(WitnessKey, r)
    ensures forall x :: x in r <==> x in s
  {
    assert Distinguishes(WitnessKey, s) by {
      forall x, y | x in s && y in s && WitnessKey(x) == WitnessKey(y) ensures x == y { WitnessKeyInjective(x, y); }
    }
    SortSet(WitnessKey, s)
  }

  /** The sorted witnesses of each test, in the order of the tests. */
  type Ledger = seq<seq<Witness>>

  function WitnessOf(j: Json): Option<Witness> {
    if !j.JObject? || j.fields.Keys != SUPPORT_FIELDS then None
    else
      var t, id := j.fields["support_type"], j.fields["support_id"];
      if t.JString? && id.JString? then Some(Witness(t.s, id.s)) else None
  }

  /** The witnesses of a list of support objects, unless one is malformed. */
  function WitnessesOf(items: seq<Json>): Option<set<Witness>> {
    if exists i | 0 <= i < |items| :: WitnessOf(items[i]).None? then None
    else Some(set i | 0 <= i < |items| :: WitnessOf(items[i]).value)
  }

  const ENTRY_FIELDS := {"status", "supports"}

  function CanonEntry(j: Json): Option<seq<Witness>> {
    if !j.JObject? || j.fields.Keys != ENTRY_FIELDS || j.fields["status"] != JString("proven") then None
    else
      var supports := j.fields["supports"];
      if !supports.JArray? || supports.items == [] then None
      else
        var witnesses := WitnessesOf(supports.items);
        if witnesses.None? then None else Some(SortedWitnesses(witnesses.value))
  }

  /** The entries of the named tests, unless one is missing or malformed. */
  function CanonEntries(m: map<string, Json>, tests: seq<string>): Option<Ledger> {
    if tests == [] then Some([])
    else if tests[0] !in m then None
    else
      var first, rest := CanonEntry(m[tests[0]]), CanonEntries(m, tests[1..]);
      if first.None? || rest.None? then None else Some([first.value] + rest.value)
  }

  function TestSet(): set<string> { set t | t in TESTS }

  function Canonicalize(proof: Option<Json>): Option<Ledger> {
    if proof.None? || !proof.value.JObject? || proof.value.fields.Keys != TestSet() then None
    else CanonEntries(proof.value.fields, TESTS)
  }

  // ----- the canonical ledger as JSON -----

  function WitnessJson(w: Witness): Json {
    JObject(map["support_type" := JString(w.supportType), "support_id" := JString(w.id)])
  }

  function EntryJson(ws: seq<Witness>): Json {
    JObject(map["status" := JString("proven"), "supports" := JArray(Map(WitnessJson, ws))])
  }

  function LedgerFields(tests: seq<string>, ledger: Ledger): map<string, Json>
    requires |tests| == |ledger|
  {
    if tests == [] then map[] else LedgerFields(tests[1..], ledger[1..])[tests[0] := EntryJson(ledger[0])]
  }

  function LedgerJson(ledger: Ledger): Json
    requires |ledger| == |TESTS|
  {
    JObject(LedgerFields(TESTS, ledger))
  }

  lemma WitnessReadsBack(w: Witness)
    ensures WitnessOf(WitnessJson(w)) == Some(w)
  {}

  predicate CanonicalEntry(ws: seq<Witness>) { ws != [] && Increasing(WitnessKey, ws) }

  lemma EntryIsCanonical(j: Json)
    ensures CanonEntry(j).Some? ==> CanonicalEntry(CanonEntry(j).value)
  {
    if CanonEntry(j).Some? {
      var items := j.fields["supports"].items;
      assert WitnessOf(items[0]).value in WitnessesOf(items).value;
      assert WitnessOf(items[0]).value in CanonEntry(j).value;
    }
  }

  lemma EntryReadsBack(ws: seq<Witness>)
    requires CanonicalEntry(ws)
    ensures CanonEntry(EntryJson(ws)) == Some(ws)
  {
    var items := Map(WitnessJson, ws);
    forall i | 0 <= i < |items| ensures WitnessOf(items[i]) == Some(ws[i]) { WitnessReadsBack(ws[i]); }
    var witnesses := WitnessesOf(items).value;
    forall w ensures w in witnesses <==> w in ws {}
    IncreasingUnique(WitnessKey, SortedWitnesses(witnesses), ws);
  }

  lemma {:induction false} EntriesCanonical(m: map<string, Json>, tests: seq<string>)
    requires CanonEntries(m, tests).Some?
    ensures |CanonEntries(m, tests).value| == |tests|
    ensures forall i | 0 <= i < |tests| :: tests[i] in m && CanonicalEntry(CanonEntries(m, tests).value[i])
    ensures forall i | 0 <= i < |tests| :: CanonEntry(m[tests[i]]) == Some(CanonEntries(m, tests).value[i])
  {
    if tests != [] {
      EntriesCanonical(m, tests[1..]);
      EntryIsCanonical(m[tests[0]]);
    }
  }

  lemma {:induction false} FieldsReadBack(m: map<string, Json>, tests: seq<string>, ledger: Ledger)
    requires |tests| == |ledger| && forall i | 0 <= i < |ledger| :: CanonicalEntry(ledger[i])
    requires forall i | 0 <= i < |tests| :: tests[i] in m && m[tests[i]] == EntryJson(ledger[i])
    ensures CanonEntries(m, tests) == Some(ledger)
  {
    if tests != [] {
      EntryReadsBack(ledger[0]);
      FieldsReadBack(m, tests[1..], ledger[1..]);
      assert ledger == [ledger[0]] + ledger[1..];
    }
  }

  lemma {:induction false} EntryFields(tests: seq<string>, ledger: Ledger)
    requires |tests| == |ledger| && Unique(tests)
    ensures LedgerFields(tests, ledger).Keys == set t | t in tests
    ensures forall i | 0 <= i < |tests| :: tests[i] in LedgerFields(tests, ledger) && LedgerFields(tests, ledger)[tests[i]] == EntryJson(ledger[i])
  {
    if tests != [] {
      var rest := tests[1..];
      EntryFields(rest, ledger[1..]);
      assert tests == [tests[0]] + rest;
      forall i | 1 <= i < |tests| ensures tests[i] != tests[0] && tests[i] == rest[i - 1] {}
    }
  }

  lemma TestsDistinct()
    ensures Unique(TESTS)
  {
    assert TESTS[0][0] == 'm' && TESTS[1][0] == 'r' && TESTS[2][0] == 'r' && TESTS[3][0] == 'd' && TESTS[4][0] == 'b';
    assert TESTS[1][7] == 's' && TESTS[2][7] == 'l';
  }

  /** Canonicalizing is idempotent: the canonical ledger, written as JSON, is its own canonical form. */
  lemma CanonicalizeIdempotent(proof: Option<Json>)
    requires Canonicalize(proof).Some?
    ensures |Canonicalize(proof).value| == |TESTS|
    ensures Canonicalize(Some(LedgerJson(Canonicalize(proof).value))) == Canonicalize(proof)
  {
    var ledger := Canonicalize(proof).value;
    TestsDistinct();
    EntriesCanonical(proof.value.fields, TESTS);
    EntryFields(TESTS, ledger);
    FieldsReadBack(LedgerFields(TESTS, ledger), TESTS, ledger);
  }

  /** The same witnesses test by test, in whatever order and however often they are listed. */
  predicate SameWitnesses(a: Json, b: Json) {
    && a.JObject? && b.JObject? && a.fields.Keys == b.fields.Keys == ENTRY_FIELDS
    && a.fields["status"] == b.fields["status"] && a.fields["supports"].JArray? && b.fields["supports"].JArray?
    && Items(a.fields["supports"].items) == Items(b.fields["supports"].items)
  }

  function Items(s: seq<Json>): set<Json> { set x | x in s }

  lemma ListedIn(a: seq<Json>, b: seq<Json>, i: nat) returns (j: nat)
    requires Items(a) == Items(b) && i < |a|
    ensures j < |b| && b[j] == a[i]
  {
    assert a[i] in Items(a);
    assert a[i] in b;
    j :| 0 <= j < |b| && b[j] == a[i];
  }

  lemma WitnessesForgetOrder(a: seq<Json>, b: seq<Json>)
    requires Items(a) == Items(b)
    ensures WitnessesOf(a) == WitnessesOf(b) && (a == [] <==> b == [])
  {
    if a != [] { var j := ListedIn(a, b, 0); }
    if b != [] { var i := ListedIn(b, a, 0); }
    if i :| 0 <= i < |a| && WitnessOf(a[i]).None? { var j := ListedIn(a, b, i); }
    if j :| 0 <= j < |b| && WitnessOf(b[j]).None? { var i := ListedIn(b, a, j); }
    if WitnessesOf(a).Some? && WitnessesOf(b).Some? {
      forall w | w in WitnessesOf(a).value ensures w in WitnessesOf(b).value {
        var i :| 0 <= i < |a| && WitnessOf(a[i]).value == w;
        var j := ListedIn(a, b, i);
      }
      forall w | w in WitnessesOf(b).value ensures w in WitnessesOf(a).value {
        var j :| 0 <= j < |b| && WitnessOf(b[j]).value == w;
        var i := ListedIn(b, a, j);
      }
      assert WitnessesOf(a).value == WitnessesOf(b).value;
    }
  }

  lemma {:induction false} EntriesForgetOrder(m: map<string, Json>, n: map<string, Json>, tests: seq<string>)
    requires forall t | t in tests :: t in m && t in n && SameWitnesses(m[t], n[t])
    ensures CanonEntries(m, tests) == CanonEntries(n, tests)
  {
    if tests != [] {
      var a, b := m[tests[0]], n[tests[0]];
      assert tests[0] in tests;
      WitnessesForgetOrder(a.fields["supports"].items, b.fields["supports"].items);
      EntriesForgetOrder(m, n, tests[1..]);
    }
  }

  /** Canonicalizing does not see the order of witnesses, nor repeated ones. */
  lemma CanonicalizeForgetsOrder(a: map<string, Json>, b: map<string, Json>)
    requires a.Keys == b.Keys == TestSet() && forall t | t in TESTS :: SameWitnesses(a[t], b[t])
    ensures Canonicalize(Some(JObject(a))) == Canonicalize(Some(JObject(b)))
  {
    EntriesForgetOrder(a, b, TESTS);
  }
}
