/**
  What deterministic extraction makes of structural comparison: no violation can arise, the
  deltas patch one generation into the other, and structural identifiers stay distinct
  (src/lemmamind/change_intelligence.py, src/lemmamind/gap_aware_change.py).
*/
module Determinism {
  import opened Wrappers
  import opened Orders
  import opened Digests
  import opened Json
  import opened Changes

  // ----- deterministic extraction -----

  datatype FactSpec = FactSpec(locator: string, value: Json, name: string, version: string)

  /** An extraction profile as a function of source locator, media type and bytes. */
  type Profile = (string, string, Bytes) -> seq<FactSpec>

  function SpecOf(f: Fact): FactSpec { FactSpec(f.locator, f.value, f.name, f.version) }

  function Extracted(extract: Profile, a: Artifact): seq<FactSpec> {
    if a.status.Captured? && a.media.Some? && a.content.Some? then extract(a.locator, a.media.value, a.content.value) else []
  }

  predicate HasFact(facts: seq<Fact>, artifactId: string, spec: FactSpec) {
    exists f | f in facts :: f.artifactId == artifactId && SpecOf(f) == spec
  }

  predicate HasOrigin(extract: Profile, c: Capture, f: Fact) {
    var a := CapturedById(c.artifacts, f.artifactId);
    a.Some? && SpecOf(f) in Extracted(extract, a.value)
  }

  /** facts are what the profile extracts from the captured artifacts of c, and nothing else. */
  predicate GeneratedBy(extract: Profile, c: Capture, facts: seq<Fact>) {
    && (forall f | f in facts :: HasOrigin(extract, c, f))
    && (forall a | a in c.artifacts :: forall spec | spec in Extracted(extract, a) :: HasFact(facts, a.id, spec))
  }

  /** One extraction generation over one reconstructed capture. */
  predicate Generation(extract: Profile, c: Capture, facts: seq<Fact>) {
    Reconstructed(c) && WellKeyed(c, facts) && GeneratedBy(extract, c, facts)
  }

  function PairOf(run: string, previous: Capture, previousFacts: seq<Fact>, current: Capture, currentFacts: seq<Fact>): Pair
    requires WellKeyed(previous, previousFacts) && WellKeyed(current, currentFacts)
  {
    Pair(run, FactsByKey(previous, previousFacts), FactsByKey(current, currentFacts),
         Locators(previous) * Locators(current), ArtifactDeltas(run, previous, current))
  }

  predicate SameState(a: Artifact, b: Artifact) {
    (a.status.Missing? && b.status.Missing?)
    || (a.status.Captured? && b.status.Captured? && a.content == b.content && a.media == b.media)
  }

  /** On a path captured on both sides, the absence of an artifact delta means an identical state. */
  lemma UnbackedState(run: string, previous: Capture, current: Capture, locator: string)
    requires Reconstructed(previous) && Reconstructed(current)
    requires locator in Locators(previous) && locator in Locators(current)
    requires BackingDelta(ArtifactDeltas(run, previous, current), locator).None?
    ensures AtLocator(previous.artifacts, locator).Some? && AtLocator(current.artifacts, locator).Some?
    ensures SameState(AtLocator(previous.artifacts, locator).value, AtLocator(current.artifacts, locator).value)
  {
    LocatorFound(previous, locator);
    LocatorFound(current, locator);
    BackedHere(run, previous, current, locator);
    ReconstructedAt(previous, locator);
    ReconstructedAt(current, locator);
  }

  lemma ReconstructedAt(c: Capture, locator: string)
    requires Reconstructed(c) && AtLocator(c.artifacts, locator).Some?
    ensures SoundState(AtLocator(c.artifacts, locator).value)
  {}

  /** Only a scope change escapes being a backing delta. */
  lemma BackedHere(run: string, previous: Capture, current: Capture, locator: string)
    requires locator in Locators(previous) && locator in Locators(current)
    requires BackingDelta(ArtifactDeltas(run, previous, current), locator).None?
    ensures ArtifactDeltaHere(run, previous, current, locator) == []
  {
    LocatorFound(previous, locator);
    LocatorFound(current, locator);
    var here := ArtifactDeltaHere(run, previous, current, locator);
    if here != [] {
      ArtifactDeltaMember(run, previous, current, here[0]);
      assert false;
    }
  }

  lemma IdFound(c: Capture, a: Artifact)
    requires Reconstructed(c) && a in c.artifacts && a.status.Captured?
    ensures CapturedById(c.artifacts, a.id) == Some(a)
  {
    var found := CapturedById(c.artifacts, a.id).value;
    var i :| 0 <= i < |c.artifacts| && c.artifacts[i] == a;
    var j :| 0 <= j < |c.artifacts| && c.artifacts[j] == found;
    assert Map(ArtifactIdOf, c.artifacts)[i] == Map(ArtifactIdOf, c.artifacts)[j];
  }

  /** The artifact a key's fact was extracted from. */
  lemma KeyOrigin(extract: Profile, c: Capture, facts: seq<Fact>, k: FactKey) returns (a: Artifact, f: Fact)
    requires Generation(extract, c, facts) && k in FactsByKey(c, facts)
    ensures a in c.artifacts && a.locator == k.source && SpecOf(f) in Extracted(extract, a)
    ensures f == FactsByKey(c, facts)[k] && KeyOf(c, f) == Ok(k)
    ensures AtLocator(c.artifacts, k.source) == Some(a)
  {
    FactsByKeyDomain(c, facts, k);
    f := FactsByKey(c, facts)[k];
    assert HasOrigin(extract, c, f);
    a := CapturedById(c.artifacts, f.artifactId).value;
    AtLocatorUnique(c, a);
  }

  /** Equal artifact states give equal facts, key by key. */
  lemma FactsTransfer(extract: Profile, c: Capture, cs: seq<Fact>, d: Capture, ds: seq<Fact>, k: FactKey)
    requires Generation(extract, c, cs) && Generation(extract, d, ds) && k in FactsByKey(c, cs)
    requires AtLocator(c.artifacts, k.source).Some? && AtLocator(d.artifacts, k.source).Some?
    requires SameState(AtLocator(c.artifacts, k.source).value, AtLocator(d.artifacts, k.source).value)
    ensures k in FactsByKey(d, ds) && FactsByKey(d, ds)[k].value == FactsByKey(c, cs)[k].value
  {
    var a, f := KeyOrigin(extract, c, cs, k);
    var b := AtLocator(d.artifacts, k.source).value;
    assert SpecOf(f) in Extracted(extract, b);
    assert HasFact(ds, b.id, SpecOf(f));
    var g :| g in ds && g.artifactId == b.id && SpecOf(g) == SpecOf(f);
    IdFound(d, b);
    assert KeyOf(d, g) == Ok(k);
    FactFound(d, ds, g);
  }

  /** With deterministic extraction no key can be a violation. */
  lemma NoDeterminismViolation(extract: Profile, run: string, previous: Capture, ps: seq<Fact>, current: Capture, cs: seq<Fact>)
    requires Generation(extract, previous, ps) && Generation(extract, current, cs)
    ensures Lawful(PairOf(run, previous, ps, current, cs))
  {
    var p := PairOf(run, previous, ps, current, cs);
    forall k | k in p.previous.Keys + p.current.Keys ensures !Violates(p, k) {
      if Violates(p, k) {
        UnbackedState(run, previous, current, k.source);
        if k in p.previous {
          FactsTransfer(extract, previous, ps, current, cs, k);
          PyEqReflexive(p.previous[k].value);
        } else {
          FactsTransfer(extract, current, cs, previous, ps, k);
        }
        assert false;
      }
    }
  }

  /** Every structural delta is backed by an artifact delta at its locator that is not a scope change. */
  lemma StructuralBacked(p: Pair, d: StructuralDelta)
    requires d in Structural(p)
    ensures exists a | a in p.deltas :: a.locator == d.locator && NotScope(a) && a.id == d.artifactDeltaId
    ensures d.locator in p.comparable
  {
    FlatMapMembers(StructuralAt(p), KeysOf(p), d);
    var i :| 0 <= i < |KeysOf(p)| && d in StructuralHere(p, KeysOf(p)[i]);
    var backing := BackingDelta(p.deltas, d.locator).value;
    assert backing in p.deltas && backing.id == d.artifactDeltaId;
  }

  // ----- the contract of structural deltas -----

  predicate ValidStructural(d: StructuralDelta) {
    match d.change
    case FactAdded => d.previous.None? && d.current.Some?
    case FactRemoved => d.previous.Some? && d.current.None?
    case FactModified => d.previous.Some? && d.current.Some? && !PyEq(d.previous.value.value, d.current.value.value)
  }

  lemma StructuralValid(p: Pair, d: StructuralDelta)
    requires d in Structural(p)
    ensures ValidStructural(d)
  {
    FlatMapMembers(StructuralAt(p), KeysOf(p), d);
    var i :| 0 <= i < |KeysOf(p)| && d in StructuralHere(p, KeysOf(p)[i]);
    HereValid(p, KeysOf(p)[i], d);
  }

  lemma HereValid(p: Pair, k: FactKey, d: StructuralDelta)
    requires d in StructuralHere(p, k)
    ensures ValidStructural(d)
  {
    assert d.change == FactChange(d.previous, d.current).value;
  }

  // ----- patching one generation into the other -----

  type Values = map<FactKey, Json>

  function ValuesOf(facts: FactMap): Values { map k | k in facts :: facts[k].value }

  /** The key a delta speaks of, read back from its evidence locator. */
  function DeltaFactKey(d: StructuralDelta): FactKey {
    var locator := if d.current.Some? then d.current.value.locator else if d.previous.Some? then d.previous.value.locator else "";
    FactKey(d.locator, d.name, d.version, if |d.locator| <= |locator| then locator[|d.locator|..] else "")
  }

  function DeltaOrder(d: StructuralDelta): Key { FactOrder(DeltaFactKey(d)) }

  function PatchFact(values: Values, d: StructuralDelta): Values {
    if d.current.Some? then values[DeltaFactKey(d) := d.current.value.value] else values - {DeltaFactKey(d)}
  }

  function PatchFacts(values: Values, deltas: seq<StructuralDelta>): Values {
    if deltas == [] then values else PatchFact(PatchFacts(values, deltas[..|deltas| - 1]), deltas[|deltas| - 1])
  }

  function ValueAt(values: Values, k: FactKey): Option<Json> {
    if k in values then Some(values[k]) else None
  }

  predicate SameValue(a: Option<Json>, b: Option<Json>) {
    match (a, b)
    case (Some(x), Some(y)) => PyEq(x, y)
    case _ => a == b
  }

  /** Every fact sits under the key its own fields print. */
  predicate KeyedByFields(facts: FactMap) {
    forall k | k in facts ::
      facts[k].name == k.name && facts[k].version == k.version && facts[k].locator == k.source + k.relative
  }

  lemma KeyFields(c: Capture, f: Fact, k: FactKey)
    requires KeyOf(c, f) == Ok(k)
    ensures f.name == k.name && f.version == k.version && f.locator == k.source + k.relative
  {}

  lemma GenerationKeyed(c: Capture, facts: seq<Fact>)
    requires WellKeyed(c, facts)
    ensures KeyedByFields(FactsByKey(c, facts))
  {
    var m := FactsByKey(c, facts);
    forall k | k in m ensures m[k].name == k.name && m[k].version == k.version && m[k].locator == k.source + k.relative {
      FactsByKeyDomain(c, facts, k);
      KeyFields(c, m[k], k);
    }
  }

  lemma DeltaKeyRecovered(p: Pair, k: FactKey)
    requires KeyedByFields(p.previous) && KeyedByFields(p.current)
    ensures forall d | d in StructuralHere(p, k) :: DeltaFactKey(d) == k
  {
    if StructuralHere(p, k) != [] {
      var d := StructuralHere(p, k)[0];
      var f := if d.current.Some? then d.current.value else d.previous.value;
      assert f.locator[|k.source|..] == k.relative;
    }
  }

  lemma {:induction false} FactsUntouched(values: Values, deltas: seq<StructuralDelta>, k: FactKey)
    requires forall d | d in deltas :: DeltaFactKey(d) != k
    ensures ValueAt(PatchFacts(values, deltas), k) == ValueAt(values, k)
  {
    if deltas != [] {
      var n := |deltas| - 1;
      assert deltas[n] in deltas;
      FactsUntouched(values, deltas[..n], k);
    }
  }

  lemma {:induction false} FactsTouched(values: Values, deltas: seq<StructuralDelta>, i: nat)
    requires Increasing(DeltaOrder, deltas) && i < |deltas|
    ensures ValueAt(PatchFacts(values, deltas), DeltaFactKey(deltas[i]))
            == if deltas[i].current.Some? then Some(deltas[i].current.value.value) else None
  {
    var n := |deltas| - 1;
    if i < n {
      FactsTouched(values, deltas[..n], i);
      KeyAsymmetric(DeltaOrder(deltas[i]), DeltaOrder(deltas[n]));
    }
  }

  lemma StructuralIncreasing(p: Pair)
    requires KeyedByFields(p.previous) && KeyedByFields(p.current)
    ensures Increasing(DeltaOrder, Structural(p))
  {
    var keys := KeysOf(p);
    forall i | 0 <= i < |keys| ensures |StructuralAt(p)(keys[i])| <= 1 {}
    forall i | 0 <= i < |keys| ensures forall d | d in StructuralAt(p)(keys[i]) :: DeltaOrder(d) == FactOrder(keys[i]) {
      DeltaKeyRecovered(p, keys[i]);
    }
    FlatMapIncreasing(FactOrder, StructuralAt(p), DeltaOrder, keys);
  }

  /** What the patched generation holds at a comparable key. */
  lemma PatchedFact(p: Pair, k: FactKey)
    requires KeyedByFields(p.previous) && KeyedByFields(p.current) && Lawful(p) && k.source in p.comparable
    ensures ValueAt(PatchFacts(ValuesOf(p.previous), Structural(p)), k)
            == ValueAt(if Changed(p, k) then ValuesOf(p.current) else ValuesOf(p.previous), k)
  {
    if Changed(p, k) { ChangedIsPatched(p, k); } else { UnchangedIsKept(p, k); }
  }

  lemma ChangedIsPatched(p: Pair, k: FactKey)
    requires KeyedByFields(p.previous) && KeyedByFields(p.current) && Lawful(p) && k.source in p.comparable && Changed(p, k)
    ensures ValueAt(PatchFacts(ValuesOf(p.previous), Structural(p)), k) == ValueAt(ValuesOf(p.current), k)
  {
    var deltas := Structural(p);
    StructuralIncreasing(p);
    var d := EmittedFor(p, k);
    var i :| 0 <= i < |deltas| && deltas[i] == d;
    FactsTouched(ValuesOf(p.previous), deltas, i);
  }

  /** The delta of a changed key carries the current fact. */
  lemma EmittedFor(p: Pair, k: FactKey) returns (d: StructuralDelta)
    requires KeyedByFields(p.previous) && KeyedByFields(p.current) && Lawful(p) && k.source in p.comparable && Changed(p, k)
    ensures d in Structural(p) && DeltaFactKey(d) == k && d.current == Lookup(p.current, k)
  {
    assert k in KeysOf(p);
    d := StructuralHere(p, k)[0];
    var j :| 0 <= j < |KeysOf(p)| && KeysOf(p)[j] == k;
    assert d in StructuralAt(p)(KeysOf(p)[j]);
    FlatMapMembers(StructuralAt(p), KeysOf(p), d);
    DeltaKeyRecovered(p, k);
  }

  lemma UnchangedIsKept(p: Pair, k: FactKey)
    requires KeyedByFields(p.previous) && KeyedByFields(p.current) && !Changed(p, k)
    ensures ValueAt(PatchFacts(ValuesOf(p.previous), Structural(p)), k) == ValueAt(ValuesOf(p.previous), k)
  {
    var deltas := Structural(p);
    forall d | d in deltas ensures DeltaFactKey(d) != k {
      FlatMapMembers(StructuralAt(p), KeysOf(p), d);
      var i :| 0 <= i < |KeysOf(p)| && d in StructuralHere(p, KeysOf(p)[i]);
      DeltaKeyRecovered(p, KeysOf(p)[i]);
    }
    FactsUntouched(ValuesOf(p.previous), deltas, k);
  }

  /** Patching the previous facts gives the current facts on every comparable path, up to Python's equality. */
  lemma StructuralPatch(p: Pair)
    requires KeyedByFields(p.previous) && KeyedByFields(p.current) && Lawful(p)
    ensures forall k: FactKey | k.source in p.comparable ::
              SameValue(ValueAt(PatchFacts(ValuesOf(p.previous), Structural(p)), k), ValueAt(ValuesOf(p.current), k))
  {
    forall k: FactKey | k.source in p.comparable
      ensures SameValue(ValueAt(PatchFacts(ValuesOf(p.previous), Structural(p)), k), ValueAt(ValuesOf(p.current), k))
    {
      PatchedFact(p, k);
      if k in p.current { PyEqReflexive(p.current[k].value); }
    }
  }

  /** The value at k changed between two values that Python takes for equal. */
  predicate Disguised(p: Pair, k: FactKey) {
    && k.source in p.comparable && k in p.previous && k in p.current
    && p.previous[k].value != p.current[k].value && PyEq(p.previous[k].value, p.current[k].value)
  }

  /** The patch is exact if and only if no value changed between two values that Python takes for equal. */
  lemma StructuralPatchExact(p: Pair)
    requires KeyedByFields(p.previous) && KeyedByFields(p.current) && Lawful(p)
    ensures (forall k: FactKey | k.source in p.comparable ::
               ValueAt(PatchFacts(ValuesOf(p.previous), Structural(p)), k) == ValueAt(ValuesOf(p.current), k))
            <==> !exists k :: Disguised(p, k)
  {
    forall k: FactKey | k.source in p.comparable
      ensures ValueAt(PatchFacts(ValuesOf(p.previous), Structural(p)), k) == ValueAt(ValuesOf(p.current), k)
              <==> !Disguised(p, k)
    {
      PatchedExactly(p, k);
    }
  }

  lemma PatchedExactly(p: Pair, k: FactKey)
    requires KeyedByFields(p.previous) && KeyedByFields(p.current) && Lawful(p) && k.source in p.comparable
    ensures ValueAt(PatchFacts(ValuesOf(p.previous), Structural(p)), k) == ValueAt(ValuesOf(p.current), k)
            <==> !Disguised(p, k)
  {
    PatchedFact(p, k);
    UnchangedIff(p, k);
  }

  lemma UnchangedIff(p: Pair, k: FactKey)
    requires k.source in p.comparable
    ensures Changed(p, k) ==> !Disguised(p, k)
    ensures !Changed(p, k) ==> (ValueAt(ValuesOf(p.previous), k) == ValueAt(ValuesOf(p.current), k) <==> !Disguised(p, k))
  {}

  /** A fact that changes from true to 1 leaves no structural delta, so the patch misses it. */
  lemma DisguisedChange(p: Pair, k: FactKey)
    requires k.source in p.comparable && k in p.previous && k in p.current
    requires p.previous[k].value == JBool(true) && p.current[k].value == JInt(1)
    ensures Disguised(p, k) && StructuralHere(p, k) == []
  {}

  // ----- structural identifiers -----

  predicate BackedByRun(p: Pair) {
    forall d | d in p.deltas :: d.id == ArtifactDeltaId(p.run, d.locator)
  }

  /** The keys cannot be told apart by their printed form. */
  predicate Collide(p: Pair, j: FactKey, k: FactKey) {
    && j != k && j.source == k.source
    && StructuralHere(p, j) != [] && StructuralHere(p, k) != []
    && StructuralKey(j) == StructuralKey(k)
    && StructuralHere(p, j)[0].change == StructuralHere(p, k)[0].change
  }

  lemma SameIdCollides(p: Pair, j: FactKey, k: FactKey)
    requires BackedByRun(p) && StructuralHere(p, j) != [] && StructuralHere(p, k) != [] && j != k
    ensures StructuralHere(p, j)[0].id == StructuralHere(p, k)[0].id <==> Collide(p, j, k)
  {
    var d, e := StructuralHere(p, j)[0], StructuralHere(p, k)[0];
    assert d.artifactDeltaId == ArtifactDeltaId(p.run, j.source) && e.artifactDeltaId == ArtifactDeltaId(p.run, k.source);
    if d.id == e.id {
      assert d.id[4] == Text(j.source) && e.id[4] == Text(k.source);
      assert d.id[5] == Text(d.structuralKey) && e.id[5] == Text(e.structuralKey);
      assert d.id[6] == Text(StructuralName(d.change)) && e.id[6] == Text(StructuralName(e.change));
    }
  }

  /** Structural identifiers are distinct if and only if no two emitted keys print alike. */
  lemma StructuralIdsDistinct(p: Pair)
    requires KeyedByFields(p.previous) && KeyedByFields(p.current) && BackedByRun(p)
    ensures (forall d, e | d in Structural(p) && e in Structural(p) && d.id == e.id :: d == e)
            <==> !exists j, k | j in KeysOf(p) && k in KeysOf(p) :: Collide(p, j, k)
  {
    forall d | d in Structural(p)
      ensures DeltaFactKey(d) in KeysOf(p) && StructuralHere(p, DeltaFactKey(d)) == [d]
    {
      EmittedAt(p, d);
    }
    forall j, k | j in KeysOf(p) && k in KeysOf(p) && Collide(p, j, k)
      ensures exists d, e | d in Structural(p) && e in Structural(p) :: d.id == e.id && d != e
    {
      EmitsInto(p, j);
      EmitsInto(p, k);
      SameIdCollides(p, j, k);
      var d, e := StructuralHere(p, j)[0], StructuralHere(p, k)[0];
      assert DeltaFactKey(d) == j && DeltaFactKey(e) == k;
    }
    forall d, e | d in Structural(p) && e in Structural(p) && d.id == e.id && d != e
      ensures exists j, k | j in KeysOf(p) && k in KeysOf(p) :: Collide(p, j, k)
    {
      SameIdCollides(p, DeltaFactKey(d), DeltaFactKey(e));
    }
  }

  lemma EmittedAt(p: Pair, d: StructuralDelta)
    requires KeyedByFields(p.previous) && KeyedByFields(p.current) && d in Structural(p)
    ensures DeltaFactKey(d) in KeysOf(p) && StructuralHere(p, DeltaFactKey(d)) == [d]
  {
    FlatMapMembers(StructuralAt(p), KeysOf(p), d);
    var i :| 0 <= i < |KeysOf(p)| && d in StructuralHere(p, KeysOf(p)[i]);
    DeltaKeyRecovered(p, KeysOf(p)[i]);
  }

  lemma EmitsInto(p: Pair, k: FactKey)
    requires KeyedByFields(p.previous) && KeyedByFields(p.current) && k in KeysOf(p) && StructuralHere(p, k) != []
    ensures StructuralHere(p, k)[0] in Structural(p) && DeltaFactKey(StructuralHere(p, k)[0]) == k
  {
    var d := StructuralHere(p, k)[0];
    var i :| 0 <= i < |KeysOf(p)| && KeysOf(p)[i] == k;
    assert d in StructuralAt(p)(KeysOf(p)[i]);
    FlatMapMembers(StructuralAt(p), KeysOf(p), d);
    DeltaKeyRecovered(p, k);
  }

  /** Extractor names without @, versions without : and no relative locator #root keep printed keys apart. */
  predicate PlainKey(k: FactKey) {
    '@' !in k.name && ':' !in k.version && k.relative != "#root"
  }

  lemma SplitAtSeparator(a: string, b: string, c: char, x: string, y: string)
    requires c !in a && c !in b && a + [c] + x == b + [c] + y
    ensures a == b && x == y
  {
    var s, t := a + [c] + x, b + [c] + y;
    assert s[|a|] == c && t[|b|] == c;
    assert forall i | 0 <= i < |a| :: s[i] == a[i] && a[i] in a;
    assert forall i | 0 <= i < |b| :: t[i] == b[i] && b[i] in b;
    assert |a| == |b|;
    assert a == s[..|a|] && b == t[..|b|];
    assert x == s[|a| + 1..] && y == t[|b| + 1..];
  }

  lemma PlainKeysPrintApart(j: FactKey, k: FactKey)
    requires PlainKey(j) && PlainKey(k) && j.source == k.source && StructuralKey(j) == StructuralKey(k)
    ensures j == k
  {
    var u := if j.relative == "" then "#root" else j.relative;
    var v := if k.relative == "" then "#root" else k.relative;
    assert StructuralKey(j) == j.name + ['@'] + (j.version + [':'] + u);
    assert StructuralKey(k) == k.name + ['@'] + (k.version + [':'] + v);
    SplitAtSeparator(j.name, k.name, '@', j.version + [':'] + u, k.version + [':'] + v);
    SplitAtSeparator(j.version, k.version, ':', u, v);
  }

  /** The keys that the manifest extractors print behind a #. */
  const MANIFEST_KEYS := {
    "$manifest.kind", "project.name", "project.version", "project.requires-python", "project.dependencies",
    "project.optional-dependencies", "build-system.build-backend", "build-system.requires", "name", "version", "type",
    "packageManager", "engines", "dependencies", "devDependencies", "peerDependencies", "optionalDependencies", "scripts"}

  /** The names, versions and relative locators of the facts that the repository's own extractors emit. */
  predicate Shipped(k: FactKey) {
    && k.version == "1"
    && (|| (k.name == "artifact-path" && "#$path." <= k.relative)
        || (k.name in {"pyproject", "package-json"} && exists key | key in MANIFEST_KEYS :: k.relative == "#" + key)
        || (k.name == "json-pointer" && (k.relative == "#" || "#/" <= k.relative))
        || (k.name in {"python-ast", "typescript-ast"} && ":L" <= k.relative))
  }

  /** Keys of the repository's own extractors are plain, so their structural identifiers never coincide. */
  lemma ShippedKeysArePlain(k: FactKey)
    requires Shipped(k)
    ensures PlainKey(k)
  {
    if k.name in {"pyproject", "package-json"} {
      var key :| key in MANIFEST_KEYS && k.relative == "#" + key;
      ManifestKeyShape(key);
      assert k.relative[1] == key[0] && "#root"[1] == 'r';
    } else {
      assert "#$path."[1] == '$' && "#/"[1] == '/' && "#root"[1] == 'r' && "#root"[0] == '#' && ":L"[0] == ':';
    }
  }

  lemma ManifestKeyShape(key: string)
    requires key in MANIFEST_KEYS
    ensures key != "" && key[0] != 'r'
  {}

  // ----- paths with extraction diagnostics -----

  datatype Diagnostic = Diagnostic(
    captureId: string, revision: string, artifactId: string, locator: string, name: string, version: string,
    errorType: string, errorMessage: string)

  function Fault(c: Capture, profile: set<(string, string)>, d: Diagnostic): Option<ChangeError> {
    if d.captureId != c.id then Some(DiagnosticCapture)
    else if d.revision != c.revision then Some(DiagnosticRevision)
    else
      match CapturedById(c.artifacts, d.artifactId)
      case None => Some(DiagnosticArtifact)
      case Some(a) =>
        if a.locator != d.locator then Some(DiagnosticLocator)
        else if (d.name, d.version) !in profile then Some(DiagnosticExtractor)
        else None
  }

  /** The diagnostic is about this capture, one of its captured artifacts at that artifact's path, and an extractor of the profile. */
  predicate AtHome(c: Capture, profile: set<(string, string)>, d: Diagnostic) {
    && d.captureId == c.id && d.revision == c.revision && (d.name, d.version) in profile
    && exists a | a in c.artifacts :: a.id == d.artifactId && a.status.Captured? && a.locator == d.locator
  }

  lemma FaultIff(c: Capture, profile: set<(string, string)>, d: Diagnostic)
    requires Reconstructed(c)
    ensures Fault(c, profile, d).None? <==> AtHome(c, profile, d)
  {
    if a :| a in c.artifacts && a.id == d.artifactId && a.status.Captured? && a.locator == d.locator {
      UniqueKey(ArtifactIdOf, c.artifacts, a, CapturedById(c.artifacts, d.artifactId).value);
    }
  }

  /** The excluded paths are captured paths of this capture, and a foreign diagnostic is refused. */
  method DiagnosticPaths(c: Capture, profile: set<(string, string)>, diagnostics: seq<Diagnostic>, authentic: bool)
    returns (r: Result<set<string>, ChangeError>)
    ensures r.Ok? <==> authentic && forall d | d in diagnostics :: Fault(c, profile, d).None?
    ensures r.Ok? ==> r.value == (set d | d in diagnostics :: d.locator) && r.value <= Locators(c)
  {
    var paths: set<string> := {};
    if diagnostics == [] {
      if !authentic { return Err(NotAuthentic); }
      return Ok({});
    }
    for i := 0 to |diagnostics|
      invariant forall k | 0 <= k < i :: Fault(c, profile, diagnostics[k]).None?
      invariant paths == (set d | d in diagnostics[..i] :: d.locator) && paths <= Locators(c)
    {
      var item := diagnostics[i];
      assert diagnostics[..i + 1] == diagnostics[..i] + [item];
      var fault := Fault(c, profile, item);
      if fault.Some? {
        assert item in diagnostics;
        return Err(fault.value);
      }
      paths := paths + {item.locator};
    }
    assert diagnostics[..|diagnostics|] == diagnostics;
    if !authentic { return Err(NotAuthentic); }
    r := Ok(paths);
  }
}
