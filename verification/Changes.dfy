/**
  Artifact and structural deltas between two captures, strict and gap-aware
  (src/lemmamind/change_intelligence.py, src/lemmamind/gap_aware_change.py,
  src/lemmamind/change_contracts.py).
*/
module Changes {
  import opened Wrappers
  import opened Orders
  import opened Digests
  import opened Json

  // ----- reconstructed captures -----

  datatype Status = Captured | Missing | Error | NotModified

  type Bytes = seq<bv8>

  /** content is what the artifact's content hash is taken of. */
  datatype Artifact = Artifact(id: string, locator: string, status: Status, content: Option<Bytes>, media: Option<string>)

  datatype Capture = Capture(id: string, revision: string, sourceId: string, artifacts: seq<Artifact>)

  function LocatorOf(a: Artifact): string { a.locator }

  function ArtifactIdOf(a: Artifact): string { a.id }

  /** What reconstruction from the store guarantees of a capture. */
  predicate Reconstructed(c: Capture) {
    && Unique(Map(LocatorOf, c.artifacts)) && Unique(Map(ArtifactIdOf, c.artifacts))
    && forall a | a in c.artifacts :: SoundState(a)
  }

  /** The last artifact of a list at a locator, as a dictionary comprehension keeps it. */
  function AtLocator(artifacts: seq<Artifact>, locator: string): (r: Option<Artifact>)
    ensures r.Some? ==> r.value in artifacts && r.value.locator == locator
    ensures r.None? ==> forall a | a in artifacts :: a.locator != locator
  {
    if artifacts == [] then None
    else
      var init, last := artifacts[..|artifacts| - 1], artifacts[|artifacts| - 1];
      assert artifacts == init + [last];
      if last.locator == locator then Some(last) else AtLocator(init, locator)
  }

  lemma AtLocatorUnique(c: Capture, a: Artifact)
    requires Reconstructed(c) && a in c.artifacts
    ensures AtLocator(c.artifacts, a.locator) == Some(a)
  {
    var found := AtLocator(c.artifacts, a.locator).value;
    var i :| 0 <= i < |c.artifacts| && c.artifacts[i] == a;
    var j :| 0 <= j < |c.artifacts| && c.artifacts[j] == found;
    assert Map(LocatorOf, c.artifacts)[i] == Map(LocatorOf, c.artifacts)[j];
  }

  function Locators(c: Capture): set<string> {
    set a | a in c.artifacts :: a.locator
  }

  lemma LocatorFound(c: Capture, locator: string)
    ensures locator in Locators(c) <==> AtLocator(c.artifacts, locator).Some?
  {
    assert AtLocator(c.artifacts, locator).Some? ==> AtLocator(c.artifacts, locator).value in c.artifacts;
  }

  // ----- artifact deltas -----

  datatype ArtifactChange =
    | ScopeAdded | ScopeRemoved | BecameCaptured | BecameMissing | ContentChanged | MetadataChanged

  datatype ChangeError =
    | NotReconstructable | DeterminismViolation | ForeignFact | UnanchoredFact | DuplicateKey
    | DiagnosticCapture | DiagnosticRevision | DiagnosticArtifact | DiagnosticLocator | DiagnosticExtractor | NotAuthentic

  function ArtifactChangeType(previous: Option<Artifact>, current: Option<Artifact>): Result<Option<ArtifactChange>, ChangeError> {
    if previous.None? then Ok(Some(ScopeAdded))
    else if current.None? then Ok(Some(ScopeRemoved))
    else
      var p, c := previous.value, current.value;
      if p.status.Missing? && c.status.Missing? then Ok(None)
      else if p.status.Missing? && c.status.Captured? then Ok(Some(BecameCaptured))
      else if p.status.Captured? && c.status.Missing? then Ok(Some(BecameMissing))
      else if p.status.Captured? && c.status.Captured? then
        if p.content != c.content then Ok(Some(ContentChanged))
        else if p.media != c.media then Ok(Some(MetadataChanged))
        else Ok(None)
      else Err(NotReconstructable)
  }

  datatype ArtifactDelta = ArtifactDelta(
    id: Id, locator: string, change: ArtifactChange, previous: Option<Artifact>, current: Option<Artifact>, run: string)

  function ArtifactDeltaId(run: string, locator: string): Id {
    [Text("artifact-delta"), Text(run), Text(locator)]
  }

  /** The zero or one delta of one locator. */
  function ArtifactDeltaHere(run: string, previous: Capture, current: Capture, locator: string): seq<ArtifactDelta> {
    var p, c := AtLocator(previous.artifacts, locator), AtLocator(current.artifacts, locator);
    match ArtifactChangeType(p, c)
    case Ok(Some(change)) => [ArtifactDelta(ArtifactDeltaId(run, locator), locator, change, p, c, run)]
    case _ => []
  }

  function ArtifactDeltaAt(run: string, previous: Capture, current: Capture): string -> seq<ArtifactDelta> {
    locator => ArtifactDeltaHere(run, previous, current, locator)
  }

  function SortedLocators(locators: set<string>): (r: seq<string>)
    ensures Increasing(TextKey, r)
    ensures forall l :: l in r <==> l in locators
  {
    SortSet(TextKey, locators)
  }

  function ArtifactDeltas(run: string, previous: Capture, current: Capture): seq<ArtifactDelta> {
    FlatMap(ArtifactDeltaAt(run, previous, current), SortedLocators(Locators(previous) + Locators(current)))
  }

  predicate Comparable(previous: Capture, current: Capture, locator: string) {
    ArtifactChangeType(AtLocator(previous.artifacts, locator), AtLocator(current.artifacts, locator)).Ok?
  }

  /** The body of the loop, for one locator. */
  method CompareLocator(run: string, previous: Capture, current: Capture, locator: string)
    returns (r: Result<seq<ArtifactDelta>, ChangeError>)
    ensures r.Ok? <==> Comparable(previous, current, locator)
    ensures r.Ok? ==> r.value == ArtifactDeltaHere(run, previous, current, locator)
  {
    var was, now := AtLocator(previous.artifacts, locator), AtLocator(current.artifacts, locator);
    var change := ArtifactChangeType(was, now);
    if change.Err? { return Err(change.error); }
    if change.value.None? { return Ok([]); }
    r := Ok([ArtifactDelta(ArtifactDeltaId(run, locator), locator, change.value.value, was, now, run)]);
  }

  /** The loop over the sorted locators. */
  method CompareEachLocator(run: string, previous: Capture, current: Capture, locators: seq<string>)
    returns (r: Result<seq<ArtifactDelta>, ChangeError>)
    ensures r.Ok? <==> forall i | 0 <= i < |locators| :: Comparable(previous, current, locators[i])
    ensures r.Ok? ==> r.value == FlatMap(ArtifactDeltaAt(run, previous, current), locators)
  {
    var deltas: seq<ArtifactDelta> := [];
    for i := 0 to |locators|
      invariant deltas == FlatMap(ArtifactDeltaAt(run, previous, current), locators[..i])
      invariant forall k | 0 <= k < i :: Comparable(previous, current, locators[k])
    {
      FlatMapStep(ArtifactDeltaAt(run, previous, current), locators, i);
      var here := CompareLocator(run, previous, current, locators[i]);
      if here.Err? { return here; }
      deltas := deltas + here.value;
    }
    assert locators[..|locators|] == locators;
    r := Ok(deltas);
  }

  method CompareArtifacts(run: string, previous: Capture, current: Capture) returns (r: Result<seq<ArtifactDelta>, ChangeError>)
    ensures r.Ok? <==> forall l | l in Locators(previous) + Locators(current) :: Comparable(previous, current, l)
    ensures r.Ok? ==> r.value == ArtifactDeltas(run, previous, current)
  {
    var locators := SortedLocators(Locators(previous) + Locators(current));
    assert forall i | 0 <= i < |locators| :: locators[i] in locators;
    r := CompareEachLocator(run, previous, current, locators);
  }

  /** Reconstructed captures are always comparable. */
  lemma ReconstructedComparable(previous: Capture, current: Capture, locator: string)
    requires Reconstructed(previous) && Reconstructed(current)
    ensures Comparable(previous, current, locator)
  {}

  function ArtifactDeltaKey(d: ArtifactDelta): Key { TextKey(d.locator) }

  lemma ArtifactDeltaMember(run: string, previous: Capture, current: Capture, d: ArtifactDelta)
    ensures d in ArtifactDeltas(run, previous, current)
            <==> d in ArtifactDeltaHere(run, previous, current, d.locator) && d.locator in Locators(previous) + Locators(current)
  {
    var f, locators := ArtifactDeltaAt(run, previous, current), SortedLocators(Locators(previous) + Locators(current));
    FlatMapMembers(f, locators, d);
    if d in ArtifactDeltaHere(run, previous, current, d.locator) && d.locator in Locators(previous) + Locators(current) {
      assert d.locator in locators;
    }
  }

  lemma ArtifactDeltasIncreasing(run: string, previous: Capture, current: Capture)
    ensures Increasing(ArtifactDeltaKey, ArtifactDeltas(run, previous, current))
  {
    FlatMapIncreasing(TextKey, ArtifactDeltaAt(run, previous, current), ArtifactDeltaKey,
                      SortedLocators(Locators(previous) + Locators(current)));
  }

  /** The transition between two artifact states that each kind of change stands for. */
  predicate ValidStates(change: ArtifactChange, p: Option<Artifact>, c: Option<Artifact>) {
    match change
    case ScopeAdded => p.None? && c.Some?
    case ScopeRemoved => p.Some? && c.None?
    case BecameCaptured => p.Some? && c.Some? && p.value.status.Missing? && c.value.status.Captured?
    case BecameMissing => p.Some? && c.Some? && p.value.status.Captured? && c.value.status.Missing?
    case ContentChanged =>
      p.Some? && c.Some? && p.value.status.Captured? && c.value.status.Captured? && p.value.content != c.value.content
    case MetadataChanged =>
      p.Some? && c.Some? && p.value.status.Captured? && c.value.status.Captured?
      && p.value.content == c.value.content && p.value.media != c.value.media
  }

  /** Captured with content metadata, or missing without. */
  predicate SoundState(a: Artifact) {
    if a.status.Captured? then a.content.Some? && a.media.Some?
    else a.status.Missing? && a.content.None? && a.media.None?
  }

  /** The contract every persisted artifact delta must satisfy. */
  predicate ValidArtifactDelta(d: ArtifactDelta) {
    && ValidStates(d.change, d.previous, d.current)
    && (d.previous.Some? ==> SoundState(d.previous.value))
    && (d.current.Some? ==> SoundState(d.current.value))
  }

  lemma ArtifactDeltasValid(run: string, previous: Capture, current: Capture, d: ArtifactDelta)
    requires Reconstructed(previous) && Reconstructed(current)
    requires d in ArtifactDeltas(run, previous, current)
    ensures ValidArtifactDelta(d)
  {
    ArtifactDeltaMember(run, previous, current, d);
    LocatorFound(previous, d.locator);
    LocatorFound(current, d.locator);
    assert d.previous == AtLocator(previous.artifacts, d.locator) && d.current == AtLocator(current.artifacts, d.locator);
    ChangeTypeValid(d.previous, d.current, d.change);
    assert d.previous.Some? ==> SoundState(d.previous.value);
    assert d.current.Some? ==> SoundState(d.current.value);
  }

  lemma ChangeTypeValid(previous: Option<Artifact>, current: Option<Artifact>, change: ArtifactChange)
    requires previous.Some? || current.Some?
    requires ArtifactChangeType(previous, current) == Ok(Some(change))
    ensures ValidStates(change, previous, current)
  {}

  /** What a capture holds at a locator: this artifact, or none. */
  predicate Holds(c: Capture, locator: string, a: Option<Artifact>) {
    if a.Some? then a.value in c.artifacts && a.value.locator == locator
    else forall other | other in c.artifacts :: other.locator != locator
  }

  lemma HoldsAt(c: Capture, locator: string, a: Option<Artifact>)
    requires Reconstructed(c)
    ensures Holds(c, locator, a) <==> AtLocator(c.artifacts, locator) == a
  {
    if a.Some? && Holds(c, locator, a) { AtLocatorUnique(c, a.value); }
  }

  /** The artifact deltas are exactly those that say of some locator how its two states differ. */
  lemma ArtifactDeltaIff(run: string, previous: Capture, current: Capture, d: ArtifactDelta)
    requires Reconstructed(previous) && Reconstructed(current)
    ensures d in ArtifactDeltas(run, previous, current)
            <==> && d.run == run && d.id == [Text("artifact-delta"), Text(run), Text(d.locator)]
                 && Holds(previous, d.locator, d.previous) && Holds(current, d.locator, d.current)
                 && ValidStates(d.change, d.previous, d.current)
  {
    ArtifactDeltaMember(run, previous, current, d);
    HoldsAt(previous, d.locator, d.previous);
    HoldsAt(current, d.locator, d.current);
    HereIff(run, previous, current, d);
    LocatorFound(previous, d.locator);
    LocatorFound(current, d.locator);
    if Holds(previous, d.locator, d.previous) && Holds(current, d.locator, d.current) {
      if d.previous.Some? || d.current.Some? { ChangeTypeIff(d.previous, d.current, d.change); }
    }
  }

  lemma HereIff(run: string, previous: Capture, current: Capture, d: ArtifactDelta)
    ensures d in ArtifactDeltaHere(run, previous, current, d.locator)
            <==> && d.run == run && d.id == [Text("artifact-delta"), Text(run), Text(d.locator)]
                 && d.previous == AtLocator(previous.artifacts, d.locator) && d.current == AtLocator(current.artifacts, d.locator)
                 && ArtifactChangeType(d.previous, d.current) == Ok(Some(d.change))
  {}

  lemma ChangeTypeIff(previous: Option<Artifact>, current: Option<Artifact>, change: ArtifactChange)
    requires previous.Some? || current.Some?
    requires (previous.Some? ==> SoundState(previous.value)) && (current.Some? ==> SoundState(current.value))
    ensures ArtifactChangeType(previous, current) == Ok(Some(change)) <==> ValidStates(change, previous, current)
  {}

  // ----- facts of one extraction generation -----

  datatype Fact = Fact(id: string, artifactId: string, locator: string, value: Json, name: string, version: string)

  datatype FactKey = FactKey(source: string, name: string, version: string, relative: string)

  function FactOrder(k: FactKey): Key { [Text(k.source), Text(k.name), Text(k.version), Text(k.relative)] }

  type FactMap = map<FactKey, Fact>

  /** The captured artifact of a list with an identifier. */
  function CapturedById(artifacts: seq<Artifact>, id: string): (r: Option<Artifact>)
    ensures r.Some? ==> r.value in artifacts && r.value.id == id && r.value.status.Captured?
    ensures r.None? ==> forall a | a in artifacts :: a.id == id ==> !a.status.Captured?
  {
    if artifacts == [] then None
    else
      var init, last := artifacts[..|artifacts| - 1], artifacts[|artifacts| - 1];
      assert artifacts == init + [last];
      if last.id == id && last.status.Captured? then Some(last) else CapturedById(init, id)
  }

  /** The key of a fact, unless its artifact is not captured or does not anchor its locator. */
  function KeyOf(c: Capture, f: Fact): Result<FactKey, ChangeError> {
    match CapturedById(c.artifacts, f.artifactId)
    case None => Err(ForeignFact)
    case Some(a) =>
      if a.locator <= f.locator then Ok(FactKey(a.locator, f.name, f.version, f.locator[|a.locator|..]))
      else Err(UnanchoredFact)
  }

  function KeyOrNone(c: Capture): Fact -> Option<FactKey> {
    f => match KeyOf(c, f) case Ok(k) => Some(k) case Err(_) => None
  }

  /** Every fact has a key and no two facts share one. */
  predicate WellKeyed(c: Capture, facts: seq<Fact>) {
    && (forall f | f in facts :: KeyOf(c, f).Ok?)
    && Unique(Map(KeyOrNone(c), facts))
  }

  function FactsByKey(c: Capture, facts: seq<Fact>): FactMap
    requires forall f | f in facts :: KeyOf(c, f).Ok?
  {
    if facts == [] then map[]
    else
      var n := |facts| - 1;
      assert facts[n] in facts;
      FactsByKey(c, facts[..n])[KeyOf(c, facts[n]).value := facts[n]]
  }

  lemma {:induction false} FactsByKeyDomain(c: Capture, facts: seq<Fact>, k: FactKey)
    requires forall f | f in facts :: KeyOf(c, f).Ok?
    ensures k in FactsByKey(c, facts) <==> Some(k) in Map(KeyOrNone(c), facts)
    ensures k in FactsByKey(c, facts) ==> FactsByKey(c, facts)[k] in facts && KeyOf(c, FactsByKey(c, facts)[k]) == Ok(k)
  {
    if facts != [] {
      var init, last := facts[..|facts| - 1], facts[|facts| - 1];
      assert facts == init + [last];
      FactsByKeyDomain(c, init, k);
      MapAppend(KeyOrNone(c), init, [last]);
      assert Map(KeyOrNone(c), [last]) == [Some(KeyOf(c, last).value)];
    }
  }

  lemma OneFactPerKey(c: Capture, facts: seq<Fact>, f: Fact, g: Fact)
    requires WellKeyed(c, facts) && f in facts && g in facts && KeyOrNone(c)(f) == KeyOrNone(c)(g)
    ensures f == g
  {
    var keys := Map(KeyOrNone(c), facts);
    var i :| 0 <= i < |facts| && facts[i] == f;
    var j :| 0 <= j < |facts| && facts[j] == g;
    assert keys[i] == keys[j];
  }

  /** In a well-keyed generation a key finds exactly its fact. */
  lemma FactFound(c: Capture, facts: seq<Fact>, f: Fact)
    requires WellKeyed(c, facts) && f in facts
    ensures KeyOf(c, f).value in FactsByKey(c, facts)
    ensures FactsByKey(c, facts)[KeyOf(c, f).value] == f
  {
    var k := KeyOf(c, f).value;
    KeyListed(c, facts, f);
    FactsByKeyDomain(c, facts, k);
    OneFactPerKey(c, facts, f, FactsByKey(c, facts)[k]);
  }

  lemma KeyListed(c: Capture, facts: seq<Fact>, f: Fact)
    requires f in facts
    ensures KeyOrNone(c)(f) in Map(KeyOrNone(c), facts)
  {
    var i :| 0 <= i < |facts| && facts[i] == f;
    assert Map(KeyOrNone(c), facts)[i] == KeyOrNone(c)(f);
  }

  lemma FactsByKeyStep(c: Capture, facts: seq<Fact>, i: nat)
    requires i < |facts| && WellKeyed(c, facts[..i])
    ensures KeyOf(c, facts[i]).Ok? ==>
              && (KeyOf(c, facts[i]).value in FactsByKey(c, facts[..i])
                  <==> Some(KeyOf(c, facts[i]).value) in Map(KeyOrNone(c), facts[..i]))
              && (forall f | f in facts[..i + 1] :: KeyOf(c, f).Ok?)
              && FactsByKey(c, facts[..i + 1]) == FactsByKey(c, facts[..i])[KeyOf(c, facts[i]).value := facts[i]]
  {
    PrefixSnoc(facts, i);
    if KeyOf(c, facts[i]).Ok? {
      FactsByKeyDomain(c, facts[..i], KeyOf(c, facts[i]).value);
      FactsByKeySnoc(c, facts[..i], facts[i]);
    }
  }

  lemma FactsByKeySnoc(c: Capture, before: seq<Fact>, fact: Fact)
    requires (forall f | f in before :: KeyOf(c, f).Ok?) && KeyOf(c, fact).Ok?
    ensures forall f | f in before + [fact] :: KeyOf(c, f).Ok?
    ensures FactsByKey(c, before + [fact]) == FactsByKey(c, before)[KeyOf(c, fact).value := fact]
  {
    assert forall f | f in before + [fact] :: f in before || f == fact;
    assert (before + [fact])[..|before|] == before;
  }

  /** The key names the locator of the fact's captured artifact, the extractor, and what the fact's own locator adds. */
  predicate Keys(c: Capture, f: Fact, k: FactKey) {
    && (exists a | a in c.artifacts :: a.id == f.artifactId && a.status.Captured? && a.locator == k.source)
    && f.locator == k.source + k.relative && f.name == k.name && f.version == k.version
  }

  lemma KeyIff(c: Capture, f: Fact, k: FactKey)
    requires Reconstructed(c)
    ensures KeyOf(c, f) == Ok(k) <==> Keys(c, f, k)
  {
    if a :| a in c.artifacts && a.id == f.artifactId && a.status.Captured? {
      var found := CapturedById(c.artifacts, f.artifactId).value;
      UniqueKey(ArtifactIdOf, c.artifacts, a, found);
      Anchored(a.locator, f.locator, k.relative);
    }
  }

  lemma Anchored(source: string, locator: string, relative: string)
    ensures source <= locator && locator[|source|..] == relative <==> locator == source + relative
  {
    if source <= locator { assert locator == source + locator[|source|..]; }
  }

  method MapFacts(c: Capture, facts: seq<Fact>) returns (r: Result<FactMap, ChangeError>)
    ensures r.Ok? <==> WellKeyed(c, facts)
    ensures r.Ok? ==> r.value == FactsByKey(c, facts)
  {
    var result: FactMap := map[];
    for i := 0 to |facts|
      invariant WellKeyed(c, facts[..i]) && result == FactsByKey(c, facts[..i])
    {
      var fact := facts[i];
      WellKeyedStep(c, facts, i);
      FactsByKeyStep(c, facts, i);
      var artifact := CapturedById(c.artifacts, fact.artifactId);
      if artifact.None? { return Err(ForeignFact); }
      var source := artifact.value.locator;
      if !(source <= fact.locator) { return Err(UnanchoredFact); }
      var key := FactKey(source, fact.name, fact.version, fact.locator[|source|..]);
      if key in result { return Err(DuplicateKey); }
      result := result[key := fact];
    }
    assert facts[..|facts|] == facts;
    r := Ok(result);
  }

  lemma WellKeyedStep(c: Capture, facts: seq<Fact>, i: nat)
    requires i < |facts| && WellKeyed(c, facts[..i])
    ensures WellKeyed(c, facts[..i + 1])
            <==> KeyOf(c, facts[i]).Ok? && Some(KeyOf(c, facts[i]).value) !in Map(KeyOrNone(c), facts[..i])
    ensures !WellKeyed(c, facts[..i + 1]) ==> !WellKeyed(c, facts)
  {
    var before, now, fact := facts[..i], facts[..i + 1], facts[i];
    assert now == before + [fact];
    WellKeyedSnoc(c, before, fact);
    assert facts == now + facts[i + 1..];
    WellKeyedPrefix(c, now, facts[i + 1..]);
  }

  lemma WellKeyedSnoc(c: Capture, before: seq<Fact>, fact: Fact)
    requires WellKeyed(c, before)
    ensures WellKeyed(c, before + [fact])
            <==> KeyOf(c, fact).Ok? && Some(KeyOf(c, fact).value) !in Map(KeyOrNone(c), before)
  {
    var now := before + [fact];
    assert now[|before|] == fact;
    MapAppend(KeyOrNone(c), before, [fact]);
    assert Map(KeyOrNone(c), [fact]) == [KeyOrNone(c)(fact)];
    UniqueSnoc(Map(KeyOrNone(c), before), KeyOrNone(c)(fact));
  }

  lemma WellKeyedPrefix(c: Capture, a: seq<Fact>, b: seq<Fact>)
    ensures WellKeyed(c, a + b) ==> WellKeyed(c, a)
  {
    MapAppend(KeyOrNone(c), a, b);
    UniquePrefix(Map(KeyOrNone(c), a), Map(KeyOrNone(c), b));
    assert forall f | f in a :: f in a + b;
  }

  // ----- structural deltas -----

  datatype StructuralChange = FactAdded | FactRemoved | FactModified

  datatype StructuralDelta = StructuralDelta(
    id: Id, artifactDeltaId: Id, locator: string, structuralKey: string, change: StructuralChange,
    name: string, version: string, previous: Option<Fact>, current: Option<Fact>, run: string)

  function StructuralName(change: StructuralChange): string {
    match change
    case FactAdded => "added"
    case FactRemoved => "removed"
    case FactModified => "modified"
  }

  /** The printed key; an empty relative locator prints as #root. */
  function StructuralKey(k: FactKey): string {
    k.name + "@" + k.version + ":" + (if k.relative == "" then "#root" else k.relative)
  }

  function StructuralId(run: string, artifactDeltaId: Id, structuralKey: string, change: StructuralChange): Id {
    [Text("structural-delta"), Text(run)] + artifactDeltaId + [Text(structuralKey), Text(StructuralName(change))]
  }

  /** What the comparison loop of one pair of generations reads. */
  datatype Pair = Pair(run: string, previous: FactMap, current: FactMap, comparable: set<string>, deltas: seq<ArtifactDelta>)

  predicate NotScope(d: ArtifactDelta) { !d.change.ScopeAdded? && !d.change.ScopeRemoved? }

  /** The last artifact delta at a locator that is not a mere change of capture scope. */
  function BackingDelta(deltas: seq<ArtifactDelta>, locator: string): (r: Option<ArtifactDelta>)
    ensures r.Some? ==> r.value in deltas && r.value.locator == locator && NotScope(r.value)
    ensures r.None? ==> forall d | d in deltas && d.locator == locator :: !NotScope(d)
  {
    if deltas == [] then None
    else
      var init, last := deltas[..|deltas| - 1], deltas[|deltas| - 1];
      assert deltas == init + [last];
      if last.locator == locator && NotScope(last) then Some(last) else BackingDelta(init, locator)
  }

  function Lookup(facts: FactMap, k: FactKey): Option<Fact> {
    if k in facts then Some(facts[k]) else None
  }

  /** How the facts at one key differ, by Python's equality of normalized values. */
  function FactChange(previous: Option<Fact>, current: Option<Fact>): Option<StructuralChange> {
    if previous.Some? && current.Some? then
      if PyEq(previous.value.value, current.value.value) then None else Some(FactModified)
    else if previous.None? && current.None? then None
    else if previous.None? then Some(FactAdded)
    else Some(FactRemoved)
  }

  /** The key changed on a comparable path. */
  predicate Changed(p: Pair, k: FactKey) {
    k.source in p.comparable && FactChange(Lookup(p.previous, k), Lookup(p.current, k)).Some?
  }

  /** Facts at the key changed although no artifact delta backs the change. */
  predicate Violates(p: Pair, k: FactKey) {
    Changed(p, k) && BackingDelta(p.deltas, k.source).None?
  }

  function StructuralHere(p: Pair, k: FactKey): seq<StructuralDelta> {
    if !Changed(p, k) || Violates(p, k) then []
    else
      var was, now := Lookup(p.previous, k), Lookup(p.current, k);
      [Emit(p.run, BackingDelta(p.deltas, k.source).value, k, FactChange(was, now).value, was, now)]
  }

  function Emit(
      run: string, backing: ArtifactDelta, k: FactKey, change: StructuralChange, was: Option<Fact>, now: Option<Fact>): StructuralDelta {
    StructuralDelta(StructuralId(run, backing.id, StructuralKey(k), change), backing.id, k.source, StructuralKey(k), change,
                    k.name, k.version, was, now, run)
  }

  lemma HereEmits(p: Pair, k: FactKey, change: StructuralChange, backing: ArtifactDelta)
    requires k.source in p.comparable && FactChange(Lookup(p.previous, k), Lookup(p.current, k)) == Some(change)
    requires BackingDelta(p.deltas, k.source) == Some(backing)
    ensures !Violates(p, k)
    ensures StructuralHere(p, k) == [Emit(p.run, backing, k, change, Lookup(p.previous, k), Lookup(p.current, k))]
  {}

  function StructuralAt(p: Pair): FactKey -> seq<StructuralDelta> {
    k => StructuralHere(p, k)
  }

  function SortedKeys(keys: set<FactKey>): (r: seq<FactKey>)
    ensures Increasing(FactOrder, r)
    ensures forall k :: k in r <==> k in keys
  {
    assert Distinguishes(FactOrder, keys) by {
      forall j, k | j in keys && k in keys && FactOrder(j) == FactOrder(k) ensures j == k { FactOrderInjective(j, k); }
    }
    SortSet(FactOrder, keys)
  }

  lemma FactOrderInjective(j: FactKey, k: FactKey)
    requires FactOrder(j) == FactOrder(k)
    ensures j == k
  {
    assert forall i | 0 <= i < 4 :: FactOrder(j)[i] == FactOrder(k)[i];
  }

  function KeysOf(p: Pair): seq<FactKey> { SortedKeys(p.previous.Keys + p.current.Keys) }

  function Structural(p: Pair): seq<StructuralDelta> { FlatMap(StructuralAt(p), KeysOf(p)) }

  /** No key of the pair is a determinism violation. */
  predicate Lawful(p: Pair) {
    forall k | k in p.previous.Keys + p.current.Keys :: !Violates(p, k)
  }

  /** The body of both loops, for one key. */
  method CompareKey(p: Pair, key: FactKey) returns (r: Result<seq<StructuralDelta>, ChangeError>)
    ensures r.Ok? <==> !Violates(p, key)
    ensures r.Ok? ==> r.value == StructuralHere(p, key)
  {
    if key.source !in p.comparable { return Ok([]); }
    var was, now := Lookup(p.previous, key), Lookup(p.current, key);
    var change := FactChange(was, now);
    if change.None? { return Ok([]); }
    var backing := BackingDelta(p.deltas, key.source);
    if backing.None? { return Err(DeterminismViolation); }
    HereEmits(p, key, change.value, backing.value);
    r := Ok([Emit(p.run, backing.value, key, change.value, was, now)]);
  }

  /** The loop over the sorted keys. */
  method CompareEach(p: Pair, keys: seq<FactKey>) returns (r: Result<seq<StructuralDelta>, ChangeError>)
    ensures r.Ok? <==> forall i | 0 <= i < |keys| :: !Violates(p, keys[i])
    ensures r.Ok? ==> r.value == FlatMap(StructuralAt(p), keys)
  {
    var structural: seq<StructuralDelta> := [];
    for i := 0 to |keys|
      invariant structural == FlatMap(StructuralAt(p), keys[..i])
      invariant forall j | 0 <= j < i :: !Violates(p, keys[j])
    {
      FlatMapStep(StructuralAt(p), keys, i);
      var here := CompareKey(p, keys[i]);
      if here.Err? { return here; }
      structural := structural + here.value;
    }
    assert keys[..|keys|] == keys;
    r := Ok(structural);
  }

  lemma LawfulKeys(p: Pair)
    ensures Lawful(p) <==> forall i | 0 <= i < |KeysOf(p)| :: !Violates(p, KeysOf(p)[i])
  {
    var keys := KeysOf(p);
    assert forall i | 0 <= i < |keys| :: keys[i] in keys;
  }

  method CompareKeys(p: Pair) returns (r: Result<seq<StructuralDelta>, ChangeError>)
    ensures r.Ok? <==> Lawful(p)
    ensures r.Ok? ==> r.value == Structural(p)
  {
    LawfulKeys(p);
    r := CompareEach(p, KeysOf(p));
  }

  /** The delta says how the facts at a comparable key differ, and rests on the artifact delta of its path. */
  predicate SaysChange(p: Pair, k: FactKey, d: StructuralDelta) {
    && k.source in p.comparable && d.locator == k.source && d.name == k.name && d.version == k.version && d.run == p.run
    && d.previous == (if k in p.previous then Some(p.previous[k]) else None)
    && d.current == (if k in p.current then Some(p.current[k]) else None)
    && (match d.change
        case FactAdded => d.previous.None? && d.current.Some?
        case FactRemoved => d.previous.Some? && d.current.None?
        case FactModified => d.previous.Some? && d.current.Some? && !PyEq(d.previous.value.value, d.current.value.value))
    && d.structuralKey == k.name + "@" + k.version + ":" + (if k.relative == "" then "#root" else k.relative)
    && BackingDelta(p.deltas, k.source).Some? && d.artifactDeltaId == BackingDelta(p.deltas, k.source).value.id
    && d.id == [Text("structural-delta"), Text(p.run)] + d.artifactDeltaId + [Text(d.structuralKey), Text(StructuralName(d.change))]
  }

  /** The structural deltas of a lawful pair are exactly those that say how the facts at some key differ. */
  lemma StructuralIff(p: Pair, d: StructuralDelta)
    requires Lawful(p)
    ensures d in Structural(p) <==> exists k :: SaysChange(p, k, d)
  {
    var keys := KeysOf(p);
    FlatMapMembers(StructuralAt(p), keys, d);
    if i :| 0 <= i < |keys| && d in StructuralAt(p)(keys[i]) { HereSays(p, keys[i], d); }
    if k :| SaysChange(p, k, d) {
      assert k in p.previous.Keys + p.current.Keys;
      assert k in keys;
      var i :| 0 <= i < |keys| && keys[i] == k;
      HereSays(p, k, d);
      assert d in StructuralAt(p)(keys[i]);
    }
  }

  lemma HereSays(p: Pair, k: FactKey, d: StructuralDelta)
    ensures d in StructuralHere(p, k) <==> SaysChange(p, k, d)
  {
    var was, now := Lookup(p.previous, k), Lookup(p.current, k);
    if SaysChange(p, k, d) { HereEmits(p, k, d.change, BackingDelta(p.deltas, k.source).value); }
  }

  /** Strict comparison: every locator captured on both sides is comparable. */
  method StrictStructural(run: string, previousFacts: FactMap, currentFacts: FactMap, previous: Capture, current: Capture, deltas: seq<ArtifactDelta>)
    returns (r: Result<seq<StructuralDelta>, ChangeError>)
    ensures var p := Pair(run, previousFacts, currentFacts, Locators(previous) * Locators(current), deltas);
            (r.Ok? <==> Lawful(p)) && (r.Ok? ==> r.value == Structural(p))
  {
    r := CompareKeys(Pair(run, previousFacts, currentFacts, Locators(previous) * Locators(current), deltas));
  }

  /** Gap-aware comparison: paths with an extraction diagnostic on either side are left out. */
  method GapAwareStructural(
      run: string, previousFacts: FactMap, currentFacts: FactMap, previous: Capture, current: Capture,
      deltas: seq<ArtifactDelta>, excluded: set<string>)
    returns (r: Result<seq<StructuralDelta>, ChangeError>)
    ensures var p := Pair(run, previousFacts, currentFacts, Locators(previous) * Locators(current) - excluded, deltas);
            (r.Ok? <==> Lawful(p)) && (r.Ok? ==> r.value == Structural(p))
  {
    r := CompareKeys(Pair(run, previousFacts, currentFacts, Locators(previous) * Locators(current) - excluded, deltas));
  }

  // ----- gap-aware comparison refines strict comparison -----

  function Excluding(p: Pair, excluded: set<string>): Pair { p.(comparable := p.comparable - excluded) }

  function Outside(excluded: set<string>, s: seq<StructuralDelta>): seq<StructuralDelta> {
    if s == [] then []
    else Outside(excluded, s[..|s| - 1]) + (if s[|s| - 1].locator in excluded then [] else [s[|s| - 1]])
  }

  lemma OutsideSnoc(excluded: set<string>, s: seq<StructuralDelta>, d: StructuralDelta)
    ensures Outside(excluded, s + [d]) == Outside(excluded, s) + (if d.locator in excluded then [] else [d])
  {
    assert (s + [d])[..|s|] == s;
  }

  lemma AppendInit(a: seq<StructuralDelta>, b: seq<StructuralDelta>)
    requires b != []
    ensures a + b == (a + b[..|b| - 1]) + [b[|b| - 1]]
  {}

  lemma {:induction false} OutsideAppend(excluded: set<string>, a: seq<StructuralDelta>, b: seq<StructuralDelta>)
    ensures Outside(excluded, a + b) == Outside(excluded, a) + Outside(excluded, b)
  {
    if b == [] {
      assert a + b == a;
    } else {
      var n := |b| - 1;
      OutsideAppend(excluded, a, b[..n]);
      OutsideSnoc(excluded, a + b[..n], b[n]);
      AppendInit(a, b);
    }
  }

  lemma {:induction false} ExclusionFilters(p: Pair, excluded: set<string>, keys: seq<FactKey>)
    ensures FlatMap(StructuralAt(Excluding(p, excluded)), keys) == Outside(excluded, FlatMap(StructuralAt(p), keys))
  {
    if keys != [] {
      var n := |keys| - 1;
      ExclusionFilters(p, excluded, keys[..n]);
      ExclusionAt(p, excluded, keys[n]);
      OutsideAppend(excluded, FlatMap(StructuralAt(p), keys[..n]), StructuralHere(p, keys[n]));
    }
  }

  lemma ExclusionAt(p: Pair, excluded: set<string>, k: FactKey)
    ensures StructuralHere(Excluding(p, excluded), k) == Outside(excluded, StructuralHere(p, k))
  {
    var here := StructuralHere(p, k);
    if here != [] { assert here[..0] == []; }
  }

  /**
    Where the strict loop succeeds, so does the gap-aware one, and it yields exactly the strict
    deltas whose path carries no diagnostic, in the same order.
  */
  lemma GapAwareRefinesStrict(p: Pair, excluded: set<string>)
    ensures Lawful(p) ==> Lawful(Excluding(p, excluded))
    ensures Structural(Excluding(p, excluded)) == Outside(excluded, Structural(p))
  {
    ExclusionFilters(p, excluded, KeysOf(p));
  }

  /** More diagnostics can only shrink the result. */
  lemma MoreDiagnosticsShrink(p: Pair, fewer: set<string>, more: set<string>)
    requires fewer <= more
    ensures Lawful(Excluding(p, fewer)) ==> Lawful(Excluding(p, more))
    ensures Structural(Excluding(p, more)) == Outside(more, Structural(Excluding(p, fewer)))
  {
    GapAwareRefinesStrict(Excluding(p, fewer), more);
    assert Excluding(Excluding(p, fewer), more) == Excluding(p, more) by {
      assert p.comparable - fewer - more == p.comparable - more;
    }
  }

  // ----- swapping the revisions -----

  function SwapArtifactChange(change: ArtifactChange): ArtifactChange {
    match change
    case ScopeAdded => ScopeRemoved
    case ScopeRemoved => ScopeAdded
    case BecameCaptured => BecameMissing
    case BecameMissing => BecameCaptured
    case _ => change
  }

  function SwapArtifactDelta(d: ArtifactDelta): ArtifactDelta {
    d.(change := SwapArtifactChange(d.change), previous := d.current, current := d.previous)
  }

  function SwapChange(change: StructuralChange): StructuralChange {
    match change
    case FactAdded => FactRemoved
    case FactRemoved => FactAdded
    case FactModified => FactModified
  }

  function SwapStructural(d: StructuralDelta): StructuralDelta {
    d.(id := StructuralId(d.run, d.artifactDeltaId, d.structuralKey, SwapChange(d.change)),
       change := SwapChange(d.change), previous := d.current, current := d.previous)
  }

  function Swap(p: Pair): Pair {
    Pair(p.run, p.current, p.previous, p.comparable, Map(SwapArtifactDelta, p.deltas))
  }

  function SwapOption(d: Option<ArtifactDelta>): Option<ArtifactDelta> {
    if d.None? then None else Some(SwapArtifactDelta(d.value))
  }

  lemma {:induction false} SwapBacking(deltas: seq<ArtifactDelta>, locator: string)
    ensures BackingDelta(Map(SwapArtifactDelta, deltas), locator) == SwapOption(BackingDelta(deltas, locator))
  {
    if deltas != [] {
      var init, last := deltas[..|deltas| - 1], deltas[|deltas| - 1];
      assert deltas == init + [last];
      SwapBacking(init, locator);
      SwapBackingSnoc(init, last, locator);
    }
  }

  lemma SwapBackingSnoc(init: seq<ArtifactDelta>, last: ArtifactDelta, locator: string)
    requires BackingDelta(Map(SwapArtifactDelta, init), locator) == SwapOption(BackingDelta(init, locator))
    ensures BackingDelta(Map(SwapArtifactDelta, init + [last]), locator) == SwapOption(BackingDelta(init + [last], locator))
  {
    MapSnoc(SwapArtifactDelta, init, last);
    BackingSnoc(init, last, locator);
    BackingSnoc(Map(SwapArtifactDelta, init), SwapArtifactDelta(last), locator);
    SwapKeepsPlace(last);
  }

  lemma SwapKeepsPlace(d: ArtifactDelta)
    ensures SwapArtifactDelta(d).locator == d.locator && (NotScope(SwapArtifactDelta(d)) <==> NotScope(d))
  {}

  lemma BackingSnoc(deltas: seq<ArtifactDelta>, last: ArtifactDelta, locator: string)
    ensures BackingDelta(deltas + [last], locator)
            == if last.locator == locator && NotScope(last) then Some(last) else BackingDelta(deltas, locator)
  {
    assert (deltas + [last])[..|deltas|] == deltas;
  }

  lemma SwapFactChange(was: Option<Fact>, now: Option<Fact>)
    ensures FactChange(now, was) == (if FactChange(was, now).None? then None else Some(SwapChange(FactChange(was, now).value)))
  {
    if was.Some? && now.Some? {
      PyEqSymmetric(was.value.value, now.value.value);
      PyEqSymmetric(now.value.value, was.value.value);
    }
  }

  lemma SwapAt(p: Pair, k: FactKey)
    ensures Violates(Swap(p), k) <==> Violates(p, k)
    ensures StructuralHere(Swap(p), k) == Map(SwapStructural, StructuralHere(p, k))
  {
    SwapBacking(p.deltas, k.source);
    SwapFactChange(Lookup(p.previous, k), Lookup(p.current, k));
  }

  lemma {:induction false} SwapOver(p: Pair, keys: seq<FactKey>)
    ensures FlatMap(StructuralAt(Swap(p)), keys) == Map(SwapStructural, FlatMap(StructuralAt(p), keys))
  {
    if keys != [] {
      var n := |keys| - 1;
      SwapOver(p, keys[..n]);
      SwapAt(p, keys[n]);
      MapAppend(SwapStructural, FlatMap(StructuralAt(p), keys[..n]), StructuralHere(p, keys[n]));
    }
  }

  /** Swapping the revisions swaps added with removed and old values with new, in the same order. */
  lemma SwapRevisions(p: Pair)
    ensures Lawful(Swap(p)) <==> Lawful(p)
    ensures Structural(Swap(p)) == Map(SwapStructural, Structural(p))
  {
    forall k ensures Violates(Swap(p), k) <==> Violates(p, k) { SwapAt(p, k); }
    assert p.previous.Keys + p.current.Keys == p.current.Keys + p.previous.Keys;
    SwapOver(p, KeysOf(p));
  }

  lemma ArtifactDeltaSwaps(run: string, previous: Capture, current: Capture, locator: string)
    requires locator in Locators(previous) + Locators(current)
    ensures ArtifactDeltaHere(run, current, previous, locator)
            == Map(SwapArtifactDelta, ArtifactDeltaHere(run, previous, current, locator))
  {
    LocatorFound(previous, locator);
    LocatorFound(current, locator);
  }

  lemma {:induction false} ArtifactDeltasSwapOver(run: string, previous: Capture, current: Capture, locators: seq<string>)
    requires forall l | l in locators :: l in Locators(previous) + Locators(current)
    ensures FlatMap(ArtifactDeltaAt(run, current, previous), locators)
            == Map(SwapArtifactDelta, FlatMap(ArtifactDeltaAt(run, previous, current), locators))
  {
    if locators != [] {
      var n := |locators| - 1;
      assert locators[n] in locators;
      ArtifactDeltasSwapOver(run, previous, current, locators[..n]);
      ArtifactDeltaSwaps(run, previous, current, locators[n]);
      MapAppend(SwapArtifactDelta, FlatMap(ArtifactDeltaAt(run, previous, current), locators[..n]),
                ArtifactDeltaHere(run, previous, current, locators[n]));
    }
  }

  /** Comparing the captures the other way round swaps every artifact delta, in the same order. */
  lemma ArtifactDeltasSwap(run: string, previous: Capture, current: Capture)
    ensures ArtifactDeltas(run, current, previous) == Map(SwapArtifactDelta, ArtifactDeltas(run, previous, current))
  {
    assert Locators(previous) + Locators(current) == Locators(current) + Locators(previous);
    ArtifactDeltasSwapOver(run, previous, current, SortedLocators(Locators(previous) + Locators(current)));
  }
}
