/**
  One run that shows where structural comparison loses a change: a JSON file that turns from true to 1
  (src/lemmamind/json_evidence.py, src/lemmamind/change_intelligence.py).
*/
module SampleRuns {
  import opened Wrappers
  import opened Orders
  import opened Json
  import opened Store
  import C = Changes
  import D = Determinism
  import L = Locators

  const FILE := "a.json"
  const MEDIA := "application/json"

  /** The bytes of the two documents. */
  const TRUE_BYTES: C.Bytes := [0x74, 0x72, 0x75, 0x65]
  const ONE_BYTES: C.Bytes := [0x31]

  function Parsed(bytes: C.Bytes): Json { if bytes == TRUE_BYTES then JBool(true) else JInt(1) }

  /** The facts of the JSON walker, as a profile. */
  function Walked(locator: string): L.Leaf -> D.FactSpec {
    (l: L.Leaf) => D.FactSpec(L.SpecOf(locator)(l).locator, l.value, "json-pointer", "1")
  }

  function Profile(): D.Profile {
    (locator: string, media: string, bytes: C.Bytes) => Map(Walked(locator), L.LeavesOf(Parsed(bytes), []))
  }

  function CaptureOf(revision: string, bytes: C.Bytes): C.Capture {
    C.Capture("capture:" + revision, revision, "s", [ArtifactOf(revision, bytes)])
  }

  function ArtifactOf(revision: string, bytes: C.Bytes): C.Artifact {
    C.Artifact("artifact:" + revision, FILE, C.Captured, Some(bytes), Some(MEDIA))
  }

  function FactOf(revision: string, bytes: C.Bytes): C.Fact {
    C.Fact("fact:" + revision, "artifact:" + revision, FILE + "#", Parsed(bytes), "json-pointer", "1")
  }

  const KEY := C.FactKey(FILE, "json-pointer", "1", "#")

  lemma ProfileSays(bytes: C.Bytes)
    ensures Profile()(FILE, MEDIA, bytes) == [D.FactSpec(FILE + "#", Parsed(bytes), "json-pointer", "1")]
  {
    var leaf := L.Leaf([], Parsed(bytes));
    WithNothing(FILE + "#");
    assert L.PointerOf(leaf.path) == "";
    assert L.SpecOf(FILE)(leaf) == L.FactSpec(FILE + "#", Parsed(bytes));
    assert Walked(FILE)(leaf) == D.FactSpec(FILE + "#", Parsed(bytes), "json-pointer", "1");
    var leaves := L.LeavesOf(Parsed(bytes), []);
    assert leaves == [leaf];
    assert Map(Walked(FILE), leaves) == [Walked(FILE)(leaf)];
  }

  lemma WithNothing(s: string)
    ensures s + "" == s
  {}

  lemma OneArtifact(revision: string, bytes: C.Bytes)
    ensures C.Reconstructed(CaptureOf(revision, bytes)) && C.Locators(CaptureOf(revision, bytes)) == {FILE}
    ensures C.CapturedById(CaptureOf(revision, bytes).artifacts, "artifact:" + revision) == Some(ArtifactOf(revision, bytes))
  {
    var c := CaptureOf(revision, bytes);
    assert c.artifacts == [ArtifactOf(revision, bytes)];
  }

  lemma KeyedFact(revision: string, bytes: C.Bytes)
    ensures C.KeyOf(CaptureOf(revision, bytes), FactOf(revision, bytes)) == Ok(KEY)
  {
    OneArtifact(revision, bytes);
    assert (FILE + "#")[|FILE|..] == "#";
  }

  /** Each document gives one generation of one fact. */
  lemma OneGeneration(revision: string, bytes: C.Bytes)
    ensures D.Generation(Profile(), CaptureOf(revision, bytes), [FactOf(revision, bytes)])
    ensures C.FactsByKey(CaptureOf(revision, bytes), [FactOf(revision, bytes)]) == map[KEY := FactOf(revision, bytes)]
  {
    var c, f := CaptureOf(revision, bytes), FactOf(revision, bytes);
    OneArtifact(revision, bytes);
    KeyedFact(revision, bytes);
    ProfileSays(bytes);
    assert C.WellKeyed(c, [f]);
    assert D.SpecOf(f) == D.FactSpec(FILE + "#", Parsed(bytes), "json-pointer", "1");
    assert D.HasOrigin(Profile(), c, f);
    forall a, spec | a in c.artifacts && spec in D.Extracted(Profile(), a) ensures D.HasFact([f], a.id, spec) {
      assert f in [f] && f.artifactId == a.id && D.SpecOf(f) == spec;
    }
    C.FactsByKeySnoc(c, [], f);
    assert [] + [f] == [f];
  }

  function SamplePair(): C.Pair
    requires C.WellKeyed(CaptureOf("1", TRUE_BYTES), [FactOf("1", TRUE_BYTES)])
    requires C.WellKeyed(CaptureOf("2", ONE_BYTES), [FactOf("2", ONE_BYTES)])
  {
    D.PairOf("run", CaptureOf("1", TRUE_BYTES), [FactOf("1", TRUE_BYTES)], CaptureOf("2", ONE_BYTES), [FactOf("2", ONE_BYTES)])
  }

  /**
    Two generations of one deterministic profile, over a JSON file that changes from true to 1. Comparison
    succeeds, reports no structural delta at all, and patching the old facts does not give the new ones.
  */
  lemma TrueToOneIsLost()
    ensures D.Generation(Profile(), CaptureOf("1", TRUE_BYTES), [FactOf("1", TRUE_BYTES)])
    ensures D.Generation(Profile(), CaptureOf("2", ONE_BYTES), [FactOf("2", ONE_BYTES)])
    ensures C.Lawful(SamplePair()) && C.Structural(SamplePair()) == []
    ensures D.ValueAt(D.PatchFacts(D.ValuesOf(SamplePair().previous), C.Structural(SamplePair())), KEY) == Some(JBool(true))
    ensures D.ValueAt(D.ValuesOf(SamplePair().current), KEY) == Some(JInt(1))
  {
    OneGeneration("1", TRUE_BYTES);
    OneGeneration("2", ONE_BYTES);
    D.NoDeterminismViolation(Profile(), "run", CaptureOf("1", TRUE_BYTES), [FactOf("1", TRUE_BYTES)],
                             CaptureOf("2", ONE_BYTES), [FactOf("2", ONE_BYTES)]);
    OneArtifact("1", TRUE_BYTES);
    OneArtifact("2", ONE_BYTES);
    var p := SamplePair();
    assert TRUE_BYTES != ONE_BYTES by { assert |TRUE_BYTES| != |ONE_BYTES|; }
    D.DisguisedChange(p, KEY);
    NothingElse(p);
  }

  lemma NothingElse(p: C.Pair)
    requires p.previous.Keys == {KEY} && p.current.Keys == {KEY} && C.StructuralHere(p, KEY) == []
    ensures C.Structural(p) == []
  {
    forall i | 0 <= i < |C.KeysOf(p)| ensures C.StructuralAt(p)(C.KeysOf(p)[i]) == [] {
      assert C.KeysOf(p)[i] in C.KeysOf(p);
    }
    NothingRead(C.StructuralAt(p), C.KeysOf(p));
  }
}
