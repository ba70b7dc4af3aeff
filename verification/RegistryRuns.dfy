/** What every sequence of registry resolutions keeps (src/lemmamind/repository_registry.py). */
module RegistryRuns {
  import opened Wrappers
  import opened Orders
  import opened Texts
  import opened Digests
  import opened Store
  import opened Registry

  // ----- the invariant -----

  /** No two Sources have the same provider id. */
  ghost predicate ProvidersDistinct(db: Db) {
    forall a, b | GetIdentity(db, a).Some? && GetIdentity(db, b).Some? && a != b ::
      GetIdentity(db, a).value.provider != GetIdentity(db, b).value.provider
  }

  ghost predicate IdentitiesHaveSources(db: Db) {
    forall s | GetIdentity(db, s).Some? :: GetSource(db, s).Some? && GetSource(db, s).value.github
  }

  /** The resolution of a hit has complete provenance, and its identity is that of its locator. */
  predicate SoundResolution(db: Db, hitId: string) {
    var r := GetResolution(db, hitId);
    && r.Some? && r.value.hitId == hitId && r.value.locatorId == LocatorName(hitId).id
    && GetHit(db, hitId).Some? && Lineage(db, GetHit(db, hitId).value).Ok?
    && (GetHit(db, hitId).value.sourceId.Some? ==> GetHit(db, hitId).value.sourceId.value == r.value.sourceId)
    && GetLocator(db, r.value.locatorId).Some? && GetSource(db, r.value.sourceId).Some?
    && GetIdentity(db, r.value.sourceId).Some? && GetRunType(db, r.value.runId) == Some(RegistryRun)
    && GetLocator(db, r.value.locatorId).value.sourceId == r.value.sourceId
    && GetIdentity(db, r.value.sourceId).value.provider == GetLocator(db, r.value.locatorId).value.state.provider
  }

  /** Every resolution and every locator record belongs to a hit that is soundly resolved. */
  ghost predicate ResolutionsSound(db: Db) {
    forall n | n in db && (n.kind == ResolutionKind || n.kind == LocatorKind) ::
      exists h :: n == Own(n.kind, h) && SoundResolution(db, h)
  }

  function Own(kind: Kind, hitId: string): Name {
    if kind == LocatorKind then LocatorName(hitId) else ResolutionName(hitId)
  }

  predicate KindMatches(n: Name, r: Record) {
    && (n.kind == ResolutionKind ==> r.ResolutionRecord?)
    && (n.kind == IdentityKind ==> r.IdentityRecord? && |n.id| == 1 && n.id[0].Text?)
    && (n.kind == SourceKind ==> r.SourceRecord?)
  }

  predicate KindsMatch(db: Db) { forall n | n in db :: KindMatches(n, db[n]) }

  ghost predicate Inv(db: Db) {
    ProvidersDistinct(db) && IdentitiesHaveSources(db) && ResolutionsSound(db) && KindsMatch(db)
  }

  lemma HitsApart(a: string, b: string)
    ensures LocatorName(a) == LocatorName(b) || ResolutionName(a) == ResolutionName(b) ==> a == b
  {
    assert LocatorName(a).id[1] == Text(a) && ResolutionName(a).id[1] == Text(a);
  }

  lemma ResolvedSoundly(db: Db, hitId: string)
    requires ResolutionsSound(db)
    ensures ResolutionName(hitId) in db || LocatorName(hitId) in db ==> SoundResolution(db, hitId)
  {
    if ResolutionName(hitId) in db {
      var h :| ResolutionName(hitId) == Own(ResolutionKind, h) && SoundResolution(db, h);
      HitsApart(h, hitId);
    }
    if LocatorName(hitId) in db {
      var h :| LocatorName(hitId) == Own(LocatorKind, h) && SoundResolution(db, h);
      HitsApart(h, hitId);
    }
  }

  // ----- appending keeps resolutions -----

  lemma SoundKept(a: Db, b: Db, hitId: string)
    requires Extends(a, b) && SoundResolution(a, hitId)
    ensures SoundResolution(b, hitId)
  {}

  /** A call that found its hit resolved goes on finding it so. */
  lemma ExistingKept(a: Db, b: Db, c: Call)
    requires Extends(a, b) && Resolve(a, c).Ok? && !Resolve(a, c).value.created
    ensures Resolve(b, c) == Resolve(a, c)
  {}

  // ----- one call -----

  /** A hit that is already resolved: the call succeeds exactly when the provider reports the recorded state. */
  lemma ResolvedHit(db: Db, c: Call, snapshot: Snapshot)
    requires SoundResolution(db, c.hitId) && SnapshotOf(c.metadata) == Ok(snapshot)
    ensures Resolve(db, c).Ok? <==> GetLocator(db, LocatorName(c.hitId).id).value.state == snapshot
    ensures Resolve(db, c).Ok? ==> !Resolve(db, c).value.created && Resolve(db, c).value.batch == []
  {}

  /** A conflicting snapshot is refused, and the call writes nothing. */
  lemma ConflictRefused(db: Db, c: Call, snapshot: Snapshot)
    requires Inv(db) && ResolutionName(c.hitId) in db && SnapshotOf(c.metadata) == Ok(snapshot)
    ensures Resolve(db, c).Ok? <==> GetLocator(db, LocatorName(c.hitId).id).Some?
                                    && GetLocator(db, LocatorName(c.hitId).id).value.state == snapshot
  {
    ResolvedSoundly(db, c.hitId);
    ResolvedHit(db, c, snapshot);
  }

  /** What a call that creates a resolution was given and found. */
  predicate Admits(db: Db, c: Call, a: Admitted) {
    && GetHit(db, c.hitId) == Some(a.hit) && Lineage(db, a.hit) == Ok(a.run) && SnapshotOf(c.metadata) == Ok(a.snapshot)
    && a.existing.None? && GetResolution(db, c.hitId).None?
  }

  lemma AdmittedNew(db: Db, c: Call)
    requires Admit(db, c).Ok? && Admit(db, c).value.existing.None?
    ensures Admits(db, c, Admit(db, c).value)
  {}

  lemma CreatedBy(db: Db, c: Call) returns (a: Admitted, i: Identified)
    requires Resolve(db, c).Ok? && Resolve(db, c).value.created
    ensures Admits(db, c, a) && Identify(db, a.hit, c.discovered, a.snapshot, a.run.observedAt, c.now) == Ok(i)
    ensures Resolve(db, c).value.resolved == NewResolution(c, i, a.snapshot)
    ensures Resolve(db, c).value.batch == BatchOf(c, i, a.snapshot)
  {
    a := Admit(db, c).value;
    AdmittedNew(db, c);
    i := Identify(db, a.hit, c.discovered, a.snapshot, a.run.observedAt, c.now).value;
  }

  /** What identification found: an existing Source and identity, or new ones under free names. */
  predicate WellIdentified(db: Db, hit: Hit, snapshot: Snapshot, i: Identified) {
    && i.source.github && i.identity.provider == snapshot.provider
    && (hit.sourceId.Some? ==> hit.sourceId.value == i.sourceId)
    && (if i.newSource then GetSource(db, i.sourceId).None? else GetSource(db, i.sourceId) == Some(i.source))
    && (if i.newIdentity then GetIdentity(db, i.sourceId).None? && Claimants(db, snapshot.provider) == []
        else GetIdentity(db, i.sourceId) == Some(i.identity))
    && (i.newSource ==> i.newIdentity)
  }

  lemma IdentifiesWell(db: Db, hit: Hit, discovered: Option<string>, snapshot: Snapshot, first: int, now: int)
    requires IdentitiesHaveSources(db) && Identify(db, hit, discovered, snapshot, first, now).Ok?
    ensures WellIdentified(db, hit, snapshot, Identify(db, hit, discovered, snapshot, first, now).value)
  {
    var claimants := Claimants(db, snapshot.provider);
    if |claimants| == 1 {
      ClaimantMember(db, snapshot.provider, claimants[0]);
    } else {
      assert claimants == [];
      var id := FileUnder(db, hit, snapshot, first, now).value.0;
      BoundBranchIsDead(db, hit, snapshot, first, now, id);
    }
  }

  // ----- what a new resolution writes -----

  function RunName(c: Call): Name { NameOf(RunKind, "run:" + c.runToken) }

  /** The rows of a batch, by name. */
  predicate InBatch(c: Call, i: Identified, m: Resolved, r: Row<Record>) {
    || (i.newSource && r == Row(NameOf(SourceKind, i.sourceId), SourceRecord(i.source)))
    || (i.newIdentity && r == Row(NameOf(IdentityKind, i.sourceId), IdentityRecord(i.identity)))
    || r == Row(LocatorName(c.hitId), LocatorRecord(m.locator))
    || r == Row(ResolutionName(c.hitId), ResolutionRecord(m.resolution))
    || r == Row(RunName(c), RunRecord(RegistryRun))
  }

  lemma BatchRows(c: Call, i: Identified, snapshot: Snapshot, m: Resolved)
    requires m == NewResolution(c, i, snapshot)
    ensures forall r :: r in BatchOf(c, i, snapshot) <==> InBatch(c, i, m, r)
  {
    var sources := if i.newSource then [Row(NameOf(SourceKind, i.sourceId), SourceRecord(i.source))] else [];
    var identities := if i.newIdentity then [Row(NameOf(IdentityKind, i.sourceId), IdentityRecord(i.identity))] else [];
    var rest := [Row(LocatorName(c.hitId), LocatorRecord(m.locator)), Row(ResolutionName(c.hitId), ResolutionRecord(m.resolution)),
                 Row(RunName(c), RunRecord(RegistryRun))];
    forall r ensures r in BatchOf(c, i, snapshot) <==> InBatch(c, i, m, r) {
      assert BatchOf(c, i, snapshot) == sources + identities + rest;
      assert r in rest <==> r == rest[0] || r == rest[1] || r == rest[2];
    }
  }

  lemma NamesUnused(db: Db, c: Call, a: Admitted, i: Identified)
    requires Inv(db) && Admits(db, c, a) && WellIdentified(db, a.hit, a.snapshot, i)
    ensures i.newSource ==> NameOf(SourceKind, i.sourceId) !in db
    ensures i.newIdentity ==> NameOf(IdentityKind, i.sourceId) !in db
    ensures LocatorName(c.hitId) !in db && ResolutionName(c.hitId) !in db
  {
    ResolvedSoundly(db, c.hitId);
  }

  lemma NamesFree(db: Db, c: Call, a: Admitted, i: Identified, m: Resolved)
    requires m == NewResolution(c, i, a.snapshot)
    requires Inv(db) && Admits(db, c, a) && WellIdentified(db, a.hit, a.snapshot, i) && RunName(c) !in db
    ensures Consistent(db, BatchOf(c, i, a.snapshot))
  {
    NamesUnused(db, c, a, i);
    BatchRows(c, i, a.snapshot, m);
    OneBodyPerName(c, i, m);
  }

  lemma OneBodyPerName(c: Call, i: Identified, m: Resolved)
    ensures forall r, q | InBatch(c, i, m, r) && InBatch(c, i, m, q) && r.name == q.name :: r == q
  {
    forall r, q | InBatch(c, i, m, r) && InBatch(c, i, m, q) && r.name == q.name ensures r == q {
      assert r.name.kind == q.name.kind;
    }
  }

  /** The store after a new resolution: the written rows, and everything else as before. */
  ghost predicate Written(db: Db, after: Db, c: Call, i: Identified, m: Resolved) {
    && Extends(db, after)
    && (forall r | InBatch(c, i, m, r) :: r.name in after && after[r.name] == r.body)
    && (forall n | n in after :: n in db || exists r :: InBatch(c, i, m, r) && r.name == n)
  }

  lemma WritesBatch(db: Db, c: Call, a: Admitted, i: Identified, m: Resolved)
    requires m == NewResolution(c, i, a.snapshot)
    requires Inv(db) && Admits(db, c, a) && WellIdentified(db, a.hit, a.snapshot, i) && RunName(c) !in db
    ensures Written(db, Insert(db, BatchOf(c, i, a.snapshot)), c, i, m)
  {
    var batch := BatchOf(c, i, a.snapshot);
    NamesFree(db, c, a, i, m);
    BatchRows(c, i, a.snapshot, m);
    InsertExtends(db, batch);
    forall r | InBatch(c, i, m, r) ensures r.name in Insert(db, batch) && Insert(db, batch)[r.name] == r.body {
      InsertFinds(db, batch, r);
    }
    forall n | n in Insert(db, batch) ensures n in db || exists r :: InBatch(c, i, m, r) && r.name == n {
      NameBefore(db, batch, n);
      if n !in db {
        var k :| 0 <= k < |batch| && batch[k].name == n;
        assert batch[k] in batch;
      }
    }
  }

  lemma ReadsNewRecords(db: Db, after: Db, c: Call, i: Identified, m: Resolved)
    requires Written(db, after, c, i, m)
    ensures GetResolution(after, c.hitId) == Some(m.resolution) && GetLocator(after, LocatorName(c.hitId).id) == Some(m.locator)
    ensures GetRunType(after, "run:" + c.runToken) == Some(RegistryRun)
  {
    assert InBatch(c, i, m, Row(LocatorName(c.hitId), LocatorRecord(m.locator)));
    assert InBatch(c, i, m, Row(ResolutionName(c.hitId), ResolutionRecord(m.resolution)));
    assert InBatch(c, i, m, Row(RunName(c), RunRecord(RegistryRun)));
  }

  lemma ReadsIdentity(db: Db, after: Db, c: Call, hit: Hit, snapshot: Snapshot, i: Identified, m: Resolved)
    requires WellIdentified(db, hit, snapshot, i) && Written(db, after, c, i, m)
    ensures GetSource(after, i.sourceId) == Some(i.source) && GetIdentity(after, i.sourceId) == Some(i.identity)
  {
    if i.newSource { assert InBatch(c, i, m, Row(NameOf(SourceKind, i.sourceId), SourceRecord(i.source))); }
    if i.newIdentity { assert InBatch(c, i, m, Row(NameOf(IdentityKind, i.sourceId), IdentityRecord(i.identity))); }
  }

  lemma LineageKept(a: Db, b: Db, hitId: string)
    requires Extends(a, b) && GetHit(a, hitId).Some? && Lineage(a, GetHit(a, hitId).value).Ok?
    ensures GetHit(b, hitId) == GetHit(a, hitId) && Lineage(b, GetHit(a, hitId).value) == Lineage(a, GetHit(a, hitId).value)
  {}

  lemma AfterReads(db: Db, after: Db, c: Call, a: Admitted, i: Identified, m: Resolved)
    requires Admits(db, c, a) && WellIdentified(db, a.hit, a.snapshot, i) && Written(db, after, c, i, m)
    ensures GetSource(after, i.sourceId) == Some(i.source) && GetIdentity(after, i.sourceId) == Some(i.identity)
    ensures GetResolution(after, c.hitId) == Some(m.resolution) && GetLocator(after, LocatorName(c.hitId).id) == Some(m.locator)
    ensures GetRunType(after, "run:" + c.runToken) == Some(RegistryRun)
    ensures GetHit(after, c.hitId) == Some(a.hit) && Lineage(after, a.hit) == Ok(a.run)
  {
    ReadsNewRecords(db, after, c, i, m);
    ReadsIdentity(db, after, c, a.hit, a.snapshot, i, m);
    LineageKept(db, after, c.hitId);
  }

  /** The hit is soundly resolved afterwards. */
  lemma NewIsSound(db: Db, after: Db, c: Call, a: Admitted, i: Identified, m: Resolved)
    requires m == NewResolution(c, i, a.snapshot)
    requires Inv(db) && Admits(db, c, a) && WellIdentified(db, a.hit, a.snapshot, i) && RunName(c) !in db
    requires Written(db, after, c, i, m)
    ensures SoundResolution(after, c.hitId)
  {
    AfterReads(db, after, c, a, i, m);
  }

  lemma IdentityOrigin(db: Db, after: Db, c: Call, a: Admitted, i: Identified, m: Resolved, s: string)
    requires Inv(db) && Admits(db, c, a) && WellIdentified(db, a.hit, a.snapshot, i) && Written(db, after, c, i, m)
    requires GetIdentity(after, s).Some?
    ensures GetIdentity(db, s) == GetIdentity(after, s) || (i.newIdentity && s == i.sourceId && GetIdentity(after, s).value == i.identity)
  {
    var n := NameOf(IdentityKind, s);
    if n !in db {
      var r :| InBatch(c, i, m, r) && r.name == n;
      assert r.name.id[0] == Text(s);
      assert i.newIdentity && NameOf(IdentityKind, i.sourceId).id[0] == Text(i.sourceId);
    }
  }

  lemma ProvidersStayDistinct(db: Db, after: Db, c: Call, a: Admitted, i: Identified, m: Resolved)
    requires Inv(db) && Admits(db, c, a) && WellIdentified(db, a.hit, a.snapshot, i) && Written(db, after, c, i, m)
    ensures ProvidersDistinct(after)
  {
    forall x, y | GetIdentity(after, x).Some? && GetIdentity(after, y).Some? && x != y
      ensures GetIdentity(after, x).value.provider != GetIdentity(after, y).value.provider
    {
      IdentityOrigin(db, after, c, a, i, m, x);
      IdentityOrigin(db, after, c, a, i, m, y);
      ClaimantMember(db, a.snapshot.provider, x);
      ClaimantMember(db, a.snapshot.provider, y);
    }
  }

  lemma IdentitiesKeepSources(db: Db, after: Db, c: Call, a: Admitted, i: Identified, m: Resolved)
    requires Inv(db) && Admits(db, c, a) && WellIdentified(db, a.hit, a.snapshot, i) && RunName(c) !in db
    requires Written(db, after, c, i, m)
    ensures IdentitiesHaveSources(after)
  {
    AfterReads(db, after, c, a, i, m);
    forall s | GetIdentity(after, s).Some? ensures GetSource(after, s).Some? && GetSource(after, s).value.github {
      IdentityOrigin(db, after, c, a, i, m, s);
      if GetIdentity(db, s).Some? { assert NameOf(SourceKind, s) in db; }
    }
  }

  lemma ResolutionsStaySound(db: Db, after: Db, c: Call, a: Admitted, i: Identified, m: Resolved)
    requires m == NewResolution(c, i, a.snapshot)
    requires Inv(db) && Admits(db, c, a) && WellIdentified(db, a.hit, a.snapshot, i) && RunName(c) !in db
    requires Written(db, after, c, i, m)
    ensures ResolutionsSound(after)
  {
    NewIsSound(db, after, c, a, i, m);
    forall n | n in after && (n.kind == ResolutionKind || n.kind == LocatorKind)
      ensures exists h :: n == Own(n.kind, h) && SoundResolution(after, h)
    {
      if n in db {
        var h :| n == Own(n.kind, h) && SoundResolution(db, h);
        SoundKept(db, after, h);
      } else {
        var r :| InBatch(c, i, m, r) && r.name == n;
        RowIsOwn(c, i, m, r);
      }
    }
  }

  lemma RowIsOwn(c: Call, i: Identified, m: Resolved, r: Row<Record>)
    requires InBatch(c, i, m, r) && (r.name.kind == ResolutionKind || r.name.kind == LocatorKind)
    ensures r.name == Own(r.name.kind, c.hitId)
  {}

  lemma KindsStay(db: Db, after: Db, c: Call, a: Admitted, i: Identified, m: Resolved)
    requires Inv(db) && Written(db, after, c, i, m)
    ensures KindsMatch(after)
  {
    forall n | n in after ensures KindMatches(n, after[n]) {
      if n in db {
        assert KindMatches(n, db[n]);
      } else {
        var r :| InBatch(c, i, m, r) && r.name == n;
        RowMatches(c, i, m, r);
      }
    }
  }

  lemma RowMatches(c: Call, i: Identified, m: Resolved, r: Row<Record>)
    requires InBatch(c, i, m, r)
    ensures KindMatches(r.name, r.body)
  {}

  /** A new resolution never conflicts with the store, keeps the invariant, and changes nothing that was there. */
  lemma CreationKeepsInv(db: Db, c: Call)
    requires Inv(db) && RunName(c) !in db && Resolve(db, c).Ok? && Resolve(db, c).value.created
    ensures Consistent(db, Resolve(db, c).value.batch)
    ensures Inv(Insert(db, Resolve(db, c).value.batch)) && Extends(db, Insert(db, Resolve(db, c).value.batch))
  {
    var a, i := CreatedBy(db, c);
    IdentifiesWell(db, a.hit, c.discovered, a.snapshot, a.run.observedAt, c.now);
    var after, m := Insert(db, BatchOf(c, i, a.snapshot)), NewResolution(c, i, a.snapshot);
    NamesFree(db, c, a, i, m);
    WritesBatch(db, c, a, i, m);
    ProvidersStayDistinct(db, after, c, a, i, m);
    IdentitiesKeepSources(db, after, c, a, i, m);
    ResolutionsStaySound(db, after, c, a, i, m);
    KindsStay(db, after, c, a, i, m);
  }

  lemma FoundAgain(after: Db, c: Call, a: Admitted, i: Identified, m: Resolved, again: Call)
    requires m == NewResolution(c, i, a.snapshot) && again.hitId == c.hitId && SnapshotOf(again.metadata) == Ok(a.snapshot)
    requires i.identity.provider == a.snapshot.provider && (a.hit.sourceId.Some? ==> a.hit.sourceId.value == i.sourceId)
    requires GetSource(after, i.sourceId) == Some(i.source) && GetIdentity(after, i.sourceId) == Some(i.identity)
    requires GetResolution(after, c.hitId) == Some(m.resolution) && GetLocator(after, LocatorName(c.hitId).id) == Some(m.locator)
    requires GetRunType(after, "run:" + c.runToken) == Some(RegistryRun)
    requires GetHit(after, c.hitId) == Some(a.hit) && Lineage(after, a.hit) == Ok(a.run)
    ensures Resolve(after, again) == Ok(Outcome(false, m, []))
  {
    assert Existing(after, c.hitId, a.hit, a.snapshot) == Ok(Some(m));
  }

  /** The same call once more, at any time and under any run id: the same records, nothing written. */
  lemma CreationIsIdempotent(db: Db, c: Call, again: Call)
    requires Inv(db) && RunName(c) !in db && Resolve(db, c).Ok? && Resolve(db, c).value.created
    requires again.hitId == c.hitId && again.metadata == c.metadata
    ensures Resolve(Insert(db, Resolve(db, c).value.batch), again) == Ok(Outcome(false, Resolve(db, c).value.resolved, []))
  {
    var a, i := CreatedBy(db, c);
    IdentifiesWell(db, a.hit, c.discovered, a.snapshot, a.run.observedAt, c.now);
    var after, m := Insert(db, BatchOf(c, i, a.snapshot)), NewResolution(c, i, a.snapshot);
    WritesBatch(db, c, a, i, m);
    AfterReads(db, after, c, a, i, m);
    FoundAgain(after, c, a, i, m, again);
  }

  // ----- every run -----

  datatype Step =
    | Resolves(call: Call)
    | Discovers(batch: seq<Row<Record>>)

  /** Discovery and source records: hits, discovery runs, channels, pipeline runs and Sources. */
  predicate DiscoveryOnly(batch: seq<Row<Record>>) {
    forall r | r in batch :: DiscoveryRow(r.name, r.body)
  }

  predicate DiscoveryRow(n: Name, body: Record) {
    && n.kind != IdentityKind && n.kind != LocatorKind && n.kind != ResolutionKind
    && (n.kind == SourceKind ==> body.SourceRecord?)
  }

  /** A call may fail; its run id is one the store does not hold. */
  predicate Possible(db: Db, step: Step) {
    match step
    case Resolves(c) => RunName(c) !in db
    case Discovers(batch) => DiscoveryOnly(batch) && Consistent(db, batch)
  }

  function Apply(db: Db, step: Step): Db {
    match step
    case Resolves(c) => if Resolve(db, c).Ok? then Insert(db, Resolve(db, c).value.batch) else db
    case Discovers(batch) => Insert(db, batch)
  }

  function After(db: Db, steps: seq<Step>): Db {
    if steps == [] then db else Apply(After(db, steps[..|steps| - 1]), steps[|steps| - 1])
  }

  predicate Run(db: Db, steps: seq<Step>) {
    steps != [] ==> Run(db, steps[..|steps| - 1]) && Possible(After(db, steps[..|steps| - 1]), steps[|steps| - 1])
  }

  lemma DiscoveryName(db: Db, batch: seq<Row<Record>>, n: Name)
    requires DiscoveryOnly(batch) && Consistent(db, batch) && n in Insert(db, batch)
    ensures (n in db && Insert(db, batch)[n] == db[n]) || DiscoveryRow(n, Insert(db, batch)[n])
  {
    NameBefore(db, batch, n);
    if n in db {
      InsertKeeps(db, batch, n);
    } else {
      var k :| 0 <= k < |batch| && batch[k].name == n;
      assert batch[k] in batch;
      InsertFinds(db, batch, batch[k]);
    }
  }

  lemma DiscoveryKeepsInv(db: Db, batch: seq<Row<Record>>)
    requires Inv(db) && DiscoveryOnly(batch) && Consistent(db, batch)
    ensures Inv(Insert(db, batch)) && Extends(db, Insert(db, batch))
  {
    var after := Insert(db, batch);
    InsertExtends(db, batch);
    forall s ensures GetIdentity(after, s) == GetIdentity(db, s) {
      if NameOf(IdentityKind, s) in after { DiscoveryName(db, batch, NameOf(IdentityKind, s)); }
    }
    forall n | n in after && (n.kind == ResolutionKind || n.kind == LocatorKind)
      ensures exists h :: n == Own(n.kind, h) && SoundResolution(after, h)
    {
      DiscoveryName(db, batch, n);
      var h :| n == Own(n.kind, h) && SoundResolution(db, h);
      SoundKept(db, after, h);
    }
    forall n | n in after
      ensures (n in db && after[n] == db[n]) || DiscoveryRow(n, after[n])
    {
      DiscoveryName(db, batch, n);
    }
  }

  lemma StepKeepsInv(db: Db, step: Step)
    requires Inv(db) && Possible(db, step)
    ensures Inv(Apply(db, step)) && Extends(db, Apply(db, step))
  {
    match step
    case Resolves(c) =>
      if Resolve(db, c).Ok? && Resolve(db, c).value.created {
        CreationKeepsInv(db, c);
      } else if Resolve(db, c).Ok? {
        assert Resolve(db, c).value.batch == [];
      }
    case Discovers(batch) => DiscoveryKeepsInv(db, batch);
  }

  lemma {:induction false} RunKeepsInv(db: Db, steps: seq<Step>)
    requires Inv(db) && Run(db, steps)
    ensures Inv(After(db, steps)) && Extends(db, After(db, steps))
  {
    if steps != [] {
      var n := |steps| - 1;
      RunKeepsInv(db, steps[..n]);
      StepKeepsInv(After(db, steps[..n]), steps[n]);
    }
  }

  lemma EmptyStore()
    ensures Inv(map[])
  {}

  /** The record under n resolves the hit h. */
  predicate ResolvesHit(db: Db, n: Name, h: string) {
    n in db && n.kind == ResolutionKind && db[n].ResolutionRecord? && db[n].resolution.hitId == h
  }

  /** After every run, provider ids and Sources determine each other, and a hit has at most one resolution. */
  lemma RegistrySafety(db: Db, steps: seq<Step>)
    requires Inv(db) && Run(db, steps)
    ensures forall a, b | GetIdentity(After(db, steps), a).Some? && GetIdentity(After(db, steps), b).Some? ::
              a == b <==> GetIdentity(After(db, steps), a).value.provider == GetIdentity(After(db, steps), b).value.provider
    ensures forall m, n, h | ResolvesHit(After(db, steps), m, h) && ResolvesHit(After(db, steps), n, h) :: m == n
  {
    RunKeepsInv(db, steps);
    var now := After(db, steps);
    forall n, h | ResolvesHit(now, n, h) ensures n == ResolutionName(h) {
      var own :| n == Own(n.kind, own) && SoundResolution(now, own);
    }
  }

  /**
    Resolution is idempotent for good: once a hit is resolved, the same snapshot yields the same
    records and writes nothing, after any further run; any other snapshot is refused.
  */
  lemma ResolvedForGood(db: Db, c: Call, steps: seq<Step>, again: Call)
    requires Inv(db) && RunName(c) !in db && Resolve(db, c).Ok? && Resolve(db, c).value.created
    requires Run(Apply(db, Resolves(c)), steps) && again.hitId == c.hitId && SnapshotOf(again.metadata).Ok?
    ensures SnapshotOf(again.metadata) == SnapshotOf(c.metadata) ==>
              Resolve(After(Apply(db, Resolves(c)), steps), again) == Ok(Outcome(false, Resolve(db, c).value.resolved, []))
    ensures SnapshotOf(again.metadata) != SnapshotOf(c.metadata) ==>
              Resolve(After(Apply(db, Resolves(c)), steps), again).Err?
  {
    var made := Apply(db, Resolves(c));
    var now := After(made, steps);
    CreationKeepsInv(db, c);
    RunKeepsInv(made, steps);
    CreationIsIdempotent(db, c, c);
    ExistingKept(made, now, c);
    SameHit(now, c, again);
  }

  /** Two calls on one resolved hit: the second is accepted exactly when its snapshot is the first one's. */
  lemma SameHit(db: Db, c: Call, again: Call)
    requires Inv(db) && again.hitId == c.hitId && SnapshotOf(again.metadata).Ok?
    requires Resolve(db, c).Ok? && !Resolve(db, c).value.created
    ensures if SnapshotOf(again.metadata) == SnapshotOf(c.metadata) then Resolve(db, again) == Resolve(db, c)
            else Resolve(db, again).Err?
  {
    ResolvedSoundly(db, c.hitId);
    assert ResolutionName(c.hitId) in db;
    ResolvedHit(db, c, SnapshotOf(c.metadata).value);
    ResolvedHit(db, again, SnapshotOf(again.metadata).value);
  }

  // ----- what is recorded, in terms of the metadata -----

  /** The field is there and not blank, and the text is what it says between its white space. */
  predicate Says(field: Option<string>, text: string) {
    field.Some? && text == Strip(field.value) && text != ""
  }

  /** The parent is the parent id between its white space, if that leaves anything. */
  predicate SaysParent(field: Option<string>, parent: Option<string>) {
    if parent.Some? then Says(field, parent.value) else field.None? || Strip(field.value) == ""
  }

  predicate Describes(m: Metadata, s: Snapshot) {
    && Says(m.id, s.provider) && m.owner.Some? && Says(m.owner.value, s.owner) && Says(m.name, s.name) && Says(m.branch, s.branch)
    && s.archived == m.archived && s.fork == m.fork && SaysParent(m.parentId, s.parent)
    && s.canonical == "https://github.com/" + s.owner + "/" + s.name
  }

  /** A snapshot is taken exactly of metadata that names all four identity fields, and holds what the metadata says. */
  lemma SnapshotDescribes(m: Metadata, s: Snapshot)
    ensures SnapshotOf(m) == Ok(s) <==> Describes(m, s)
  {}

  /** The Source: the one that has the provider id, else the one the hit names, else a new one named after the provider id. */
  ghost predicate FiledUnder(db: Db, hit: Hit, provider: string, source: string) {
    && (forall s | GetIdentity(db, s).Some? && GetIdentity(db, s).value.provider == provider :: s == source)
    && (hit.sourceId.Some? ==> source == hit.sourceId.value)
    && (hit.sourceId.None? && (forall s | GetIdentity(db, s).Some? :: GetIdentity(db, s).value.provider != provider)
        ==> source == "github:" + provider)
  }

  /** The Source record is kept, or made from the snapshot and the two times. */
  predicate SourceFiled(db: Db, after: Db, id: string, s: Snapshot, firstSeen: int, now: int) {
    GetSource(after, id) == if GetSource(db, id).Some? then GetSource(db, id) else Some(Source(true, s.canonical, firstSeen, now))
  }

  /** The identity is kept, or made from the snapshot, with the discovered name as an alias when it differs. */
  predicate IdentityFiled(db: Db, after: Db, id: string, s: Snapshot, discovered: Option<string>) {
    if GetIdentity(db, id).Some? then GetIdentity(after, id) == GetIdentity(db, id)
    else
      && GetIdentity(after, id).Some?
      && var i := GetIdentity(after, id).value;
      && i.provider == s.provider && i.owner == s.owner && i.name == s.name && i.branch == s.branch && i.archived == s.archived
      && i.aliases == if discovered == None || discovered == Some(s.owner + "/" + s.name) then [] else [discovered.value]
  }

  /** What a call that creates a resolution leaves in the store. */
  ghost predicate Recorded(db: Db, after: Db, c: Call, hit: Hit, firstSeen: int, l: Locator, r: Resolution) {
    var run := "run:" + c.runToken;
    && GetLocator(after, LocatorName(c.hitId).id) == Some(l) && GetResolution(after, c.hitId) == Some(r)
    && Describes(c.metadata, l.state) && FiledUnder(db, hit, l.state.provider, l.sourceId)
    && l.observedAt == c.now && l.runId == run
    && r.hitId == c.hitId && r.sourceId == l.sourceId && r.locatorId == LocatorName(c.hitId).id
    && r.version == c.version && r.resolvedAt == c.now && r.runId == run
    && SourceFiled(db, after, l.sourceId, l.state, firstSeen, c.now)
    && IdentityFiled(db, after, l.sourceId, l.state, c.discovered)
    && GetRunType(after, run) == Some(RegistryRun)
  }

  lemma IdentifiesUnder(db: Db, hit: Hit, discovered: Option<string>, snapshot: Snapshot, first: int, now: int)
    requires IdentitiesHaveSources(db) && Identify(db, hit, discovered, snapshot, first, now).Ok?
    ensures FiledUnder(db, hit, snapshot.provider, Identify(db, hit, discovered, snapshot, first, now).value.sourceId)
  {
    var claimants := Claimants(db, snapshot.provider);
    if |claimants| == 1 {
      OnlyClaimant(db, snapshot.provider, claimants[0]);
    } else {
      assert claimants == [];
      NoClaimant(db, snapshot.provider);
    }
  }

  lemma OnlyClaimant(db: Db, provider: string, id: string)
    requires Claimants(db, provider) == [id]
    ensures forall s :: GetIdentity(db, s).Some? && GetIdentity(db, s).value.provider == provider <==> s == id
  {
    forall s ensures GetIdentity(db, s).Some? && GetIdentity(db, s).value.provider == provider <==> s == id { ClaimantMember(db, provider, s); }
  }

  lemma NoClaimant(db: Db, provider: string)
    requires Claimants(db, provider) == []
    ensures forall s | GetIdentity(db, s).Some? :: GetIdentity(db, s).value.provider != provider
  {
    forall s | GetIdentity(db, s).Some? ensures GetIdentity(db, s).value.provider != provider { ClaimantMember(db, provider, s); }
  }

  /** The records of an identification, as they were found or as they are made. */
  lemma IdentifiesAs(db: Db, hit: Hit, discovered: Option<string>, snapshot: Snapshot, first: int, now: int)
    requires IdentitiesHaveSources(db) && Identify(db, hit, discovered, snapshot, first, now).Ok?
    ensures var i := Identify(db, hit, discovered, snapshot, first, now).value;
            && i.source == (if GetSource(db, i.sourceId).Some? then GetSource(db, i.sourceId).value
                            else Source(true, snapshot.canonical, first, now))
            && i.identity == if GetIdentity(db, i.sourceId).Some? then GetIdentity(db, i.sourceId).value
                             else Identity(snapshot.provider, snapshot.owner, snapshot.name, snapshot.branch,
                                           AliasesOf(discovered, snapshot), snapshot.archived)
  {
    IdentifiesWell(db, hit, discovered, snapshot, first, now);
  }

  /** A created resolution is recorded whole: the locator holds what the metadata says, field by field. */
  lemma CreationRecords(db: Db, c: Call)
    requires Inv(db) && RunName(c) !in db && Resolve(db, c).Ok? && Resolve(db, c).value.created
    ensures GetHit(db, c.hitId).Some? && Lineage(db, GetHit(db, c.hitId).value).Ok?
    ensures var out, hit := Resolve(db, c).value, GetHit(db, c.hitId).value;
            Recorded(db, Insert(db, out.batch), c, hit, Lineage(db, hit).value.observedAt, out.resolved.locator, out.resolved.resolution)
  {
    var a, i := CreatedBy(db, c);
    IdentifiesWell(db, a.hit, c.discovered, a.snapshot, a.run.observedAt, c.now);
    IdentifiesUnder(db, a.hit, c.discovered, a.snapshot, a.run.observedAt, c.now);
    IdentifiesAs(db, a.hit, c.discovered, a.snapshot, a.run.observedAt, c.now);
    SnapshotDescribes(c.metadata, a.snapshot);
    var after, m := Insert(db, BatchOf(c, i, a.snapshot)), NewResolution(c, i, a.snapshot);
    WritesBatch(db, c, a, i, m);
    AfterReads(db, after, c, a, i, m);
    RecordsRead(db, after, c, a, i, m);
  }

  lemma RecordsRead(db: Db, after: Db, c: Call, a: Admitted, i: Identified, m: Resolved)
    requires m == NewResolution(c, i, a.snapshot) && Describes(c.metadata, a.snapshot) && FiledUnder(db, a.hit, a.snapshot.provider, i.sourceId)
    requires i.source == if GetSource(db, i.sourceId).Some? then GetSource(db, i.sourceId).value
                         else Source(true, a.snapshot.canonical, a.run.observedAt, c.now)
    requires i.identity == if GetIdentity(db, i.sourceId).Some? then GetIdentity(db, i.sourceId).value
                           else Identity(a.snapshot.provider, a.snapshot.owner, a.snapshot.name, a.snapshot.branch,
                                         AliasesOf(c.discovered, a.snapshot), a.snapshot.archived)
    requires GetSource(after, i.sourceId) == Some(i.source) && GetIdentity(after, i.sourceId) == Some(i.identity)
    requires GetResolution(after, c.hitId) == Some(m.resolution) && GetLocator(after, LocatorName(c.hitId).id) == Some(m.locator)
    requires GetRunType(after, "run:" + c.runToken) == Some(RegistryRun)
    ensures Recorded(db, after, c, a.hit, a.run.observedAt, m.locator, m.resolution)
  {}

  // ----- two calls on one hit -----

  predicate Alike(a: Option<string>, b: Option<string>) {
    a.Some? && b.Some? && Strip(a.value) == Strip(b.value)
  }

  predicate NoParent(m: Metadata) { m.parentId.None? || Strip(m.parentId.value) == "" }

  /** The two answers of the provider agree field by field, white space aside. */
  predicate Agree(a: Metadata, b: Metadata) {
    && Alike(a.id, b.id) && a.owner.Some? && b.owner.Some? && Alike(a.owner.value, b.owner.value)
    && Alike(a.name, b.name) && Alike(a.branch, b.branch)
    && a.archived == b.archived && a.fork == b.fork
    && NoParent(a) == NoParent(b) && (!NoParent(a) ==> Alike(a.parentId, b.parentId))
  }

  lemma AgreeDescribes(a: Metadata, b: Metadata, s: Snapshot)
    requires Describes(a, s)
    ensures Describes(b, s) <==> Agree(a, b)
  {}

  /** Once a call on a resolved hit succeeds, another does if and only if its metadata agrees with the first one's in every field. */
  lemma SameMetadata(db: Db, c: Call, again: Call)
    requires Inv(db) && again.hitId == c.hitId && Resolve(db, c).Ok? && !Resolve(db, c).value.created
    ensures Resolve(db, again).Ok? <==> Agree(c.metadata, again.metadata)
    ensures Resolve(db, again).Ok? ==> Resolve(db, again) == Resolve(db, c)
  {
    var s := SnapshotOf(c.metadata).value;
    SnapshotDescribes(c.metadata, s);
    AgreeDescribes(c.metadata, again.metadata, s);
    SnapshotDescribes(again.metadata, s);
    if SnapshotOf(again.metadata).Ok? { SameHit(db, c, again); } else { Unreadable(db, again); }
  }

  lemma Unreadable(db: Db, c: Call)
    requires SnapshotOf(c.metadata).Err?
    ensures Resolve(db, c).Err?
  {}

  // ----- when an unresolved hit is resolved -----

  /** The discovery run, its channel and its pipeline run are there, and the latter is a discovery. */
  predicate LineageComplete(db: Db, hit: Hit) {
    && GetDiscoveryRun(db, hit.runId).Some?
    && NameOf(ChannelKind, GetDiscoveryRun(db, hit.runId).value.channelId) in db
    && GetRunType(db, GetDiscoveryRun(db, hit.runId).value.pipelineRunId) == Some(Discovery)
  }

  predicate Provides(db: Db, source: string, provider: string) {
    GetIdentity(db, source).Some? && GetIdentity(db, source).value.provider == provider
  }

  /** The hit may be filed under the Source that has the provider id, or else under a Source that can still take it. */
  ghost predicate Fileable(db: Db, hit: Hit, provider: string) {
    if exists s :: Provides(db, s, provider)
    then forall s | Provides(db, s, provider) :: hit.sourceId.None? || hit.sourceId.value == s
    else
      var s := if hit.sourceId.Some? then hit.sourceId.value else "github:" + provider;
      && (hit.sourceId.Some? ==> GetSource(db, s).Some?) && (GetSource(db, s).Some? ==> GetSource(db, s).value.github)
      && GetIdentity(db, s).None?
  }

  lemma ClaimantsDistinct(db: Db, provider: string)
    requires ProvidersDistinct(db)
    ensures |Claimants(db, provider)| <= 1
  {
    var ids, claimants := SortedIdSet(IdsOf(db, IdentityKind)), Claimants(db, provider);
    FlatMapIncreasing(IdKey, ClaimantAt(db, provider), TextKey, ids);
    if |claimants| > 1 {
      assert claimants[0] in claimants && claimants[1] in claimants;
      ClaimantMember(db, provider, claimants[0]);
      ClaimantMember(db, provider, claimants[1]);
      KeyAsymmetric(TextKey(claimants[0]), TextKey(claimants[1]));
    }
  }

  lemma IdentifiesIff(db: Db, hit: Hit, discovered: Option<string>, snapshot: Snapshot, first: int, now: int)
    requires ProvidersDistinct(db) && IdentitiesHaveSources(db)
    ensures Identify(db, hit, discovered, snapshot, first, now).Ok? <==> Fileable(db, hit, snapshot.provider)
  {
    var claimants := Claimants(db, snapshot.provider);
    ClaimantsDistinct(db, snapshot.provider);
    if claimants == [] {
      NoClaimant(db, snapshot.provider);
    } else {
      OnlyClaimant(db, snapshot.provider, claimants[0]);
      assert Provides(db, claimants[0], snapshot.provider);
    }
  }

  lemma LineageIff(db: Db, hit: Hit)
    ensures Lineage(db, hit).Ok? <==> LineageComplete(db, hit)
    ensures Lineage(db, hit).Ok? ==> Lineage(db, hit).value == GetDiscoveryRun(db, hit.runId).value
  {}

  /**
    An unresolved hit is resolved if and only if it is known, its lineage is complete, its metadata is readable, the
    clock is not behind, and it can be filed.
  */
  lemma NewHitAccepted(db: Db, c: Call)
    requires Inv(db) && GetResolution(db, c.hitId).None?
    ensures Resolve(db, c).Ok?
            <==> && GetHit(db, c.hitId).Some? && LineageComplete(db, GetHit(db, c.hitId).value)
                 && c.now >= GetDiscoveryRun(db, GetHit(db, c.hitId).value.runId).value.observedAt
                 && exists s :: Describes(c.metadata, s) && Fileable(db, GetHit(db, c.hitId).value, s.provider)
    ensures Resolve(db, c).Ok? ==> Resolve(db, c).value.created
  {
    UnresolvedHit(db, c);
    if GetHit(db, c.hitId).Some? {
      LineageIff(db, GetHit(db, c.hitId).value);
      ReadableAndFileable(db, c, GetHit(db, c.hitId).value);
    }
  }

  lemma UnresolvedHit(db: Db, c: Call)
    requires GetResolution(db, c.hitId).None?
    ensures Resolve(db, c).Ok?
            <==> && GetHit(db, c.hitId).Some? && Lineage(db, GetHit(db, c.hitId).value).Ok?
                 && c.now >= Lineage(db, GetHit(db, c.hitId).value).value.observedAt
                 && Identifiable(db, c, GetHit(db, c.hitId).value, Lineage(db, GetHit(db, c.hitId).value).value.observedAt)
    ensures Resolve(db, c).Ok? ==> Resolve(db, c).value.created
  {
    UnresolvedAdmitted(db, c);
    if Admit(db, c).Ok? { AdmittedNew(db, c); }
  }

  lemma UnresolvedAdmitted(db: Db, c: Call)
    requires GetResolution(db, c.hitId).None?
    ensures Admit(db, c).Ok? <==> GetHit(db, c.hitId).Some? && Lineage(db, GetHit(db, c.hitId).value).Ok? && SnapshotOf(c.metadata).Ok?
    ensures Admit(db, c).Ok? ==> Admit(db, c).value.existing.None?
  {}

  predicate Identifiable(db: Db, c: Call, hit: Hit, first: int) {
    SnapshotOf(c.metadata).Ok? && Identify(db, hit, c.discovered, SnapshotOf(c.metadata).value, first, c.now).Ok?
  }

  lemma ReadableAndFileable(db: Db, c: Call, hit: Hit)
    requires Inv(db)
    ensures forall first :: Identifiable(db, c, hit, first) <==> exists s :: Describes(c.metadata, s) && Fileable(db, hit, s.provider)
  {
    forall s ensures SnapshotOf(c.metadata) == Ok(s) <==> Describes(c.metadata, s) { SnapshotDescribes(c.metadata, s); }
    forall first ensures Identifiable(db, c, hit, first) <==> exists s :: Describes(c.metadata, s) && Fileable(db, hit, s.provider) {
      if SnapshotOf(c.metadata).Ok? { IdentifiesIff(db, hit, c.discovered, SnapshotOf(c.metadata).value, first, c.now); }
    }
  }
}
