/**
  The repository registry: provider identities, append-only locator history and idempotent
  resolution of discovery hits (src/lemmamind/repository_registry.py).

  The clock and the id factory are parameters of a call, and so is the reading of a discovered
  locator as an owner/name pair.
*/
module Registry {
  import opened Wrappers
  import opened Orders
  import opened Texts
  import opened Digests
  import opened Store

  // ----- provider metadata -----

  /** A metadata field that is missing or null is None; any other value is its printed form. */
  datatype Metadata = Metadata(
    id: Option<string>, owner: Option<Option<string>>, name: Option<string>, branch: Option<string>,
    archived: bool, fork: bool, parentId: Option<string>)

  datatype Snapshot = Snapshot(
    provider: string, owner: string, name: string, canonical: string, branch: string,
    archived: bool, fork: bool, parent: Option<string>)

  datatype RegistryError =
    | UnknownHit | MissingRun | MissingChannel | MissingPipelineRun | NotDiscovery | OmittedIdentity | EmptyIdentity
    | ClockBehind | IncompleteProvenance | NotRegistryRun | OtherProvider | SourceLinkDisagrees | StateDiffers | IdentityCollision
    | ManyIdentities | MissingSource | NotGitHub | LinkConflicts | SourceBound | StoreConflict

  function SnapshotOf(m: Metadata): Result<Snapshot, RegistryError> {
    if m.id.None? || m.owner.None? || m.owner.value.None? || m.name.None? || m.branch.None? then Err(OmittedIdentity)
    else
      var provider, owner := Strip(m.id.value), Strip(m.owner.value.value);
      var name, branch := Strip(m.name.value), Strip(m.branch.value);
      if provider == "" || owner == "" || name == "" || branch == "" then Err(EmptyIdentity)
      else
        var parent := if m.parentId.Some? && Strip(m.parentId.value) != "" then Some(Strip(m.parentId.value)) else None;
        Ok(Snapshot(provider, owner, name, "https://github.com/" + owner + "/" + name, branch, m.archived, m.fork, parent))
  }

  // ----- records -----

  datatype RunType = Discovery | RegistryRun | OtherRun

  datatype Hit = Hit(runId: string, sourceId: Option<string>, locator: string)

  datatype DiscoveryRun = DiscoveryRun(channelId: string, pipelineRunId: string, observedAt: int)

  datatype Source = Source(github: bool, canonical: string, firstSeen: int, lastSeen: int)

  datatype Identity = Identity(
    provider: string, owner: string, name: string, branch: string, aliases: seq<string>, archived: bool)

  datatype Locator = Locator(sourceId: string, state: Snapshot, observedAt: int, runId: string)

  datatype Resolution = Resolution(
    hitId: string, sourceId: string, locatorId: Id, version: string, resolvedAt: int, runId: string)

  datatype Record =
    | HitRecord(hit: Hit)
    | DiscoveryRunRecord(run: DiscoveryRun)
    | ChannelRecord
    | RunRecord(runType: RunType)
    | SourceRecord(source: Source)
    | IdentityRecord(identity: Identity)
    | LocatorRecord(locator: Locator)
    | ResolutionRecord(resolution: Resolution)

  type Db = Rows<Record>

  function NameOf(kind: Kind, id: string): Name { Name(kind, [Text(id)]) }

  function LocatorName(hitId: string): Name { Name(LocatorKind, [Text("repository-locator"), Text(hitId)]) }

  function ResolutionName(hitId: string): Name { Name(ResolutionKind, [Text("discovery-resolution"), Text(hitId)]) }

  function GetHit(db: Db, id: string): Option<Hit> {
    var n := NameOf(HitKind, id);
    if n in db && db[n].HitRecord? then Some(db[n].hit) else None
  }

  function GetDiscoveryRun(db: Db, id: string): Option<DiscoveryRun> {
    var n := NameOf(DiscoveryRunKind, id);
    if n in db && db[n].DiscoveryRunRecord? then Some(db[n].run) else None
  }

  function GetRunType(db: Db, id: string): Option<RunType> {
    var n := NameOf(RunKind, id);
    if n in db && db[n].RunRecord? then Some(db[n].runType) else None
  }

  function GetSource(db: Db, id: string): Option<Source> {
    var n := NameOf(SourceKind, id);
    if n in db && db[n].SourceRecord? then Some(db[n].source) else None
  }

  function GetIdentity(db: Db, id: string): Option<Identity> {
    var n := NameOf(IdentityKind, id);
    if n in db && db[n].IdentityRecord? then Some(db[n].identity) else None
  }

  function GetLocator(db: Db, id: Id): Option<Locator> {
    var n := Name(LocatorKind, id);
    if n in db && db[n].LocatorRecord? then Some(db[n].locator) else None
  }

  function GetResolution(db: Db, hitId: string): Option<Resolution> {
    var n := ResolutionName(hitId);
    if n in db && db[n].ResolutionRecord? then Some(db[n].resolution) else None
  }

  /** The Sources whose identity has this provider id, in the order the store lists them. */
  function Claimants(db: Db, provider: string): seq<string> {
    FlatMap(ClaimantAt(db, provider), SortedIdSet(IdsOf(db, IdentityKind)))
  }

  function ClaimantAt(db: Db, provider: string): Id -> seq<string> {
    (id: Id) =>
      if |id| == 1 && id[0].Text? && GetIdentity(db, id[0].s).Some? && GetIdentity(db, id[0].s).value.provider == provider
      then [id[0].s] else []
  }

  lemma ClaimantMember(db: Db, provider: string, source: string)
    ensures source in Claimants(db, provider)
            <==> GetIdentity(db, source).Some? && GetIdentity(db, source).value.provider == provider
  {
    var ids := SortedIdSet(IdsOf(db, IdentityKind));
    FlatMapMembers(ClaimantAt(db, provider), ids, source);
    if GetIdentity(db, source).Some? && GetIdentity(db, source).value.provider == provider {
      var id: Id := [Text(source)];
      assert Name(IdentityKind, id) in db;
      assert id in ids;
      var i :| 0 <= i < |ids| && ids[i] == id;
      assert source in ClaimantAt(db, provider)(ids[i]);
    }
    if i :| 0 <= i < |ids| && source in ClaimantAt(db, provider)(ids[i]) {
      assert ids[i][0] == Text(source);
    }
  }

  // ----- one resolution -----

  function Lineage(db: Db, hit: Hit): Result<DiscoveryRun, RegistryError> {
    var run := GetDiscoveryRun(db, hit.runId);
    if run.None? then Err(MissingRun)
    else if NameOf(ChannelKind, run.value.channelId) !in db then Err(MissingChannel)
    else if GetRunType(db, run.value.pipelineRunId).None? then Err(MissingPipelineRun)
    else if GetRunType(db, run.value.pipelineRunId).value != Discovery then Err(NotDiscovery)
    else Ok(run.value)
  }

  /** What a call returns besides whether it created anything. */
  datatype Resolved = Resolved(source: Source, identity: Identity, locator: Locator, resolution: Resolution)

  function Existing(db: Db, hitId: string, hit: Hit, snapshot: Snapshot): Result<Option<Resolved>, RegistryError> {
    match GetResolution(db, hitId)
    case None => Ok(None)
    case Some(resolution) =>
      if resolution.hitId != hitId then Err(IdentityCollision)
      else
        var locator, source := GetLocator(db, resolution.locatorId), GetSource(db, resolution.sourceId);
        var identity, runType := GetIdentity(db, resolution.sourceId), GetRunType(db, resolution.runId);
        if locator.None? || source.None? || identity.None? || runType.None? then Err(IncompleteProvenance)
        else if runType.value != RegistryRun then Err(NotRegistryRun)
        else if identity.value.provider != snapshot.provider then Err(OtherProvider)
        else if hit.sourceId.Some? && hit.sourceId.value != resolution.sourceId then Err(SourceLinkDisagrees)
        else if locator.value.state != snapshot then Err(StateDiffers)
        else Ok(Some(Resolved(source.value, identity.value, locator.value, resolution)))
  }

  datatype Identified = Identified(sourceId: string, source: Source, identity: Identity, newSource: bool, newIdentity: bool)

  function CanonicalSourceId(snapshot: Snapshot): string { "github:" + snapshot.provider }

  function AliasesOf(discovered: Option<string>, snapshot: Snapshot): seq<string> {
    if discovered.Some? && discovered.value != snapshot.owner + "/" + snapshot.name then [discovered.value] else []
  }

  /** The Source the hit is filed under when no identity has the provider id yet. */
  function FileUnder(db: Db, hit: Hit, snapshot: Snapshot, firstSeen: int, now: int): Result<(string, Source, bool), RegistryError> {
    if hit.sourceId.Some? then
      var source := GetSource(db, hit.sourceId.value);
      if source.None? then Err(MissingSource)
      else if !source.value.github then Err(NotGitHub)
      else Ok((hit.sourceId.value, source.value, false))
    else
      var id := CanonicalSourceId(snapshot);
      var source := GetSource(db, id);
      if source.None? then Ok((id, Source(true, snapshot.canonical, firstSeen, now), true))
      else if !source.value.github then Err(NotGitHub)
      else Ok((id, source.value, false))
  }

  function Identify(db: Db, hit: Hit, discovered: Option<string>, snapshot: Snapshot, firstSeen: int, now: int)
    : Result<Identified, RegistryError>
  {
    var claimants := Claimants(db, snapshot.provider);
    if |claimants| > 1 then Err(ManyIdentities)
    else if |claimants| == 1 then
      ClaimantMember(db, snapshot.provider, claimants[0]);
      var id := claimants[0];
      var source := GetSource(db, id);
      if source.None? then Err(MissingSource)
      else if !source.value.github then Err(NotGitHub)
      else if hit.sourceId.Some? && hit.sourceId.value != id then Err(LinkConflicts)
      else Ok(Identified(id, source.value, GetIdentity(db, id).value, false, false))
    else
      var filed := FileUnder(db, hit, snapshot, firstSeen, now);
      if filed.Err? then Err(filed.error)
      else
        var (id, source, isNew) := filed.value;
        var bound := GetIdentity(db, id);
        if bound.Some? then
          if bound.value.provider != snapshot.provider then Err(SourceBound)
          else Ok(Identified(id, source, bound.value, isNew, false))
        else
          Ok(Identified(id, source,
                        Identity(snapshot.provider, snapshot.owner, snapshot.name, snapshot.branch,
                                 AliasesOf(discovered, snapshot), snapshot.archived),
                        isNew, true))
  }

  /** After the provider lookup found no identity, the Source it is filed under has none with that provider id. */
  lemma BoundBranchIsDead(db: Db, hit: Hit, snapshot: Snapshot, firstSeen: int, now: int, id: string)
    requires Claimants(db, snapshot.provider) == []
    ensures GetIdentity(db, id).Some? ==> GetIdentity(db, id).value.provider != snapshot.provider
  {
    ClaimantMember(db, snapshot.provider, id);
  }

  /** What one call is given besides the store. */
  datatype Call = Call(hitId: string, metadata: Metadata, discovered: Option<string>, version: string, now: int, runToken: string)

  datatype Outcome = Outcome(created: bool, resolved: Resolved, batch: seq<Row<Record>>)

  function NewResolution(c: Call, i: Identified, snapshot: Snapshot): Resolved {
    var run := "run:" + c.runToken;
    Resolved(i.source, i.identity, Locator(i.sourceId, snapshot, c.now, run),
             Resolution(c.hitId, i.sourceId, LocatorName(c.hitId).id, c.version, c.now, run))
  }

  function BatchOf(c: Call, i: Identified, snapshot: Snapshot): seq<Row<Record>> {
    var r := NewResolution(c, i, snapshot);
    (if i.newSource then [Row(NameOf(SourceKind, i.sourceId), SourceRecord(i.source))] else [])
    + (if i.newIdentity then [Row(NameOf(IdentityKind, i.sourceId), IdentityRecord(i.identity))] else [])
    + [Row(LocatorName(c.hitId), LocatorRecord(r.locator)), Row(ResolutionName(c.hitId), ResolutionRecord(r.resolution)),
       Row(NameOf(RunKind, "run:" + c.runToken), RunRecord(RegistryRun))]
  }

  /** The hit, its discovery run, the snapshot and the resolution that already exists. */
  datatype Admitted = Admitted(hit: Hit, run: DiscoveryRun, snapshot: Snapshot, existing: Option<Resolved>)

  function Admit(db: Db, c: Call): Result<Admitted, RegistryError> {
    match GetHit(db, c.hitId)
    case None => Err(UnknownHit)
    case Some(hit) =>
      match Lineage(db, hit)
      case Err(error) => Err(error)
      case Ok(run) =>
        match SnapshotOf(c.metadata)
        case Err(error) => Err(error)
        case Ok(snapshot) =>
          match Existing(db, c.hitId, hit, snapshot)
          case Err(error) => Err(error)
          case Ok(existing) => Ok(Admitted(hit, run, snapshot, existing))
  }

  function Resolve(db: Db, c: Call): Result<Outcome, RegistryError> {
    match Admit(db, c)
    case Err(error) => Err(error)
    case Ok(a) =>
      if a.existing.Some? then Ok(Outcome(false, a.existing.value, []))
      else if c.now < a.run.observedAt then Err(ClockBehind)
      else
        match Identify(db, a.hit, c.discovered, a.snapshot, a.run.observedAt, c.now)
        case Err(error) => Err(error)
        case Ok(i) => Ok(Outcome(true, NewResolution(c, i, a.snapshot), BatchOf(c, i, a.snapshot)))
  }

  method RecordsOf(c: Call, i: Identified, snapshot: Snapshot) returns (records: seq<Row<Record>>)
    ensures records == BatchOf(c, i, snapshot)
  {
    var made := NewResolution(c, i, snapshot);
    records := [];
    if i.newSource { records := records + [Row(NameOf(SourceKind, i.sourceId), SourceRecord(i.source))]; }
    if i.newIdentity { records := records + [Row(NameOf(IdentityKind, i.sourceId), IdentityRecord(i.identity))]; }
    records := records + [Row(LocatorName(c.hitId), LocatorRecord(made.locator)),
                          Row(ResolutionName(c.hitId), ResolutionRecord(made.resolution)),
                          Row(NameOf(RunKind, "run:" + c.runToken), RunRecord(RegistryRun))];
  }

  /** The call itself: it writes the batch of a new resolution, or nothing at all. */
  method ResolveHitFromMetadata(store: ContractStore<Record>, c: Call) returns (r: Result<Outcome, RegistryError>)
    modifies store
    ensures r.Ok? <==> Resolve(old(store.rows), c).Ok? && Consistent(old(store.rows), Resolve(old(store.rows), c).value.batch)
    ensures Resolve(old(store.rows), c).Err? ==> r == Resolve(old(store.rows), c)
    ensures r.Ok? ==> r == Resolve(old(store.rows), c) && store.rows == Insert(old(store.rows), r.value.batch)
    ensures r.Err? ==> store.rows == old(store.rows)
  {
    var hit := GetHit(store.rows, c.hitId);
    if hit.None? { return Err(UnknownHit); }
    var lineage := Lineage(store.rows, hit.value);
    if lineage.Err? { return Err(lineage.error); }
    var snapshot := SnapshotOf(c.metadata);
    if snapshot.Err? { return Err(snapshot.error); }
    var existing := Existing(store.rows, c.hitId, hit.value, snapshot.value);
    if existing.Err? { return Err(existing.error); }
    if existing.value.Some? { return Ok(Outcome(false, existing.value.value, [])); }
    if c.now < lineage.value.observedAt { return Err(ClockBehind); }
    var identified := Identify(store.rows, hit.value, c.discovered, snapshot.value, lineage.value.observedAt, c.now);
    if identified.Err? { return Err(identified.error); }
    var records := RecordsOf(c, identified.value, snapshot.value);
    var put := store.PutMany(records);
    if put.Err? { return Err(StoreConflict); }
    r := Ok(Outcome(true, NewResolution(c, identified.value, snapshot.value), records));
  }

  // ----- the newest locator -----

  function LocatorKey(id: Id, l: Locator): Key { [Num(l.observedAt)] + id }

  /** No locator of the Source is newer, ids breaking ties. */
  predicate Newest(db: Db, source: string, id: Id) {
    && GetLocator(db, id).Some? && GetLocator(db, id).value.sourceId == source
    && forall other | other in IdsOf(db, LocatorKind) && GetLocator(db, other).Some? && GetLocator(db, other).value.sourceId == source ::
         !KeyLess(LocatorKey(id, GetLocator(db, id).value), LocatorKey(other, GetLocator(db, other).value))
  }

  method LatestLocator(store: ContractStore<Record>, source: string) returns (best: Option<Id>)
    ensures best.None? <==> forall id | id in IdsOf(store.rows, LocatorKind) && GetLocator(store.rows, id).Some? ::
                              GetLocator(store.rows, id).value.sourceId != source
    ensures best.Some? ==> Newest(store.rows, source, best.value)
  {
    var db := store.rows;
    var ids := SortedIdSet(IdsOf(db, LocatorKind));
    best := None;
    for i := 0 to |ids|
      invariant best.None? <==> forall k | 0 <= k < i && GetLocator(db, ids[k]).Some? :: GetLocator(db, ids[k]).value.sourceId != source
      invariant best.Some? ==> GetLocator(db, best.value).Some? && GetLocator(db, best.value).value.sourceId == source
      invariant best.Some? ==>
                  (forall k | 0 <= k < i && GetLocator(db, ids[k]).Some? && GetLocator(db, ids[k]).value.sourceId == source ::
                     !KeyLess(LocatorKey(best.value, GetLocator(db, best.value).value), LocatorKey(ids[k], GetLocator(db, ids[k]).value)))
    {
      var here := GetLocator(db, ids[i]);
      if here.None? || here.value.sourceId != source { continue; }
      KeyConnected(LocatorKey(ids[i], here.value), LocatorKey(ids[i], here.value));
      if best.None? {
        best := Some(ids[i]);
      } else {
        var was := LocatorKey(best.value, GetLocator(db, best.value).value);
        if KeyLess(was, LocatorKey(ids[i], here.value)) {
          NewerBeats(db, ids, i, was, LocatorKey(ids[i], here.value), source);
          best := Some(ids[i]);
        }
      }
    }
    forall id | id in IdsOf(db, LocatorKind) ensures id in ids {}
  }

  lemma NewerBeats(db: Db, ids: seq<Id>, i: nat, was: Key, now: Key, source: string)
    requires i <= |ids| && KeyLess(was, now)
    requires forall k | 0 <= k < i && GetLocator(db, ids[k]).Some? && GetLocator(db, ids[k]).value.sourceId == source ::
               !KeyLess(was, LocatorKey(ids[k], GetLocator(db, ids[k]).value))
    ensures forall k | 0 <= k < i && GetLocator(db, ids[k]).Some? && GetLocator(db, ids[k]).value.sourceId == source ::
              !KeyLess(now, LocatorKey(ids[k], GetLocator(db, ids[k]).value))
  {
    forall k | 0 <= k < i && GetLocator(db, ids[k]).Some? && GetLocator(db, ids[k]).value.sourceId == source
      ensures !KeyLess(now, LocatorKey(ids[k], GetLocator(db, ids[k]).value))
    {
      var key := LocatorKey(ids[k], GetLocator(db, ids[k]).value);
      if KeyLess(now, key) { KeyTransitive(was, now, key); }
    }
  }

  /** The newest locator has the latest observation of its Source, and the greatest id among those. */
  lemma NewestIsLatest(db: Db, source: string, id: Id, other: Id)
    requires Newest(db, source, id) && GetLocator(db, other).Some? && GetLocator(db, other).value.sourceId == source
    ensures var mine, theirs := GetLocator(db, id).value.observedAt, GetLocator(db, other).value.observedAt;
            mine > theirs || (mine == theirs && !KeyLess(id, other))
  {
    assert Name(LocatorKind, other) in db;
    var a, b := LocatorKey(id, GetLocator(db, id).value), LocatorKey(other, GetLocator(db, other).value);
    assert a[1..] == id && b[1..] == other;
  }
}
