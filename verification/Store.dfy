/**
  The append-only contract store (src/lemmamind/storage.py): typed records under immutable
  identities, with atomic batches.
*/
module Store {
  import opened Wrappers
  import opened Orders
  import opened Digests

  /** The contract types whose records are modelled. */
  datatype Kind =
    | ArtifactKind | ManifestKind | RevisionKind | RunKind | FactKind | AssertionKind | DiagnosticKind
    | ObservationKind | SupportKind | PatternKind | OccurrenceKind | OccurrenceSupportKind | HitKind | ChannelKind | DiscoveryRunKind
    | SourceKind | IdentityKind | LocatorKind | ResolutionKind

  datatype Name = Name(kind: Kind, id: Id)

  /** A record under its typed identity. */
  datatype Row<R> = Row(name: Name, body: R)

  type Rows<R> = map<Name, R>

  datatype StoreError = RecordConflict

  /** No record of the batch disagrees with the store or with an earlier record of the batch. */
  predicate Consistent<R(==)>(rows: Rows<R>, batch: seq<Row<R>>) {
    && (forall r | r in batch && r.name in rows :: rows[r.name] == r.body)
    && (forall r, q | r in batch && q in batch && r.name == q.name :: r == q)
  }

  function Insert<R>(rows: Rows<R>, batch: seq<Row<R>>): Rows<R> {
    if batch == [] then rows
    else Insert(rows, batch[..|batch| - 1])[batch[|batch| - 1].name := batch[|batch| - 1].body]
  }

  lemma {:induction false} InsertDomain<R(!new)>(rows: Rows<R>, batch: seq<Row<R>>, n: Name)
    ensures n in Insert(rows, batch) <==> n in rows || exists r | r in batch :: r.name == n
  {
    if batch != [] {
      var init, last := batch[..|batch| - 1], batch[|batch| - 1];
      assert batch == init + [last];
      InsertDomain(rows, init, n);
    }
  }

  lemma {:induction false} InsertFinds<R>(rows: Rows<R>, batch: seq<Row<R>>, r: Row<R>)
    requires Consistent(rows, batch) && r in batch
    ensures r.name in Insert(rows, batch) && Insert(rows, batch)[r.name] == r.body
  {
    var init, last := batch[..|batch| - 1], batch[|batch| - 1];
    assert batch == init + [last];
    assert last in batch;
    if r.name != last.name { InsertFinds(rows, init, r); }
  }

  /** What the store held before a consistent batch it still holds after it. */
  lemma {:induction false} InsertKeeps<R>(rows: Rows<R>, batch: seq<Row<R>>, n: Name)
    requires Consistent(rows, batch) && n in rows
    ensures n in Insert(rows, batch) && Insert(rows, batch)[n] == rows[n]
  {
    if batch != [] {
      var init, last := batch[..|batch| - 1], batch[|batch| - 1];
      assert batch == init + [last];
      assert last in batch;
      InsertKeeps(rows, init, n);
    }
  }

  /** b holds everything that a holds, unchanged. */
  predicate Extends<R(==)>(a: Rows<R>, b: Rows<R>) {
    forall n | n in a :: n in b && b[n] == a[n]
  }

  lemma InsertExtends<R>(rows: Rows<R>, batch: seq<Row<R>>)
    requires Consistent(rows, batch)
    ensures Extends(rows, Insert(rows, batch))
  {
    forall n | n in rows ensures n in Insert(rows, batch) && Insert(rows, batch)[n] == rows[n] { InsertKeeps(rows, batch, n); }
  }

  /** Inserting a batch that is already there changes nothing. */
  lemma {:induction false} InsertPresent<R>(rows: Rows<R>, batch: seq<Row<R>>)
    requires forall r | r in batch :: r.name in rows && rows[r.name] == r.body
    ensures Insert(rows, batch) == rows
  {
    if batch != [] {
      var init, last := batch[..|batch| - 1], batch[|batch| - 1];
      assert batch == init + [last];
      assert last in batch;
      InsertPresent(rows, init);
      assert rows[last.name := last.body] == rows;
    }
  }

  /** A batch can be put again: it is consistent with what it left behind, and writes nothing new. */
  lemma PutIsIdempotent<R>(rows: Rows<R>, batch: seq<Row<R>>)
    requires Consistent(rows, batch)
    ensures Consistent(Insert(rows, batch), batch)
    ensures Insert(Insert(rows, batch), batch) == Insert(rows, batch)
  {
    forall r | r in batch ensures r.name in Insert(rows, batch) && Insert(rows, batch)[r.name] == r.body {
      InsertFinds(rows, batch, r);
    }
    InsertPresent(Insert(rows, batch), batch);
  }

  lemma ConsistentStep<R>(rows: Rows<R>, batch: seq<Row<R>>, i: nat)
    requires i < |batch| && Consistent(rows, batch[..i])
    ensures Consistent(rows, batch[..i + 1])
            <==> batch[i].name !in Insert(rows, batch[..i]) || Insert(rows, batch[..i])[batch[i].name] == batch[i].body
    ensures !Consistent(rows, batch[..i + 1]) ==> !Consistent(rows, batch)
    ensures Insert(rows, batch[..i + 1]) == Insert(rows, batch[..i])[batch[i].name := batch[i].body]
  {
    var before, r := batch[..i], batch[i];
    assert batch[..i + 1] == before + [r];
    assert forall q | q in before :: q in batch;
    ConsistentSnoc(rows, before, r);
  }

  lemma ConsistentSnoc<R>(rows: Rows<R>, before: seq<Row<R>>, r: Row<R>)
    requires Consistent(rows, before)
    ensures Consistent(rows, before + [r])
            <==> r.name !in Insert(rows, before) || Insert(rows, before)[r.name] == r.body
    ensures Insert(rows, before + [r]) == Insert(rows, before)[r.name := r.body]
  {
    var now := before + [r];
    assert now[..|before|] == before;
    assert r in now;
    if r.name in rows { InsertKeeps(rows, before, r.name); }
    forall q | q in before ensures q in now && q.name in Insert(rows, before) && Insert(rows, before)[q.name] == q.body {
      InsertFinds(rows, before, q);
    }
    NameBefore(rows, before, r.name);
  }

  lemma NameBefore<R>(rows: Rows<R>, before: seq<Row<R>>, n: Name)
    ensures n in Insert(rows, before) ==> n in rows || exists i | 0 <= i < |before| :: before[i].name == n
  {
    if before != [] { NameBefore(rows, before[..|before| - 1], n); }
  }

  function IdsOf<R>(rows: Rows<R>, kind: Kind): set<Id> {
    set n | n in rows && n.kind == kind :: n.id
  }

  function SortedIdSet(ids: set<Id>): (r: seq<Id>)
    ensures Increasing(IdKey, r)
    ensures forall id :: id in r <==> id in ids
  {
    SortSet(IdKey, ids)
  }

  /** The records of a kind in the order of their ids. */
  function Listing<R>(rows: Rows<R>, kind: Kind): (r: seq<R>) {
    var ids := SortedIdSet(IdsOf(rows, kind));
    assert forall i | 0 <= i < |ids| :: ids[i] in ids;
    seq(|ids|, i requires 0 <= i < |ids| => rows[Name(kind, ids[i])])
  }

  /** A listing holds exactly the records of its kind. */
  lemma ListingMember<R(!new)>(rows: Rows<R>, kind: Kind, x: R)
    ensures x in Listing(rows, kind) <==> exists n | n in rows :: n.kind == kind && rows[n] == x
  {
    var ids := SortedIdSet(IdsOf(rows, kind));
    if n :| n in rows && n.kind == kind && rows[n] == x {
      assert n.id in ids;
      var i :| 0 <= i < |ids| && ids[i] == n.id;
      assert Listing(rows, kind)[i] == x;
    }
    if x in Listing(rows, kind) {
      var i :| 0 <= i < |ids| && Listing(rows, kind)[i] == x;
      assert ids[i] in ids;
      assert Name(kind, ids[i]) in rows;
    }
  }

  // ----- new records, kind by kind -----

  /** Every row of the batch has a name of its own. */
  predicate NewNames<R>(rows: Rows<R>, batch: seq<Row<R>>) {
    && (forall i | 0 <= i < |batch| :: batch[i].name !in rows)
    && (forall i, j | 0 <= i < j < |batch| :: batch[i].name != batch[j].name)
  }

  lemma NewNamesConsistent<R>(rows: Rows<R>, batch: seq<Row<R>>)
    requires NewNames(rows, batch)
    ensures Consistent(rows, batch)
  {}

  function BodyAt<R>(rows: Rows<R>, kind: Kind): Id -> Option<R> {
    (id: Id) => if Name(kind, id) in rows then Some(rows[Name(kind, id)]) else None
  }

  function Given<R>(r: R): Option<R> { Some(r) }

  lemma ListingBodies<R>(rows: Rows<R>, kind: Kind)
    ensures Map(BodyAt(rows, kind), SortedIdSet(IdsOf(rows, kind))) == Map(Given, Listing(rows, kind))
  {
    var ids := SortedIdSet(IdsOf(rows, kind));
    forall i | 0 <= i < |ids| ensures BodyAt(rows, kind)(ids[i]) == Some(Listing(rows, kind)[i]) {
      assert ids[i] in ids;
    }
  }

  lemma SortedIdsUnique(ids: set<Id>)
    ensures Unique(SortedIdSet(ids))
  {
    var s := SortedIdSet(ids);
    forall i, j | 0 <= i < j < |s| ensures s[i] != s[j] { KeyAsymmetric(IdKey(s[i]), IdKey(s[j])); }
  }

  /** A new id takes its place among the sorted ids. */
  lemma IdAdded(ids: set<Id>, id: Id)
    requires id !in ids
    ensures multiset(SortedIdSet(ids + {id})) == multiset(SortedIdSet(ids) + [id])
  {
    SortedIdsUnique(ids);
    SortedIdsUnique(ids + {id});
    UniqueSnoc(SortedIdSet(ids), id);
    UniqueSameMembers(SortedIdSet(ids + {id}), SortedIdSet(ids) + [id]);
  }

  function Unwrap<R>(o: Option<R>): seq<R> { if o.Some? then [o.value] else [] }

  lemma {:induction false} UnwrapGiven<R>(s: seq<R>)
    ensures FlatMap(Unwrap, Map(Given, s)) == s
  {
    if s != [] {
      var n := |s| - 1;
      assert s == s[..n] + [s[n]];
      MapAppend(Given, s[..n], [s[n]]);
      assert Map(Given, [s[n]]) == [Given(s[n])];
      FlatMapOne(Unwrap, Map(Given, s[..n]), Given(s[n]));
      UnwrapGiven(s[..n]);
    }
  }

  /** Adding a record under a new name adds it to the listing of its kind and to no other. */
  lemma ListingAdds<R(!new)>(rows: Rows<R>, r: Row<R>, kind: Kind)
    requires r.name !in rows
    ensures multiset(Listing(rows[r.name := r.body], kind))
            == multiset(Listing(rows, kind) + (if r.name.kind == kind then [r.body] else []))
  {
    var after := rows[r.name := r.body];
    if r.name.kind == kind {
      ListingAddsHere(rows, r);
    } else {
      assert IdsOf(after, kind) == IdsOf(rows, kind) by {
        forall id ensures id in IdsOf(after, kind) <==> id in IdsOf(rows, kind) {
          assert id in IdsOf(after, kind) <==> Name(kind, id) in after;
          assert id in IdsOf(rows, kind) <==> Name(kind, id) in rows;
        }
      }
      assert Listing(after, kind) == Listing(rows, kind) + [];
    }
  }

  lemma IdsAdded<R>(rows: Rows<R>, r: Row<R>)
    ensures IdsOf(rows[r.name := r.body], r.name.kind) == IdsOf(rows, r.name.kind) + {r.name.id}
  {
    var after, kind := rows[r.name := r.body], r.name.kind;
    forall id ensures id in IdsOf(after, kind) <==> id in IdsOf(rows, kind) + {r.name.id} {
      assert id in IdsOf(after, kind) <==> Name(kind, id) in after;
      assert id in IdsOf(rows, kind) <==> Name(kind, id) in rows;
    }
  }

  lemma BodiesAdded<R>(rows: Rows<R>, r: Row<R>, ids: seq<Id>)
    requires forall i | 0 <= i < |ids| :: ids[i] != r.name.id
    ensures Map(BodyAt(rows[r.name := r.body], r.name.kind), ids + [r.name.id])
            == Map(BodyAt(rows, r.name.kind), ids) + [Some(r.body)]
  {
    var after, kind := rows[r.name := r.body], r.name.kind;
    MapAppend(BodyAt(after, kind), ids, [r.name.id]);
    assert Map(BodyAt(after, kind), ids) == Map(BodyAt(rows, kind), ids);
  }

  lemma GivenMultiset<R>(a: seq<R>, b: seq<R>)
    requires multiset(Map(Given, a)) == multiset(Map(Given, b))
    ensures multiset(a) == multiset(b)
  {
    FlatMapMultiset(Unwrap, Map(Given, a), Map(Given, b));
    UnwrapGiven(a);
    UnwrapGiven(b);
  }

  lemma ListingAddsHere<R(!new)>(rows: Rows<R>, r: Row<R>)
    requires r.name !in rows
    ensures multiset(Listing(rows[r.name := r.body], r.name.kind)) == multiset(Listing(rows, r.name.kind) + [r.body])
  {
    var after, kind := rows[r.name := r.body], r.name.kind;
    var ids := SortedIdSet(IdsOf(rows, kind));
    assert r.name.id !in IdsOf(rows, kind);
    IdsAdded(rows, r);
    IdAdded(IdsOf(rows, kind), r.name.id);
    MapMultiset(BodyAt(after, kind), SortedIdSet(IdsOf(after, kind)), ids + [r.name.id]);
    forall i | 0 <= i < |ids| ensures ids[i] != r.name.id { assert ids[i] in ids; }
    BodiesAdded(rows, r, ids);
    ListingBodies(rows, kind);
    ListingBodies(after, kind);
    MapAppend(Given, Listing(rows, kind), [r.body]);
    assert Map(Given, [r.body]) == [Some(r.body)];
    GivenMultiset(Listing(after, kind), Listing(rows, kind) + [r.body]);
  }

  /** What f reads off the rows of one kind. */
  function OfKind<R, X>(kind: Kind, f: R -> seq<X>): Row<R> -> seq<X> {
    (r: Row<R>) => if r.name.kind == kind then f(r.body) else []
  }

  /** A listing after a batch of new records reads as before, plus what the batch adds, in some order. */
  lemma {:induction false} ListingAfter<R(!new), X>(rows: Rows<R>, batch: seq<Row<R>>, kind: Kind, f: R -> seq<X>)
    requires NewNames(rows, batch)
    ensures multiset(FlatMap(f, Listing(Insert(rows, batch), kind)))
            == multiset(FlatMap(f, Listing(rows, kind))) + multiset(FlatMap(OfKind(kind, f), batch))
  {
    if batch != [] {
      var init, last := batch[..|batch| - 1], batch[|batch| - 1];
      ListingAfter(rows, init, kind, f);
      NameBefore(rows, init, last.name);
      ListingAdds(Insert(rows, init), last, kind);
      ListingReads(Insert(rows, init), last, kind, f);
    }
  }

  lemma ListingReads<R(!new), X>(rows: Rows<R>, r: Row<R>, kind: Kind, f: R -> seq<X>)
    requires r.name !in rows
    ensures multiset(FlatMap(f, Listing(rows[r.name := r.body], kind)))
            == multiset(FlatMap(f, Listing(rows, kind))) + multiset(OfKind(kind, f)(r))
  {
    ListingAdds(rows, r, kind);
    var before, more := Listing(rows, kind), if r.name.kind == kind then [r.body] else [];
    FlatMapMore(f, Listing(rows[r.name := r.body], kind), before, more);
    assert FlatMap(f, more) == OfKind(kind, f)(r) by {
      if more != [] { FlatMapOne(f, [], r.body); }
    }
  }

  lemma FlatMapMore<T, U>(f: T -> seq<U>, after: seq<T>, before: seq<T>, more: seq<T>)
    requires multiset(after) == multiset(before + more)
    ensures multiset(FlatMap(f, after)) == multiset(FlatMap(f, before)) + multiset(FlatMap(f, more))
  {
    FlatMapMultiset(f, after, before + more);
    FlatMapAppend(f, before, more);
  }

  // ----- numbered rows -----

  /** The rows of a list of records, numbered from 1. */
  function Numbered<T, R>(row: (nat, T) -> Row<R>, items: seq<T>): (r: seq<Row<R>>)
    ensures |r| == |items|
    ensures forall i | 0 <= i < |items| :: r[i] == row(i + 1, items[i])
  {
    if items == [] then []
    else
      var n := |items| - 1;
      Numbered(row, items[..n]) + [row(n + 1, items[n])]
  }

  lemma {:induction false} NothingRead<T, X>(f: T -> seq<X>, s: seq<T>)
    requires forall i | 0 <= i < |s| :: f(s[i]) == []
    ensures FlatMap(f, s) == []
  {
    if s != [] { NothingRead(f, s[..|s| - 1]); }
  }

  lemma {:induction false} NumberedRead<T(!new), R, X>(f: Row<R> -> seq<X>, row: (nat, T) -> Row<R>, value: T -> X, items: seq<T>)
    requires forall i: nat, x :: f(row(i, x)) == [value(x)]
    ensures FlatMap(f, Numbered(row, items)) == Map(value, items)
  {
    if items != [] {
      var n := |items| - 1;
      assert items == items[..n] + [items[n]];
      NumberedRead(f, row, value, items[..n]);
      MapAppend(value, items[..n], [items[n]]);
      assert Map(value, [items[n]]) == [value(items[n])];
      FlatMapOne(f, Numbered(row, items[..n]), row(n + 1, items[n]));
    }
  }

  function Itself<T>(): T -> T { x => x }

  lemma MapItself<T>(s: seq<T>)
    ensures Map(Itself<T>(), s) == s
  {}

  class ContractStore<R(==, !new)> {
    var rows: Rows<R>

    constructor ()
      ensures rows == map[]
    {
      rows := map[];
    }

    method Get(name: Name) returns (r: Option<R>)
      ensures r.Some? <==> name in rows
      ensures r.Some? ==> r.value == rows[name]
    {
      r := if name in rows then Some(rows[name]) else None;
    }

    method List(kind: Kind) returns (r: seq<R>)
      ensures r == Listing(rows, kind)
    {
      r := Listing(rows, kind);
    }

    /** All of the batch or nothing: a conflict leaves the store as it was. */
    method PutMany(batch: seq<Row<R>>) returns (r: Result<nat, StoreError>)
      modifies this
      ensures r.Ok? <==> Consistent(old(rows), batch)
      ensures r.Ok? ==> rows == Insert(old(rows), batch) && r.value == |rows| - |old(rows)|
      ensures r.Err? ==> rows == old(rows)
    {
      var pending := rows;
      var inserted := 0;
      for i := 0 to |batch|
        invariant Consistent(rows, batch[..i]) && pending == Insert(rows, batch[..i])
        invariant inserted == |pending| - |rows| && rows == old(rows)
      {
        ConsistentStep(rows, batch, i);
        var record := batch[i];
        if record.name in pending {
          if pending[record.name] != record.body { return Err(RecordConflict); }
          assert pending[record.name := record.body] == pending;
        } else {
          pending := pending[record.name := record.body];
          inserted := inserted + 1;
        }
      }
      assert batch[..|batch|] == batch;
      rows := pending;
      r := Ok(inserted);
    }
  }
}
