/** The pure part of stores/apartments-optimized.ts: the content
    fingerprint, the insertion-ordered `Map` the store keeps its listings
    in, what `upsertApartments` does to that map, the filter predicate, the
    visible-list derivation, and the filter hash that keys its memo. */
module OptimizedSpec {
  import opened Wrappers
  import opened Sorting
  import opened Types
  import opened Staging

  /** The fields `createApartmentHash` encodes: every field but
      `totalFloors` and `planImage`. */
  datatype Fingerprint = Fingerprint(id: string, name: string, area: int, floor: int, price: int, rooms: int)

  function CreateApartmentHash(a: Apartment): Fingerprint {
    Fingerprint(a.id, a.name, a.area, a.floor, a.price, a.rooms)
  }

  /** Two listings get the same fingerprint exactly when they agree on the
      six significant fields; `planImage` and `totalFloors` play no part. */
  lemma FingerprintSensitivity(a: Apartment, b: Apartment)
    ensures CreateApartmentHash(a) == CreateApartmentHash(b) <==>
      a.id == b.id && a.name == b.name && a.area == b.area &&
      a.floor == b.floor && a.price == b.price && a.rooms == b.rooms
    ensures a.(planImage := b.planImage, totalFloors := b.totalFloors) == b ==>
      CreateApartmentHash(a) == CreateApartmentHash(b)
  {
  }

  /** One value of the store's map: the id, the fingerprint and a copy of
      the listing. */
  datatype ApartmentHash = ApartmentHash(id: string, hash: Fingerprint, apartment: Apartment)

  /** A JavaScript `Map`: the keys in insertion order, and the entries. */
  datatype HashMap = HashMap(keys: seq<string>, entries: map<string, ApartmentHash>)

  const EmptyMap := HashMap([], map[])

  /** A consistent map: each key listed once, the listed keys are the keys of
      the entries, and every entry is stored under its listing's id with that
      listing's fingerprint. */
  ghost predicate ValidMap(m: HashMap) {
    && Distinct(m.keys)
    && (forall k :: k in m.keys <==> k in m.entries)
    && (forall k :: k in m.entries ==> EntryFor(m.entries[k], k))
  }

  ghost predicate EntryFor(e: ApartmentHash, k: string) {
    e.id == k && e.apartment.id == k && e.hash == CreateApartmentHash(e.apartment)
  }

  function NewEntry(a: Apartment): ApartmentHash {
    ApartmentHash(a.id, CreateApartmentHash(a), a)
  }

  /** `map.set(e.id, e)`: a new key goes last, a known key keeps its
      place. */
  function MapSet(m: HashMap, e: ApartmentHash): (r: HashMap)
    ensures r.entries == m.entries[e.id := e]
  {
    HashMap(if e.id in m.entries then m.keys else m.keys + [e.id], m.entries[e.id := e])
  }

  /** Storing an entry under its own id keeps the map consistent. */
  lemma MapSetValid(m: HashMap, e: ApartmentHash)
    requires ValidMap(m) && EntryFor(e, e.id)
    ensures ValidMap(MapSet(m, e))
  {
    var r := MapSet(m, e);
    assert forall k :: k in r.keys <==> k in r.entries;
  }

  /** `s` without its occurrences of `k`. */
  function Without(s: seq<string>, k: string): (r: seq<string>)
    ensures forall x :: x in r <==> x in s && x != k
  {
    if s == [] then []
    else
      var init, last := s[..|s| - 1], s[|s| - 1];
      assert s == init + [last];
      var r := Without(init, k);
      if last == k then r else r + [last]
  }

  lemma {:induction false} WithoutDistinct(s: seq<string>, k: string)
    requires Distinct(s)
    ensures Distinct(Without(s, k))
  {
    if s != [] {
      var init, last := s[..|s| - 1], s[|s| - 1];
      assert s == init + [last];
      assert Distinct(init) && last !in init;
      WithoutDistinct(init, k);
    }
  }

  /** `map.delete(k)`. */
  function MapDelete(m: HashMap, k: string): (r: HashMap)
    ensures r.entries == m.entries - {k}
  {
    HashMap(Without(m.keys, k), m.entries - {k})
  }

  /** Deleting a key keeps the map consistent. */
  lemma MapDeleteValid(m: HashMap, k: string)
    requires ValidMap(m)
    ensures ValidMap(MapDelete(m, k))
  {
    WithoutDistinct(m.keys, k);
  }

  /** One turn of the merge loop: a listing that is new, or whose
      fingerprint differs from the stored one, is stored as a fresh entry and
      counts as a change; otherwise the map is left as it is. */
  function UpsertOne(m: HashMap, a: Apartment): (r: (HashMap, bool))
    ensures r.1 <==> a.id !in m.entries || m.entries[a.id].hash != CreateApartmentHash(a)
    ensures r.1 ==> r.0.entries == m.entries[a.id := NewEntry(a)]
    ensures !r.1 ==> r.0 == m
  {
    if a.id !in m.entries || m.entries[a.id].hash != CreateApartmentHash(a) then
      (MapSet(m, NewEntry(a)), true)
    else (m, false)
  }

  lemma UpsertOneValid(m: HashMap, a: Apartment)
    requires ValidMap(m)
    ensures ValidMap(UpsertOne(m, a).0)
  {
    if UpsertOne(m, a).1 {
      MapSetValid(m, NewEntry(a));
    }
  }

  /** The set of ids of a batch. */
  function BatchIds(batch: seq<Apartment>): set<string> {
    if batch == [] then {}
    else
      var init, last := batch[..|batch| - 1], batch[|batch| - 1];
      assert batch == init + [last];
      BatchIds(init) + {last.id}
  }

  ghost predicate DistinctIds(batch: seq<Apartment>) {
    forall i, j :: 0 <= i < j < |batch| ==> batch[i].id != batch[j].id
  }

  /** `BatchIds(batch)` holds the id of every listing of the batch... */
  lemma {:induction false} BatchIdsContains(batch: seq<Apartment>)
    ensures forall a :: a in batch ==> a.id in BatchIds(batch)
  {
    if batch != [] {
      var init, last := batch[..|batch| - 1], batch[|batch| - 1];
      assert batch == init + [last];
      BatchIdsContains(init);
    }
  }

  /** ... and every id of `BatchIds(batch)` is the id of some listing of the
      batch. */
  lemma {:induction false} BatchIdsOnly(batch: seq<Apartment>, k: string)
    requires k in BatchIds(batch)
    ensures exists i :: 0 <= i < |batch| && batch[i].id == k
  {
    var init, last := batch[..|batch| - 1], batch[|batch| - 1];
    assert batch == init + [last];
    if k != last.id {
      BatchIdsOnly(init, k);
      var i :| 0 <= i < |init| && init[i].id == k;
      assert batch[i].id == k;
    }
  }

  /** In a batch with distinct ids, the last listing's id is not among the
      ids of the others. */
  lemma LastIdFresh(batch: seq<Apartment>)
    requires |batch| > 0 && DistinctIds(batch)
    ensures batch[|batch| - 1].id !in BatchIds(batch[..|batch| - 1])
  {
    var init, last := batch[..|batch| - 1], batch[|batch| - 1];
    if last.id in BatchIds(init) {
      BatchIdsOnly(init, last.id);
    }
  }

  /** The merge loop over a whole batch, and whether any turn changed the
      map; without a change the map is as it was. */
  function MergeBatch(m: HashMap, batch: seq<Apartment>): (r: (HashMap, bool))
    ensures !r.1 ==> r.0 == m
    decreases |batch|
  {
    if batch == [] then (m, false)
    else
      var init, last := batch[..|batch| - 1], batch[|batch| - 1];
      var (m', c) := MergeBatch(m, init);
      var (m'', c') := UpsertOne(m', last);
      (m'', c || c')
  }

  /** The deletion loop: deletes every one of `ids` that is not in `keep`;
      without a change the map is as it was. */
  function Purge(m: HashMap, ids: seq<string>, keep: set<string>): (r: (HashMap, bool))
    ensures !r.1 ==> r.0 == m
  {
    if ids == [] then (m, false)
    else
      var init, k := ids[..|ids| - 1], ids[|ids| - 1];
      var (m', c) := Purge(m, init, keep);
      if k !in keep then (MapDelete(m', k), true) else (m', c)
  }

  lemma {:induction false} MergeBatchValid(m: HashMap, batch: seq<Apartment>)
    requires ValidMap(m)
    ensures ValidMap(MergeBatch(m, batch).0)
  {
    if batch != [] {
      var init, last := batch[..|batch| - 1], batch[|batch| - 1];
      MergeBatchValid(m, init);
      UpsertOneValid(MergeBatch(m, init).0, last);
    }
  }

  lemma {:induction false} PurgeValid(m: HashMap, ids: seq<string>, keep: set<string>)
    requires ValidMap(m)
    ensures ValidMap(Purge(m, ids, keep).0)
  {
    if ids != [] {
      var init, k := ids[..|ids| - 1], ids[|ids| - 1];
      PurgeValid(m, init, keep);
      if k !in keep {
        MapDeleteValid(Purge(m, init, keep).0, k);
      }
    }
  }

  /** One more turn of the merge loop, and of the deletion loop. */
  lemma MergeBatchStep(m: HashMap, batch: seq<Apartment>, a: Apartment)
    ensures MergeBatch(m, batch + [a]).0 == UpsertOne(MergeBatch(m, batch).0, a).0
    ensures MergeBatch(m, batch + [a]).1 == (MergeBatch(m, batch).1 || UpsertOne(MergeBatch(m, batch).0, a).1)
  {
    assert (batch + [a])[..|batch|] == batch;
  }

  lemma BatchIdsStep(batch: seq<Apartment>, a: Apartment)
    ensures BatchIds(batch + [a]) == BatchIds(batch) + {a.id}
  {
    assert (batch + [a])[..|batch|] == batch;
  }

  lemma PurgeStep(m: HashMap, ids: seq<string>, k: string, keep: set<string>)
    ensures Purge(m, ids + [k], keep).0 == if k !in keep then MapDelete(Purge(m, ids, keep).0, k) else Purge(m, ids, keep).0
    ensures Purge(m, ids + [k], keep).1 == (k !in keep || Purge(m, ids, keep).1)
  {
    assert (ids + [k])[..|ids|] == ids;
  }

  /** `upsertApartments(batch)`: the merge loop, then, for a non-empty
      batch, the deletion of every previously stored id the batch lacks. An
      empty batch changes nothing and reports no change; a call that reports
      no change leaves the map as it was. */
  function Upsert(m: HashMap, batch: seq<Apartment>): (r: (HashMap, bool))
    ensures batch == [] ==> r == (m, false)
    ensures !r.1 ==> r.0 == m
  {
    var (merged, c1) := MergeBatch(m, batch);
    if |batch| > 0 then
      var (purged, c2) := Purge(merged, m.keys, BatchIds(batch));
      (purged, c1 || c2)
    else (merged, c1)
  }

  /** `upsertApartments` keeps the map consistent. */
  lemma UpsertValid(m: HashMap, batch: seq<Apartment>)
    requires ValidMap(m)
    ensures ValidMap(Upsert(m, batch).0)
  {
    MergeBatchValid(m, batch);
    if |batch| > 0 {
      PurgeValid(MergeBatch(m, batch).0, m.keys, BatchIds(batch));
    }
  }

  // ---------------------------------------------------------------------
  // Which ids the merge and the purge leave

  /** The merge adds the batch's ids and removes none, and leaves the
      entries of ids outside the batch alone. */
  lemma {:induction false} MergeBatchKeys(m: HashMap, batch: seq<Apartment>)
    ensures MergeBatch(m, batch).0.entries.Keys == m.entries.Keys + BatchIds(batch)
    ensures forall k :: k in m.entries && k !in BatchIds(batch) ==> MergeBatch(m, batch).0.entries[k] == m.entries[k]
  {
    if batch != [] {
      var init, last := batch[..|batch| - 1], batch[|batch| - 1];
      MergeBatchKeys(m, init);
      var before := MergeBatch(m, init).0;
      var step := UpsertOne(before, last);
      assert MergeBatch(m, batch).0 == step.0;
      assert step.0.entries.Keys == before.entries.Keys + {last.id} by {
        if step.1 {
          assert step.0.entries == before.entries[last.id := NewEntry(last)];
        }
      }
      assert BatchIds(batch) == BatchIds(init) + {last.id};
    }
  }

  /** The purge removes exactly those of `ids` outside `keep`, and reports a
      change exactly when there is one (each deletion counts as one). */
  lemma {:induction false} PurgeKeys(m: HashMap, ids: seq<string>, keep: set<string>)
    ensures Purge(m, ids, keep).0.entries == m.entries - (set k | k in ids && k !in keep)
    ensures Purge(m, ids, keep).1 <==> exists k :: k in ids && k !in keep
  {
    if ids != [] {
      var init, k := ids[..|ids| - 1], ids[|ids| - 1];
      assert ids == init + [k];
      PurgeKeys(m, init, keep);
    }
  }

  /** After a non-empty batch the stored ids are exactly the batch's ids:
      whatever was stored before and is missing from the batch is deleted,
      on every load and not only on a full replacement. */
  lemma UpsertKeys(m: HashMap, batch: seq<Apartment>)
    requires ValidMap(m) && |batch| > 0
    ensures Upsert(m, batch).0.entries.Keys == BatchIds(batch)
  {
    MergeBatchKeys(m, batch);
    PurgeKeys(MergeBatch(m, batch).0, m.keys, BatchIds(batch));
  }

  // ---------------------------------------------------------------------
  // What the merge and upsertApartments do to each listing

  /** The entry the merge leaves for a listing: a fresh copy if it was new
      or its fingerprint differed, the old entry otherwise. */
  ghost function Merged(m: HashMap, a: Apartment): ApartmentHash {
    if a.id !in m.entries || m.entries[a.id].hash != CreateApartmentHash(a) then NewEntry(a) else m.entries[a.id]
  }

  ghost predicate Differs(m: HashMap, a: Apartment) {
    a.id !in m.entries || m.entries[a.id].hash != CreateApartmentHash(a)
  }

  /** For a batch with distinct ids, each listing's entry after the merge is
      `Merged(m, a)`. */
  lemma {:induction false} MergeBatchEntry(m: HashMap, batch: seq<Apartment>, a: Apartment)
    requires DistinctIds(batch) && a in batch
    ensures a.id in MergeBatch(m, batch).0.entries
    ensures MergeBatch(m, batch).0.entries[a.id] == Merged(m, a)
  {
    var init, last := batch[..|batch| - 1], batch[|batch| - 1];
    assert batch == init + [last];
    var m' := MergeBatch(m, init).0;
    assert MergeBatch(m, batch).0 == UpsertOne(m', last).0;
    if a == last {
      LastIdFresh(batch);
      MergeBatchKeys(m, init);
      assert Differs(m', last) <==> Differs(m, last);
    } else {
      assert a in init;
      assert DistinctIds(init);
      MergeBatchEntry(m, init, a);
      assert a.id != last.id by {
        var i :| 0 <= i < |init| && init[i] == a;
        assert batch[i] == a;
      }
    }
  }

  /** For a batch with distinct ids, the merge reports a change exactly when
      some listing was new or differed. */
  lemma {:induction false} MergeBatchChanged(m: HashMap, batch: seq<Apartment>)
    requires DistinctIds(batch)
    ensures MergeBatch(m, batch).1 <==> exists a :: a in batch && Differs(m, a)
  {
    if batch != [] {
      var init, last := batch[..|batch| - 1], batch[|batch| - 1];
      assert batch == init + [last];
      assert DistinctIds(init);
      MergeBatchChanged(m, init);
      var m' := MergeBatch(m, init).0;
      assert MergeBatch(m, batch).1 == (MergeBatch(m, init).1 || UpsertOne(m', last).1);
      LastIdFresh(batch);
      MergeBatchKeys(m, init);
      assert Differs(m', last) <==> Differs(m, last);
    }
  }

  /** Both facts for every listing of the batch. */
  lemma MergeBatchEntries(m: HashMap, batch: seq<Apartment>)
    requires DistinctIds(batch)
    ensures forall a :: a in batch ==> a.id in MergeBatch(m, batch).0.entries
    ensures forall a :: a in batch ==> MergeBatch(m, batch).0.entries[a.id] == Merged(m, a)
    ensures MergeBatch(m, batch).1 <==> exists a :: a in batch && Differs(m, a)
  {
    forall a | a in batch
      ensures a.id in MergeBatch(m, batch).0.entries && MergeBatch(m, batch).0.entries[a.id] == Merged(m, a)
    {
      MergeBatchEntry(m, batch, a);
    }
    MergeBatchChanged(m, batch);
  }

  /** For a batch with distinct ids: each listing that is new or whose
      fingerprint differs is stored as a copy of itself, every other listing
      of the batch keeps its old entry (so a change confined to `planImage`
      or `totalFloors` is not picked up), and the call reports a change
      exactly when some listing was new or differed, or some stored id was
      deleted. */
  lemma UpsertEntries(m: HashMap, batch: seq<Apartment>)
    requires ValidMap(m) && DistinctIds(batch)
    ensures forall a :: a in batch ==> a.id in Upsert(m, batch).0.entries
    ensures forall a :: a in batch ==> Upsert(m, batch).0.entries[a.id] == Merged(m, a)
    ensures Upsert(m, batch).1 <==>
      (exists a :: a in batch && Differs(m, a)) ||
      (|batch| > 0 && exists k :: k in m.entries && k !in BatchIds(batch))
  {
    MergeBatchEntries(m, batch);
    if |batch| > 0 {
      var merged := MergeBatch(m, batch).0;
      var purged := Purge(merged, m.keys, BatchIds(batch));
      PurgeKeys(merged, m.keys, BatchIds(batch));
      BatchIdsContains(batch);
      assert purged.0.entries == merged.entries - (set k | k in m.keys && k !in BatchIds(batch));
      assert (exists k :: k in m.keys && k !in BatchIds(batch)) <==> (exists k :: k in m.entries && k !in BatchIds(batch));
    }
  }

  /** A merge in which every listing is already stored under its own
      fingerprint changes nothing. */
  lemma {:induction false} MergeBatchStored(m: HashMap, batch: seq<Apartment>)
    requires forall a :: a in batch ==> !Differs(m, a)
    ensures MergeBatch(m, batch) == (m, false)
  {
    if batch != [] {
      var init, last := batch[..|batch| - 1], batch[|batch| - 1];
      assert batch == init + [last];
      MergeBatchStored(m, init);
      assert last in batch;
      assert MergeBatch(m, batch) == (UpsertOne(m, last).0, false || UpsertOne(m, last).1);
    }
  }

  /** Upserting the same batch of distinct ids a second time reports no
      change and leaves the map as the first call left it. */
  lemma UpsertIdempotent(m: HashMap, batch: seq<Apartment>)
    requires ValidMap(m) && DistinctIds(batch)
    ensures Upsert(Upsert(m, batch).0, batch) == (Upsert(m, batch).0, false)
  {
    var r := Upsert(m, batch).0;
    UpsertEntries(m, batch);
    forall a | a in batch ensures !Differs(r, a) {
      assert r.entries[a.id] == Merged(m, a);
      if !Differs(m, a) {
        assert EntryFor(m.entries[a.id], a.id);
      }
    }
    MergeBatchStored(r, batch);
    UpsertValid(m, batch);
    if |batch| > 0 {
      UpsertKeys(m, batch);
      PurgeKeys(r, r.keys, BatchIds(batch));
    }
  }
}
