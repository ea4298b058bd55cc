/** The value side of stores/apartments.ts (`useApartmentsStore`): the page
    map of a cache entry, the in-place merge of a batch into the entity
    table, the two ways the ordered id list is rebuilt, the request
    parameters and the cache entry, with the facts the store relies on
    proved about them. */
module PageCacheSpec {
  import opened Wrappers
  import opened Text
  import opened Sorting
  import opened Types
  import opened Staging

  // ---------------------------------------------------------------------
  // The pages of a cache entry

  /** A `Map<number, Apartment[]>`: the batch stored under each page index.
      The map's insertion order is not kept: the store reads the entries only
      through `.sort((a, b) => a[0] - b[0])`, and sorting distinct numbers
      leaves one order whatever order they were inserted in. */
  type PageMap = map<nat, seq<Apartment>>

  const NoPages: PageMap := map[]

  /** `pages.set(i, batch)`. */
  function PageSet(p: PageMap, i: nat, batch: seq<Apartment>): PageMap {
    p[i := batch]
  }

  /** Storing a page's own batch again leaves the page map as it was. */
  lemma PageSetStored(p: PageMap, i: nat)
    requires i in p
    ensures PageSet(p, i, p[i]) == p
  {
  }

  /** A least element of a non-empty set of indices. */
  lemma {:induction false} LeastOf(s: set<nat>) returns (m: nat)
    requires s != {}
    ensures m in s && forall x :: x in s ==> m <= x
  {
    var y :| y in s;
    if s == {y} {
      m := y;
    } else {
      var rest := s - {y};
      var r := LeastOf(rest);
      assert forall x :: x in s ==> x == y || x in rest;
      m := if y < r then y else r;
    }
  }

  lemma HasLeast(s: set<nat>)
    requires s != {}
    ensures exists m :: m in s && forall x :: x in s ==> m <= x
  {
    var m := LeastOf(s);
  }

  /** The least index of a non-empty set. */
  function Least(s: set<nat>): (m: nat)
    requires s != {}
    ensures m in s && forall x :: x in s ==> m <= x
  {
    HasLeast(s);
    var m :| m in s && forall x :: x in s ==> m <= x;
    m
  }

  /** The indices of a set in strictly ascending order, each once: what
      sorting the entries by `a[0] - b[0]` puts first to last. */
  function Ascending(s: set<nat>): seq<nat>
    decreases |s|
  {
    if s == {} then [] else var m := Least(s); [m] + Ascending(s - {m})
  }

  /** `Ascending(s)` holds each index of `s` once, in strictly increasing
      order. */
  lemma {:induction false} AscendingSpec(s: set<nat>)
    ensures |Ascending(s)| == |s|
    ensures forall k :: k in Ascending(s) <==> k in s
    ensures forall i, j :: 0 <= i < j < |Ascending(s)| ==> Ascending(s)[i] < Ascending(s)[j]
    decreases |s|
  {
    if s != {} {
      var m := Least(s);
      AscendingSpec(s - {m});
      AscendingStep(s, m, Ascending(s - {m}));
    }
  }

  /** Putting the least index in front of the ascending rest keeps the
      indices ascending and covers the whole set. */
  lemma AscendingStep(s: set<nat>, m: nat, rest: seq<nat>)
    requires m in s && forall x :: x in s ==> m <= x
    requires |rest| == |s - {m}|
    requires forall k :: k in rest <==> k in s - {m}
    requires forall i, j :: 0 <= i < j < |rest| ==> rest[i] < rest[j]
    ensures |[m] + rest| == |s|
    ensures forall k :: k in [m] + rest <==> k in s
    ensures forall i, j :: 0 <= i < j < |[m] + rest| ==> ([m] + rest)[i] < ([m] + rest)[j]
  {
    var ks := [m] + rest;
    assert |s - {m}| == |s| - 1;
    forall i, j | 0 <= i < j < |ks| ensures ks[i] < ks[j] {
      assert ks[j] == rest[j - 1] && rest[j - 1] in s - {m};
      if i > 0 {
        assert ks[i] == rest[i - 1];
      }
    }
    assert forall k :: k in ks <==> k == m || k in rest;
  }

  /** The batches stored under `ks`, in that order. */
  function BatchesAt(p: PageMap, ks: seq<nat>): (bs: seq<seq<Apartment>>)
    requires forall k :: k in ks ==> k in p
    ensures |bs| == |ks|
    ensures forall i :: 0 <= i < |ks| ==> bs[i] == p[ks[i]]
  {
    seq(|ks|, i requires 0 <= i < |ks| => p[ks[i]])
  }

  /** `[...pages.entries()].sort((a, b) => a[0] - b[0]).map(p => p[1])`: the
      batches of every stored page, in ascending order of page index. */
  function PagesInOrder(p: PageMap): seq<seq<Apartment>> {
    AscendingSpec(p.Keys);
    BatchesAt(p, Ascending(p.Keys))
  }

  /** A map holding one page lists just that page. */
  lemma PagesInOrderSingle(i: nat, batch: seq<Apartment>)
    ensures PagesInOrder(PageSet(NoPages, i, batch)) == [batch]
  {
    var p := PageSet(NoPages, i, batch);
    assert p.Keys == {i};
    AscendingSpec(p.Keys);
    var ks := Ascending(p.Keys);
    assert ks[0] == i;
  }

  /** `allBatches.flat()`. */
  function Flatten(bs: seq<seq<Apartment>>): seq<Apartment> {
    if bs == [] then [] else Flatten(bs[..|bs| - 1]) + bs[|bs| - 1]
  }

  lemma FlattenSingle(b: seq<Apartment>)
    ensures Flatten([b]) == b
  {
    assert [b][..0] == [];
  }

  // ---------------------------------------------------------------------
  // The entity table

  /** The ids of a batch, in batch order: `String(apt.id)` for each. */
  function IdList(batch: seq<Apartment>): (ids: seq<string>)
    ensures |ids| == |batch|
    ensures forall i :: 0 <= i < |batch| ==> ids[i] == batch[i].id
  {
    seq(|batch|, i requires 0 <= i < |batch| => batch[i].id)
  }

  /** The table after the `upsertBatch` loop: each listing in turn is copied
      onto the record stored under its id (`Object.assign` writes every
      field, so the record ends equal to the listing) or stored as a new
      record. */
  function MergeInto(e: map<string, Apartment>, batch: seq<Apartment>): map<string, Apartment> {
    if batch == [] then e
    else
      var a := batch[|batch| - 1];
      MergeInto(e, batch[..|batch| - 1])[a.id := a]
  }

  /** The last listing of the batch with the given id, if any. */
  function LastWith(batch: seq<Apartment>, id: string): Option<Apartment> {
    if batch == [] then None
    else if batch[|batch| - 1].id == id then Some(batch[|batch| - 1])
    else LastWith(batch[..|batch| - 1], id)
  }

  /** There is a last listing with an id exactly when the id occurs in the
      batch, and it is a listing of the batch with that id that no later
      listing shares. */
  lemma {:induction false} LastWithSpec(batch: seq<Apartment>, id: string)
    ensures LastWith(batch, id).Some? <==> id in IdList(batch)
    ensures LastWith(batch, id).Some? ==>
      (exists i :: 0 <= i < |batch| && batch[i] == LastWith(batch, id).value &&
        batch[i].id == id && forall j :: i < j < |batch| ==> batch[j].id != id)
  {
    if batch != [] {
      var init, a := batch[..|batch| - 1], batch[|batch| - 1];
      LastWithSpec(init, id);
      assert IdList(batch) == IdList(init) + [a.id];
      if a.id == id {
        assert batch[|batch| - 1] == LastWith(batch, id).value;
      } else if LastWith(init, id).Some? {
        var i :| 0 <= i < |init| && init[i] == LastWith(init, id).value && init[i].id == id &&
          forall j :: i < j < |init| ==> init[j].id != id;
        assert batch[i] == init[i];
      }
    }
  }

  /** The merge keeps every stored id and adds the batch's; a listed id ends
      with its last listing in the batch, any other id with the record it
      had. Nothing is ever removed. */
  lemma {:induction false} MergeIntoSpec(e: map<string, Apartment>, batch: seq<Apartment>)
    ensures forall id :: id in MergeInto(e, batch) <==> id in e || id in IdList(batch)
    ensures forall id :: LastWith(batch, id).Some? ==>
      id in MergeInto(e, batch) && MergeInto(e, batch)[id] == LastWith(batch, id).value
    ensures forall id :: id in e && LastWith(batch, id) == None ==> MergeInto(e, batch)[id] == e[id]
  {
    if batch != [] {
      var init, a := batch[..|batch| - 1], batch[|batch| - 1];
      MergeIntoSpec(e, init);
      assert IdList(batch) == IdList(init) + [a.id];
    }
  }

  /** Merging the same batch twice is merging it once. */
  lemma MergeIntoIdempotent(e: map<string, Apartment>, batch: seq<Apartment>)
    ensures MergeInto(MergeInto(e, batch), batch) == MergeInto(e, batch)
  {
    var once := MergeInto(e, batch);
    MergeIntoSpec(e, batch);
    MergeIntoSpec(once, batch);
    forall id ensures id in MergeInto(once, batch) <==> id in once {
      LastWithSpec(batch, id);
    }
  }

  // ---------------------------------------------------------------------
  // The ordered id list

  /** The ids of `ids` not in `current`, in order: what the append loop
      pushes. The set it tests against is built once, before the loop. */
  function Absent(ids: seq<string>, current: seq<string>): seq<string> {
    if ids == [] then []
    else
      var id := ids[|ids| - 1];
      Absent(ids[..|ids| - 1], current) + (if id in current then [] else [id])
  }

  lemma {:induction false} AbsentMembership(ids: seq<string>, current: seq<string>)
    ensures forall x :: x in Absent(ids, current) <==> x in ids && x !in current
  {
    if ids != [] {
      var init := ids[..|ids| - 1];
      AbsentMembership(init, current);
      assert ids == init + [ids[|ids| - 1]];
    }
  }

  /** An id list with no repeats stays so when a batch of distinct ids is
      appended. */
  lemma {:induction false} AbsentDistinct(ids: seq<string>, current: seq<string>)
    requires Distinct(ids) && Distinct(current)
    ensures Distinct(current + Absent(ids, current))
  {
    if ids != [] {
      var init, id := ids[..|ids| - 1], ids[|ids| - 1];
      assert ids == init + [id];
      assert Distinct(init) && id !in init;
      AbsentDistinct(init, current);
      AbsentMembership(init, current);
      var before := current + Absent(init, current);
      if id !in current {
        assert id !in before;
        assert current + Absent(ids, current) == before + [id];
      } else {
        assert current + Absent(ids, current) == before;
      }
    }
  }

  // ---------------------------------------------------------------------
  // The request

  /** The room counts as `rooms.join(',')` writes them. */
  function RoomsText(rooms: seq<int>): string {
    Join(seq(|rooms|, i requires 0 <= i < |rooms| => IntToString(rooms[i])), ',')
  }

  /** `buildQuery(offset, limit)`: the parameters of the page request. The
      sort travels only when a field is set and the rooms only when some are
      selected; the page and the four bounds always do. */
  function BuildQuery(offset: int, limit: int, f: FilterState, s: SortState): (q: Query)
    ensures q.sortField.Some? <==> s.field != ""
    ensures q.sortDir.Some? <==> s.field != ""
    ensures q.rooms.Some? <==> |f.rooms| > 0
    ensures q.offset.Some? && q.limit.Some?
    ensures q.priceMin.Some? && q.priceMax.Some? && q.areaMin.Some? && q.areaMax.Some?
  {
    Query(Some(IntToString(offset)), Some(IntToString(limit)),
      if s.field != "" then Some(s.field) else None,
      if s.field != "" then Some(DirectionName(s.direction)) else None,
      if |f.rooms| > 0 then Some(RoomsText(f.rooms)) else None,
      Some(IntToString(f.priceRange.min)), Some(IntToString(f.priceRange.max)),
      Some(IntToString(f.areaRange.min)), Some(IntToString(f.areaRange.max)))
  }

  /** The arguments of one `buildQuery` call: the offset and the page size,
      with the applied filters and the sort it reads. The parameters sent
      are `BuildQuery` of them. */
  datatype Request = Request(offset: int, limit: int, filters: FilterState, sort: SortState)

  /** Every number of the request reads back, with `parseInt`, as the
      value it was written from. */
  lemma BuildQueryNumbers(offset: int, limit: int, f: FilterState, s: SortState)
    ensures var q := BuildQuery(offset, limit, f, s);
      && ParseInt(q.offset.value) == Some(offset)
      && ParseInt(q.limit.value) == Some(limit)
      && ParseInt(q.priceMin.value) == Some(f.priceRange.min)
      && ParseInt(q.priceMax.value) == Some(f.priceRange.max)
      && ParseInt(q.areaMin.value) == Some(f.areaRange.min)
      && ParseInt(q.areaMax.value) == Some(f.areaRange.max)
  {
    ParseIntOfIntToString(offset);
    ParseIntOfIntToString(limit);
    ParseIntOfIntToString(f.priceRange.min);
    ParseIntOfIntToString(f.priceRange.max);
    ParseIntOfIntToString(f.areaRange.min);
    ParseIntOfIntToString(f.areaRange.max);
  }

  // ---------------------------------------------------------------------
  // The store's state

  /** A `CacheEntry`: the pages fetched for one signature, the total the
      server reported, the ranges in force when it was last written, and
      whether every page is there. */
  datatype CacheEntry = CacheEntry(
    pages: PageMap,
    total: int,
    priceRange: Option<Range>,
    areaRange: Option<Range>,
    complete: bool)

  /** `{ pages: new Map(), total: 0, complete: false }`. */
  const NewEntry := CacheEntry(NoPages, 0, None, None, false)

  /** The entry for a signature, or a new one. */
  function EntryOf(cache: map<QueryKey, CacheEntry>, sig: QueryKey): CacheEntry {
    if sig in cache then cache[sig] else NewEntry
  }

  /** Writing a signature's entry twice keeps the second write. */
  lemma UpdateTwice(cache: map<QueryKey, CacheEntry>, sig: QueryKey, a: CacheEntry, b: CacheEntry)
    ensures cache[sig := a][sig := b] == cache[sig := b]
  {
  }

  /** Every listed id has a record. */
  ghost predicate ListConsistent(entities: map<string, Apartment>, currentIds: seq<string>) {
    forall id :: id in currentIds ==> id in entities
  }

  /** A range the response reports: both ends finite and in order. */
  function ReportedRange(lo: Option<int>, hi: Option<int>): (r: Option<Range>)
    ensures r.Some? <==> lo.Some? && hi.Some? && lo.value <= hi.value
    ensures r.Some? ==> r.value == Range(lo.value, hi.value)
  {
    if lo.Some? && hi.Some? && lo.value <= hi.value then Some(Range(lo.value, hi.value)) else None
  }

  /** The computed `apartments`: the record of each listed id, skipping ids
      without one. */
  function Listed(entities: map<string, Apartment>, ids: seq<string>): seq<Apartment> {
    if ids == [] then []
    else
      var id := ids[|ids| - 1];
      Listed(entities, ids[..|ids| - 1]) + (if id in entities then [entities[id]] else [])
  }

  /** When every listed id has a record, none is skipped. */
  lemma {:induction false} ListedComplete(entities: map<string, Apartment>, ids: seq<string>)
    requires forall id :: id in ids ==> id in entities
    ensures |Listed(entities, ids)| == |ids|
    ensures forall i :: 0 <= i < |ids| ==> Listed(entities, ids)[i] == entities[ids[i]]
  {
    if ids != [] {
      var init := ids[..|ids| - 1];
      assert forall id :: id in init ==> id in ids;
      ListedComplete(entities, init);
    }
  }

  // ---------------------------------------------------------------------
  // What one `loadApartments` does

  /** What a load may read before it starts and may write: the table, the
      list, the cache, the pagination, the ranges, the error and the last
      complete load. */
  datatype LoadState = LoadState(
    entities: map<string, Apartment>,
    currentIds: seq<string>,
    cache: map<QueryKey, CacheEntry>,
    pagination: PaginationState,
    priceRange: Range,
    areaRange: Range,
    error: Option<string>,
    lastLoadedSignature: Option<QueryKey>,
    lastLoadedTotal: int)

  /** The metadata only a fetch writes is as it was: the ranges, the error
      and the last loaded signature and total. */
  predicate MetadataKept(b: LoadState, a: LoadState) {
    && a.priceRange == b.priceRange && a.areaRange == b.areaRange && a.error == b.error
    && a.lastLoadedSignature == b.lastLoadedSignature && a.lastLoadedTotal == b.lastLoadedTotal
  }

  /** The full-cache path from `b` to `a` for signature `sig`: the list is
      rebuilt from the entry's pages in ascending page index, `totalItems`
      is the cached total and there is nothing more to load; the cache and
      the metadata stay. */
  predicate ServedFromCache(b: LoadState, a: LoadState, sig: QueryKey) {
    && sig in b.cache
    && var e := b.cache[sig];
       && a.entities == MergeInto(b.entities, Flatten(PagesInOrder(e.pages)))
       && a.currentIds == IdList(Flatten(PagesInOrder(e.pages)))
       && a.cache == b.cache
       && a.pagination == b.pagination.(totalItems := e.total, hasMore := false)
       && MetadataKept(b, a)
  }

  /** The cached-page path: the stored batch of the current page is
      appended as a fetched one would be, the page counter steps on and
      `hasMore` compares the list with the entry's total; the cache (whose
      entry gets its own page back) and the metadata stay. */
  predicate ServedCachedPage(b: LoadState, a: LoadState, sig: QueryKey) {
    && sig in b.cache
    && b.pagination.currentPage in b.cache[sig].pages
    && var e := b.cache[sig];
       var batch := e.pages[b.pagination.currentPage];
       && a.entities == MergeInto(b.entities, batch)
       && a.currentIds == b.currentIds + Absent(IdList(batch), b.currentIds)
       && a.cache == b.cache
       && a.pagination == b.pagination.(currentPage := b.pagination.currentPage + 1,
                                        hasMore := |a.currentIds| < e.total)
       && MetadataKept(b, a)
  }

  /** The request of a fetching load: the page is 0 on a reset and the
      current one otherwise, with the applied filters and the sort. */
  predicate Requested(b: LoadState, reset: bool, f: FilterState, s: SortState, request: Request) {
    var page := if reset then 0 else b.pagination.currentPage;
    request == Request(PagesSpan(page, b.pagination.itemsPerPage), b.pagination.itemsPerPage, f, s)
  }

  /** A failed fetch records the error message; beyond the reset of
      `currentPage` and `hasMore` a reset makes, nothing else changes. */
  predicate FetchFailed(b: LoadState, a: LoadState, reset: bool) {
    && a.entities == b.entities && a.currentIds == b.currentIds && a.cache == b.cache
    && a.pagination == (if reset then b.pagination.(currentPage := 0, hasMore := true) else b.pagination)
    && a.priceRange == b.priceRange && a.areaRange == b.areaRange
    && a.lastLoadedSignature == b.lastLoadedSignature && a.lastLoadedTotal == b.lastLoadedTotal
    && a.error == Some(LoadErrorMessage)
  }

  /** The last complete load: recorded when nothing more is to come,
      otherwise as it was. */
  predicate CompletionRecorded(b: LoadState, a: LoadState, sig: QueryKey, total: int) {
    if |a.currentIds| < total
    then a.lastLoadedSignature == b.lastLoadedSignature && a.lastLoadedTotal == b.lastLoadedTotal
    else a.lastLoadedSignature == Some(sig) && a.lastLoadedTotal == |a.currentIds|
  }

  /** A fetched first page (a reset load) goes through
      `updateCacheAndList` under page index 0, so the list is exactly the
      batch's ids and the entry keeps no other page; the page counter
      becomes 1; `total` is the reported total, or the list length when the
      response has none (so the signature is then complete), and `hasMore`
      is whether the list falls short of it; `totalItems` is `total || batch
      length`, and a range is taken from the response when both its ends
      are numbers in order. The entry records the total, the ranges and
      completeness, and a complete load records the signature and the list
      length. */
  predicate FirstPageFetched(b: LoadState, a: LoadState, sig: QueryKey, r: Response) {
    var batch := Batch(r);
    var price := ReportedRange(r.priceMin, r.priceMax).GetOr(b.priceRange);
    var area := ReportedRange(r.areaMin, r.areaMax).GetOr(b.areaRange);
    var total := NumberOr(r.total, |a.currentIds|);
    && a.entities == MergeInto(b.entities, batch)
    && a.currentIds == IdList(batch)
    && a.pagination == PaginationState(1, b.pagination.itemsPerPage, NumberOr(r.total, |batch|), |a.currentIds| < total)
    && a.priceRange == price && a.areaRange == area
    && a.cache == b.cache[sig := CacheEntry(PageSet(NoPages, 0, batch), total, Some(price), Some(area), !(|a.currentIds| < total))]
    && CompletionRecorded(b, a, sig, total)
  }

  /** A fetched next page goes through `updateCacheAndList` under the
      current page index, so the list keeps its ids and gains the batch's
      new ones; the page counter steps on and `hasMore` and the entry are
      settled as for a first page, while `totalItems` and the ranges stay. */
  predicate NextPageFetched(b: LoadState, a: LoadState, sig: QueryKey, r: Response) {
    var batch := Batch(r);
    var e := EntryOf(b.cache, sig);
    var total := NumberOr(r.total, |a.currentIds|);
    && a.entities == MergeInto(b.entities, batch)
    && a.currentIds == b.currentIds + Absent(IdList(batch), b.currentIds)
    && a.pagination == b.pagination.(currentPage := b.pagination.currentPage + 1, hasMore := |a.currentIds| < total)
    && a.priceRange == b.priceRange && a.areaRange == b.areaRange
    && a.cache == b.cache[sig := CacheEntry(PageSet(e.pages, b.pagination.currentPage, batch),
                                            total, Some(a.priceRange), Some(a.areaRange), !(|a.currentIds| < total))]
    && CompletionRecorded(b, a, sig, total)
  }

  /** A fetched page; a reset also clears the error. */
  predicate PageFetched(b: LoadState, a: LoadState, sig: QueryKey, reset: bool, r: Response) {
    if reset then FirstPageFetched(b, a, sig, r) && a.error == None
    else NextPageFetched(b, a, sig, r) && a.error == b.error
  }

  /** What one `loadApartments(reset)` does from `b` to `a` under the
      applied filters `f` and the sort `s`, given the fetch's outcome, and
      the request it issues (`None` when the cache serves it). */
  predicate Loaded(b: LoadState, a: LoadState, f: FilterState, s: SortState, reset: bool,
                   outcome: FetchOutcome, request: Option<Request>)
  {
    match outcome
    case Failed => LoadedWith(b, a, f, s, reset, request, FetchFailed(b, a, reset))
    case Fetched(r) => LoadedWith(b, a, f, s, reset, request, PageFetched(b, a, CanonicalKey(f, s), reset, r))
  }

  /** The three paths of `loadApartments(reset)`, where `fetched` says what
      taking the fetch's outcome does. */
  predicate LoadedWith(b: LoadState, a: LoadState, f: FilterState, s: SortState, reset: bool,
                       request: Option<Request>, fetched: bool)
  {
    var sig := CanonicalKey(f, s);
    if reset && sig in b.cache && b.cache[sig].complete then
      request == None && ServedFromCache(b, a, sig)
    else if !reset && sig in b.cache && b.pagination.currentPage in b.cache[sig].pages then
      request == None && ServedCachedPage(b, a, sig)
    else
      request.Some? && Requested(b, reset, f, s, request.value) && fetched
  }
}
