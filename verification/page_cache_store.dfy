/** The state and actions of stores/apartments.ts (`useApartmentsStore`):
    the entity table merged in place, the ordered list of ids on screen, the
    draft and applied filters, the sort, the pagination, the available
    ranges, the loading flags, and the query cache keyed by the filter and
    sort signature. A fetch is the `FetchOutcome` a load receives; a load
    returns the request it issues, or `None` when the cache serves it. */
module PageCacheStore {
  import opened Wrappers
  import opened Text
  import opened Sorting
  import opened Types
  import opened Staging
  import opened PageCacheSpec

  class Store {
    var entities: map<string, Apartment>
    var currentIds: seq<string>
    var applied: FilterState
    var draft: FilterState
    var sort: SortState
    var pagination: PaginationState
    var priceRange: Range
    var areaRange: Range
    var isLoading: bool
    var isAppending: bool
    var isFiltering: bool
    var error: Option<string>
    var cache: map<QueryKey, CacheEntry>
    var lastLoadedSignature: Option<QueryKey>
    var lastLoadedTotal: int
    var initialized: bool

    /** Every listed id has a record. */
    ghost predicate Valid()
      reads this`entities, this`currentIds
    {
      ListConsistent(entities, currentIds)
    }

    /** `querySignature`. */
    function Signature(): QueryKey
      reads this`applied, this`sort
    {
      CanonicalKey(applied, sort)
    }

    constructor ()
      ensures Valid()
      ensures entities == map[] && currentIds == [] && cache == map[]
      ensures applied == DefaultFilters && draft == DefaultFilters && sort == SortState("", Asc)
      ensures pagination == InitialPagination
      ensures priceRange == DefaultPriceRange && areaRange == DefaultAreaRange
      ensures !isLoading && !isAppending && !isFiltering && error == None
      ensures lastLoadedSignature == None && lastLoadedTotal == 0 && !initialized
    {
      entities := map[];
      currentIds := [];
      applied := DefaultFilters;
      draft := DefaultFilters;
      sort := SortState("", Asc);
      pagination := InitialPagination;
      priceRange := DefaultPriceRange;
      areaRange := DefaultAreaRange;
      isLoading := false;
      isAppending := false;
      isFiltering := false;
      error := None;
      cache := map[];
      lastLoadedSignature := None;
      lastLoadedTotal := 0;
      initialized := false;
    }

    /** The computed `apartments` holds the record of every listed id, in
        list order. */
    lemma ApartmentsComplete()
      requires Valid()
      ensures |Listed(entities, currentIds)| == |currentIds|
      ensures forall i :: 0 <= i < |currentIds| ==> Listed(entities, currentIds)[i] == entities[currentIds[i]]
    {
      ListedComplete(entities, currentIds);
    }

    /** `upsertBatch`: the batch's ids in batch order, each listing merged
        onto the record of its id or stored as a new one. */
    method UpsertBatch(batch: seq<Apartment>) returns (ids: seq<string>)
      modifies this`entities
      ensures ids == IdList(batch)
      ensures entities == MergeInto(old(entities), batch)
    {
      ids := [];
      var i := 0;
      while i < |batch|
        invariant 0 <= i <= |batch|
        invariant ids == IdList(batch[..i])
        invariant entities == MergeInto(old(entities), batch[..i])
      {
        var apt := batch[i];
        ids := ids + [apt.id];
        // `Object.assign` onto an existing record writes every field, so
        // either branch leaves the listing itself under its id.
        entities := entities[apt.id := apt];
        assert batch[..i + 1][..i] == batch[..i];
        i := i + 1;
      }
      assert batch[..i] == batch;
    }

    /** `syncResetList`: the batches flattened, merged, and listed in that
        order. */
    method SyncResetList(allBatches: seq<seq<Apartment>>)
      modifies this`entities, this`currentIds
      ensures entities == MergeInto(old(entities), Flatten(allBatches))
      ensures currentIds == IdList(Flatten(allBatches))
    {
      var flat := Flatten(allBatches);
      var ids := UpsertBatch(flat);
      currentIds := ids;
    }

    /** The append loop of `updateCacheAndList`: pushes each id the list
        did not hold before the loop. */
    method AppendNewIds(newIds: seq<string>)
      modifies this`currentIds
      ensures currentIds == old(currentIds) + Absent(newIds, old(currentIds))
    {
      var existing := set id | id in currentIds;
      var i := 0;
      while i < |newIds|
        invariant 0 <= i <= |newIds|
        invariant forall id :: id in existing <==> id in old(currentIds)
        invariant currentIds == old(currentIds) + Absent(newIds[..i], old(currentIds))
      {
        var id := newIds[i];
        assert newIds[..i + 1][..i] == newIds[..i];
        if id !in existing {
          currentIds := currentIds + [id];
        }
        i := i + 1;
      }
      assert newIds[..i] == newIds;
    }

    /** The cache half of `updateCacheAndList`: the entry of the signature,
        created when absent, gets the batch under the page index, after
        losing its pages on a reset. */
    method StorePage(batch: seq<Apartment>, isReset: bool, pageIndex: nat)
      modifies this`cache
      ensures var e := EntryOf(old(cache), Signature());
        cache == old(cache)[Signature() := e.(pages := PageSet(if isReset then NoPages else e.pages, pageIndex, batch))]
    {
      var sig := Signature();
      var entry := EntryOf(cache, sig);
      if isReset {
        entry := entry.(pages := NoPages);
      }
      // The entry object is shared with the cache, so storing it once here
      // is what the in-place updates of the source amount to.
      cache := cache[sig := entry.(pages := PageSet(entry.pages, pageIndex, batch))];
    }

    /** The reset half of `updateCacheAndList`: the fresh page map holds
        only this batch, so `syncResetList` lists exactly its ids. */
    method ResetList(batch: seq<Apartment>, pageIndex: nat)
      modifies this`entities, this`currentIds
      ensures entities == MergeInto(old(entities), batch)
      ensures currentIds == IdList(batch)
      ensures forall id :: id in currentIds ==> id in entities
    {
      PagesInOrderSingle(pageIndex, batch);
      FlattenSingle(batch);
      SyncResetList(PagesInOrder(PageSet(NoPages, pageIndex, batch)));
      MergeIntoSpec(old(entities), batch);
    }

    /** The append half of `updateCacheAndList`: the batch merged, and its
        ids the list did not hold pushed in batch order. */
    method AppendList(batch: seq<Apartment>)
      requires forall id :: id in currentIds ==> id in entities
      modifies this`entities, this`currentIds
      ensures entities == MergeInto(old(entities), batch)
      ensures currentIds == old(currentIds) + Absent(IdList(batch), old(currentIds))
      ensures forall id :: id in currentIds ==> id in entities
    {
      var newIds := UpsertBatch(batch);
      AppendNewIds(newIds);
      AbsentMembership(newIds, old(currentIds));
      MergeIntoSpec(old(entities), batch);
    }

    /** `updateCacheAndList(batch, isReset, pageIndex)`: the page stored in
        the signature's entry; a reset then lists exactly the batch's ids,
        an append keeps the list and adds the ids it did not hold. Either
        way the batch is merged into the table. */
    method UpdateCacheAndList(batch: seq<Apartment>, isReset: bool, pageIndex: nat)
      requires Valid()
      modifies this`entities, this`currentIds, this`cache
      ensures Valid()
      ensures var e := EntryOf(old(cache), Signature());
        cache == old(cache)[Signature() := e.(pages := PageSet(if isReset then NoPages else e.pages, pageIndex, batch))]
      ensures entities == MergeInto(old(entities), batch)
      ensures isReset ==> currentIds == IdList(batch)
      ensures !isReset ==> currentIds == old(currentIds) + Absent(IdList(batch), old(currentIds))
    {
      StorePage(batch, isReset, pageIndex);
      if isReset {
        ResetList(batch, pageIndex);
      } else {
        AppendList(batch);
      }
    }

    // -------------------------------------------------------------------
    // loadApartments

    /** A reset load finds the entry of the signature complete: no fetch. */
    predicate FullHit(reset: bool)
      reads this`cache, this`applied, this`sort
    {
      reset && Signature() in cache && cache[Signature()].complete
    }

    /** A reset load for filters `f` and sort `s` would find their
        signature's entry in `cache` complete. */
    static predicate FullHitBy(cache: map<QueryKey, CacheEntry>, f: FilterState, s: SortState) {
      CanonicalKey(f, s) in cache && cache[CanonicalKey(f, s)].complete
    }

    /** An appending load finds the current page in the signature's entry. */
    predicate PageHit(reset: bool)
      reads this`cache, this`applied, this`sort, this`pagination
    {
      !reset && Signature() in cache && pagination.currentPage in cache[Signature()].pages
    }

    /** The fields a load reads before it starts and may write. */
    function Snap(): LoadState
      reads this`entities, this`currentIds, this`cache, this`pagination, this`priceRange, this`areaRange,
        this`error, this`lastLoadedSignature, this`lastLoadedTotal
    {
      LoadState(entities, currentIds, cache, pagination, priceRange, areaRange, error, lastLoadedSignature, lastLoadedTotal)
    }

    /** The full-cache path of `loadApartments(reset)`, which returns
        before the `try` block: no request goes out, whatever the fetch
        would have returned, and the loading flags are left as they are. */
    method LoadFromFullCache(ghost reset: bool, ghost outcome: FetchOutcome)
      requires Valid() && FullHit(reset)
      modifies this`entities, this`currentIds, this`pagination
      ensures Valid()
      ensures Loaded(old(Snap()), Snap(), applied, sort, reset, outcome, None)
    {
      var entry := cache[Signature()];
      var pagesSorted := PagesInOrder(entry.pages);
      SyncResetList(pagesSorted);
      MergeIntoSpec(old(entities), Flatten(pagesSorted));
      pagination := pagination.(totalItems := entry.total, hasMore := false);
    }

    /** The cached-page path of `loadApartments`, before the `finally`
        block. */
    method ServeCachedPage()
      requires Valid() && PageHit(false)
      modifies this`entities, this`currentIds, this`cache, this`pagination
      ensures Valid()
      ensures ServedCachedPage(old(Snap()), Snap(), Signature())
    {
      var entry := cache[Signature()];
      var pageIndex := pagination.currentPage;
      var batchCached := entry.pages[pageIndex];
      UpdateCacheAndList(batchCached, false, pageIndex);
      PageSetStored(entry.pages, pageIndex);
      assert cache == old(cache);
      pagination := pagination.(currentPage := pageIndex + 1, hasMore := |currentIds| < entry.total);
    }

    /** The start of the `try` block on a reset: raise the loading flag,
        clear the error and go back to page 0. */
    method StartReset()
      modifies this`pagination, this`isLoading, this`error
      ensures pagination == old(pagination).(currentPage := 0, hasMore := true)
      ensures isLoading && error == None
    {
      isLoading := true;
      error := None;
      pagination := pagination.(currentPage := 0, hasMore := true);
    }

    /** The request for the current page: `offset` is the pages so far
        times the page size. */
    function PageRequest(): Request
      reads this`pagination, this`applied, this`sort
    {
      Request(PagesSpan(pagination.currentPage, pagination.itemsPerPage), pagination.itemsPerPage, applied, sort)
    }

    /** The response metadata a reset takes: the total, and each range
        whose two ends are numbers in order. */
    method TakeMetadata(r: Response)
      modifies this`pagination, this`priceRange, this`areaRange
      ensures pagination == old(pagination).(totalItems := NumberOr(r.total, |Batch(r)|))
      ensures priceRange == ReportedRange(r.priceMin, r.priceMax).GetOr(old(priceRange))
      ensures areaRange == ReportedRange(r.areaMin, r.areaMax).GetOr(old(areaRange))
    {
      pagination := pagination.(totalItems := NumberOr(r.total, |Batch(r)|));
      if r.priceMin.Some? && r.priceMax.Some? && r.priceMin.value <= r.priceMax.value {
        priceRange := Range(r.priceMin.value, r.priceMax.value);
      }
      if r.areaMin.Some? && r.areaMax.Some? && r.areaMin.value <= r.areaMax.value {
        areaRange := Range(r.areaMin.value, r.areaMax.value);
      }
    }

    /** The end of the `try` block once the page has been stored: step the
        page counter, settle `hasMore`, write the entry's total, ranges and
        completeness, and record a complete load. */
    method FinishPage(r: Response)
      requires Signature() in cache
      modifies this`pagination, this`cache, this`lastLoadedSignature, this`lastLoadedTotal
      ensures var total := NumberOr(r.total, |currentIds|);
        && pagination == old(pagination).(currentPage := old(pagination.currentPage) + 1, hasMore := |currentIds| < total)
        && cache == old(cache)[Signature() := old(cache)[Signature()].(total := total, priceRange := Some(priceRange),
                                                                      areaRange := Some(areaRange), complete := !(|currentIds| < total))]
        && (if |currentIds| < total
            then lastLoadedSignature == old(lastLoadedSignature) && lastLoadedTotal == old(lastLoadedTotal)
            else lastLoadedSignature == Some(Signature()) && lastLoadedTotal == |currentIds|)
    {
      pagination := pagination.(currentPage := pagination.currentPage + 1);
      var total := NumberOr(r.total, |currentIds|);
      pagination := pagination.(hasMore := |currentIds| < total);
      var sig := Signature();
      var entry := cache[sig];
      cache := cache[sig := entry.(total := total, priceRange := Some(priceRange), areaRange := Some(areaRange),
                                   complete := !pagination.hasMore)];
      if !pagination.hasMore {
        lastLoadedSignature := Some(sig);
        lastLoadedTotal := |currentIds|;
      }
    }

    /** The `finally` block of `loadApartments`. */
    method EndLoad()
      modifies this`isLoading, this`isAppending, this`isFiltering
      ensures !isLoading && !isAppending && !isFiltering
    {
      isLoading := false;
      isAppending := false;
      isFiltering := false;
    }

    /** `loadApartments(reset)` when the fetch fails: the `catch` and
        `finally` blocks. */
    method LoadAndFail(reset: bool) returns (request: Request)
      modifies this`pagination, this`isLoading, this`isAppending, this`isFiltering, this`error
      ensures Requested(old(Snap()), reset, applied, sort, request) && FetchFailed(old(Snap()), Snap(), reset)
      ensures !isLoading && !isAppending && !isFiltering
    {
      if reset {
        StartReset();
      }
      request := PageRequest();
      error := Some(LoadErrorMessage);
      EndLoad();
    }

    /** The cached-page path of `loadApartments(false)` with its `finally`
        block: no request goes out, whatever the fetch would have
        returned. */
    method LoadCachedPage(ghost outcome: FetchOutcome)
      requires Valid() && PageHit(false)
      modifies this`entities, this`currentIds, this`cache, this`pagination,
        this`isLoading, this`isAppending, this`isFiltering
      ensures Valid()
      ensures Loaded(old(Snap()), Snap(), applied, sort, false, outcome, None)
      ensures !isLoading && !isAppending && !isFiltering
    {
      ServeCachedPage();
      EndLoad();
    }

    /** The `try` block of a reset load after the fetch returned `r`. */
    method TakeFirstPage(r: Response)
      requires Valid() && pagination.currentPage == 0
      modifies this`entities, this`currentIds, this`cache, this`pagination, this`priceRange, this`areaRange,
        this`lastLoadedSignature, this`lastLoadedTotal
      ensures Valid()
      ensures FirstPageFetched(old(Snap()), Snap(), Signature(), r)
    {
      TakeMetadata(r);
      ghost var c0 := cache;
      UpdateCacheAndList(Batch(r), true, 0);
      ghost var c1 := cache;
      FinishPage(r);
      UpdateTwice(c0, Signature(), c1[Signature()], cache[Signature()]);
    }

    /** The `try` block of an appending load after the fetch returned `r`. */
    method TakeNextPage(r: Response)
      requires Valid()
      modifies this`entities, this`currentIds, this`cache, this`pagination,
        this`lastLoadedSignature, this`lastLoadedTotal
      ensures Valid()
      ensures NextPageFetched(old(Snap()), Snap(), Signature(), r)
    {
      ghost var c0 := cache;
      UpdateCacheAndList(Batch(r), false, pagination.currentPage);
      ghost var c1 := cache;
      FinishPage(r);
      UpdateTwice(c0, Signature(), c1[Signature()], cache[Signature()]);
    }

    /** `loadApartments(true)` when the fetch returns `r`. */
    method LoadFirstPage(r: Response) returns (request: Request)
      requires Valid()
      modifies this`entities, this`currentIds, this`cache, this`pagination, this`priceRange, this`areaRange,
        this`isLoading, this`isAppending, this`isFiltering, this`error, this`lastLoadedSignature, this`lastLoadedTotal
      ensures Valid()
      ensures Requested(old(Snap()), true, applied, sort, request) && PageFetched(old(Snap()), Snap(), Signature(), true, r)
      ensures !isLoading && !isAppending && !isFiltering
    {
      StartReset();
      request := PageRequest();
      TakeFirstPage(r);
      EndLoad();
    }

    /** `loadApartments(false)` when the fetch returns `r`. */
    method LoadNextPage(r: Response) returns (request: Request)
      requires Valid()
      modifies this`entities, this`currentIds, this`cache, this`pagination,
        this`isLoading, this`isAppending, this`isFiltering, this`lastLoadedSignature, this`lastLoadedTotal
      ensures Valid()
      ensures Requested(old(Snap()), false, applied, sort, request) && PageFetched(old(Snap()), Snap(), Signature(), false, r)
      ensures !isLoading && !isAppending && !isFiltering
    {
      request := PageRequest();
      TakeNextPage(r);
      EndLoad();
    }

    /** `loadApartments(reset)` when the cache cannot serve it: the request
        goes out and its outcome is taken. */
    method FetchAndLoad(reset: bool, outcome: FetchOutcome) returns (request: Request)
      requires Valid() && !FullHit(reset) && !PageHit(reset)
      modifies this`entities, this`currentIds, this`cache, this`pagination, this`priceRange, this`areaRange,
        this`isLoading, this`isAppending, this`isFiltering, this`error, this`lastLoadedSignature, this`lastLoadedTotal
      ensures Valid()
      ensures Loaded(old(Snap()), Snap(), applied, sort, reset, outcome, Some(request))
      ensures !isLoading && !isAppending && !isFiltering
    {
      match outcome {
        case Failed =>
          request := LoadAndFail(reset);
        case Fetched(r) =>
          if reset {
            request := LoadFirstPage(r);
          } else {
            request := LoadNextPage(r);
          }
      }
    }

    /** `loadApartments(reset)`, which ends with the loading flags cleared
        except on the full-cache path, which returns before the `try`. */
    method LoadApartments(reset: bool, outcome: FetchOutcome) returns (request: Option<Request>)
      requires Valid()
      modifies this`entities, this`currentIds, this`cache, this`pagination, this`priceRange, this`areaRange,
        this`isLoading, this`isAppending, this`isFiltering, this`error, this`lastLoadedSignature, this`lastLoadedTotal
      ensures Valid()
      ensures Loaded(old(Snap()), Snap(), applied, sort, reset, outcome, request)
      ensures old(FullHit(reset)) ==>
        isLoading == old(isLoading) && isAppending == old(isAppending) && isFiltering == old(isFiltering)
      ensures !old(FullHit(reset)) ==> !isLoading && !isAppending && !isFiltering
    {
      if FullHit(reset) {
        LoadFromFullCache(reset, outcome);
        return None;
      }
      if PageHit(reset) {
        LoadCachedPage(outcome);
        return None;
      }
      var q := FetchAndLoad(reset, outcome);
      request := Some(q);
    }

    // -------------------------------------------------------------------
    // The actions that start a load

    /** `loadMore`: nothing at all unless there are more pages and no load
        is running; otherwise an appending load under the `isAppending`
        flag, which is false afterwards. */
    method LoadMore(outcome: FetchOutcome) returns (request: Option<Request>)
      requires Valid()
      modifies this`entities, this`currentIds, this`cache, this`pagination, this`priceRange, this`areaRange,
        this`isLoading, this`isAppending, this`isFiltering, this`error, this`lastLoadedSignature, this`lastLoadedTotal
      ensures Valid()
      ensures !old(pagination.hasMore) || old(isAppending) || old(isLoading) ==> request == None && unchanged(this)
      ensures old(pagination.hasMore) && !old(isAppending) && !old(isLoading) ==>
        Loaded(old(Snap()), Snap(), applied, sort, false, outcome, request) && !isLoading && !isAppending && !isFiltering
    {
      if !pagination.hasMore || isAppending || isLoading {
        return None;
      }
      isAppending := true;
      label Appending:
      request := LoadApartments(false, outcome);
      assert old@Appending(Snap()) == old(Snap());
      isAppending := false;
    }

    /** `setDraftFilters`: each supplied part replaces that part of the
        draft; nothing but the draft changes. */
    method SetDraftFilters(patch: FilterPatch)
      modifies this`draft
      ensures draft.rooms == patch.rooms.GetOr(old(draft.rooms))
      ensures draft.priceRange == patch.priceRange.GetOr(old(draft.priceRange))
      ensures draft.areaRange == patch.areaRange.GetOr(old(draft.areaRange))
    {
      if patch.rooms.Some? {
        var _, rooms := AssignArray(draft.rooms, patch.rooms.value);
        draft := draft.(rooms := rooms);
      }
      if patch.priceRange.Some? {
        var _, price := AssignRange(draft.priceRange, patch.priceRange.value);
        draft := draft.(priceRange := price);
      }
      if patch.areaRange.Some? {
        var _, area := AssignRange(draft.areaRange, patch.areaRange.value);
        draft := draft.(areaRange := area);
      }
    }

    /** The comparing half of `commitFilters`: the rooms by `assignArr`, then
        each bound of the price and area ranges; reports whether any part
        differed. */
    method CopyDraftToApplied() returns (changed: bool)
      modifies this`applied
      ensures applied == draft
      ensures changed <==> old(applied) != draft
    {
      changed := false;
      var roomsChanged, rooms := AssignArray(applied.rooms, draft.rooms);
      applied := applied.(rooms := rooms);
      changed := roomsChanged || changed;
      var priceChanged, price := AssignRange(applied.priceRange, draft.priceRange);
      applied := applied.(priceRange := price);
      var areaChanged, area := AssignRange(applied.areaRange, draft.areaRange);
      applied := applied.(areaRange := area);
      changed := changed || priceChanged || areaChanged;
    }

    /** The load `commitFilters` starts when some part differed:
        `isFiltering` is raised and a reset load runs. A load the complete
        cache serves returns before the `finally` block, so `isFiltering`
        then stays raised. */
    method FilterAndLoad(outcome: FetchOutcome) returns (request: Option<Request>)
      requires Valid()
      modifies this`entities, this`currentIds, this`cache, this`pagination, this`priceRange,
        this`areaRange, this`isLoading, this`isAppending, this`isFiltering, this`error,
        this`lastLoadedSignature, this`lastLoadedTotal
      ensures Valid()
      ensures Loaded(old(Snap()), Snap(), applied, sort, true, outcome, request)
      ensures old(FullHit(true)) ==> isFiltering
      ensures !old(FullHit(true)) ==> !isLoading && !isAppending && !isFiltering
    {
      isFiltering := true;
      label Filtering:
      request := LoadApartments(true, outcome);
      assert old@Filtering(Snap()) == old(Snap());
    }

    /** `commitFilters`: copies the draft into the applied filters. When no
        part differed nothing else happens; otherwise `isFiltering` is
        raised and a reset load runs for the new signature, which leaves
        `isFiltering` raised only when the complete cache serves it. */
    method CommitFilters(outcome: FetchOutcome) returns (request: Option<Request>)
      requires Valid()
      modifies this`applied, this`entities, this`currentIds, this`cache, this`pagination, this`priceRange,
        this`areaRange, this`isLoading, this`isAppending, this`isFiltering, this`error,
        this`lastLoadedSignature, this`lastLoadedTotal
      ensures Valid()
      ensures applied == draft
      ensures old(applied) == draft ==> request == None && unchanged(this)
      ensures old(applied) != draft ==> Loaded(old(Snap()), Snap(), applied, sort, true, outcome, request)
      ensures old(applied) != draft ==> (isFiltering <==> FullHitBy(old(cache), applied, sort))
      ensures old(applied) != draft && !FullHitBy(old(cache), applied, sort) ==> !isLoading && !isAppending
    {
      var changed := CopyDraftToApplied();
      if !changed {
        return None;
      }
      label Copied:
      request := FilterAndLoad(outcome);
      assert old@Copied(Snap()) == old(Snap());
    }

    /** `resetFilters`: the draft becomes "no rooms, the available ranges"
        and is committed. */
    method ResetFilters(outcome: FetchOutcome) returns (request: Option<Request>)
      requires Valid()
      modifies this`draft, this`applied, this`entities, this`currentIds, this`cache, this`pagination,
        this`priceRange, this`areaRange, this`isLoading, this`isAppending, this`isFiltering, this`error,
        this`lastLoadedSignature, this`lastLoadedTotal
      ensures Valid()
      ensures draft == FilterState([], old(priceRange), old(areaRange)) && applied == draft
      ensures old(applied) == draft ==> request == None && unchanged(this`applied, this`cache, this`entities,
        this`currentIds, this`pagination, this`isFiltering, this`error)
      ensures old(applied) == draft ==> unchanged(this`priceRange, this`areaRange, this`isLoading,
        this`isAppending, this`lastLoadedSignature, this`lastLoadedTotal)
      ensures old(applied) != draft ==> Loaded(old(Snap()), Snap(), applied, sort, true, outcome, request)
      ensures old(applied) != draft ==> (isFiltering <==> FullHitBy(old(cache), applied, sort))
      ensures old(applied) != draft && !FullHitBy(old(cache), applied, sort) ==> !isLoading && !isAppending
    {
      var _, rooms := AssignArray(draft.rooms, []);
      draft := draft.(rooms := rooms);
      draft := draft.(priceRange := draft.priceRange.(min := priceRange.min));
      draft := draft.(priceRange := draft.priceRange.(max := priceRange.max));
      draft := draft.(areaRange := draft.areaRange.(min := areaRange.min));
      draft := draft.(areaRange := draft.areaRange.(max := areaRange.max));
      label Drafted:
      request := CommitFilters(outcome);
      assert old@Drafted(Snap()) == old(Snap());
    }

    /** `updateSort`: sets the sort and always makes a reset load, even
        when the sort is the one already set. */
    method UpdateSort(field: string, direction: Direction, outcome: FetchOutcome) returns (request: Option<Request>)
      requires Valid()
      modifies this`sort, this`entities, this`currentIds, this`cache, this`pagination, this`priceRange,
        this`areaRange, this`isLoading, this`isAppending, this`isFiltering, this`error,
        this`lastLoadedSignature, this`lastLoadedTotal
      ensures Valid()
      ensures sort == SortState(field, direction)
      ensures Loaded(old(Snap()), Snap(), applied, sort, true, outcome, request)
      ensures FullHitBy(old(cache), applied, sort) ==> unchanged(this`isLoading, this`isAppending, this`isFiltering)
      ensures !FullHitBy(old(cache), applied, sort) ==> !isLoading && !isAppending && !isFiltering
    {
      sort := SortState(field, direction);
      label Sorted:
      request := LoadApartments(true, outcome);
      assert old@Sorted(Snap()) == old(Snap());
    }

    /** `init`: once only, a reset load. */
    method Init(outcome: FetchOutcome) returns (request: Option<Request>)
      requires Valid()
      modifies this`initialized, this`entities, this`currentIds, this`cache, this`pagination, this`priceRange,
        this`areaRange, this`isLoading, this`isAppending, this`isFiltering, this`error,
        this`lastLoadedSignature, this`lastLoadedTotal
      ensures Valid()
      ensures old(initialized) ==> request == None && unchanged(this)
      ensures !old(initialized) ==> initialized && Loaded(old(Snap()), Snap(), applied, sort, true, outcome, request)
      ensures !old(initialized) && FullHitBy(old(cache), applied, sort) ==>
        unchanged(this`isLoading, this`isAppending, this`isFiltering)
      ensures !old(initialized) && !FullHitBy(old(cache), applied, sort) ==> !isLoading && !isAppending && !isFiltering
    {
      if initialized {
        return None;
      }
      initialized := true;
      label Started:
      request := LoadApartments(true, outcome);
      assert old@Started(Snap()) == old(Snap());
    }
  }
}
