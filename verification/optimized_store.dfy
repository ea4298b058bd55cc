/** The state and actions of stores/apartments-optimized.ts
    (`useOptimizedApartmentsStore`): the fingerprinted map, the memo of the
    visible ids, the draft and applied filters, the sort, the pagination,
    the available ranges, the loading flags, and the saved-filters slot. A
    fetch is the `FetchOutcome` a load receives; each load returns the query
    parameters of the request it issues. */
module OptimizedStore {
  import opened Wrappers
  import opened Text
  import opened Sorting
  import opened Types
  import opened Staging
  import opened OptimizedSpec
  import opened OptimizedView

  /** The record kept under the `apartments-filters` storage key. */
  datatype SavedFilters = SavedFilters(rooms: seq<int>, priceRange: Range, areaRange: Range, sort: SortState)

  /** The parameters of one page request: `offset` and `limit`, and the sort
      only when a sort field is set. Filters are never sent: this store
      filters on the client. */
  function PageQuery(offset: int, limit: int, s: SortState): Query {
    Query(Some(IntToString(offset)), Some(IntToString(limit)),
      if s.field != "" then Some(s.field) else None,
      if s.field != "" then Some(DirectionName(s.direction)) else None,
      None, None, None, None, None)
  }

  ghost predicate MemoConsistent(hashMap: HashMap, filteredIds: seq<string>, lastFilterHash: Option<QueryKey>,
                                 memoFilters: FilterState, memoSort: SortState) {
    && ValidMap(hashMap)
    && (lastFilterHash == None ==> filteredIds == [])
    && (lastFilterHash.Some? ==>
          && lastFilterHash.value == CanonicalKey(memoFilters, memoSort)
          && filteredIds == VisibleIds(hashMap, memoFilters, memoSort))
  }

  class Store {
    var hashMap: HashMap
    /** The memo: the last visible ids and the filter hash they were
        computed for (`None` for the empty hash `''`). */
    var filteredIds: seq<string>
    var lastFilterHash: Option<QueryKey>
    /** The filters and sort the memo was computed from. */
    ghost var memoFilters: FilterState
    ghost var memoSort: SortState

    var applied: FilterState
    var draft: FilterState
    var sort: SortState
    var pagination: PaginationState
    var priceRange: Range
    var areaRange: Range
    var isLoading: bool
    var isAppending: bool
    var isFiltering: bool
    var error: Option<string>
    var initialized: bool
    /** The saved-filters storage slot. */
    var storage: Option<SavedFilters>

    /** The map is consistent, and a memo that is set holds the visible ids
        of the current map for filters and sort with the memo's hash. */
    ghost predicate Valid()
      reads this`hashMap, this`filteredIds, this`lastFilterHash, this`memoFilters, this`memoSort
    {
      MemoConsistent(hashMap, filteredIds, lastFilterHash, memoFilters, memoSort)
    }

    /** The store as first created; `storage` is what the storage slot
        already holds. */
    constructor (storage: Option<SavedFilters>)
      ensures Valid()
      ensures hashMap == EmptyMap && filteredIds == [] && lastFilterHash == None
      ensures applied == DefaultFilters && draft == DefaultFilters && sort == SortState("", Asc)
      ensures pagination == InitialPagination
      ensures priceRange == DefaultPriceRange && areaRange == DefaultAreaRange
      ensures !isLoading && !isAppending && !isFiltering && error == None && !initialized
      ensures this.storage == storage
    {
      hashMap := EmptyMap;
      filteredIds := [];
      lastFilterHash := None;
      memoFilters := DefaultFilters;
      memoSort := SortState("", Asc);
      applied := DefaultFilters;
      draft := DefaultFilters;
      sort := SortState("", Asc);
      pagination := InitialPagination;
      priceRange := DefaultPriceRange;
      areaRange := DefaultAreaRange;
      isLoading := false;
      isAppending := false;
      isFiltering := false;
      error := None;
      initialized := false;
      this.storage := storage;
    }

    /** `filteredIds.clear()` and `lastFilterHash = ''`: empties the memo. */
    method ClearMemo()
      requires ValidMap(hashMap)
      modifies this`filteredIds, this`lastFilterHash
      ensures Valid()
      ensures filteredIds == [] && lastFilterHash == None
    {
      filteredIds := [];
      lastFilterHash := None;
    }

    /** `upsertApartments`: the merge loop and, for a non-empty batch, the
        deletion loop over the ids stored before the call. */
    method UpsertApartments(batch: seq<Apartment>) returns (hasChanges: bool)
      requires ValidMap(hashMap)
      modifies this`hashMap
      ensures (hashMap, hasChanges) == Upsert(old(hashMap), batch)
      ensures ValidMap(hashMap)
    {
      var m0 := hashMap;
      var currentIds := hashMap.keys;
      var newIds: set<string> := {};
      var m := hashMap;
      hasChanges := false;
      var i := 0;
      assert batch[..0] == [];
      while i < |batch|
        invariant 0 <= i <= |batch|
        invariant m == MergeBatch(m0, batch[..i]).0
        invariant hasChanges == MergeBatch(m0, batch[..i]).1
        invariant newIds == BatchIds(batch[..i])
      {
        var a := batch[i];
        var hash := CreateApartmentHash(a);
        assert batch[..i + 1] == batch[..i] + [a];
        BatchIdsStep(batch[..i], a);
        MergeBatchStep(m0, batch[..i], a);
        newIds := newIds + {a.id};
        if a.id !in m.entries || m.entries[a.id].hash != hash {
          m := MapSet(m, NewEntry(a));
          hasChanges := true;
        }
        i := i + 1;
      }
      assert batch[..i] == batch;
      if |batch| > 0 {
        var merged, merging := m, hasChanges;
        var j := 0;
        assert currentIds[..0] == [];
        while j < |currentIds|
          invariant 0 <= j <= |currentIds|
          invariant m == Purge(merged, currentIds[..j], newIds).0
          invariant hasChanges == (merging || Purge(merged, currentIds[..j], newIds).1)
        {
          var id := currentIds[j];
          assert currentIds[..j + 1] == currentIds[..j] + [id];
          PurgeStep(merged, currentIds[..j], id, newIds);
          if id !in newIds {
            m := MapDelete(m, id);
            hasChanges := true;
          }
          j := j + 1;
        }
        assert currentIds[..j] == currentIds;
      }
      UpsertValid(m0, batch);
      hashMap := m;
    }

    /** The filter loop of `applyFiltersAndSort`: the stored entries, in
        insertion order, whose listing passes the applied filters. */
    method FilterStored() returns (filtered: seq<ApartmentHash>)
      requires ValidMap(hashMap)
      ensures filtered == FilterIn(hashMap, hashMap.keys, applied)
    {
      var keys := hashMap.keys;
      filtered := [];
      var i := 0;
      while i < |keys|
        invariant 0 <= i <= |keys|
        invariant filtered == FilterIn(hashMap, keys[..i], applied)
      {
        var id := keys[i];
        assert id in keys;
        var e := hashMap.entries[id];
        if MatchesFilters(e.apartment, applied) {
          filtered := filtered + [e];
        }
        assert keys[..i + 1][..i] == keys[..i];
        i := i + 1;
      }
      assert keys[..i] == keys;
    }

    /** The recomputing branch of `applyFiltersAndSort`: the filter pass,
        the stable sort when a field is set, and the new memo. */
    method RecomputeVisible() returns (ids: seq<string>)
      requires ValidMap(hashMap)
      modifies this`filteredIds, this`lastFilterHash, this`memoFilters, this`memoSort
      ensures Valid()
      ensures ids == VisibleIds(hashMap, applied, sort) && Distinct(ids)
      ensures filteredIds == ids && lastFilterHash == Some(CanonicalKey(applied, sort))
    {
      var filtered := FilterStored();
      if sort.field != "" {
        filtered := SortBy(EntryKey(sort.field), sort.direction, filtered);
      }
      ids := Ids(filtered);
      // `new Set(resultIds)` keeps the ids in order, as they are distinct.
      VisibleIdsMembership(hashMap, applied, sort);
      filteredIds := ids;
      lastFilterHash := Some(CanonicalKey(applied, sort));
      memoFilters := applied;
      memoSort := sort;
    }

    /** `applyFiltersAndSort`: the memo when the filter hash is unchanged and
        the memo is non-empty, and a recomputation otherwise. Either way the
        result is the visible ids of the current state, and the memo holds
        them. */
    method ApplyFiltersAndSort() returns (ids: seq<string>)
      requires Valid()
      modifies this`filteredIds, this`lastFilterHash, this`memoFilters, this`memoSort
      ensures Valid()
      ensures ids == VisibleIds(hashMap, applied, sort) && Distinct(ids)
      ensures old(lastFilterHash) == Some(CanonicalKey(applied, sort)) && |old(filteredIds)| > 0 ==>
        ids == old(filteredIds)
      ensures filteredIds == ids && lastFilterHash == Some(CanonicalKey(applied, sort))
    {
      var filterHash := CanonicalKey(applied, sort);
      if lastFilterHash == Some(filterHash) && |filteredIds| > 0 {
        FilterHashSound(hashMap, memoFilters, memoSort, applied, sort);
        VisibleIdsMembership(hashMap, applied, sort);
        ids := filteredIds;
      } else {
        ids := RecomputeVisible();
      }
    }

    /** The map half of a fetched page: a reset empties the map and the
        memo, the batch is upserted, and a change or a reset clears the
        memo. */
    method StoreBatch(reset: bool, batch: seq<Apartment>)
      requires Valid()
      modifies this`hashMap, this`filteredIds, this`lastFilterHash
      ensures Valid()
      ensures hashMap == Upsert(if reset then EmptyMap else old(hashMap), batch).0
      ensures reset || Upsert(if reset then EmptyMap else old(hashMap), batch).1 ==> filteredIds == [] && lastFilterHash == None
      ensures !reset && !Upsert(if reset then EmptyMap else old(hashMap), batch).1 ==>
        filteredIds == old(filteredIds) && lastFilterHash == old(lastFilterHash)
    {
      if reset {
        hashMap := EmptyMap;
        ClearMemo();
      }
      var hasChanges := UpsertApartments(batch);
      if hasChanges || reset {
        ClearMemo();
      }
    }

    /** The success path of `loadApartments`: store the batch, take the
        metadata on a reset, and step to the next page. */
    method TakeResponse(reset: bool, r: Response)
      requires Valid()
      modifies this`hashMap, this`filteredIds, this`lastFilterHash, this`pagination, this`priceRange, this`areaRange
      ensures Valid()
      ensures hashMap == Upsert(if reset then EmptyMap else old(hashMap), Batch(r)).0
      ensures reset || Upsert(if reset then EmptyMap else old(hashMap), Batch(r)).1 ==> filteredIds == [] && lastFilterHash == None
      ensures !reset && !Upsert(if reset then EmptyMap else old(hashMap), Batch(r)).1 ==>
        filteredIds == old(filteredIds) && lastFilterHash == old(lastFilterHash)
      ensures pagination.currentPage == old(pagination.currentPage) + 1
      ensures pagination.itemsPerPage == old(pagination.itemsPerPage)
      ensures pagination.hasMore == (PagesSpan(pagination.currentPage, pagination.itemsPerPage) < NumberOr(r.total, |Batch(r)|))
      ensures pagination.totalItems == (if reset then NumberOr(r.total, |Batch(r)|) else old(pagination.totalItems))
      ensures priceRange == (if reset && r.priceMin.Some? && r.priceMax.Some? then Range(r.priceMin.value, r.priceMax.value) else old(priceRange))
      ensures areaRange == (if reset && r.areaMin.Some? && r.areaMax.Some? then Range(r.areaMin.value, r.areaMax.value) else old(areaRange))
    {
      var batch := Batch(r);
      StoreBatch(reset, batch);
      if reset {
        pagination := pagination.(totalItems := NumberOr(r.total, |batch|));
        if r.priceMin.Some? && r.priceMax.Some? {
          priceRange := Range(r.priceMin.value, r.priceMax.value);
        }
        if r.areaMin.Some? && r.areaMax.Some? {
          areaRange := Range(r.areaMin.value, r.areaMax.value);
        }
      }
      var page := pagination.currentPage + 1;
      pagination := pagination.(currentPage := page, hasMore := PagesSpan(page, pagination.itemsPerPage) < NumberOr(r.total, |batch|));
    }

    /** What every `loadApartments(reset)` does, whatever the fetch's
        outcome: it issues the page request for page 0 on a reset and for
        the current page otherwise, leaves the page size alone, and ends with
        the three loading flags cleared. (The filters, the sort and the
        storage slot are outside every load method's frame.) */
    twostate predicate Requested(reset: bool, query: Query)
      reads this
    {
      var page := if reset then 0 else old(pagination.currentPage);
      && query == PageQuery(PagesSpan(page, old(pagination.itemsPerPage)), old(pagination.itemsPerPage), old(sort))
      && pagination.itemsPerPage == old(pagination.itemsPerPage)
      && !isLoading && !isAppending && !isFiltering
    }

    /** A failed fetch records the error message and changes nothing else
        beyond the reset of `currentPage` and `hasMore` a reset makes. */
    twostate predicate LoadFailed(reset: bool)
      reads this
    {
      && hashMap == old(hashMap) && filteredIds == old(filteredIds) && lastFilterHash == old(lastFilterHash)
      && pagination == (if reset then old(pagination).(currentPage := 0, hasMore := true) else old(pagination))
      && priceRange == old(priceRange) && areaRange == old(areaRange)
      && error == Some(LoadErrorMessage)
    }

    /** A fetched page replaces the map by `Upsert` of the batch into the
        emptied map (reset) or the current map, clears the memo on a reset or
        a change, advances `currentPage`, and sets `hasMore` to whether the
        pages so far fall short of `total || batch length`; `totalItems` and
        the ranges (those whose two ends are numbers) are taken from the
        response only on a reset, which also clears the error. */
    twostate predicate LoadFetched(reset: bool, r: Response)
      reads this
    {
      var batch := Batch(r);
      var upserted := Upsert(if reset then EmptyMap else old(hashMap), batch);
      && hashMap == upserted.0
      && (reset || upserted.1 ==> filteredIds == [] && lastFilterHash == None)
      && (!reset && !upserted.1 ==> filteredIds == old(filteredIds) && lastFilterHash == old(lastFilterHash))
      && pagination.currentPage == (if reset then 0 else old(pagination.currentPage)) + 1
      && pagination.hasMore == (PagesSpan(pagination.currentPage, pagination.itemsPerPage) < NumberOr(r.total, |batch|))
      && pagination.totalItems == (if reset then NumberOr(r.total, |batch|) else old(pagination.totalItems))
      && priceRange == (if reset && r.priceMin.Some? && r.priceMax.Some? then Range(r.priceMin.value, r.priceMax.value) else old(priceRange))
      && areaRange == (if reset && r.areaMin.Some? && r.areaMax.Some? then Range(r.areaMin.value, r.areaMax.value) else old(areaRange))
      && error == (if reset then None else old(error))
    }

    /** What one `loadApartments(reset)` does, given the fetch's outcome and
        the query it issued. */
    twostate predicate Loaded(reset: bool, outcome: FetchOutcome, query: Query)
      reads this
    {
      && Requested(reset, query)
      && match outcome
         case Failed => LoadFailed(reset)
         case Fetched(r) => LoadFetched(reset, r)
    }

    /** The start of `loadApartments`: raise the loading flag (clearing the
        error and going back to page 0 on a reset) and issue the request for
        the current page. */
    method StartLoad(reset: bool) returns (query: Query)
      modifies this`pagination, this`isLoading, this`isAppending, this`error
      ensures query == PageQuery(PagesSpan(if reset then 0 else old(pagination.currentPage), old(pagination.itemsPerPage)), old(pagination.itemsPerPage), sort)
      ensures pagination == (if reset then old(pagination).(currentPage := 0, hasMore := true) else old(pagination))
      ensures isLoading == (reset || old(isLoading)) && isAppending == (!reset || old(isAppending))
      ensures error == (if reset then None else old(error))
    {
      if reset {
        isLoading := true;
        error := None;
        pagination := pagination.(currentPage := 0, hasMore := true);
      } else {
        isAppending := true;
      }
      var offset := PagesSpan(pagination.currentPage, pagination.itemsPerPage);
      query := PageQuery(offset, pagination.itemsPerPage, sort);
    }

    /** The `finally` block of `loadApartments`. */
    method EndLoad()
      modifies this`isLoading, this`isAppending, this`isFiltering
      ensures !isLoading && !isAppending && !isFiltering
    {
      isLoading := false;
      isAppending := false;
      isFiltering := false;
    }

    /** `loadApartments(reset)` when the fetch fails: the `catch` and
        `finally` blocks. */
    method LoadAndFail(reset: bool) returns (query: Query)
      modifies this`pagination, this`isLoading, this`isAppending, this`isFiltering, this`error
      ensures Requested(reset, query) && LoadFailed(reset)
    {
      query := StartLoad(reset);
      error := Some(LoadErrorMessage);
      EndLoad();
    }

    /** `loadApartments(reset)` when the fetch returns `r`. */
    method LoadAndTake(reset: bool, r: Response) returns (query: Query)
      requires Valid()
      modifies this`hashMap, this`filteredIds, this`lastFilterHash, this`pagination, this`priceRange,
        this`areaRange, this`isLoading, this`isAppending, this`isFiltering, this`error
      ensures Valid()
      ensures Requested(reset, query) && LoadFetched(reset, r)
    {
      query := StartLoad(reset);
      ghost var started := pagination;
      assert started.currentPage == if reset then 0 else old(pagination.currentPage);
      TakeResponse(reset, r);
      EndLoad();
    }

    /** `loadApartments(reset)`. */
    method LoadApartments(reset: bool, outcome: FetchOutcome) returns (query: Query)
      requires Valid()
      modifies this`hashMap, this`filteredIds, this`lastFilterHash, this`pagination, this`priceRange,
        this`areaRange, this`isLoading, this`isAppending, this`isFiltering, this`error
      ensures Valid()
      ensures Loaded(reset, outcome, query)
    {
      match outcome {
        case Failed =>
          query := LoadAndFail(reset);
        case Fetched(r) =>
          query := LoadAndTake(reset, r);
      }
    }

    /** `loadMore`: nothing at all unless there are more pages and no load
        is running; otherwise an appending load. */
    method LoadMore(outcome: FetchOutcome) returns (query: Option<Query>)
      requires Valid()
      modifies this`hashMap, this`filteredIds, this`lastFilterHash, this`pagination, this`priceRange,
        this`areaRange, this`isLoading, this`isAppending, this`isFiltering, this`error
      ensures Valid()
      ensures !old(pagination.hasMore) || old(isAppending) || old(isLoading) ==> query == None && unchanged(this)
      ensures old(pagination.hasMore) && !old(isAppending) && !old(isLoading) ==>
        query.Some? && Loaded(false, outcome, query.value)
    {
      if !pagination.hasMore || isAppending || isLoading {
        return None;
      }
      var q := LoadApartments(false, outcome);
      query := Some(q);
    }

    /** `setDraftFilters`: each supplied part replaces that part of the
        draft; nothing but the draft changes. */
    method SetDraftFilters(patch: FilterPatch)
      modifies this`draft
      ensures draft.rooms == patch.rooms.GetOr(old(draft.rooms))
      ensures draft.priceRange == patch.priceRange.GetOr(old(draft.priceRange))
      ensures draft.areaRange == patch.areaRange.GetOr(old(draft.areaRange))
    {
      if patch.rooms.Some? {
        var _, rooms := AssignArray(draft.rooms, patch.rooms.value);
        draft := draft.(rooms := rooms);
      }
      if patch.priceRange.Some? {
        draft := draft.(priceRange := patch.priceRange.value);
      }
      if patch.areaRange.Some? {
        draft := draft.(areaRange := patch.areaRange.value);
      }
    }

    /** `saveFiltersToLocalStorage`. */
    method SaveFiltersToLocalStorage()
      modifies this`storage
      ensures storage == Some(SavedFilters(applied.rooms, applied.priceRange, applied.areaRange, sort))
    {
      storage := Some(SavedFilters(applied.rooms, applied.priceRange, applied.areaRange, sort));
    }

    /** `loadFiltersFromLocalStorage`: a saved record sets both the applied
        and the draft filters, and the sort; an empty slot changes nothing. */
    method LoadFiltersFromLocalStorage()
      modifies this`applied, this`draft, this`sort
      ensures storage == None ==> applied == old(applied) && draft == old(draft) && sort == old(sort)
      ensures storage.Some? ==>
        && applied == FilterState(storage.value.rooms, storage.value.priceRange, storage.value.areaRange)
        && draft == applied && sort == storage.value.sort
    {
      if storage.Some? {
        var data := storage.value;
        var _, rooms := AssignArray(applied.rooms, data.rooms);
        applied := applied.(rooms := rooms);
        var _, draftRooms := AssignArray(draft.rooms, data.rooms);
        draft := draft.(rooms := draftRooms);
        applied := applied.(priceRange := data.priceRange);
        draft := draft.(priceRange := data.priceRange);
        applied := applied.(areaRange := data.areaRange);
        draft := draft.(areaRange := data.areaRange);
        sort := data.sort;
      }
    }

    /** The comparing half of `commitFilters`: copies the draft into the
        applied filters part by part and reports whether any part differed. */
    method CopyDraftToApplied() returns (changed: bool)
      modifies this`applied
      ensures applied == draft
      ensures changed <==> old(applied) != draft
    {
      changed := false;
      var roomsChanged, rooms := AssignArray(applied.rooms, draft.rooms);
      applied := applied.(rooms := rooms);
      changed := roomsChanged || changed;
      var priceChanged, price := AssignRange(applied.priceRange, draft.priceRange);
      applied := applied.(priceRange := price);
      var areaChanged, area := AssignRange(applied.areaRange, draft.areaRange);
      applied := applied.(areaRange := area);
      changed := changed || priceChanged || areaChanged;
    }

    /** `commitFilters`: copies the draft into the applied filters. When some
        part differed it sets `isFiltering`, clears the memo and saves the
        filters; when none did, nothing changes at all. */
    method CommitFilters()
      requires Valid()
      modifies this`applied, this`isFiltering, this`filteredIds, this`lastFilterHash, this`storage
      ensures Valid()
      ensures applied == draft
      ensures old(applied) == draft ==> unchanged(this)
      ensures old(applied) != draft ==>
        && isFiltering && filteredIds == [] && lastFilterHash == None
        && storage == Some(SavedFilters(draft.rooms, draft.priceRange, draft.areaRange, sort))
    {
      var changed := CopyDraftToApplied();
      if changed {
        isFiltering := true;
        ClearMemo();
        SaveFiltersToLocalStorage();
      }
    }

    /** `resetFilters`: the draft becomes "no rooms, the available ranges"
        and is committed, so no filter is active afterwards. */
    method ResetFilters()
      requires Valid()
      modifies this`draft, this`applied, this`isFiltering, this`filteredIds, this`lastFilterHash, this`storage
      ensures Valid()
      ensures draft == FilterState([], priceRange, areaRange) && applied == draft
      ensures ActiveFiltersCount(applied, priceRange, areaRange) == 0
      ensures old(applied) == applied ==>
        isFiltering == old(isFiltering) && filteredIds == old(filteredIds) &&
        lastFilterHash == old(lastFilterHash) && storage == old(storage)
      ensures old(applied) != applied ==> isFiltering && filteredIds == [] && lastFilterHash == None
      ensures old(applied) != applied ==> storage == Some(SavedFilters([], priceRange, areaRange, sort))
    {
      var _, rooms := AssignArray(draft.rooms, []);
      draft := draft.(rooms := rooms);
      draft := draft.(priceRange := draft.priceRange.(min := priceRange.min));
      draft := draft.(priceRange := draft.priceRange.(max := priceRange.max));
      draft := draft.(areaRange := draft.areaRange.(min := areaRange.min));
      draft := draft.(areaRange := draft.areaRange.(max := areaRange.max));
      CommitFilters();
    }

    /** `updateSort`: sets the sort and clears the memo; it does not load. */
    method UpdateSort(field: string, direction: Direction)
      requires Valid()
      modifies this`sort, this`filteredIds, this`lastFilterHash
      ensures Valid()
      ensures sort == SortState(field, direction) && filteredIds == [] && lastFilterHash == None
    {
      sort := SortState(field, direction);
      ClearMemo();
    }

    /** `init`: once only, restores the saved filters and makes a reset
        load. */
    method Init(outcome: FetchOutcome) returns (query: Option<Query>)
      requires Valid()
      modifies this
      ensures Valid()
      ensures old(initialized) ==> query == None && unchanged(this)
      ensures !old(initialized) ==>
        && initialized && query.Some?
        && query.value == PageQuery(0, pagination.itemsPerPage, sort)
        && (storage.Some? ==>
              sort == storage.value.sort && applied == draft &&
              applied == FilterState(storage.value.rooms, storage.value.priceRange, storage.value.areaRange))
        && (outcome.Fetched? ==> hashMap == Upsert(EmptyMap, Batch(outcome.response)).0 && pagination.currentPage == 1)
        && (outcome.Failed? ==> hashMap == old(hashMap) && error == Some(LoadErrorMessage) && pagination.currentPage == 0)
        && !isLoading && !isAppending && !isFiltering
      ensures !old(initialized) && old(storage).None? ==> applied == old(applied) && draft == old(draft) && sort == old(sort)
    {
      if initialized {
        return None;
      }
      initialized := true;
      LoadFiltersFromLocalStorage();
      var q := LoadApartments(true, outcome);
      query := Some(q);
    }
  }
}
