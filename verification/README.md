# Apartment listings: the two client stores and the listing endpoint

This project models the data core of a Nuxt apartment-listing site in
Dafny and proves properties of that model. The core has three parts.

- **The optimized store** (`stores/apartments-optimized.ts`). It keeps every
  fetched listing in a JavaScript `Map` from id to an entry: the id, a
  fingerprint of the listing's fields and a copy of the listing. It
  filters and sorts on the client, and memoizes the visible ids under a
  hash of the filters and the sort. It also saves the applied filters in
  a storage slot.
- **The page-cache store** (`stores/apartments.ts`). It keeps a table of
  listings by id and the list of ids on screen. Per query signature (the
  filters and the sort as one canonical key) it caches the fetched pages,
  the total, and whether every page has been fetched. It sends filters to
  the server and serves a complete signature, or a page it has seen,
  without fetching.
- **The listing endpoint** (`server/api/apartments.get.ts`). It parses the
  query string with JavaScript `parseInt` semantics. It computes the
  dataset's price and area ranges, then filters, sorts and slices, and
  answers with the page, the total and the ranges.

The stores are modelled as classes whose fields the methods update, with
their loops kept as `while` loops. The pure parts are datatypes, functions
and lemmas:
- the fingerprinted map with its merge and purge;
- the filter, sort and memo key;
- the page map and its ordered flattening;
- the whole endpoint.

A fetch is a `FetchOutcome` parameter: a decoded body or a thrown error.
Each load returns the request it would issue. The `QueryContract` module
connects the clients to the server. It proves that what `buildQuery`
writes the handler parses back, and says where the two sides' filters
agree and where they part.

Module layout, one file each:
- `Wrappers`: Option.
- `Text`: `parseInt`, `String(n)`, `split`/`join`, string `<`.
- `Sorting`: the comparator and the stable sort, and the default `sort()`
  on numbers.
- `Types`: the records of `types/index.ts` and the shared values.
- `Staging`: the filter staging helpers both stores share.
- `OptimizedSpec`, `OptimizedView`, `OptimizedStore`: the optimized store.
- `PageCacheSpec`, `PageCacheStore`: the page-cache store.
- `ApartmentsApi`: the endpoint.
- `QueryContract`: the client–server contract.

Where the stores and the endpoint disagree, the model follows the code
and states the difference as a lemma.
- **A maximum of 0.** The server reads it as "no upper bound"
  (`parseInt(...) || MAX_SAFE_INTEGER`). The optimized store's
  `matchesFilters` keeps only listings at or below 0
  (`QueryContract.ServerFilterAgrees` holds when both maxima are nonzero;
  `QueryContract.MaxZeroDiffers` gives a listing on which the two part
  when the price maximum is 0).
- **Sorting by name.** The server compares the first number in the name.
  The optimized store compares the names as text, so "Apt 10" comes before
  "Apt 9" on the client and after it on the server
  (`QueryContract.NameOrdersDiffer`).
- **The purge.** `upsertApartments` deletes every stored listing that is
  not in a non-empty batch, even when the store appends a next page. So
  after any non-empty batch the map holds exactly that batch's ids
  (`OptimizedSpec.UpsertKeys`). The model keeps this as written.

## Model

| member | source | states |
|---|---|---|
| Types.NumberOr | stores/apartments-optimized.ts:225 | `Number(x) \|\| fallback`: the fallback, unless the value is a nonzero number, which is then the result; a missing value or 0 gives the fallback |
| Types.FieldValue | stores/apartments-optimized.ts:141-146 | `apartment[field]` is a string for `id`, `name` and `planImage`, undefined for a name that is not one of the eight fields, and a number otherwise |
| Types.PagesSpanProduct | stores/apartments-optimized.ts:192 | the offset of a page is `currentPage * itemsPerPage` |
| Text.DigitChar | stores/apartments.ts:146-147 | the character of a decimal digit is a digit whose value is that digit |
| Text.NatToString | stores/apartments.ts:146-147 | `String(n)` of a natural number is a non-empty run of digits |
| Text.NatToStringValue | stores/apartments.ts:146-147 | the digits of `String(n)` read back as `n`, and have no leading zero unless `n` is 0 |
| Text.IntToString | stores/apartments.ts:154-157 | `String(n)` of an integer below 10^21 in magnitude is non-empty, all digits except for a leading minus sign |
| Text.TrimStart | server/api/apartments.get.ts:26 | the white space `parseInt` skips: the result is a suffix of the input that starts with no white space, and is the whole input when it has none |
| Text.LeadingDigits | server/api/apartments.get.ts:26 | the length of the digit run the text starts with: all digits up to it, and a non-digit (or the end) at it |
| Text.ParseSignedOfDigits | server/api/apartments.get.ts:26 | a digit run with or without a minus sign parses as its value or its negation |
| Text.ParseIntOfNatToString | server/api/apartments.get.ts:26 | `parseInt` recovers a natural number and its negation from their decimal text |
| Text.ParseIntOfIntToString | stores/apartments.ts:146-157 | `parseInt(String(n), 10) === n` for every integer below 10^21 in magnitude, which covers every safe integer the store sends |
| Text.IntToStringInjective | stores/apartments.ts:146-157 | two integers below 10^21 in magnitude have the same decimal text exactly when they are equal |
| Text.Split | server/api/apartments.get.ts:32-33 | `split(sep)` gives at least one piece, no piece contains the separator, and joining the pieces gives back the text |
| Text.SplitJoin | stores/apartments.ts:153 | splitting what `join` wrote gives back the pieces when no piece contains the separator |
| Text.StrLtIrreflexive | stores/apartments-optimized.ts:147-148 | no string is `<` itself |
| Text.StrLtTransitive | stores/apartments-optimized.ts:147-148 | string `<` is transitive |
| Text.StrLtTrichotomy | stores/apartments-optimized.ts:147-148 | two strings are equal or one is `<` the other |
| Sorting.KeyLtIrreflexive | stores/apartments-optimized.ts:147-148 | no sort value is below itself |
| Sorting.KeyLtTransitive | stores/apartments-optimized.ts:147-148 | the comparison of sort values is transitive |
| Sorting.KeyLtTrichotomy | stores/apartments-optimized.ts:147-148 | values the comparator returns 0 for are equal |
| Sorting.NotBeforeTransitive | stores/apartments-optimized.ts:144-149 | "not strictly before" is transitive, in either direction |
| Sorting.BeforeAsymmetric | stores/apartments-optimized.ts:144-149 | of two elements at most one goes strictly before the other, and then their keys differ |
| Sorting.Insert | stores/apartments-optimized.ts:144-149 | one insertion step adds exactly one element |
| Sorting.InsertPermutation | stores/apartments-optimized.ts:144-149 | insertion adds the element and loses nothing |
| Sorting.InsertSorted | stores/apartments-optimized.ts:144-149 | inserting into a sorted sequence keeps it sorted |
| Sorting.SortBy | stores/apartments-optimized.ts:144-149 | the sort keeps the length |
| Sorting.SortByPermutation | stores/apartments-optimized.ts:144-149 | the sort returns a permutation of its input |
| Sorting.SortBySorted | stores/apartments-optimized.ts:144-149 | the result is in ascending (or descending) order of the key |
| Sorting.SortStable | stores/apartments-optimized.ts:144-149 | elements with equal keys keep their input order, as `Array.prototype.sort` guarantees |
| Sorting.SortedOrderOfDistinctKeys | stores/apartments-optimized.ts:147-148 | in a sorted sequence an element with a smaller key comes first ascending and last descending |
| Sorting.StableSortUnique | stores/apartments-optimized.ts:144-149 | a sorted permutation that keeps the order of ties is unique, so any stable sort gives the same result |
| Sorting.SortedUniqueByInjectiveKey | stores/apartments-optimized.ts:144-149 | with a key that tells elements apart, a sorted permutation is unique |
| Sorting.DefaultSortOrderIndependent | stores/apartments.ts:52 | `[...rooms].sort()` depends only on which room counts occur how often |
| Sorting.DefaultSortDeterminesMultiset | stores/apartments-optimized.ts:73 | two room selections give the same default sort exactly when they hold the same counts |
| Sorting.DistinctPermutation | stores/apartments-optimized.ts:153-154 | a permutation of a list without repeats has none |
| Staging.AssignArray | stores/apartments-optimized.ts:256-275 | reports a change exactly when the two arrays differ, and leaves the target equal to the source |
| Staging.AssignRange | stores/apartments-optimized.ts:297-313 | reports a change exactly when some bound differs, and leaves the target equal to the source |
| Staging.ActiveFiltersCount | stores/apartments-optimized.ts:172-178 | at most 3; 0 exactly when no rooms are selected and both ranges are the available ones; 3 exactly when all three differ |
| Staging.CanonicalKeyEquality | stores/apartments.ts:50-57 | two filter and sort states have the same signature exactly when they hold the same rooms in any order and the same ranges, field and direction |
| OptimizedSpec.FingerprintSensitivity | stores/apartments-optimized.ts:66-70 | two listings get the same fingerprint exactly when they agree on id, name, area, floor, price and rooms; it ignores the plan image and the number of floors |
| OptimizedSpec.MapSet | stores/apartments-optimized.ts:93-97 | `map.set` stores the entry under its id |
| OptimizedSpec.MapDelete | stores/apartments-optimized.ts:106 | `map.delete` removes just that key |
| OptimizedSpec.UpsertOne | stores/apartments-optimized.ts:85-99 | a listing that is new or whose fingerprint changed is stored as a fresh entry and reported; otherwise the map is unchanged |
| OptimizedSpec.BatchIdsContains | stores/apartments-optimized.ts:87 | every listing's id is among the batch's ids |
| OptimizedSpec.BatchIdsOnly | stores/apartments-optimized.ts:87 | every id of the batch belongs to one of its listings |
| OptimizedSpec.MergeBatch | stores/apartments-optimized.ts:84-100 | a merge that reports no change leaves the map as it was |
| OptimizedSpec.Purge | stores/apartments-optimized.ts:104-109 | a purge that reports no change leaves the map as it was |
| OptimizedSpec.MergeBatchValid | stores/apartments-optimized.ts:84-100 | the merge loop keeps the map consistent |
| OptimizedSpec.PurgeValid | stores/apartments-optimized.ts:104-109 | the deletion loop keeps the map consistent |
| OptimizedSpec.Upsert | stores/apartments-optimized.ts:79-113 | an empty batch changes nothing and reports nothing; a run that reports nothing leaves the map as it was |
| OptimizedSpec.UpsertValid | stores/apartments-optimized.ts:79-113 | `upsertApartments` keeps the map consistent |
| OptimizedSpec.MergeBatchKeys | stores/apartments-optimized.ts:84-100 | the merge adds the batch's ids, removes none and leaves the other entries alone |
| OptimizedSpec.PurgeKeys | stores/apartments-optimized.ts:103-110 | the purge removes exactly the old ids missing from the batch, and reports a change exactly when there is one |
| OptimizedSpec.UpsertKeys | stores/apartments-optimized.ts:79-113 | after a non-empty batch the stored ids are exactly the batch's ids |
| OptimizedSpec.MergeBatchEntries | stores/apartments-optimized.ts:84-100 | for a batch of distinct ids, every listing has an entry, fresh if it was new or changed and the old one otherwise; the merge reports a change exactly when some listing was new or changed |
| OptimizedSpec.UpsertEntries | stores/apartments-optimized.ts:79-113 | the same for the whole upsert, which also reports a change when an old id was purged |
| OptimizedSpec.UpsertIdempotent | stores/apartments-optimized.ts:79-113 | for a batch of distinct ids, upserting the same batch a second time reports no change and leaves the map as it was |
| OptimizedView.Ids | stores/apartments-optimized.ts:153 | `filtered.map(item => item.id)` keeps the order and the length |
| OptimizedView.FilterInEntries | stores/apartments-optimized.ts:132-137 | each entry the filter pass yields is the entry stored under its id |
| OptimizedView.FilterInMembership | stores/apartments-optimized.ts:132-137 | the filter pass yields exactly the stored ids whose listing matches the filters |
| OptimizedView.FilterInDistinct | stores/apartments-optimized.ts:132-137 | over a map's distinct keys the filter pass yields distinct ids |
| OptimizedView.FilterInSameFilters | stores/apartments-optimized.ts:116-121 | filters that let the same listings through give the same filter pass |
| OptimizedView.VisibleIdsMembership | stores/apartments-optimized.ts:123-158 | the visible ids are exactly the stored ids whose listing matches the applied filters, each once |
| OptimizedView.VisibleOrder | stores/apartments-optimized.ts:139-150 | without a sort field the order is the map's insertion order; with one the list is sorted on it and listings with equal values keep their map order |
| OptimizedView.FilterHashSound | stores/apartments-optimized.ts:72-129 | states with the same filter hash have the same visible ids, so the memo returned on an unchanged hash is the right answer |
| OptimizedStore.Store.constructor | stores/apartments-optimized.ts:20-63 | the initial state: an empty map and memo, the default filters, the unsorted order, the first pagination, and no flag set |
| OptimizedStore.Store.ClearMemo | stores/apartments-optimized.ts:217-221 | empties the memo and keeps the store consistent |
| OptimizedStore.Store.UpsertApartments | stores/apartments-optimized.ts:79-113 | the loops compute `Upsert` of the old map and the batch, result and report |
| OptimizedStore.Store.FilterStored | stores/apartments-optimized.ts:132-137 | the loop over the map yields the filter pass over its keys |
| OptimizedStore.Store.RecomputeVisible | stores/apartments-optimized.ts:131-157 | returns the visible ids for the applied filters and sort, each once, and memoizes them under their hash |
| OptimizedStore.Store.ApplyFiltersAndSort | stores/apartments-optimized.ts:123-158 | returns the visible ids whether or not the memo is used; the memo, when used, is returned unchanged |
| OptimizedStore.Store.StoreBatch | stores/apartments-optimized.ts:207-221 | a reset empties the map first; the map becomes `Upsert` of the batch; the memo is cleared on a reset or a change and kept otherwise |
| OptimizedStore.Store.TakeResponse | stores/apartments-optimized.ts:205-238 | the success path: the batch stored; the page advanced; `hasMore` is whether the pages so far fall short of `total \|\| batch length`; on a reset, the total and the ranges whose two ends are numbers are taken from the response |
| OptimizedStore.Store.StartLoad | stores/apartments-optimized.ts:183-202 | raises the loading flag (a reset also clears the error, page and `hasMore`) and issues the request for `currentPage * itemsPerPage`, with the sort only when a field is set |
| OptimizedStore.Store.EndLoad | stores/apartments-optimized.ts:243-247 | clears the three loading flags |
| OptimizedStore.Store.LoadAndFail | stores/apartments-optimized.ts:181-248 | a failed fetch records the error message and changes nothing else beyond the reset's page and `hasMore` |
| OptimizedStore.Store.LoadAndTake | stores/apartments-optimized.ts:181-248 | a fetched response goes through the success path, and the flags end cleared |
| OptimizedStore.Store.LoadApartments | stores/apartments-optimized.ts:181-248 | either path, given the fetch's outcome |
| OptimizedStore.Store.LoadMore | stores/apartments-optimized.ts:250-253 | nothing at all unless there are more pages and no load runs; then an appending load |
| OptimizedStore.Store.SetDraftFilters | stores/apartments-optimized.ts:277-289 | each supplied part replaces that part of the draft, the rest unchanged |
| OptimizedStore.Store.SaveFiltersToLocalStorage | stores/apartments-optimized.ts:349-363 | the slot holds the applied filters and the sort |
| OptimizedStore.Store.LoadFiltersFromLocalStorage | stores/apartments-optimized.ts:365-399 | a saved record sets the applied and draft filters and the sort; an empty slot changes nothing |
| OptimizedStore.Store.CopyDraftToApplied | stores/apartments-optimized.ts:292-313 | the applied filters become the draft; reports a change exactly when they differed |
| OptimizedStore.Store.CommitFilters | stores/apartments-optimized.ts:291-328 | when something changed: sets `isFiltering`, clears the memo and saves the filters; otherwise nothing changes at all |
| OptimizedStore.Store.ResetFilters | stores/apartments-optimized.ts:330-337 | the draft and applied filters become "no rooms, the available ranges", so no filter is active; when that changed the applied filters, `isFiltering` is set, the memo cleared and the neutral filters saved |
| OptimizedStore.Store.UpdateSort | stores/apartments-optimized.ts:339-344 | sets the sort and clears the memo, without loading |
| OptimizedStore.Store.Init | stores/apartments-optimized.ts:402-411 | once only: restores the saved filters and sort, or keeps them when nothing was saved, then makes a reset load for page 0 |
| PageCacheSpec.Least | stores/apartments.ts:123-124 | the least page index of a non-empty set |
| PageCacheSpec.AscendingSpec | stores/apartments.ts:123-125 | the page indices in ascending order: each index once and strictly increasing |
| PageCacheSpec.BatchesAt | stores/apartments.ts:125 | the batches stored under the given indices, in that order |
| PageCacheSpec.PagesInOrderSingle | stores/apartments.ts:120-126 | a page map holding one page lists just that page |
| PageCacheSpec.IdList | stores/apartments.ts:88-100 | the ids of the batch, in batch order |
| PageCacheSpec.LastWithSpec | stores/apartments.ts:90-97 | a listing with a given id exists in the batch exactly when the id is listed, and the last such listing is what ends in the table |
| PageCacheSpec.MergeIntoSpec | stores/apartments.ts:88-100 | the table keeps every stored id and adds the batch's; a batch id ends with its last listing; other records are unchanged |
| PageCacheSpec.MergeIntoIdempotent | stores/apartments.ts:88-100 | merging the same batch twice is merging it once |
| PageCacheSpec.AbsentMembership | stores/apartments.ts:130-137 | the append loop pushes exactly the batch ids not already listed |
| PageCacheSpec.AbsentDistinct | stores/apartments.ts:130-137 | a list without repeats stays so after the append loop over distinct ids |
| PageCacheSpec.BuildQuery | stores/apartments.ts:144-159 | the sort is sent exactly when a field is set, the rooms exactly when some are selected; the offset, limit and four bounds always |
| PageCacheSpec.BuildQueryNumbers | stores/apartments.ts:146-157 | each number written into the query reads back with `parseInt` as itself |
| PageCacheSpec.ReportedRange | stores/apartments.ts:212-223 | a range is taken exactly when both ends are numbers and in order |
| PageCacheSpec.ListedComplete | stores/apartments.ts:48 | when every listed id has a record, the computed list holds each listed id's record in order |
| PageCacheStore.Store.constructor | stores/apartments.ts:5-69 | the initial state: empty table, list and cache, default filters, unsorted, first pagination, no flag set, nothing loaded |
| PageCacheStore.Store.ApartmentsComplete | stores/apartments.ts:48 | the computed list holds the record of every listed id, in list order |
| PageCacheStore.Store.UpsertBatch | stores/apartments.ts:88-100 | returns the batch's ids in order and merges each listing into the table |
| PageCacheStore.Store.SyncResetList | stores/apartments.ts:102-107 | the batches flattened, merged into the table, and listed in that order |
| PageCacheStore.Store.AppendNewIds | stores/apartments.ts:130-137 | the list grows by the batch ids it did not hold, in order |
| PageCacheStore.Store.StorePage | stores/apartments.ts:114-121 | the signature's entry, created if missing, gets the batch under the page index; a reset first empties its pages |
| PageCacheStore.Store.ResetList | stores/apartments.ts:122-126 | on a reset the list becomes the batch's ids, all with records |
| PageCacheStore.Store.AppendList | stores/apartments.ts:127-141 | otherwise the batch is merged and its new ids appended, all with records |
| PageCacheStore.Store.UpdateCacheAndList | stores/apartments.ts:109-142 | both halves: the page cached under the signature, the table merged, the list reset or appended |
| PageCacheStore.Store.LoadFromFullCache | stores/apartments.ts:170-179 | a complete signature is served from its pages without a fetch: list rebuilt, `totalItems` the cached total, no more pages |
| PageCacheStore.Store.ServeCachedPage | stores/apartments.ts:190-196 | a page already cached is appended from the cache, the page advanced, `hasMore` against the cached total |
| PageCacheStore.Store.StartReset | stores/apartments.ts:181-186 | a reset raises the loading flag, clears the error and restarts the pages |
| PageCacheStore.Store.TakeMetadata | stores/apartments.ts:211-223 | the total is `total \|\| batch length`, and each reported range whose ends are numbers in order replaces the current one |
| PageCacheStore.Store.FinishPage | stores/apartments.ts:228-245 | the page advanced; `hasMore` against `total \|\| listed count`; the entry's total, ranges and completeness recorded; a complete load's signature and count remembered |
| PageCacheStore.Store.EndLoad | stores/apartments.ts:249-253 | clears the three loading flags |
| PageCacheStore.Store.LoadAndFail | stores/apartments.ts:180-253 | a failed fetch issues the page request, records the error message and clears the flags |
| PageCacheStore.Store.LoadCachedPage | stores/apartments.ts:187-253 | the cached-page path with its `finally` block |
| PageCacheStore.Store.TakeFirstPage | stores/apartments.ts:207-245 | a fetched first page: metadata taken, the list reset to the batch, the entry updated |
| PageCacheStore.Store.TakeNextPage | stores/apartments.ts:207-245 | a fetched next page: the batch appended, the entry updated |
| PageCacheStore.Store.LoadFirstPage | stores/apartments.ts:180-253 | a reset load whose fetch returned a body |
| PageCacheStore.Store.LoadNextPage | stores/apartments.ts:180-253 | an appending load whose fetch returned a body |
| PageCacheStore.Store.FetchAndLoad | stores/apartments.ts:180-253 | a load the cache cannot serve, given the fetch's outcome |
| PageCacheStore.Store.LoadApartments | stores/apartments.ts:161-254 | one of the three paths; the flags end cleared unless the full cache served it, which returns before the `finally` block |
| PageCacheStore.Store.LoadMore | stores/apartments.ts:256-265 | nothing at all unless there are more pages and no load runs; then an appending load |
| PageCacheStore.Store.SetDraftFilters | stores/apartments.ts:287-301 | each supplied part replaces that part of the draft |
| PageCacheStore.Store.CopyDraftToApplied | stores/apartments.ts:303-318 | the applied filters become the draft; reports a change exactly when they differed |
| PageCacheStore.Store.FilterAndLoad | stores/apartments.ts:320-321 | sets `isFiltering` and makes a reset load, which clears it unless the full cache served it |
| PageCacheStore.Store.CommitFilters | stores/apartments.ts:302-322 | nothing at all when nothing changed; otherwise a reset load with the new filters, `isFiltering` left set exactly when the full cache served it |
| PageCacheStore.Store.ResetFilters | stores/apartments.ts:323-330 | the draft becomes "no rooms, the available ranges" and is committed: nothing else changes when the applied filters already were that; otherwise a reset load leaves `isFiltering` set exactly on a full-cache hit, and clears the loading flags otherwise |
| PageCacheStore.Store.UpdateSort | stores/apartments.ts:332-335 | sets the sort and always makes a reset load; the flags are kept on a full-cache hit and cleared otherwise |
| PageCacheStore.Store.Init | stores/apartments.ts:338-343 | once only, a reset load; the flags are kept on a full-cache hit and cleared otherwise |
| ApartmentsApi.FilterMapNone | server/api/apartments.get.ts:34-35 | a piece that does not parse is dropped |
| ApartmentsApi.FilterMapInverse | server/api/apartments.get.ts:33-35 | pieces that each parse as the matching number give exactly those numbers |
| ApartmentsApi.FilterMapMembership | server/api/apartments.get.ts:32-35 | the room list holds exactly the values of the pieces that parse, and is no longer than the pieces |
| ApartmentsApi.ParseIntZero | server/api/apartments.get.ts:36-40 | the default `'0'` parses as 0 |
| ApartmentsApi.ParseIntTen | server/api/apartments.get.ts:27 | the default `'10'` parses as 10 |
| ApartmentsApi.ParseIntEmpty | server/api/apartments.get.ts:34 | an empty piece is `NaN` |
| ApartmentsApi.NoRoomsParameter | server/api/apartments.get.ts:32-35 | a missing or empty `rooms` gives no room filter |
| ApartmentsApi.DefaultParams | server/api/apartments.get.ts:26-40 | with no parameter: offset 0, limit 10, unsorted ascending, no rooms, minima 0 and maxima `MAX_SAFE_INTEGER` |
| ApartmentsApi.LimitCapped | server/api/apartments.get.ts:27 | the limit is at most 100: `min(parseInt(limit \|\| '10'), 100)`, and `NaN` when the text does not parse |
| ApartmentsApi.UpperNeverZero | server/api/apartments.get.ts:37-40 | a maximum is never 0: a zero or non-numeric value becomes `MAX_SAFE_INTEGER`, any other value stays |
| ApartmentsApi.UnsetBound | server/api/apartments.get.ts:36-40 | a missing, empty or `'0'` bound gives minimum 0 and maximum `MAX_SAFE_INTEGER` |
| ApartmentsApi.MinOf | server/api/apartments.get.ts:47-49 | `Math.min(...xs)` is a number exactly for a non-empty list, an element of it and below every element |
| ApartmentsApi.MaxOf | server/api/apartments.get.ts:48-50 | `Math.max(...xs)` is a number exactly for a non-empty list, an element of it and above every element |
| ApartmentsApi.Prices | server/api/apartments.get.ts:45 | the prices of the listings, in order |
| ApartmentsApi.Areas | server/api/apartments.get.ts:46 | the areas of the listings, in order |
| ApartmentsApi.GlobalRangesBound | server/api/apartments.get.ts:45-50 | every price and area of the dataset lies within the global ranges |
| ApartmentsApi.GlobalRangesAttained | server/api/apartments.get.ts:45-50 | the ranges exist exactly for a non-empty dataset, each end is some listing's value, and the minimum is at most the maximum |
| ApartmentsApi.Kept | server/api/apartments.get.ts:53-66 | the filter keeps at most the dataset |
| ApartmentsApi.KeptMembership | server/api/apartments.get.ts:53-66 | it keeps exactly the listings of the dataset that pass the rooms, price and area tests |
| ApartmentsApi.KeptAppend | server/api/apartments.get.ts:53-66 | filtering distributes over concatenation, so it keeps the dataset order |
| ApartmentsApi.KeptAll | server/api/apartments.get.ts:53-66 | a dataset that passes every test is kept whole |
| ApartmentsApi.UnsetBoundsKeepByRooms | server/api/apartments.get.ts:54-64 | with unset bounds and safe-integer values only the room selection filters |
| ApartmentsApi.NoFilterKeepsAll | server/api/apartments.get.ts:53-93 | with no rooms and unset bounds the whole dataset of safe-integer prices and areas is kept and `total` is its size |
| ApartmentsApi.FirstDigitRun | server/api/apartments.get.ts:74-75 | `/\d+/` finds a non-empty digit run, or nothing |
| ApartmentsApi.PlanDigitRun | server/api/apartments.get.ts:79-80 | `/plan-(\d+)/` captures a non-empty digit run, or nothing |
| ApartmentsApi.RunNumberParses | server/api/apartments.get.ts:74-80 | `parseInt(run \|\| '0')` is a number, the run's value or 0 |
| ApartmentsApi.LeadingDigitsOfRun | server/api/apartments.get.ts:74 | a digit run before a non-digit is read whole |
| ApartmentsApi.NameNumberOf | server/api/apartments.get.ts:73-77 | a name sorts by the value of its first digit run |
| ApartmentsApi.NameNumberNoDigits | server/api/apartments.get.ts:73-77 | a name without digits sorts as 0 |
| ApartmentsApi.PlanNumberOf | server/api/apartments.get.ts:78-82 | a plan image in which `plan-` and a digit first occur after `pre` sorts by the digit run there |
| ApartmentsApi.PlanDigitRunFrom | server/api/apartments.get.ts:79-80 | the search for `/plan-(\d+)/` skips every index where `plan-` and a digit do not start, so it finds the first match |
| ApartmentsApi.PlanNumberExample | server/api/apartments.get.ts:78-82 | `"/apts/plan-3.png"` sorts as 3 |
| ApartmentsApi.PlanNumberNoPlan | server/api/apartments.get.ts:78-82 | a plan image in which `plan-` followed by a digit occurs nowhere sorts as 0 |
| ApartmentsApi.SliceIndex | server/api/apartments.get.ts:94 | a slice index lies within the listing |
| ApartmentsApi.SliceWindow | server/api/apartments.get.ts:94 | for a non-negative offset and limit the slice is the window from the offset of at most `limit` elements |
| ApartmentsApi.SliceNaN | server/api/apartments.get.ts:94 | a non-numeric offset or limit gives an empty page |
| ApartmentsApi.ListingPermutation | server/api/apartments.get.ts:69-91 | sorting only reorders the kept listings |
| ApartmentsApi.ListingOrder | server/api/apartments.get.ts:69-91 | without a sort field the dataset order; with one sorted on it, and listings with equal values keep their dataset order |
| ApartmentsApi.SortedSlice | server/api/apartments.get.ts:94 | a slice of a sorted listing is sorted |
| ApartmentsApi.RespondSorted | server/api/apartments.get.ts:69-97 | with a sort field the page is sorted on it |
| ApartmentsApi.RespondContents | server/api/apartments.get.ts:93-103 | `total` counts the kept listings; the page holds only kept listings; the ranges are those of the whole dataset whatever the parameters |
| ApartmentsApi.RespondPage | server/api/apartments.get.ts:93-97 | the page is the listing from the offset, at most `limit` long and no longer than `total - offset` |
| QueryContract.RenderedKept | stores/apartments.ts:146-157 | a rendered number is never replaced by the server's fallback |
| QueryContract.OffsetSent | stores/apartments.ts:146 | the offset sent reads back as itself |
| QueryContract.LimitSent | stores/apartments.ts:147 | the limit sent reads back capped at 100 |
| QueryContract.BoundsSent | stores/apartments.ts:154-157 | a bound sent reads back as itself, except that a maximum of 0 reads as `MAX_SAFE_INTEGER` |
| QueryContract.ParsedRendered | stores/apartments.ts:153 | parsing the rendered room counts gives them back |
| QueryContract.RoomsSent | stores/apartments.ts:152-153 | the room selection sent reads back as itself, none when empty |
| QueryContract.SortSent | stores/apartments.ts:148-151 | the sort field sent reads back as itself, and the direction too when a field is set |
| QueryContract.RequestParsed | stores/apartments.ts:144-159 | parsing what `buildQuery` writes gives `SentParams` of the request |
| QueryContract.RequestAnswered | stores/apartments.ts:198-200 | the reply to a request of the page-cache store is the reply to its `SentParams` |
| QueryContract.ServerFilterAgrees | stores/apartments-optimized.ts:116-121 | the server filter is the optimized store's `matchesFilters` for nonzero maxima over non-negative prices and areas |
| QueryContract.MaxZeroDiffers | server/api/apartments.get.ts:36-37 | with a price maximum of 0, a positive-priced listing passing the other tests is kept by the server and dropped by `matchesFilters` |
| QueryContract.ServerPage | stores/apartments.ts:187-200 | the page answered to the page-cache store is the window of the listing from its offset, at most a page long |
| QueryContract.PageQueryParsed | stores/apartments-optimized.ts:192-202 | the optimized store sends no rooms and no bounds, which the server reads as no room filter and unset bounds |
| QueryContract.UnfilteredPageQuery | stores/apartments-optimized.ts:192-204 | so the server filters nothing out for the optimized store, and `total` is the whole dataset |
| QueryContract.NameTextOrder | stores/apartments-optimized.ts:147-148 | as text, "Apt 10" comes before "Apt 9" |
| QueryContract.NameNumbers | server/api/apartments.get.ts:73-77 | the server sorts "Apt 10" as 10 and "Apt 9" as 9 |
| QueryContract.NameOrdersDiffer | server/api/apartments.get.ts:73-88 | for those two names the optimized store's name order and the server's are opposite |

## Left out

- The network: `$fetch` is a `FetchOutcome` parameter (a decoded body or a thrown error), and each load returns the request it would issue.
- URL encoding: a request is a `Query` record with one optional text per parameter. `URLSearchParams` escaping, `toString` and decoding are not modelled. A repeated key, for which `getQuery` gives an array, is not modelled either.
- `loadAll` reads `public/apartments.json` from disk: the dataset is a parameter of the handler.
- Asynchrony and reactivity are not modelled: each action runs to completion, and computed getters are functions of the state. The `nextTick` callback that clears `isFiltering` in the optimized store's `commitFilters` is left out, so `OptimizedStore.Store.CommitFilters` leaves the flag set.
- Logging (`console.debug`, `console.error`, `console.warn`) is left out.
- `process.client` and exceptions from storage: the storage slot is a field holding a decoded record or nothing. JSON encoding, and records with missing or mistyped parts, are not modelled.
- OptimizedSpec.CreateApartmentHash, OptimizedStore.Store.UpsertApartments: the failure of `btoa` is not modelled. `btoa` throws on any character above U+00FF (stores/apartments-optimized.ts:69), so a listing whose name holds such a character (Cyrillic text, say) makes `upsertApartments` throw partway through the batch. The load then records the error through its `catch` (lines 240-242): on a reset the map is already cleared and only partly refilled, and the page is not advanced. In the model every fingerprint exists and such a load succeeds.
- OptimizedSpec.CreateApartmentHash: the fingerprint is the tuple of fields `btoa` encodes, not the base64 text. Two listings whose joined field texts collide (a `|` inside a name), or whose encodings collide once `+`, `/` and `=` are stripped, get different fingerprints in the model but equal ones in the source.
- Staging.CanonicalKey: `createFilterHash` in the optimized store also goes through `btoa` (stores/apartments-optimized.ts:75), which throws for a sort field holding a character above U+00FF (one restored from storage, say); the model always has a key.
- Staging.CanonicalKey: the filter hash and the query signature are the record of their parts, not the rendered (and, in the optimized store, base64-encoded) text. Texts that collide are not modelled.
- Floating point: prices, areas and all counts are integers. `Number.isFinite` is `Option.Some?`. `Infinity` from `Math.min` of an empty list is `None` (JSON `null`), and a `None` bound rejects every listing.
- Text.IntToString: `String(n)` switches to exponent notation from 10^21 in magnitude (`String(1e21)` is `"1e+21"`, which `parseInt` reads as 1); the model renders every integer in plain decimal, so Text.ParseIntOfIntToString and Text.IntToStringInjective hold for the JavaScript code only below that magnitude, which covers every safe integer.
- Types.NumberOr: covers only numbers or nothing in the response fields; a numeric string is not modelled.
- Sorting.KeyLtTrichotomy: the comparison between a number and a string, which the source's comparators never meet for one field, is a fixed rank order rather than JavaScript's coercion.
- Strings are sequences of code points, not UTF-16 units; `\d` and `parseInt` digits are ASCII digits, and the white space `parseInt` skips is ECMAScript's white space and line terminators.
- ApartmentsApi.ParseParams: numbers beyond the safe-integer range keep their exact value rather than being rounded to a double.
- The stack limit of `Math.min(...prices)` on very large datasets is not modelled.
- The page map's insertion order: `entry.pages` is always read sorted by index, so it is a finite map.
- PageCacheStore.Store.LoadFromFullCache, PageCacheStore.Store.ServeCachedPage: object sharing between the table and the cached pages is not modelled. The model stores values. In the source, `entities[id] = apt` (stores/apartments.ts:96) puts the very object of a cached page into the table, and a later `Object.assign(entities[id], newer)` (line 94) also changes that page. So when a page is served again from the cache, the model writes the cached field values back into the table, while the source keeps the values fetched last, for example under another signature. `Object.assign` overwrites every field of a full listing, so apart from this sharing the merge is a replacement of the record; that the object keeps its identity for Vue is not modelled either.
- `syncResetList` builds its list from the entry's pages, and on a reset that is the single page just stored (`PageCacheSpec.PagesInOrderSingle`).
