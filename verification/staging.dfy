/** The draft/applied filter staging that both stores share: the in-place
    array copy (`assignArray` in stores/apartments-optimized.ts, `assignArr`
    in stores/apartments.ts, which behave alike), the partial draft update,
    the active-filter count, and the canonical filter/sort text both stores
    derive a cache key from. */
module Staging {
  import opened Wrappers
  import opened Sorting
  import opened Types

  /** `Partial<FilterState>`: the fields a `setDraftFilters` call supplies. */
  datatype FilterPatch = FilterPatch(rooms: Option<seq<int>>, priceRange: Option<Range>, areaRange: Option<Range>)

  /** Compares `target` with `source` element by element and, when they
      differ, replaces the target's contents with the source's. Returns
      whether they differed and the target's new contents. */
  method AssignArray(target: seq<int>, source: seq<int>) returns (changed: bool, result: seq<int>)
    ensures changed <==> target != source
    ensures result == source
  {
    if |target| != |source| {
      return true, source;
    }
    changed := false;
    var i := 0;
    while i < |source|
      invariant 0 <= i <= |source|
      invariant !changed ==> target[..i] == source[..i]
      invariant changed ==> target != source
    {
      if target[i] != source[i] {
        changed := true;
        break;
      }
      i := i + 1;
    }
    if changed {
      result := source;
    } else {
      assert target == target[..i] && source == source[..i];
      result := target;
    }
  }

  /** The bound-by-bound copy of a `[min, max]` pair that `commitFilters`
      makes: returns whether either bound differed, and the new pair. */
  method AssignRange(target: Range, source: Range) returns (changed: bool, result: Range)
    ensures changed <==> target != source
    ensures result == source
  {
    changed := false;
    result := target;
    if result.min != source.min {
      result := result.(min := source.min);
      changed := true;
    }
    if result.max != source.max {
      result := result.(max := source.max);
      changed := true;
    }
  }

  /** How many of the three filters differ from their neutral value: a room
      selection, a price range other than the available one, an area range
      other than the available one. */
  function ActiveFiltersCount(applied: FilterState, priceRange: Range, areaRange: Range): (count: nat)
    ensures count <= 3
    ensures count == 0 <==> applied == FilterState([], priceRange, areaRange)
    ensures count == 3 <==> |applied.rooms| > 0 && applied.priceRange != priceRange && applied.areaRange != areaRange
  {
    var count := if |applied.rooms| > 0 then 1 else 0;
    var count := if applied.priceRange.min != priceRange.min || applied.priceRange.max != priceRange.max then count + 1 else count;
    if applied.areaRange.min != areaRange.min || applied.areaRange.max != areaRange.max then count + 1 else count
  }

  /** The fields of the text `r:<rooms sorted>|p:<min>-<max>|a:<min>-<max>|s:<field>:<direction>`
      that both stores build from the applied filters and the sort. */
  datatype QueryKey = QueryKey(rooms: seq<int>, priceRange: Range, areaRange: Range, field: string, direction: Direction)

  /** That text for the given filters and sort: the rooms copied and put
      through the default sort, the other fields as they are. */
  function CanonicalKey(f: FilterState, s: SortState): QueryKey {
    QueryKey(DefaultSort(f.rooms), f.priceRange, f.areaRange, s.field, s.direction)
  }

  /** The key ignores the order of the rooms and nothing else: two filter
      and sort states get one key exactly when they select the same room
      counts (with multiplicity), the same ranges and the same sort. */
  lemma CanonicalKeyEquality(f1: FilterState, s1: SortState, f2: FilterState, s2: SortState)
    ensures CanonicalKey(f1, s1) == CanonicalKey(f2, s2) <==>
      multiset(f1.rooms) == multiset(f2.rooms) && f1.priceRange == f2.priceRange &&
      f1.areaRange == f2.areaRange && s1 == s2
  {
    DefaultSortDeterminesMultiset(f1.rooms, f2.rooms);
  }
}
