/** The visible list of stores/apartments-optimized.ts: `matchesFilters`,
    the filter pass over the map in insertion order, the optional stable sort
    by one field, and the facts that make the memo keyed by the filter hash
    sound. */
module OptimizedView {
  import opened Sorting
  import opened Types
  import opened Staging
  import opened OptimizedSpec

  /** `matchesFilters`: a room selection, when there is one, must contain
      the room count; price and area must lie within the inclusive bounds. */
  predicate MatchesFilters(a: Apartment, f: FilterState) {
    if |f.rooms| > 0 && a.rooms !in f.rooms then false
    else if a.price < f.priceRange.min || a.price > f.priceRange.max then false
    else if a.area < f.areaRange.min || a.area > f.areaRange.max then false
    else true
  }

  /** The entries stored under `keys`, in that order, whose listing passes
      the filters: the loop over the map's entries. */
  function FilterIn(m: HashMap, keys: seq<string>, f: FilterState): seq<ApartmentHash> {
    if keys == [] then []
    else
      var init, k := keys[..|keys| - 1], keys[|keys| - 1];
      FilterIn(m, init, f) + (if k in m.entries && MatchesFilters(m.entries[k].apartment, f) then [m.entries[k]] else [])
  }

  /** `filtered.map(item => item.id)`. */
  function Ids(s: seq<ApartmentHash>): (ids: seq<string>)
    ensures |ids| == |s|
    ensures forall i :: 0 <= i < |s| ==> ids[i] == s[i].id
  {
    seq(|s|, i requires 0 <= i < |s| => s[i].id)
  }

  /** The comparator's view of an entry: the sort field of its listing. */
  function EntryKey(field: string): ApartmentHash -> Key {
    (e: ApartmentHash) => FieldValue(e.apartment, field)
  }

  /** The filtered entries in map order, sorted by the sort field when one
      is set. */
  function VisibleEntries(m: HashMap, f: FilterState, s: SortState): seq<ApartmentHash> {
    var filtered := FilterIn(m, m.keys, f);
    if s.field != "" then SortBy(EntryKey(s.field), s.direction, filtered) else filtered
  }

  /** The ids `applyFiltersAndSort` computes. */
  function VisibleIds(m: HashMap, f: FilterState, s: SortState): seq<string> {
    Ids(VisibleEntries(m, f, s))
  }

  // ---------------------------------------------------------------------
  // The filter pass

  /** Every entry the filter pass yields is the entry stored under one of
      `keys`. */
  lemma {:induction false} FilterInEntries(m: HashMap, keys: seq<string>, f: FilterState)
    requires ValidMap(m)
    ensures forall e :: e in FilterIn(m, keys, f) ==> e.id in keys && e.id in m.entries && m.entries[e.id] == e
  {
    if keys != [] {
      var init, k := keys[..|keys| - 1], keys[|keys| - 1];
      FilterInEntries(m, init, f);
      var r0 := FilterIn(m, init, f);
      forall e | e in FilterIn(m, keys, f) ensures e.id in keys && e.id in m.entries && m.entries[e.id] == e {
        if e in r0 {
          assert e.id in init;
          assert keys == init + [k];
        }
      }
    }
  }

  /** The filter pass keeps exactly the stored ids of `keys` whose listing
      passes the filters. */
  lemma {:induction false} FilterInMembership(m: HashMap, keys: seq<string>, f: FilterState)
    requires ValidMap(m)
    ensures forall k :: k in Ids(FilterIn(m, keys, f)) <==>
      k in keys && k in m.entries && MatchesFilters(m.entries[k].apartment, f)
  {
    if keys != [] {
      var init, k := keys[..|keys| - 1], keys[|keys| - 1];
      assert keys == init + [k];
      FilterInMembership(m, init, f);
      var r0 := FilterIn(m, init, f);
      var r := FilterIn(m, keys, f);
      forall x ensures x in Ids(r) <==> x in keys && x in m.entries && MatchesFilters(m.entries[x].apartment, f) {
        if x in Ids(r) {
          var i :| 0 <= i < |r| && Ids(r)[i] == x;
          if i < |r0| {
            assert Ids(r0)[i] == x;
          }
        }
        if x in keys && x in m.entries && MatchesFilters(m.entries[x].apartment, f) {
          if x == k {
            assert Ids(r)[|r| - 1] == x;
          } else {
            assert x in Ids(r0);
            var i :| 0 <= i < |r0| && Ids(r0)[i] == x;
            assert Ids(r)[i] == x;
          }
        }
      }
    }
  }

  /** Over distinct keys the filter pass yields distinct ids. */
  lemma {:induction false} FilterInDistinct(m: HashMap, keys: seq<string>, f: FilterState)
    requires ValidMap(m) && Distinct(keys)
    ensures Distinct(Ids(FilterIn(m, keys, f)))
  {
    if keys != [] {
      var init, k := keys[..|keys| - 1], keys[|keys| - 1];
      assert keys == init + [k];
      assert Distinct(init) && k !in init;
      FilterInDistinct(m, init, f);
      FilterInMembership(m, init, f);
      assert k !in Ids(FilterIn(m, init, f));
    }
  }

  /** The filter pass depends on the filters only through which listings
      pass them. */
  lemma {:induction false} FilterInSameFilters(m: HashMap, keys: seq<string>, f1: FilterState, f2: FilterState)
    requires forall a :: MatchesFilters(a, f1) == MatchesFilters(a, f2)
    ensures FilterIn(m, keys, f1) == FilterIn(m, keys, f2)
  {
    if keys != [] {
      FilterInSameFilters(m, keys[..|keys| - 1], f1, f2);
    }
  }

  // ---------------------------------------------------------------------
  // What applyFiltersAndSort returns

  /** Two permutations of each other hold the same ids. */
  lemma PermutationIds(a: seq<ApartmentHash>, b: seq<ApartmentHash>)
    requires multiset(a) == multiset(b)
    ensures forall k :: k in Ids(a) <==> k in Ids(b)
  {
    forall k | k in Ids(a) ensures k in Ids(b) {
      var i :| 0 <= i < |a| && Ids(a)[i] == k;
      assert a[i] in multiset(b);
      var j :| 0 <= j < |b| && b[j] == a[i];
      assert Ids(b)[j] == k;
    }
    forall k | k in Ids(b) ensures k in Ids(a) {
      var j :| 0 <= j < |b| && Ids(b)[j] == k;
      assert b[j] in multiset(a);
      var i :| 0 <= i < |a| && a[i] == b[j];
      assert Ids(a)[i] == k;
    }
  }

  /** For entries that are each stored under their own id, distinct ids and
      distinct entries are the same thing. */
  lemma StoredDistinct(m: HashMap, s: seq<ApartmentHash>)
    requires forall e :: e in s ==> e.id in m.entries && m.entries[e.id] == e
    ensures Distinct(Ids(s)) <==> Distinct(s)
  {
    if Distinct(s) {
      forall i, j | 0 <= i < j < |s| ensures Ids(s)[i] != Ids(s)[j] {
        assert s[i] in s && s[j] in s;
      }
    }
    if Distinct(Ids(s)) {
      forall i, j | 0 <= i < j < |s| ensures s[i] != s[j] {
        assert Ids(s)[i] != Ids(s)[j];
      }
    }
  }

  /** The result holds exactly the stored ids whose listing passes the
      filters, and each of them once. */
  lemma VisibleIdsMembership(m: HashMap, f: FilterState, s: SortState)
    requires ValidMap(m)
    ensures forall k :: k in VisibleIds(m, f, s) <==> k in m.entries && MatchesFilters(m.entries[k].apartment, f)
    ensures Distinct(VisibleIds(m, f, s))
  {
    var filtered := FilterIn(m, m.keys, f);
    var v := VisibleEntries(m, f, s);
    FilterInMembership(m, m.keys, f);
    FilterInEntries(m, m.keys, f);
    FilterInDistinct(m, m.keys, f);
    if s.field != "" {
      SortByPermutation(EntryKey(s.field), s.direction, filtered);
    }
    assert multiset(v) == multiset(filtered);
    PermutationIds(v, filtered);
    StoredDistinct(m, filtered);
    DistinctPermutation(filtered, v);
    forall e | e in v ensures e.id in m.entries && m.entries[e.id] == e {
      assert e in multiset(filtered);
    }
    StoredDistinct(m, v);
  }

  /** With a sort field the result is in ascending (or descending) order of
      that field, and listings with equal values keep their order in the
      map; without one it is the map's insertion order. */
  lemma VisibleOrder(m: HashMap, f: FilterState, s: SortState)
    ensures s.field == "" ==> VisibleEntries(m, f, s) == FilterIn(m, m.keys, f)
    ensures s.field != "" ==> Sorted(EntryKey(s.field), s.direction, VisibleEntries(m, f, s))
    ensures s.field != "" ==> forall k :: (Ties(EntryKey(s.field), VisibleEntries(m, f, s), k) ==
      Ties(EntryKey(s.field), FilterIn(m, m.keys, f), k))
  {
    if s.field != "" {
      SortBySorted(EntryKey(s.field), s.direction, FilterIn(m, m.keys, f));
      forall k ensures Ties(EntryKey(s.field), VisibleEntries(m, f, s), k) == Ties(EntryKey(s.field), FilterIn(m, m.keys, f), k) {
        SortStable(EntryKey(s.field), s.direction, FilterIn(m, m.keys, f), k);
      }
    }
  }

  /** Filter and sort states with one filter hash have one visible list, so
      a memo keyed by the hash returns what a fresh computation would. In
      particular the order of the selected room counts does not matter. */
  lemma FilterHashSound(m: HashMap, f1: FilterState, s1: SortState, f2: FilterState, s2: SortState)
    requires CanonicalKey(f1, s1) == CanonicalKey(f2, s2)
    ensures VisibleIds(m, f1, s1) == VisibleIds(m, f2, s2)
  {
    CanonicalKeyEquality(f1, s1, f2, s2);
    forall a ensures MatchesFilters(a, f1) == MatchesFilters(a, f2) {
      assert a.rooms in f1.rooms <==> a.rooms in multiset(f1.rooms);
      assert a.rooms in f2.rooms <==> a.rooms in multiset(f2.rooms);
      assert |f1.rooms| == |multiset(f1.rooms)|;
      assert |f2.rooms| == |multiset(f2.rooms)|;
    }
    FilterInSameFilters(m, m.keys, f1, f2);
  }
}
