/** `Array.prototype.sort` with a comparator that orders elements by one key:
    a stable sort (ECMAScript 2019 requires `sort` to be stable), written here
    as an insertion sort, with the lemmas that it returns a permutation of its
    input in key order, that it keeps the input order of ties, and that these
    three facts determine the result, so any stable sort returns the same. */
module Sorting {
  import opened Text

  /** What a comparator reads from an element: a number, a string, or
      `undefined` (a field the element does not have). */
  datatype Key = Undefined | Num(n: int) | Str(s: string)

  datatype Direction = Asc | Desc

  /** `a < b` for two keys of one kind: numbers and strings as JavaScript
      compares them; `undefined` is never below `undefined`. The keys of one
      sort all come from one field and so have one kind; keys of different
      kinds are ranked Undefined, Num, Str only to keep the order total. */
  predicate KeyLt(a: Key, b: Key) {
    match (a, b)
    case (Num(x), Num(y)) => x < y
    case (Str(x), Str(y)) => StrLt(x, y)
    case (Undefined, Num(_)) => true
    case (Undefined, Str(_)) => true
    case (Num(_), Str(_)) => true
    case _ => false
  }

  lemma KeyLtIrreflexive(a: Key)
    ensures !KeyLt(a, a)
  {
    if a.Str? {
      StrLtIrreflexive(a.s);
    }
  }

  lemma KeyLtTransitive(a: Key, b: Key, c: Key)
    requires KeyLt(a, b) && KeyLt(b, c)
    ensures KeyLt(a, c)
  {
    if a.Str? && b.Str? && c.Str? {
      StrLtTransitive(a.s, b.s, c.s);
    }
  }

  /** Two keys that neither comparison separates are equal: the comparator
      returns 0 exactly for equal keys. */
  lemma KeyLtTrichotomy(a: Key, b: Key)
    ensures a == b || KeyLt(a, b) || KeyLt(b, a)
  {
    if a.Str? && b.Str? {
      StrLtTrichotomy(a.s, b.s);
    }
  }

  /** `x` goes strictly before `y`: the comparator returns a negative
      number for (x, y). */
  predicate Before<T>(key: T -> Key, dir: Direction, x: T, y: T) {
    if dir == Asc then KeyLt(key(x), key(y)) else KeyLt(key(y), key(x))
  }

  lemma NotBeforeTransitive<T>(key: T -> Key, dir: Direction, x: T, y: T, z: T)
    requires !Before(key, dir, x, y) && !Before(key, dir, y, z)
    ensures !Before(key, dir, x, z)
  {
    KeyLtTrichotomy(key(x), key(y));
    KeyLtTrichotomy(key(y), key(z));
    if Before(key, dir, x, z) {
      if dir == Asc {
        if key(x) != key(y) { KeyLtTransitive(key(y), key(x), key(z)); }
        KeyLtIrreflexive(key(z));
      } else {
        if key(x) != key(y) { KeyLtTransitive(key(z), key(x), key(y)); }
        KeyLtIrreflexive(key(y));
      }
    }
  }

  lemma BeforeAsymmetric<T>(key: T -> Key, dir: Direction, x: T, y: T)
    requires Before(key, dir, x, y)
    ensures !Before(key, dir, y, x) && key(x) != key(y)
  {
    KeyLtIrreflexive(key(x));
    if Before(key, dir, y, x) {
      if dir == Asc {
        KeyLtTransitive(key(x), key(y), key(x));
      } else {
        KeyLtTransitive(key(y), key(x), key(y));
        KeyLtIrreflexive(key(y));
      }
    }
  }

  /** No element goes strictly before an earlier one: ascending (or, for
      `Desc`, descending) key order. */
  ghost predicate Sorted<T>(key: T -> Key, dir: Direction, xs: seq<T>) {
    forall i, j :: 0 <= i < j < |xs| ==> !Before(key, dir, xs[j], xs[i])
  }

  /** Places `x` after every element of `s` that it does not go strictly
      before. */
  function Insert<T>(key: T -> Key, dir: Direction, s: seq<T>, x: T): (r: seq<T>)
    ensures |r| == |s| + 1
  {
    if s == [] then [x]
    else if Before(key, dir, x, s[|s| - 1]) then
      Insert(key, dir, s[..|s| - 1], x) + [s[|s| - 1]]
    else s + [x]
  }

  /** Inserting adds `x` and loses nothing. */
  lemma {:induction false} InsertPermutation<T>(key: T -> Key, dir: Direction, s: seq<T>, x: T)
    ensures multiset(Insert(key, dir, s, x)) == multiset(s) + multiset{x}
  {
    if s != [] && Before(key, dir, x, s[|s| - 1]) {
      var init := s[..|s| - 1];
      assert s == init + [s[|s| - 1]];
      InsertPermutation(key, dir, init, x);
    }
  }

  lemma {:induction false} InsertSorted<T>(key: T -> Key, dir: Direction, s: seq<T>, x: T)
    requires Sorted(key, dir, s)
    ensures Sorted(key, dir, Insert(key, dir, s, x))
  {
    var r := Insert(key, dir, s, x);
    if s == [] {
    } else if Before(key, dir, x, s[|s| - 1]) {
      var init, last := s[..|s| - 1], s[|s| - 1];
      assert s == init + [last];
      InsertSorted(key, dir, init, x);
      InsertPermutation(key, dir, init, x);
      var r' := Insert(key, dir, init, x);
      assert r == r' + [last];
      forall i | 0 <= i < |r'|
        ensures !Before(key, dir, last, r'[i])
      {
        assert r'[i] in multiset(r');
        if r'[i] == x {
          BeforeAsymmetric(key, dir, x, last);
        } else {
          assert r'[i] in multiset(init);
          var p :| 0 <= p < |init| && init[p] == r'[i];
          assert s[p] == init[p];
        }
      }
    } else {
      forall i | 0 <= i < |s|
        ensures !Before(key, dir, x, s[i])
      {
        if i < |s| - 1 {
          NotBeforeTransitive(key, dir, x, s[|s| - 1], s[i]);
        }
      }
    }
  }

  /** The stable sort: a permutation of `xs` in key order. */
  function SortBy<T>(key: T -> Key, dir: Direction, xs: seq<T>): (r: seq<T>)
    ensures |r| == |xs|
  {
    if xs == [] then []
    else Insert(key, dir, SortBy(key, dir, xs[..|xs| - 1]), xs[|xs| - 1])
  }

  /** The sort returns a permutation of its input... */
  lemma {:induction false} SortByPermutation<T>(key: T -> Key, dir: Direction, xs: seq<T>)
    ensures multiset(SortBy(key, dir, xs)) == multiset(xs)
  {
    if xs != [] {
      var init := xs[..|xs| - 1];
      assert xs == init + [xs[|xs| - 1]];
      SortByPermutation(key, dir, init);
      InsertPermutation(key, dir, SortBy(key, dir, init), xs[|xs| - 1]);
    }
  }

  /** ... in key order. */
  lemma {:induction false} SortBySorted<T>(key: T -> Key, dir: Direction, xs: seq<T>)
    ensures Sorted(key, dir, SortBy(key, dir, xs))
  {
    if xs != [] {
      var init := xs[..|xs| - 1];
      SortBySorted(key, dir, init);
      InsertSorted(key, dir, SortBy(key, dir, init), xs[|xs| - 1]);
    }
  }

  /** The elements of `xs` whose key is `k`, in their order in `xs`. */
  function Ties<T>(key: T -> Key, xs: seq<T>, k: Key): seq<T>
  {
    if xs == [] then []
    else Ties(key, xs[..|xs| - 1], k) + (if key(xs[|xs| - 1]) == k then [xs[|xs| - 1]] else [])
  }

  lemma {:induction false} TiesAppend<T>(key: T -> Key, a: seq<T>, b: seq<T>, k: Key)
    ensures Ties(key, a + b, k) == Ties(key, a, k) + Ties(key, b, k)
  {
    if b != [] {
      var b' := b[..|b| - 1];
      assert (a + b)[..|a + b| - 1] == a + b';
      TiesAppend(key, a, b', k);
    } else {
      assert a + b == a;
    }
  }

  lemma TiesSingleton<T>(key: T -> Key, y: T, k: Key)
    ensures Ties(key, [y], k) == if key(y) == k then [y] else []
  {
    assert [y][..0] == [];
  }

  /** When the key of `x` is `k`, the elements `x` is moved in front of
      have other keys, and the other way round; either way the two
      singletons commute under `Ties`. */
  lemma TiesSwap<T>(key: T -> Key, dir: Direction, x: T, last: T, k: Key)
    requires Before(key, dir, x, last)
    ensures Ties(key, [x], k) + Ties(key, [last], k) == Ties(key, [last], k) + Ties(key, [x], k)
  {
    BeforeAsymmetric(key, dir, x, last);
    TiesSingleton(key, x, k);
    TiesSingleton(key, last, k);
  }

  lemma {:induction false} InsertTies<T>(key: T -> Key, dir: Direction, s: seq<T>, x: T, k: Key)
    ensures Ties(key, Insert(key, dir, s, x), k) == Ties(key, s, k) + Ties(key, [x], k)
  {
    if s == [] {
      TiesSingleton(key, x, k);
    } else if Before(key, dir, x, s[|s| - 1]) {
      var init, last := s[..|s| - 1], s[|s| - 1];
      var r' := Insert(key, dir, init, x);
      calc {
        Ties(key, Insert(key, dir, s, x), k);
        { assert Insert(key, dir, s, x) == r' + [last]; }
        Ties(key, r' + [last], k);
        { TiesAppend(key, r', [last], k); }
        Ties(key, r', k) + Ties(key, [last], k);
        { InsertTies(key, dir, init, x, k); }
        Ties(key, init, k) + Ties(key, [x], k) + Ties(key, [last], k);
        Ties(key, init, k) + (Ties(key, [x], k) + Ties(key, [last], k));
        { TiesSwap(key, dir, x, last, k); }
        Ties(key, init, k) + (Ties(key, [last], k) + Ties(key, [x], k));
        Ties(key, init, k) + Ties(key, [last], k) + Ties(key, [x], k);
        { TiesAppend(key, init, [last], k); }
        Ties(key, init + [last], k) + Ties(key, [x], k);
        { assert s == init + [last]; }
        Ties(key, s, k) + Ties(key, [x], k);
      }
    } else {
      TiesAppend(key, s, [x], k);
    }
  }

  /** Stability: for every key, the elements with that key keep their input
      order. */
  lemma {:induction false} SortStable<T>(key: T -> Key, dir: Direction, xs: seq<T>, k: Key)
    ensures Ties(key, SortBy(key, dir, xs), k) == Ties(key, xs, k)
  {
    if xs != [] {
      var init, last := xs[..|xs| - 1], xs[|xs| - 1];
      var sorted := SortBy(key, dir, init);
      calc {
        Ties(key, SortBy(key, dir, xs), k);
        { assert SortBy(key, dir, xs) == Insert(key, dir, sorted, last); }
        Ties(key, Insert(key, dir, sorted, last), k);
        { InsertTies(key, dir, sorted, last, k); }
        Ties(key, sorted, k) + Ties(key, [last], k);
        { SortStable(key, dir, init, k); }
        Ties(key, init, k) + Ties(key, [last], k);
        { TiesAppend(key, init, [last], k); }
        Ties(key, init + [last], k);
        { assert xs == init + [last]; }
        Ties(key, xs, k);
      }
    }
  }

  /** In the sorted result an element with a strictly smaller key comes first
      when ascending and last when descending: descending is ascending
      reversed wherever the keys differ. */
  lemma SortedOrderOfDistinctKeys<T>(key: T -> Key, dir: Direction, xs: seq<T>, i: int, j: int)
    requires 0 <= i < |SortBy(key, dir, xs)| && 0 <= j < |SortBy(key, dir, xs)|
    requires KeyLt(key(SortBy(key, dir, xs)[i]), key(SortBy(key, dir, xs)[j]))
    ensures dir == Asc ==> i < j
    ensures dir == Desc ==> j < i
  {
    var r := SortBy(key, dir, xs);
    SortBySorted(key, dir, xs);
    KeyLtIrreflexive(key(r[i]));
    BeforeAsymmetric(key, Asc, r[i], r[j]);
  }

  /** Two sorted permutations of one multiset end in elements of equal
      key. */
  lemma SortedLastKeysAgree<T>(key: T -> Key, dir: Direction, a: seq<T>, b: seq<T>)
    requires Sorted(key, dir, a) && Sorted(key, dir, b)
    requires multiset(a) == multiset(b) && |a| > 0
    ensures |b| == |a|
    ensures key(a[|a| - 1]) == key(b[|b| - 1])
  {
    assert |b| == |multiset(b)| == |a|;
    var n := |a|;
    var la, lb := a[n - 1], b[n - 1];
    assert la in multiset(b) && lb in multiset(a);
    var p :| 0 <= p < n && b[p] == la;
    var q :| 0 <= q < n && a[q] == lb;
    KeyLtIrreflexive(key(la));
    KeyLtIrreflexive(key(lb));
    if q < n - 1 {
      assert !Before(key, dir, a[n - 1], a[q]);
    }
    if p < n - 1 {
      assert !Before(key, dir, b[n - 1], b[p]);
    }
    assert !Before(key, dir, la, lb) && !Before(key, dir, lb, la);
    KeyLtTrichotomy(key(la), key(lb));
  }

  lemma MultisetDropLast<T>(a: seq<T>, b: seq<T>)
    requires multiset(a) == multiset(b) && |a| > 0 && |b| > 0 && a[|a| - 1] == b[|b| - 1]
    ensures multiset(a[..|a| - 1]) == multiset(b[..|b| - 1])
  {
    var x := a[|a| - 1];
    assert a == a[..|a| - 1] + [x];
    assert b == b[..|b| - 1] + [x];
    assert multiset(a[..|a| - 1]) == multiset(a) - multiset{x};
    assert multiset(b[..|b| - 1]) == multiset(b) - multiset{x};
  }

  lemma AppendCancel<T>(xs: seq<T>, ys: seq<T>, e: seq<T>)
    requires xs + e == ys + e
    ensures xs == ys
  {
    assert xs == (xs + e)[..|xs|];
    assert ys == (ys + e)[..|ys|];
  }

  lemma SortedPrefix<T>(key: T -> Key, dir: Direction, a: seq<T>, n: nat)
    requires Sorted(key, dir, a) && n <= |a|
    ensures Sorted(key, dir, a[..n])
  {
    forall i, j | 0 <= i < j < n ensures !Before(key, dir, a[..n][j], a[..n][i]) {
      assert a[..n][j] == a[j] && a[..n][i] == a[i];
    }
  }

  /** A sorted permutation that keeps the order of ties is unique: every
      stable sort of the same input returns the same sequence. */
  lemma {:induction false} StableSortUnique<T>(key: T -> Key, dir: Direction, a: seq<T>, b: seq<T>)
    requires Sorted(key, dir, a) && Sorted(key, dir, b)
    requires multiset(a) == multiset(b)
    requires forall k :: Ties(key, a, k) == Ties(key, b, k)
    ensures a == b
  {
    assert |b| == |multiset(b)| == |a|;
    if a != [] {
      var n := |a|;
      var a', b' := a[..n - 1], b[..n - 1];
      SortedLastKeysAgree(key, dir, a, b);
      var k := key(a[n - 1]);
      assert Ties(key, a, k) == Ties(key, a', k) + [a[n - 1]];
      assert Ties(key, b, k) == Ties(key, b', k) + [b[n - 1]];
      assert Ties(key, a, k)[|Ties(key, a, k)| - 1] == a[n - 1];
      assert a[n - 1] == b[n - 1];
      MultisetDropLast(a, b);
      forall k': Key ensures Ties(key, a', k') == Ties(key, b', k') {
        assert Ties(key, a, k') == Ties(key, b, k');
        assert Ties(key, a, k') == Ties(key, a', k') + (if key(a[n - 1]) == k' then [a[n - 1]] else []);
        assert Ties(key, b, k') == Ties(key, b', k') + (if key(b[n - 1]) == k' then [b[n - 1]] else []);
        AppendCancel(Ties(key, a', k'), Ties(key, b', k'), if key(a[n - 1]) == k' then [a[n - 1]] else []);
      }
      SortedPrefix(key, dir, a, n - 1);
      SortedPrefix(key, dir, b, n - 1);
      StableSortUnique(key, dir, a', b');
      assert a == a' + [a[n - 1]];
      assert b == b' + [b[n - 1]];
    }
  }

  /** With a key that tells elements apart, a sorted permutation is unique,
      whatever order the input had. */
  lemma {:induction false} SortedUniqueByInjectiveKey<T>(key: T -> Key, dir: Direction, a: seq<T>, b: seq<T>)
    requires Sorted(key, dir, a) && Sorted(key, dir, b)
    requires multiset(a) == multiset(b)
    requires forall x, y :: key(x) == key(y) ==> x == y
    ensures a == b
  {
    assert |b| == |multiset(b)| == |a|;
    if a != [] {
      var n := |a|;
      SortedLastKeysAgree(key, dir, a, b);
      MultisetDropLast(a, b);
      SortedPrefix(key, dir, a, n - 1);
      SortedPrefix(key, dir, b, n - 1);
      SortedUniqueByInjectiveKey(key, dir, a[..n - 1], b[..n - 1]);
      assert a == a[..n - 1] + [a[n - 1]];
      assert b == b[..n - 1] + [b[n - 1]];
    }
  }

  /** The key JavaScript's default `sort()` gives a number: its decimal
      string. */
  function DefaultKey(n: int): Key {
    Str(IntToString(n))
  }

  /** `[...xs].sort()` on numbers: ordered as strings (so 10 before 2). */
  function DefaultSort(xs: seq<int>): seq<int> {
    SortBy(DefaultKey, Asc, xs)
  }

  /** The default sort depends only on which numbers occur how often, not on
      their order. */
  lemma DefaultSortOrderIndependent(a: seq<int>, b: seq<int>)
    requires multiset(a) == multiset(b)
    ensures DefaultSort(a) == DefaultSort(b)
  {
    forall x: int, y: int | DefaultKey(x) == DefaultKey(y) ensures x == y {
      IntToStringInjective(x, y);
    }
    SortBySorted(DefaultKey, Asc, a);
    SortBySorted(DefaultKey, Asc, b);
    SortByPermutation(DefaultKey, Asc, a);
    SortByPermutation(DefaultKey, Asc, b);
    SortedUniqueByInjectiveKey(DefaultKey, Asc, DefaultSort(a), DefaultSort(b));
  }

  /** And conversely: equal default sorts mean equal multisets. */
  lemma DefaultSortDeterminesMultiset(a: seq<int>, b: seq<int>)
    ensures DefaultSort(a) == DefaultSort(b) <==> multiset(a) == multiset(b)
  {
    SortByPermutation(DefaultKey, Asc, a);
    SortByPermutation(DefaultKey, Asc, b);
    if multiset(a) == multiset(b) {
      DefaultSortOrderIndependent(a, b);
    }
  }

  // ---------------------------------------------------------------------
  // Distinct sequences

  /** No element occurs twice. */
  ghost predicate Distinct<T>(s: seq<T>) {
    forall i, j :: 0 <= i < j < |s| ==> s[i] != s[j]
  }

  lemma {:induction false} DistinctCount<T>(s: seq<T>, x: T)
    requires Distinct(s)
    ensures multiset(s)[x] <= 1
  {
    if s != [] {
      var init, last := s[..|s| - 1], s[|s| - 1];
      assert s == init + [last];
      assert Distinct(init) && last !in init;
      DistinctCount(init, x);
    }
  }

  lemma DuplicateCount<T>(s: seq<T>, i: int, j: int)
    requires 0 <= i < j < |s| && s[i] == s[j]
    ensures multiset(s)[s[i]] >= 2
  {
    assert s == s[..j] + [s[j]] + s[j + 1..];
    assert s[i] in s[..j];
  }

  lemma DistinctPermutation<T>(s: seq<T>, t: seq<T>)
    requires Distinct(s) && multiset(s) == multiset(t)
    ensures Distinct(t)
  {
    forall i, j | 0 <= i < j < |t| ensures t[i] != t[j] {
      if t[i] == t[j] {
        DuplicateCount(t, i, j);
        DistinctCount(s, t[i]);
      }
    }
  }
}
