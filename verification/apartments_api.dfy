/** The default handler of server/api/apartments.get.ts: the query string
    parsed with `parseInt` and `||` defaults, the dataset filtered by rooms,
    price and area, sorted by one field (numerically by the number in the
    name or in the plan image for `name` and `plan`), sliced by offset and
    limit, and answered with the filtered count and the price and area
    ranges of the whole dataset. The dataset is a parameter. */
module ApartmentsApi {
  import opened Wrappers
  import opened Text
  import opened Sorting
  import opened Types

  /** `Number.MAX_SAFE_INTEGER`, the upper bound of a missing maximum. */
  const MaxSafeInteger: int := 9007199254740991

  // ---------------------------------------------------------------------
  // The query string

  /** `query.x || fallback`: a missing or empty parameter gives the
      fallback. */
  function ParamOr(v: Option<string>, fallback: string): string {
    if v.Some? && v.value != "" then v.value else fallback
  }

  /** `Math.min(x, cap)`, where `None` is `NaN` and stays `NaN`. */
  function MinNaN(x: Option<int>, cap: int): Option<int> {
    if x.Some? && x.value > cap then Some(cap) else x
  }

  /** `xs.map(f).filter(y => y is a number)`, `None` being `NaN`. */
  function FilterMap<A, B>(f: A -> Option<B>, xs: seq<A>): seq<B> {
    if xs == [] then []
    else (match f(xs[0]) case Some(y) => [y] case None => []) + FilterMap(f, xs[1..])
  }

  /** A single piece without a value leaves nothing. */
  lemma FilterMapNone<A, B>(f: A -> Option<B>, x: A)
    requires f(x) == None
    ensures FilterMap(f, [x]) == []
  {
    assert [x][1..] == [];
  }

  /** Pieces that each map to the matching value give all of them, in
      order. */
  lemma {:induction false} FilterMapInverse<A, B>(f: A -> Option<B>, xs: seq<A>, ys: seq<B>)
    requires |xs| == |ys|
    requires forall i :: 0 <= i < |xs| ==> f(xs[i]) == Some(ys[i])
    ensures FilterMap(f, xs) == ys
  {
    if xs != [] {
      FilterMapInverse(f, xs[1..], ys[1..]);
      assert ys == [ys[0]] + ys[1..];
    }
  }

  /** `parts.map(v => parseInt(v, 10)).filter(n => !Number.isNaN(n))`. */
  function ParsedInts(parts: seq<string>): seq<int> {
    FilterMap(ParseInt, parts)
  }

  /** The parsed parameters; `None` stands for `NaN`. */
  datatype Params = Params(
    offset: Option<int>,
    limit: Option<int>,
    sortField: string,
    sortDir: Direction,
    rooms: seq<int>,
    priceMin: Option<int>,
    priceMax: int,
    areaMin: Option<int>,
    areaMax: int)

  /** `parseInt(query.offset || '0')`. */
  function OffsetParam(v: Option<string>): Option<int> {
    ParseInt(ParamOr(v, "0"))
  }

  /** `Math.min(parseInt(query.limit || '10'), 100)`. */
  function LimitParam(v: Option<string>): Option<int> {
    MinNaN(ParseInt(ParamOr(v, "10")), 100)
  }

  /** `query.sortDir === 'desc' ? 'desc' : 'asc'`. */
  function DirParam(v: Option<string>): Direction {
    if v == Some("desc") then Desc else Asc
  }

  /** The room counts of the comma-separated `query.rooms || ''`. */
  function RoomsParam(v: Option<string>): seq<int> {
    ParsedInts(Split(ParamOr(v, ""), ','))
  }

  /** `parseInt(query.priceMin || '0')`, and the same for the area. */
  function LowerParam(v: Option<string>): Option<int> {
    ParseInt(ParamOr(v, "0"))
  }

  /** `parseInt(query.priceMax || '0') || Number.MAX_SAFE_INTEGER`, and the
      same for the area: a maximum that is missing, zero or not a number is
      the largest safe integer. */
  function UpperParam(v: Option<string>): int {
    NumberOr(ParseInt(ParamOr(v, "0")), MaxSafeInteger)
  }

  /** The first lines of the handler, one parameter at a time. */
  function ParseParams(q: Query): Params {
    Params(OffsetParam(q.offset), LimitParam(q.limit), ParamOr(q.sortField, ""), DirParam(q.sortDir),
      RoomsParam(q.rooms), LowerParam(q.priceMin), UpperParam(q.priceMax),
      LowerParam(q.areaMin), UpperParam(q.areaMax))
  }

  /** A request with no parameter at all. */
  const NoParameters := Query(None, None, None, None, None, None, None, None, None)

  lemma ParseIntZero()
    ensures ParseInt("0") == Some(0)
  {
    ParseSignedOfDigits("0");
    TrimStartKeeps("0");
  }

  lemma ParseIntTen()
    ensures ParseInt("10") == Some(10)
  {
    ParseSignedOfDigits("10");
    TrimStartKeeps("10");
    assert "10"[..1] == "1";
  }

  lemma ParseIntEmpty()
    ensures ParseInt("") == None
  {
    assert TrimStart("") == "";
  }

  /** `''.split(',')` is `['']`, and `parseInt('')` is `NaN`: no room
      parameter means no room filter. */
  lemma NoRoomsParameter(v: Option<string>)
    requires v == None || v == Some("")
    ensures RoomsParam(v) == []
  {
    assert ParamOr(v, "") == "";
    assert Split("", ',') == [""];
    ParseIntEmpty();
    FilterMapNone(ParseInt, "");
  }

  /** The defaults: offset 0, limit 10, no sort (ascending), no room
      filter, and minimum bounds 0 and maximum bounds `MAX_SAFE_INTEGER`. */
  lemma DefaultParams()
    ensures ParseParams(NoParameters) == Params(Some(0), Some(10), "", Asc, [], Some(0), MaxSafeInteger, Some(0), MaxSafeInteger)
  {
    ParseIntZero();
    ParseIntTen();
    NoRoomsParameter(None);
    var p := ParseParams(NoParameters);
    assert p.rooms == [];
  }

  /** The limit is `NaN` or at most 100, and a number up to 100 is kept. */
  lemma LimitCapped(v: Option<string>)
    ensures LimitParam(v).Some? ==> LimitParam(v).value <= 100
    ensures forall n :: ParseInt(ParamOr(v, "10")) == Some(n) ==> LimitParam(v) == Some(if n <= 100 then n else 100)
    ensures ParseInt(ParamOr(v, "10")) == None ==> LimitParam(v) == None
  {
  }

  /** A maximum is never 0, so the `|| globalMax` fallback of the filter
      never applies to it; a maximum that `parseInt` reads as a nonzero
      number is that number. */
  lemma UpperNeverZero(v: Option<string>)
    ensures UpperParam(v) != 0
    ensures forall n :: ParseInt(ParamOr(v, "0")) == Some(n) && n != 0 ==> UpperParam(v) == n
  {
  }

  /** A missing, empty or zero bound. */
  predicate Unset(v: Option<string>) {
    v == None || v == Some("") || v == Some("0")
  }

  /** An unset minimum reads as 0 and an unset maximum as
      `MAX_SAFE_INTEGER`. */
  lemma UnsetBound(v: Option<string>)
    requires Unset(v)
    ensures LowerParam(v) == Some(0) && UpperParam(v) == MaxSafeInteger
  {
    assert ParamOr(v, "0") == "0";
    ParseIntZero();
  }

  /** The values kept are exactly those of the pieces that map to a
      value, in order; there are no more of them than pieces. The room
      counts are this for `parseInt` over the comma-separated pieces. */
  lemma {:induction false} FilterMapMembership<A, B>(f: A -> Option<B>, xs: seq<A>)
    ensures forall y :: y in FilterMap(f, xs) <==> exists i :: 0 <= i < |xs| && f(xs[i]) == Some(y)
    ensures |FilterMap(f, xs)| <= |xs|
  {
    if xs != [] {
      FilterMapMembership(f, xs[1..]);
      forall y ensures y in FilterMap(f, xs) <==> exists i :: 0 <= i < |xs| && f(xs[i]) == Some(y) {
        if exists i :: 0 <= i < |xs| && f(xs[i]) == Some(y) {
          var i :| 0 <= i < |xs| && f(xs[i]) == Some(y);
          if i > 0 {
            assert xs[1..][i - 1] == xs[i];
          }
        }
        if y in FilterMap(f, xs[1..]) {
          var i :| 0 <= i < |xs[1..]| && f(xs[1..][i]) == Some(y);
          assert xs[i + 1] == xs[1..][i];
        }
      }
    }
  }

  // ---------------------------------------------------------------------
  // The global ranges

  /** `Math.min(...xs)`; `None` is the `Infinity` of an empty list (which
      the JSON body carries as `null`). */
  function MinOf(xs: seq<int>): (m: Option<int>)
    ensures m.Some? <==> |xs| > 0
    ensures m.Some? ==> m.value in xs && forall x :: x in xs ==> m.value <= x
  {
    if xs == [] then None
    else
      var r := MinOf(xs[1..]);
      assert forall x :: x in xs ==> x == xs[0] || x in xs[1..];
      if r.None? || xs[0] <= r.value then Some(xs[0]) else r
  }

  /** `Math.max(...xs)`; `None` is the `-Infinity` of an empty list. */
  function MaxOf(xs: seq<int>): (m: Option<int>)
    ensures m.Some? <==> |xs| > 0
    ensures m.Some? ==> m.value in xs && forall x :: x in xs ==> x <= m.value
  {
    if xs == [] then None
    else
      var r := MaxOf(xs[1..]);
      assert forall x :: x in xs ==> x == xs[0] || x in xs[1..];
      if r.None? || xs[0] >= r.value then Some(xs[0]) else r
  }

  /** `all.map(a => a.price)`. */
  function Prices(all: seq<Apartment>): (ps: seq<int>)
    ensures |ps| == |all| && forall i :: 0 <= i < |all| ==> ps[i] == all[i].price
  {
    seq(|all|, i requires 0 <= i < |all| => all[i].price)
  }

  /** `all.map(a => a.area)`. */
  function Areas(all: seq<Apartment>): (xs: seq<int>)
    ensures |xs| == |all| && forall i :: 0 <= i < |all| ==> xs[i] == all[i].area
  {
    seq(|all|, i requires 0 <= i < |all| => all[i].area)
  }

  datatype Globals = Globals(priceMin: Option<int>, priceMax: Option<int>, areaMin: Option<int>, areaMax: Option<int>)

  /** The price and area ranges of the whole dataset. */
  function GlobalRanges(all: seq<Apartment>): Globals {
    Globals(MinOf(Prices(all)), MaxOf(Prices(all)), MinOf(Areas(all)), MaxOf(Areas(all)))
  }

  /** Every price and area of the dataset lies within its ranges. */
  lemma GlobalRangesBound(all: seq<Apartment>)
    ensures var g := GlobalRanges(all);
      forall a :: a in all ==>
        && g.priceMin.Some? && g.priceMax.Some? && g.areaMin.Some? && g.areaMax.Some?
        && g.priceMin.value <= a.price <= g.priceMax.value
        && g.areaMin.value <= a.area <= g.areaMax.value
  {
    var g := GlobalRanges(all);
    var ps, xs := Prices(all), Areas(all);
    forall a | a in all
      ensures g.priceMin.value <= a.price <= g.priceMax.value && g.areaMin.value <= a.area <= g.areaMax.value
    {
      var i :| 0 <= i < |all| && all[i] == a;
      assert ps[i] in ps && xs[i] in xs;
    }
  }

  /** The ranges exist exactly for a non-empty dataset, each end is the
      price or area of some listing, and so the minimum is at most the
      maximum. */
  lemma GlobalRangesAttained(all: seq<Apartment>)
    ensures var g := GlobalRanges(all);
      && (g.priceMin.Some? <==> |all| > 0) && (g.priceMax.Some? <==> |all| > 0)
      && (g.areaMin.Some? <==> |all| > 0) && (g.areaMax.Some? <==> |all| > 0)
      && (|all| > 0 ==> g.priceMin.value <= g.priceMax.value && g.areaMin.value <= g.areaMax.value)
      && (|all| > 0 ==> exists i, j :: 0 <= i < |all| && 0 <= j < |all| && all[i].price == g.priceMin.value && all[j].price == g.priceMax.value)
      && (|all| > 0 ==> exists i, j :: 0 <= i < |all| && 0 <= j < |all| && all[i].area == g.areaMin.value && all[j].area == g.areaMax.value)
  {
    var g := GlobalRanges(all);
    var ps, xs := Prices(all), Areas(all);
    if |all| > 0 {
      var i :| 0 <= i < |ps| && ps[i] == g.priceMin.value;
      var j :| 0 <= j < |ps| && ps[j] == g.priceMax.value;
      var k :| 0 <= k < |xs| && xs[k] == g.areaMin.value;
      var l :| 0 <= l < |xs| && xs[l] == g.areaMax.value;
      assert all[i].price == g.priceMin.value && all[j].price == g.priceMax.value;
      assert all[k].area == g.areaMin.value && all[l].area == g.areaMax.value;
      assert ps[i] <= ps[j] && xs[k] <= xs[l];
    }
  }

  // ---------------------------------------------------------------------
  // The filter

  /** `param || global` for a minimum: a nonzero parsed bound, otherwise
      the dataset's minimum (`None`: the `Infinity` of an empty dataset). */
  function LowerBound(param: Option<int>, global: Option<int>): Option<int> {
    if param.Some? && param.value != 0 then param else global
  }

  /** `param || global` for a maximum. */
  function UpperBound(param: int, global: Option<int>): Option<int> {
    if param != 0 then Some(param) else global
  }

  /** `!(x < lo || x > hi)`, where a `None` bound is an infinity that no
      value passes (`Infinity` below, `-Infinity` above). */
  predicate Within(x: int, lo: Option<int>, hi: Option<int>) {
    lo.Some? && hi.Some? && lo.value <= x && x <= hi.value
  }

  /** The filter callback: a room selection, when there is one, must hold
      the room count, and price and area must lie within the effective
      bounds. */
  predicate Keep(a: Apartment, p: Params, g: Globals) {
    if |p.rooms| > 0 && a.rooms !in p.rooms then false
    else if !Within(a.price, LowerBound(p.priceMin, g.priceMin), UpperBound(p.priceMax, g.priceMax)) then false
    else if !Within(a.area, LowerBound(p.areaMin, g.areaMin), UpperBound(p.areaMax, g.areaMax)) then false
    else true
  }

  /** `all.filter(...)`: the listings kept, in dataset order. */
  function Kept(all: seq<Apartment>, p: Params, g: Globals): (r: seq<Apartment>)
    ensures |r| <= |all|
  {
    if all == [] then []
    else Kept(all[..|all| - 1], p, g) + (if Keep(all[|all| - 1], p, g) then [all[|all| - 1]] else [])
  }

  /** The filter keeps exactly the listings of the dataset that pass. */
  lemma {:induction false} KeptMembership(all: seq<Apartment>, p: Params, g: Globals)
    ensures forall a :: a in Kept(all, p, g) <==> a in all && Keep(a, p, g)
  {
    if all != [] {
      var init, last := all[..|all| - 1], all[|all| - 1];
      KeptMembership(init, p, g);
      assert all == init + [last];
      assert forall a :: a in all <==> a in init || a == last;
    }
  }

  /** The filter keeps the order: filtering a concatenation filters each
      part. */
  lemma {:induction false} KeptAppend(a: seq<Apartment>, b: seq<Apartment>, p: Params, g: Globals)
    ensures Kept(a + b, p, g) == Kept(a, p, g) + Kept(b, p, g)
  {
    if b == [] {
      assert a + b == a;
    } else {
      var init := b[..|b| - 1];
      assert (a + b)[..|a + b| - 1] == a + init;
      assert (a + b)[|a + b| - 1] == b[|b| - 1];
      KeptAppend(a, init, p, g);
    }
  }

  /** A dataset all of whose listings pass is kept whole. */
  lemma {:induction false} KeptAll(all: seq<Apartment>, p: Params, g: Globals)
    requires forall i :: 0 <= i < |all| ==> Keep(all[i], p, g)
    ensures Kept(all, p, g) == all
  {
    if all != [] {
      var init := all[..|all| - 1];
      assert forall i :: 0 <= i < |init| ==> init[i] == all[i];
      KeptAll(init, p, g);
      assert Keep(all[|all| - 1], p, g);
      assert all == init + [all[|all| - 1]];
    }
  }

  /** Missing, empty or zero bounds (which `UnsetBound` reads as 0 and
      `MAX_SAFE_INTEGER`) leave only the room filter: over a dataset whose
      prices and areas are at most `MAX_SAFE_INTEGER`, a listing is kept
      exactly when the room selection is empty or holds its room count. */
  lemma UnsetBoundsKeepByRooms(p: Params, all: seq<Apartment>)
    requires p.priceMin == Some(0) && p.priceMax == MaxSafeInteger
    requires p.areaMin == Some(0) && p.areaMax == MaxSafeInteger
    requires forall a :: a in all ==> a.price <= MaxSafeInteger && a.area <= MaxSafeInteger
    ensures forall a :: a in all ==> (Keep(a, p, GlobalRanges(all)) <==> |p.rooms| == 0 || a.rooms in p.rooms)
  {
    GlobalRangesBound(all);
  }

  /** Without a room selection and with unset bounds the whole dataset
      (of safe integers) is kept, and `total` is its size. */
  lemma NoFilterKeepsAll(p: Params, all: seq<Apartment>)
    requires p.rooms == []
    requires p.priceMin == Some(0) && p.priceMax == MaxSafeInteger
    requires p.areaMin == Some(0) && p.areaMax == MaxSafeInteger
    requires forall a :: a in all ==> a.price <= MaxSafeInteger && a.area <= MaxSafeInteger
    ensures Kept(all, p, GlobalRanges(all)) == all
    ensures Respond(p, all).total == |all|
  {
    UnsetBoundsKeepByRooms(p, all);
    assert forall i :: 0 <= i < |all| ==> all[i] in all;
    KeptAll(all, p, GlobalRanges(all));
  }

  // ---------------------------------------------------------------------
  // The sort

  /** The first run of decimal digits in `s` (`s.match(/\d+/)?.[0]`). */
  function FirstDigitRun(s: string): (r: Option<string>)
    ensures r.Some? ==> |r.value| > 0 && AllDigits(r.value)
  {
    if s == [] then None
    else if IsDigit(s[0]) then Some(s[..LeadingDigits(s)])
    else FirstDigitRun(s[1..])
  }

  /** The digits after the first `plan-` that digits follow
      (`s.match(/plan-(\d+)/)?.[1]`). */
  function PlanDigitRun(s: string): (r: Option<string>)
    ensures r.Some? ==> |r.value| > 0 && AllDigits(r.value)
  {
    if |s| < 6 then None
    else if s[..5] == "plan-" && IsDigit(s[5]) then Some(s[5..][..LeadingDigits(s[5..])])
    else PlanDigitRun(s[1..])
  }

  /** `parseInt(run || '0')` for a run of digits or none. */
  function RunNumber(run: Option<string>): nat
    requires run.Some? ==> AllDigits(run.value)
  {
    if run.Some? then DigitsValue(run.value) else 0
  }

  /** `parseInt` reads a found run as its value and a missing one, through
      the `'0'` default, as 0. */
  lemma RunNumberParses(run: Option<string>)
    requires run.Some? ==> |run.value| > 0 && AllDigits(run.value)
    ensures ParseInt(run.GetOr("0")) == Some(RunNumber(run) as int)
  {
    if run.Some? {
      var d := run.value;
      ParseSignedOfDigits(d);
      assert IsDigit(d[0]);
      TrimStartKeeps(d);
    } else {
      ParseIntZero();
    }
  }

  /** The sort value of a name: its first number, or 0. */
  function NameNumber(name: string): nat {
    RunNumber(FirstDigitRun(name))
  }

  /** The sort value of a plan image: the number after `plan-`, or 0. */
  function PlanNumber(planImage: string): nat {
    RunNumber(PlanDigitRun(planImage))
  }

  /** A run of digits ends where the first non-digit begins. */
  lemma {:induction false} LeadingDigitsOfRun(d: string, r: string)
    requires AllDigits(d) && (r == [] || !IsDigit(r[0]))
    ensures LeadingDigits(d + r) == |d|
  {
    if d != [] {
      assert (d + r)[1..] == d[1..] + r;
      LeadingDigitsOfRun(d[1..], r);
    } else {
      assert d + r == r;
    }
  }

  /** A name whose first digits are the run `d` sorts by the value of `d`. */
  lemma {:induction false} NameNumberOf(pre: string, d: string, post: string)
    requires forall i :: 0 <= i < |pre| ==> !IsDigit(pre[i])
    requires |d| > 0 && AllDigits(d) && (post == [] || !IsDigit(post[0]))
    ensures NameNumber(pre + d + post) == DigitsValue(d)
  {
    var s := pre + d + post;
    if pre == [] {
      assert s == d + post;
      LeadingDigitsOfRun(d, post);
      assert s[..|d|] == d;
    } else {
      assert s[1..] == pre[1..] + d + post;
      NameNumberOf(pre[1..], d, post);
    }
  }

  /** A name without digits sorts as 0. */
  lemma {:induction false} NameNumberNoDigits(name: string)
    requires forall i :: 0 <= i < |name| ==> !IsDigit(name[i])
    ensures NameNumber(name) == 0
  {
    if name != [] {
      NameNumberNoDigits(name[1..]);
    }
  }

  /** `/plan-(\d+)/` matches at index `k` of `s`: `plan-` and a digit. */
  predicate PlanTokenAt(s: string, k: int) {
    0 <= k && k + 6 <= |s| && s[k..k + 5] == "plan-" && IsDigit(s[k + 5])
  }

  /** The search skips every index where the pattern does not match: when
      it matches nowhere before `k`, the search from `k` finds the same. */
  lemma {:induction false} PlanDigitRunFrom(s: string, k: nat)
    requires k <= |s|
    requires forall j :: 0 <= j < k ==> !PlanTokenAt(s, j)
    ensures PlanDigitRun(s) == PlanDigitRun(s[k..])
  {
    if k > 0 {
      assert !PlanTokenAt(s, 0);
      if |s| < 6 {
        assert |s[k..]| < 6;
      } else {
        assert s[..5] == s[0..5];
        var t := s[1..];
        forall j | 0 <= j < k - 1
          ensures !PlanTokenAt(t, j)
        {
          assert !PlanTokenAt(s, j + 1);
          if j + 6 <= |t| {
            assert t[j..j + 5] == s[j + 1..j + 6];
          }
        }
        PlanDigitRunFrom(t, k - 1);
        assert t[k - 1..] == s[k..];
      }
    }
  }

  /** Where the text starts with `plan-` and a run of digits, those
      digits are the captured group. */
  lemma PlanDigitRunOfToken(d: string, post: string)
    requires |d| > 0 && AllDigits(d) && (post == [] || !IsDigit(post[0]))
    ensures PlanDigitRun("plan-" + d + post) == Some(d)
  {
    var t := "plan-" + d + post;
    assert t[..5] == "plan-" && t[5] == d[0];
    assert t[5..] == d + post;
    LeadingDigitsOfRun(d, post);
    assert (d + post)[..|d|] == d;
  }

  /** A plan image `pre + "plan-" + d + post`, where the pattern matches
      nowhere inside `pre`, sorts by the value of `d`. */
  lemma PlanNumberOf(pre: string, d: string, post: string)
    requires forall k :: 0 <= k < |pre| ==> !PlanTokenAt(pre + "plan-" + d + post, k)
    requires |d| > 0 && AllDigits(d) && (post == [] || !IsDigit(post[0]))
    ensures PlanNumber(pre + "plan-" + d + post) == DigitsValue(d)
  {
    PlanDigitRunFrom(pre + "plan-" + d + post, |pre|);
    AfterPrefix(pre, d, post);
    PlanDigitRunOfToken(d, post);
  }

  /** For example, `"/apts/plan-3.png"` sorts as 3. */
  lemma PlanNumberExample()
    ensures PlanNumber("/apts/plan-3.png") == 3
  {
    var pre, post := "/apts/", ".png";
    assert pre + "plan-" + "3" + post == "/apts/plan-3.png";
    forall k | 0 <= k < |pre|
      ensures !PlanTokenAt(pre + "plan-" + "3" + post, k)
    {
      assert (pre + "plan-" + "3" + post)[k + 4] != '-';
    }
    PlanNumberOf(pre, "3", post);
  }

  /** What follows `pre` in the plan image is the token and the rest. */
  lemma AfterPrefix(pre: string, d: string, post: string)
    ensures (pre + "plan-" + d + post)[|pre|..] == "plan-" + d + post
  {
    assert pre + "plan-" + d + post == pre + ("plan-" + d + post);
  }

  /** A plan image in which the pattern matches nowhere sorts as 0. */
  lemma PlanNumberNoPlan(planImage: string)
    requires forall k :: 0 <= k < |planImage| ==> !PlanTokenAt(planImage, k)
    ensures PlanNumber(planImage) == 0
  {
    PlanDigitRunFrom(planImage, |planImage|);
  }

  /** The comparator's value of a listing for a sort field: the numbers of
      `name` and `plan`, otherwise `a[sortField]`. */
  function ServerKey(field: string): Apartment -> Key {
    (a: Apartment) =>
      if field == "name" then Num(NameNumber(a.name))
      else if field == "plan" then Num(PlanNumber(a.planImage))
      else FieldValue(a, field)
  }

  /** The filtered listings, sorted when a sort field is set. */
  function Listing(p: Params, all: seq<Apartment>): seq<Apartment> {
    var kept := Kept(all, p, GlobalRanges(all));
    if p.sortField != "" then SortBy(ServerKey(p.sortField), p.sortDir, kept) else kept
  }

  // ---------------------------------------------------------------------
  // The slice and the reply

  /** `a + b` on numbers that may be `NaN`. */
  function Plus(a: Option<int>, b: Option<int>): Option<int> {
    if a.Some? && b.Some? then Some(a.value + b.value) else None
  }

  /** The index `slice` takes from an argument: `NaN` is 0, a negative one
      counts from the end, and either is clamped to the length. */
  function SliceIndex(k: Option<int>, len: nat): (i: nat)
    ensures i <= len
  {
    var v := k.GetOr(0);
    if v < 0 then (if len + v < 0 then 0 else len + v)
    else if v > len then len
    else v
  }

  /** `s.slice(start, end)`. */
  function Slice<T>(s: seq<T>, start: Option<int>, end: Option<int>): seq<T> {
    var from, to := SliceIndex(start, |s|), SliceIndex(end, |s|);
    if from < to then s[from..to] else []
  }

  /** The response body; a `None` range end is the `null` that an
      infinite `Math.min`/`Math.max` of an empty dataset becomes. */
  datatype Reply = Reply(
    apartments: seq<Apartment>,
    total: nat,
    priceMin: Option<int>,
    priceMax: Option<int>,
    areaMin: Option<int>,
    areaMax: Option<int>)

  /** The reply to parsed parameters. */
  function Respond(p: Params, all: seq<Apartment>): Reply {
    var g := GlobalRanges(all);
    Reply(Slice(Listing(p, all), p.offset, Plus(p.offset, p.limit)), |Kept(all, p, g)|,
      g.priceMin, g.priceMax, g.areaMin, g.areaMax)
  }

  /** The handler, with the dataset that `loadAll` reads as a parameter. */
  function Handle(q: Query, all: seq<Apartment>): Reply {
    Respond(ParseParams(q), all)
  }

  /** For a non-negative offset `o` and limit `l` the slice is the window
      from `o` of at most `l` elements, and no more than there are from
      `o` on. */
  lemma SliceWindow<T>(s: seq<T>, o: int, l: int)
    requires 0 <= o && 0 <= l
    ensures var r := Slice(s, Some(o), Plus(Some(o), Some(l)));
      && |r| <= l && |r| <= (if |s| < o then 0 else |s| - o)
      && forall i :: 0 <= i < |r| ==> o + i < |s| && r[i] == s[o + i]
  {
  }

  /** An offset or a limit that is not a number gives an empty page. */
  lemma SliceNaN<T>(s: seq<T>, start: Option<int>, limit: Option<int>)
    requires start.None? || limit.None?
    ensures Slice(s, start, Plus(start, limit)) == []
  {
  }

  /** Sorting only reorders the kept listings. */
  lemma ListingPermutation(p: Params, all: seq<Apartment>)
    ensures multiset(Listing(p, all)) == multiset(Kept(all, p, GlobalRanges(all)))
    ensures |Listing(p, all)| == |Kept(all, p, GlobalRanges(all))|
  {
    var kept := Kept(all, p, GlobalRanges(all));
    if p.sortField != "" {
      SortByPermutation(ServerKey(p.sortField), p.sortDir, kept);
    }
    assert |multiset(Listing(p, all))| == |multiset(kept)|;
  }

  /** The reply: `total` counts the kept listings, the page holds only
      kept listings of the dataset, and the ranges are those of the whole
      dataset whatever the parameters. */
  lemma RespondContents(p: Params, all: seq<Apartment>)
    ensures var r := Respond(p, all);
      && r.total == |Kept(all, p, GlobalRanges(all))|
      && (forall a :: a in r.apartments ==> a in all && Keep(a, p, GlobalRanges(all)))
      && r.priceMin == MinOf(Prices(all)) && r.priceMax == MaxOf(Prices(all))
      && r.areaMin == MinOf(Areas(all)) && r.areaMax == MaxOf(Areas(all))
  {
    var kept := Kept(all, p, GlobalRanges(all));
    var listing := Listing(p, all);
    ListingPermutation(p, all);
    KeptMembership(all, p, GlobalRanges(all));
    var r := Respond(p, all);
    forall a | a in r.apartments ensures a in kept {
      var from, to := SliceIndex(p.offset, |listing|), SliceIndex(Plus(p.offset, p.limit), |listing|);
      assert from < to && a in listing[from..to];
      assert a in multiset(listing);
    }
  }

  /** The page is `listing[offset .. offset + limit)` for a non-negative
      offset and limit: at most `limit` listings, and no more than `total -
      offset`. */
  lemma RespondPage(p: Params, all: seq<Apartment>, o: int, l: int)
    requires p.offset == Some(o) && p.limit == Some(l)
    requires 0 <= o && 0 <= l
    ensures var r := Respond(p, all);
      && |r.apartments| <= l && |r.apartments| <= (if r.total < o then 0 else r.total - o)
      && forall i :: 0 <= i < |r.apartments| ==> r.apartments[i] == Listing(p, all)[o + i]
  {
    SliceWindow(Listing(p, all), o, l);
    ListingPermutation(p, all);
  }

  /** With a sort field the listing is in ascending (or descending) order
      of the sort value, and listings with equal values keep their dataset
      order; without one it is the dataset order. */
  lemma ListingOrder(p: Params, all: seq<Apartment>)
    ensures p.sortField == "" ==> Listing(p, all) == Kept(all, p, GlobalRanges(all))
    ensures p.sortField != "" ==> Sorted(ServerKey(p.sortField), p.sortDir, Listing(p, all))
    ensures p.sortField != "" ==> forall k :: (Ties(ServerKey(p.sortField), Listing(p, all), k) ==
      Ties(ServerKey(p.sortField), Kept(all, p, GlobalRanges(all)), k))
  {
    if p.sortField != "" {
      var kept := Kept(all, p, GlobalRanges(all));
      SortBySorted(ServerKey(p.sortField), p.sortDir, kept);
      forall k ensures Ties(ServerKey(p.sortField), Listing(p, all), k) == Ties(ServerKey(p.sortField), kept, k) {
        SortStable(ServerKey(p.sortField), p.sortDir, kept, k);
      }
    }
  }

  /** A window of a sorted listing is sorted, so the page is in sort
      order too. */
  lemma SortedSlice<T>(key: T -> Key, dir: Direction, s: seq<T>, start: Option<int>, end: Option<int>)
    requires Sorted(key, dir, s)
    ensures Sorted(key, dir, Slice(s, start, end))
  {
    var from, to := SliceIndex(start, |s|), SliceIndex(end, |s|);
    if from < to {
      var r := s[from..to];
      forall i, j | 0 <= i < j < |r| ensures !Before(key, dir, r[j], r[i]) {
        assert r[i] == s[from + i] && r[j] == s[from + j];
      }
    }
  }

  lemma RespondSorted(p: Params, all: seq<Apartment>)
    requires p.sortField != ""
    ensures Sorted(ServerKey(p.sortField), p.sortDir, Respond(p, all).apartments)
  {
    ListingOrder(p, all);
    SortedSlice(ServerKey(p.sortField), p.sortDir, Listing(p, all), p.offset, Plus(p.offset, p.limit));
  }
}
