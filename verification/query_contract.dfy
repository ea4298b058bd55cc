/** What the server reads from the parameters the stores send: the page
    cache store's `buildQuery` (stores/apartments.ts) and the optimized
    store's page request (stores/apartments-optimized.ts), parsed by the
    handler of server/api/apartments.get.ts. */
module QueryContract {
  import opened Wrappers
  import opened Text
  import opened Sorting
  import opened Types
  import opened PageCacheSpec
  import opened OptimizedView
  import opened OptimizedStore
  import opened ApartmentsApi

  /** `String(n)` is never empty, so `|| default` keeps it. */
  lemma RenderedKept(n: int, fallback: string)
    ensures ParamOr(Some(IntToString(n)), fallback) == IntToString(n)
  {
  }

  lemma OffsetSent(n: int)
    ensures OffsetParam(Some(IntToString(n))) == Some(n)
  {
    RenderedKept(n, "0");
    ParseIntOfIntToString(n);
  }

  lemma LimitSent(n: int)
    ensures LimitParam(Some(IntToString(n))) == Some(if n <= 100 then n else 100)
  {
    RenderedKept(n, "10");
    ParseIntOfIntToString(n);
  }

  lemma BoundsSent(n: int)
    ensures LowerParam(Some(IntToString(n))) == Some(n)
    ensures UpperParam(Some(IntToString(n))) == (if n != 0 then n else MaxSafeInteger)
  {
    RenderedKept(n, "0");
    ParseIntOfIntToString(n);
  }

  /** `parseInt` reads each rendered room count back. */
  lemma ParsedRendered(rooms: seq<int>)
    ensures ParsedInts(seq(|rooms|, i requires 0 <= i < |rooms| => IntToString(rooms[i]))) == rooms
  {
    var parts := seq(|rooms|, i requires 0 <= i < |rooms| => IntToString(rooms[i]));
    forall i | 0 <= i < |rooms| ensures ParseInt(parts[i]) == Some(rooms[i]) {
      ParseIntOfIntToString(rooms[i]);
    }
    FilterMapInverse(ParseInt, parts, rooms);
  }

  /** The room selection the store joins with commas is the one the server
      splits and parses; no selection is sent as no parameter, which the
      server reads as no room filter. */
  lemma RoomsSent(rooms: seq<int>)
    ensures RoomsParam(if |rooms| > 0 then Some(RoomsText(rooms)) else None) == rooms
  {
    if |rooms| > 0 {
      var parts := seq(|rooms|, i requires 0 <= i < |rooms| => IntToString(rooms[i]));
      forall i | 0 <= i < |parts| ensures ',' !in parts[i] {
        var t := IntToString(rooms[i]);
        assert forall k :: 0 <= k < |t| ==> t[k] != ',';
      }
      SplitJoin(parts, ',');
      assert ParamOr(Some(RoomsText(rooms)), "") == RoomsText(rooms);
      ParsedRendered(rooms);
    } else {
      NoRoomsParameter(None);
    }
  }

  /** The sort field and direction travel together and arrive unchanged;
      without a field the server reads no sort. */
  lemma SortSent(s: SortState)
    ensures ParamOr(if s.field != "" then Some(s.field) else None, "") == s.field
    ensures DirParam(if s.field != "" then Some(DirectionName(s.direction)) else None) == (if s.field != "" then s.direction else Asc)
  {
  }

  /** The parameters the server reads from a request of the page cache
      store: the offset, the page size capped at 100, the sort, the rooms
      and the four bounds, a maximum of 0 turning into
      `MAX_SAFE_INTEGER`. */
  function SentParams(r: Request): Params {
    Params(
      Some(r.offset), Some(if r.limit <= 100 then r.limit else 100),
      r.sort.field, if r.sort.field != "" then r.sort.direction else Asc,
      r.filters.rooms,
      Some(r.filters.priceRange.min), if r.filters.priceRange.max != 0 then r.filters.priceRange.max else MaxSafeInteger,
      Some(r.filters.areaRange.min), if r.filters.areaRange.max != 0 then r.filters.areaRange.max else MaxSafeInteger)
  }

  /** `buildQuery` and the handler agree: parsing the parameters written
      for a request gives `SentParams` of it. */
  lemma RequestParsed(r: Request)
    ensures ParseParams(BuildQuery(r.offset, r.limit, r.filters, r.sort)) == SentParams(r)
  {
    OffsetSent(r.offset);
    LimitSent(r.limit);
    SortSent(r.sort);
    RoomsSent(r.filters.rooms);
    BoundsSent(r.filters.priceRange.min);
    BoundsSent(r.filters.priceRange.max);
    BoundsSent(r.filters.areaRange.min);
    BoundsSent(r.filters.areaRange.max);
  }

  /** So the reply to a request is the reply to `SentParams` of it. */
  lemma RequestAnswered(r: Request, all: seq<Apartment>)
    ensures Handle(BuildQuery(r.offset, r.limit, r.filters, r.sort), all) == Respond(SentParams(r), all)
  {
    RequestParsed(r);
  }

  /** The server filter is the client's `matchesFilters` of the optimized
      store for every filter whose maxima are nonzero, over a dataset of
      non-negative prices and areas (a minimum of 0 becomes the dataset's
      minimum, which lets the same listings through). A maximum of 0 is
      where they part: the client keeps nothing above 0, the server treats
      it as no bound. */
  lemma ServerFilterAgrees(r: Request, all: seq<Apartment>)
    requires r.filters.priceRange.max != 0 && r.filters.areaRange.max != 0
    requires forall a :: a in all ==> 0 <= a.price && 0 <= a.area
    ensures forall a :: a in all ==> (Keep(a, SentParams(r), GlobalRanges(all)) <==> MatchesFilters(a, r.filters))
  {
    GlobalRangesBound(all);
  }

  /** Where they part: with a price maximum of 0, a listing with a positive
      price that passes every other test is kept by the server, which reads
      the 0 as `MAX_SAFE_INTEGER`, and dropped by `matchesFilters`. */
  lemma MaxZeroDiffers(r: Request, a: Apartment)
    requires r.filters.rooms == [] && r.filters.priceRange.max == 0
    requires r.filters.priceRange.min <= a.price && 0 < a.price <= MaxSafeInteger
    requires r.filters.areaRange.max != 0
    requires r.filters.areaRange.min <= a.area <= r.filters.areaRange.max
    ensures Keep(a, SentParams(r), GlobalRanges([a]))
    ensures !MatchesFilters(a, r.filters)
  {
    GlobalRangesBound([a]);
  }

  /** The page the server answers for a request of the page cache store:
      the window of its listing from the offset, at most the page size
      (up to 100) long. */
  lemma ServerPage(r: Request, all: seq<Apartment>)
    requires 0 <= r.offset && 0 <= r.limit <= 100
    ensures var reply := Respond(SentParams(r), all);
      && |reply.apartments| <= r.limit
      && |reply.apartments| <= (if reply.total < r.offset then 0 else reply.total - r.offset)
      && forall i :: 0 <= i < |reply.apartments| ==> reply.apartments[i] == Listing(SentParams(r), all)[r.offset + i]
  {
    RespondPage(SentParams(r), all, r.offset, r.limit);
  }

  /** The optimized store sends no room selection and no bound, which the
      server reads as no room filter, minimum bounds of 0 and maximum
      bounds of `MAX_SAFE_INTEGER`. */
  lemma PageQueryParsed(offset: int, limit: int, s: SortState)
    ensures var p := ParseParams(PageQuery(offset, limit, s));
      && p.rooms == []
      && p.priceMin == Some(0) && p.priceMax == MaxSafeInteger
      && p.areaMin == Some(0) && p.areaMax == MaxSafeInteger
  {
    UnsetBound(None);
    NoRoomsParameter(None);
  }

  /** So the server filters nothing out of a dataset whose prices and
      areas are safe integers: `total` is the size of the whole dataset. */
  lemma UnfilteredPageQuery(offset: int, limit: int, s: SortState, all: seq<Apartment>)
    requires forall a :: a in all ==> a.price <= MaxSafeInteger && a.area <= MaxSafeInteger
    ensures Kept(all, ParseParams(PageQuery(offset, limit, s)), GlobalRanges(all)) == all
    ensures Handle(PageQuery(offset, limit, s), all).total == |all|
  {
    PageQueryParsed(offset, limit, s);
    NoFilterKeepsAll(ParseParams(PageQuery(offset, limit, s)), all);
  }

  /** "Apt 10" comes before "Apt 9" as text. */
  lemma NameTextOrder()
    ensures StrLt("Apt 10", "Apt 9")
  {
    assert StrLt("10", "9");
    assert StrLt(" 10", " 9");
    assert StrLt("t 10", "t 9");
    assert StrLt("pt 10", "pt 9");
  }

  /** "Apt 10" sorts as 10 and "Apt 9" as 9 on the server. */
  lemma NameNumbers()
    ensures NameNumber("Apt 10") == 10 && NameNumber("Apt 9") == 9
  {
    forall i | 0 <= i < |"Apt "| ensures !IsDigit("Apt "[i]) {
    }
    NameNumberOf("Apt ", "10", "");
    NameNumberOf("Apt ", "9", "");
    assert "Apt " + "10" + "" == "Apt 10" && "Apt " + "9" + "" == "Apt 9";
    assert "10"[..1] == "1";
  }

  /** The client sorts names as text and the server by the number in them,
      so the two orders differ: "Apt 10" comes before "Apt 9" as text and
      after it as a number. */
  lemma NameOrdersDiffer(a: Apartment, b: Apartment)
    requires a.name == "Apt 10" && b.name == "Apt 9"
    ensures KeyLt(FieldValue(a, "name"), FieldValue(b, "name"))
    ensures KeyLt(ServerKey("name")(b), ServerKey("name")(a))
  {
    NameTextOrder();
    NameNumbers();
  }
}
