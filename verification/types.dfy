/** The records of types/index.ts, the decoded server response, and the
    property lookup `apartment[field]` that both sorts use. */
module Types {
  import opened Wrappers
  import opened Sorting

  /** A listing. `area` and `price` are JavaScript numbers in the source and
      integers here. */
  datatype Apartment = Apartment(
    id: string,
    name: string,
    area: int,
    floor: int,
    totalFloors: int,
    price: int,
    rooms: int,
    planImage: string)

  /** A `[number, number]` pair: `[min, max]`. */
  datatype Range = Range(min: int, max: int)

  /** The filter values; `rooms` empty means every room count. */
  datatype FilterState = FilterState(rooms: seq<int>, priceRange: Range, areaRange: Range)

  datatype PaginationState = PaginationState(
    currentPage: nat,
    itemsPerPage: nat,
    totalItems: int,
    hasMore: bool)

  /** `{ field, direction }`; an empty field means no sorting. */
  datatype SortState = SortState(field: string, direction: Direction)

  /** What a store reads from a `GET /api/apartments` body once decoded:
      `apartments` is `None` when it is not an array, and a number field is
      `None` when it is missing or not a finite number. */
  datatype Response = Response(
    apartments: Option<seq<Apartment>>,
    total: Option<int>,
    priceMin: Option<int>,
    priceMax: Option<int>,
    areaMin: Option<int>,
    areaMax: Option<int>)

  /** The result of one `$fetch`: a body, or a thrown error. */
  datatype FetchOutcome = Fetched(response: Response) | Failed

  /** The message both stores record for a failed load. */
  const LoadErrorMessage: string := "Ошибка загрузки данных"

  /** The initial bounds of both stores' filters and ranges. */
  const DefaultPriceRange := Range(5500000, 18900000)
  const DefaultAreaRange := Range(33, 123)
  const DefaultFilters := FilterState([], DefaultPriceRange, DefaultAreaRange)
  const InitialPagination := PaginationState(0, 5, 0, true)

  /** `Number(x) || fallback`: a missing, non-numeric or zero value gives
      the fallback. */
  function NumberOr(x: Option<int>, fallback: int): (r: int)
    ensures r == fallback || (x.Some? && r == x.value != 0)
    ensures x == None || x == Some(0) ==> r == fallback
  {
    if x.Some? && x.value != 0 then x.value else fallback
  }

  /** The batch of a response: `Array.isArray(r.apartments) ? r.apartments : []`. */
  function Batch(r: Response): seq<Apartment> {
    r.apartments.GetOr([])
  }

  /** `apartment[field]`: a number or string for the eight fields of
      `Apartment`, `undefined` for any other name. */
  function FieldValue(a: Apartment, field: string): (k: Key)
    ensures k.Undefined? <==> field !in {"id", "name", "area", "floor", "totalFloors", "price", "rooms", "planImage"}
    ensures k.Str? <==> field in {"id", "name", "planImage"}
  {
    match field
    case "id" => Str(a.id)
    case "name" => Str(a.name)
    case "area" => Num(a.area)
    case "floor" => Num(a.floor)
    case "totalFloors" => Num(a.totalFloors)
    case "price" => Num(a.price)
    case "rooms" => Num(a.rooms)
    case "planImage" => Str(a.planImage)
    case _ => Undefined
  }

  /** The query string of a `GET /api/apartments` request, parameter by
      parameter (`offset`, `limit`, `sortField`, `sortDir`, `rooms`,
      `priceMin`, `priceMax`, `areaMin`, `areaMax`); `None` for a parameter
      the request leaves out. */
  datatype Query = Query(
    offset: Option<string>,
    limit: Option<string>,
    sortField: Option<string>,
    sortDir: Option<string>,
    rooms: Option<string>,
    priceMin: Option<string>,
    priceMax: Option<string>,
    areaMin: Option<string>,
    areaMax: Option<string>)

  /** The text a sort direction travels as in a query string. */
  function DirectionName(d: Direction): string {
    if d == Asc then "asc" else "desc"
  }

  /** The number of listings on the first `pages` pages of `size` listings
      each, `pages * size`, counted page by page. */
  function PagesSpan(pages: nat, size: nat): nat {
    if pages == 0 then 0 else PagesSpan(pages - 1, size) + size
  }

  /** It is `currentPage * itemsPerPage`, the offset both stores compute. */
  lemma {:induction false} PagesSpanProduct(pages: nat, size: nat)
    ensures PagesSpan(pages, size) == pages * size
  {
    if pages > 0 {
      PagesSpanProduct(pages - 1, size);
    }
  }
}
