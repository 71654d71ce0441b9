/** The listing query handler: from the raw query parameters to a query
    plan, and from the storage layer's two answers to the response. The
    storage layer is given as two functions: `fetch` (find by filter, sort,
    skip, limit) and `count` (count by filter), each None when it fails. */
module Listings {
  import opened Wrappers
  import opened Pagination
  import opened Filters
  import opened Sorting

  /** The query parameters as strings; the empty string stands for a
      parameter that is absent or empty. */
  datatype Request = Request(
    page: string,
    limit: string,
    minPrice: string,
    maxPrice: string,
    propertyType: string,
    bedrooms: string,
    sort: string)

  /** Everything the handler decides before it talks to the storage layer. */
  datatype QueryPlan<P> = QueryPlan(
    page: int,
    limit: int,
    skip: int,
    filter: Filter<P>,
    sort: SortSpec)

  /** The query plan for a request. `parseInt` and `parseFloat` stand for
      JavaScript's number parsing, with None for NaN. */
  function BuildQuery<P>(req: Request, parseInt: string -> Option<int>, parseFloat: string -> P): (plan: QueryPlan<P>)
    ensures plan.page != 0 && plan.limit != 0
    ensures Truthy(parseInt(req.page)) ==> plan.page == parseInt(req.page).value
    ensures !Truthy(parseInt(req.page)) ==> plan.page == DefaultPage
    ensures Truthy(parseInt(req.limit)) ==> plan.limit == parseInt(req.limit).value
    ensures !Truthy(parseInt(req.limit)) ==> plan.limit == DefaultLimit
    ensures plan.skip == (plan.page - 1) * plan.limit
    ensures plan.sort.Natural? <==> req.sort == []
    ensures plan.sort == ParseSort(req.sort)
    ensures plan.filter == BuildFilter(req.minPrice, req.maxPrice, req.propertyType, req.bedrooms, parseInt, parseFloat)
    ensures WellFormed(plan.filter)
  {
    var page := PageNumber(parseInt(req.page));
    var limit := PageSize(parseInt(req.limit));
    QueryPlan(
      page,
      limit,
      Skip(page, limit),
      BuildFilter(req.minPrice, req.maxPrice, req.propertyType, req.bedrooms, parseInt, parseFloat),
      ParseSort(req.sort))
  }

  /** The filter document a request sends to the storage layer: only the
      keys "price", "property_type" and "bedrooms" can occur, each exactly
      when its parameters are present; "$gte" and "$lte" each exactly when
      minPrice, respectively maxPrice, is present; the property type is the
      parameter verbatim. */
  function RequestFilter<P>(req: Request, parseInt: string -> Option<int>, parseFloat: string -> P): (d: Document<P>)
    ensures d.Keys <= {PriceKey, PropertyTypeKey, BedroomsKey}
    ensures PriceKey in d <==> req.minPrice != [] || req.maxPrice != []
    ensures PriceKey in d ==> d[PriceKey].Range?
    ensures PriceKey in d ==> (GteOperator in d[PriceKey].bounds <==> req.minPrice != [])
    ensures PriceKey in d ==> (LteOperator in d[PriceKey].bounds <==> req.maxPrice != [])
    ensures PriceKey in d ==> d[PriceKey].bounds.Keys != {}
    ensures PriceKey in d && GteOperator in d[PriceKey].bounds ==> d[PriceKey].bounds[GteOperator] == parseFloat(req.minPrice)
    ensures PriceKey in d && LteOperator in d[PriceKey].bounds ==> d[PriceKey].bounds[LteOperator] == parseFloat(req.maxPrice)
    ensures PropertyTypeKey in d <==> req.propertyType != []
    ensures PropertyTypeKey in d ==> d[PropertyTypeKey] == Text(req.propertyType)
    ensures BedroomsKey in d <==> req.bedrooms != []
    ensures BedroomsKey in d ==> d[BedroomsKey] == Integer(parseInt(req.bedrooms))
  {
    ToDocument(BuildQuery(req, parseInt, parseFloat).filter)
  }

  /** The fixed message of every failure response. */
  const ErrorMessage: string := "An error occurred while fetching listings"

  /** Page: the HTTP 200 body. ServerError: the HTTP 500 body. */
  datatype Response<R> = Page(data: seq<R>, meta: PageMeta) | ServerError(error: string)

  /** Handles one request. The records come from `fetch`, called with the
      plan's filter document, sort document, skip and limit; the total comes
      from `count`, called with the SAME filter document and nothing else. A
      failure of either call gives the fixed error response and no data. */
  function ListListings<P, R>(
    req: Request,
    parseInt: string -> Option<int>,
    parseFloat: string -> P,
    fetch: (Document<P>, map<string, int>, int, int) -> Option<seq<R>>,
    count: Document<P> -> Option<nat>): (resp: Response<R>)
    ensures var plan := BuildQuery(req, parseInt, parseFloat);
      var doc := RequestFilter(req, parseInt, parseFloat);
      var records := fetch(doc, SortDocument(plan.sort), plan.skip, plan.limit);
      && (resp.ServerError? <==> records.None? || count(doc).None?)
      && (resp.ServerError? ==> resp.error == ErrorMessage)
      && (resp.Page? ==> resp.data == records.value)
      && (resp.Page? ==> resp.meta.currentPage == plan.page)
      && (resp.Page? ==> resp.meta.totalItems == count(doc).value)
      && (resp.Page? ==> IsCeiling(resp.meta.totalPages, resp.meta.totalItems, plan.limit))
  {
    var plan := BuildQuery(req, parseInt, parseFloat);
    var doc := ToDocument(plan.filter);
    match fetch(doc, SortDocument(plan.sort), plan.skip, plan.limit)
    case None => ServerError(ErrorMessage)
    case Some(records) =>
      match count(doc)
      case None => ServerError(ErrorMessage)
      case Some(total) => Page(records, Meta(plan.page, plan.limit, total))
  }

  /** A request without parameters asks for page 1 of 10 records, without
      any filter, in the store's natural order (JavaScript's parseInt of an
      absent parameter is NaN). */
  lemma DefaultQuery<P>(parseInt: string -> Option<int>, parseFloat: string -> P)
    requires parseInt([]) == None
    ensures var plan := BuildQuery(Request([], [], [], [], [], [], []), parseInt, parseFloat);
      && plan.page == 1 && plan.limit == 10 && plan.skip == 0
      && plan.filter == Filter(None, None, None)
      && ToDocument(plan.filter) == map[]
      && plan.sort == Natural
  {
  }
}
