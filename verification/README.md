# Listing query handler — Dafny model

This project models the query-building core of the `GET /api/listing`
handler of an Airbnb-style listings API (`routes/listings.js`). The handler
turns the request's query-string parameters into a page number, a page size,
a record offset, a filter document and a sort document, asks the storage
layer for one page of matching listings and for the number of matching
listings, and answers with the page plus its metadata (`currentPage`,
`totalPages`, `totalItems`), or with a fixed error body when storage fails.

Modules (one concept each):

- `Wrappers` (`wrappers.dfy`): `Option`; `None` also stands for the NaN of a failed `parseInt`.
- `Strings` (`strings.dfy`): splitting on a one-character separator with the semantics of JavaScript's `String.prototype.split`, its inverse `Join`, and facts about the first and second segments.
- `Pagination` (`pagination.dfy`): the `|| 1` and `|| 10` defaults, `skip`, `Math.ceil` as exact ceiling division, and the page metadata.
- `Filters` (`filters.dfy`): the typed filter record (optional price range with independent optional bounds, optional property type, optional bedroom count), how it is built from the parameters, and its mapping to the storage layer's filter document, with the inverse mapping.
- `Sorting` (`sorting.dfy`): parsing `sort=<field>:<direction>` and the one-entry sort document.
- `Listings` (`listings.dfy`): the request record, the query plan, and the whole handler over an abstract storage layer.

Modelling choices:

- Query parameters are strings; the empty string stands for a parameter that is absent or empty. The handler tests the filter and sort parameters only for truthiness, where absent and empty are both false, and `parseInt` gives NaN for an absent or empty page or limit alike.
- JavaScript's `parseInt` and `parseFloat` are parameters of the model (`string -> Option<int>`, `string -> P`) rather than re-implemented. `P` is a type parameter: the model never computes with prices, it only places them.
- `x || d` on a parsed number falls back to `d` when the number is NaN or zero (`-0` is the integer 0 here). Negative page numbers and page sizes are passed through unclamped, as in the code.
- The storage layer (`find(...).sort().skip().limit()` and `countDocuments`) is two function parameters, `fetch` and `count`, each returning `None` when it fails.

Notes on what the code does that a reader of the handler might not expect:

- A page or limit of `0` also falls back to the default, not only an absent or unparseable one.
- The price bounds and the bedroom count are added whenever their parameter is a non-empty string, even when it does not parse: the stored value is then NaN (`bedrooms` holds `Option<int>`, `P` includes NaN).
- `totalPages` for a negative page size is `Math.ceil` of a negative quotient; the model keeps that value.
- `sort[field] = …` on a plain object adds no key when the field is `__proto__` (the assignment goes to the prototype setter, which ignores a number), so `sort=__proto__:desc` sends an empty sort document.

## Model

| member | source | states |
|---|---|---|
| Pagination.PageNumber | routes/listings.js:8 | the page is never 0; it is the parsed number when that is a non-zero number and 1 when it is NaN or 0 |
| Pagination.PageSize | routes/listings.js:9 | the page size is never 0 (so the division on line 48 is defined); it is the parsed number when non-zero and 10 when NaN or 0 |
| Pagination.SkipProperties | routes/listings.js:10 | for page and size at least 1, the offset is non-negative, a multiple of the size, 0 exactly for page 1, and grows by the size from one page to the next |
| Pagination.CeilDiv | routes/listings.js:48 | `Math.ceil(a / b)` for a non-zero divisor of either sign: the integer q with (q-1)*b < a <= q*b for b > 0, and q*b <= a < (q-1)*b for b < 0 |
| Pagination.Meta | routes/listings.js:45-49 | `currentPage` echoes the page without clamping, `totalItems` echoes the count, and `totalPages` is the ceiling of count over size for every non-zero size, negative sizes included (non-negative, covering the count with less than one spare page, for a positive size) |
| Pagination.TotalPagesLeast | routes/listings.js:48 | every number of pages that can hold all matching records is at least `totalPages`: it is the least such number |
| Pagination.NoRecordsNoPages | routes/listings.js:48 | a count of 0 gives 0 pages |
| Pagination.PageInRange | routes/listings.js:39-48 | a page of at least 1 starts inside the matching records exactly when it is at most `totalPages`; a later page starts past them |
| Filters.BuildFilter | routes/listings.js:13-27 | the price constraint exists iff minPrice or maxPrice is present, each bound exists iff its own parameter is present and holds its parsed value, the property type exists iff present and is the raw string, the bedroom count exists iff present and holds the parsed integer; the result is well formed |
| Filters.ToDocument | routes/listings.js:13-27 | the document has only the keys "price", "property_type" and "bedrooms", each iff the record has the field, and the price entry has only "$gte" and "$lte" operators |
| Filters.RangeBounds | routes/listings.js:16-18 | the price operator map holds "$gte" iff the lower bound exists and "$lte" iff the upper bound exists, and nothing else |
| Filters.DocumentRoundTrip | routes/listings.js:13-27 | reading a filter back from its document gives the filter: the document loses nothing |
| Strings.Split | routes/listings.js:32 | `split(':')` gives at least one segment, no segment contains ':', and joining the segments with ':' gives the string back |
| Strings.SplitJoin | routes/listings.js:32 | splitting the join of ':'-free segments gives the segments back |
| Strings.SecondSegmentIs | routes/listings.js:32 | a text is the second segment iff the string starts with the first segment, ':' and that text, followed by the end or another ':' |
| Sorting.ParseSort | routes/listings.js:30-34 | an absent or empty sort parameter gives natural order; any other gives exactly one field and direction |
| Sorting.SortField | routes/listings.js:32 | the sort field is the text of the parameter before its first ':', or all of it when there is none |
| Sorting.SortDirection | routes/listings.js:33 | the direction is descending iff ":desc" follows the field and is followed by the end or another ':'; a missing, differently cased or other token is ascending |
| Sorting.DirectionValue | routes/listings.js:33 | a direction is encoded as 1 or -1, and -1 iff descending |
| Sorting.SortDocument | routes/listings.js:30-34 | natural order gives the empty sort document; a field and direction give a document whose only key is the field, mapped to the direction's value, except that the field "__proto__" leaves the document empty |
| Sorting.SortParameter | routes/listings.js:30-34 | the sort document of an empty parameter is empty; otherwise the field is the text before the first ':', the document is empty when that field is "__proto__", and else has that one key, mapped to -1 iff ":desc" follows it and to 1 in every other case |
| Sorting.SortRoundTrip | routes/listings.js:32-33 | parsing `<field>:desc` or `<field>:asc` for a field without ':' gives that field and direction back |
| Listings.BuildQuery | routes/listings.js:8-34 | the plan's page and size follow the `|| 1` and `|| 10` rules and are never 0, the offset is (page - 1) * size, the sort is the parsed `sort` parameter (natural iff it is absent or empty), and the filter is the one built from the four filter parameters and is well formed |
| Listings.RequestFilter | routes/listings.js:13-27 | the filter document of a request has only the three listing keys, each exactly when its parameters are present, with the bounds, property type and bedroom count taken from their own parameters |
| Listings.ListListings | routes/listings.js:36-54 | the response is the fixed error iff fetching or counting fails; otherwise its data is what the fetch returned for the plan's filter, sort, offset and size, its total is the count for the same filter document, its current page echoes the plan's, and its page count is the ceiling of total over size, for positive and negative sizes alike |
| Listings.DefaultQuery | routes/listings.js:8-34 | a request without parameters asks for page 1 of 10 records from offset 0, with an empty filter document and natural order |

## Left out

- Express routing, reading `req.query`, JSON serialisation and the HTTP status codes: HTTP plumbing; the response is a `Page` or `ServerError` value.
- The storage layer's query semantics (that returned records match the filter, follow the sort, number at most `limit`): the database enforces them, and the model treats `fetch` and `count` as opaque functions.
- `async`/`await` and the gap between the fetch and the count: the two reads are not atomic; the model passes both the same filter document but says nothing about concurrent writes.
- `console.error` in the catch block: logging.
- Exceptions other than storage failures (a parameter given twice arrives as an array, and `split` on it throws): the model takes each parameter as one string.
- JavaScript number parsing (`parseInt` prefixes, whitespace, `parseFloat`) and IEEE-754 doubles: parsing is a parameter, integers are unbounded, so page offsets beyond 2^53 are exact here and rounded in the code.
- What the store does with a negative offset or page size: outside this handler.
