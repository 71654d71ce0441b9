/** Page and page-size defaults, the record offset of a page, and the
    page metadata returned with every result. Numbers arrive as the result
    of `parseInt`, with None standing for NaN. */
module Pagination {
  import opened Wrappers

  const DefaultPage: int := 1
  const DefaultLimit: int := 10

  /** JavaScript truthiness of a parseInt result: NaN and zero (-0 is the
      integer 0 here) are false, every other number is true. */
  predicate Truthy(n: Option<int>) {
    n.Some? && n.value != 0
  }

  /** `n || fallback` for a parseInt result `n`. */
  function OrElse(n: Option<int>, fallback: int): int {
    if Truthy(n) then n.value else fallback
  }

  /** The requested page: the parsed number when it is truthy, else page 1.
      Negative pages are passed through unclamped. */
  function PageNumber(parsed: Option<int>): (page: int)
    ensures page != 0
    ensures Truthy(parsed) ==> page == parsed.value
    ensures !Truthy(parsed) ==> page == DefaultPage
  {
    OrElse(parsed, DefaultPage)
  }

  /** The page size: the parsed number when it is truthy, else 10. It is
      never zero, so it can always divide; negative sizes are passed through. */
  function PageSize(parsed: Option<int>): (limit: int)
    ensures limit != 0
    ensures Truthy(parsed) ==> limit == parsed.value
    ensures !Truthy(parsed) ==> limit == DefaultLimit
  {
    OrElse(parsed, DefaultLimit)
  }

  /** Number of records before the first record of `page`. */
  function Skip(page: int, limit: int): int {
    (page - 1) * limit
  }

  /** For a page and size of at least 1 the offset is a non-negative multiple
      of the size, page 1 starts at record 0, and each page starts `limit`
      records after the one before it. */
  lemma SkipProperties(page: int, limit: int)
    requires page >= 1 && limit >= 1
    ensures Skip(page, limit) >= 0
    ensures Skip(page, limit) % limit == 0
    ensures page == 1 <==> Skip(page, limit) == 0
    ensures Skip(page + 1, limit) == Skip(page, limit) + limit
  {
    MulMonotone(0, page - 1, limit);
    if page > 1 {
      MulMonotone(1, page - 1, limit);
    }
    MulMod(page - 1, limit);
    assert page * limit == (page - 1) * limit + limit;
  }

  /** Multiplying by a non-negative factor keeps the order. */
  lemma MulMonotone(a: int, b: int, c: int)
    requires a <= b && c >= 0
    ensures a * c <= b * c
  {
    assert b * c - a * c == (b - a) * c;
  }

  /** A multiple of a positive number leaves no remainder. */
  lemma MulMod(a: int, b: int)
    requires b > 0
    ensures (a * b) % b == 0
  {
    var m := a * b;
    var q := m / b;
    var r := m % b;
    assert m == q * b + r && 0 <= r < b;
    var d := a - q;
    assert d * b == r by {
      assert d * b == a * b - q * b;
    }
    if d >= 1 {
      MulMonotone(1, d, b);
    } else if d <= -1 {
      MulMonotone(d, -1, b);
    }
    assert d == 0;
  }

  /** `q` is the least integer not below the exact quotient a / b. */
  predicate IsCeiling(q: int, a: int, b: int) {
    && (b > 0 ==> (q - 1) * b < a <= q * b)
    && (b < 0 ==> q * b <= a < (q - 1) * b)
  }

  /** Math.ceil(a / b) for a non-zero divisor of either sign: the least
      integer not below the exact quotient. */
  function CeilDiv(a: int, b: int): (q: int)
    requires b != 0
    ensures b > 0 ==> (q - 1) * b < a <= q * b
    ensures b < 0 ==> q * b <= a < (q - 1) * b
  {
    if b > 0 then -((-a) / b) else -(a / (-b))
  }

  /** The metadata sent with a page of results. */
  datatype PageMeta = PageMeta(currentPage: int, totalPages: int, totalItems: nat)

  /** Metadata for the requested page: the page number is echoed even when
      it lies beyond the last page, and the page count is the count of
      matching records divided by the page size, rounded up. */
  function Meta(page: int, limit: int, totalCount: nat): (m: PageMeta)
    requires limit != 0
    ensures m.currentPage == page
    ensures m.totalItems == totalCount
    ensures IsCeiling(m.totalPages, totalCount, limit)
    ensures limit > 0 ==> m.totalPages >= 0
  {
    PageMeta(page, CeilDiv(totalCount, limit), totalCount)
  }

  /** Any number of pages of `limit` records that holds all matching records
      is at least the reported page count: it is the least such number. */
  lemma TotalPagesLeast(limit: int, totalCount: nat, k: int)
    requires limit >= 1
    requires k * limit >= totalCount
    ensures Meta(1, limit, totalCount).totalPages <= k
  {
    var t := Meta(1, limit, totalCount).totalPages;
    if k < t {
      MulMonotone(k, t - 1, limit);
    }
  }

  /** No records match, so there are no pages. */
  lemma NoRecordsNoPages(page: int, limit: int)
    requires limit >= 1
    ensures Meta(page, limit, 0).totalPages == 0
  {
    TotalPagesLeast(limit, 0, 0);
  }

  /** A page from 1 to the page count starts inside the matching records;
      a page beyond the count starts past them, so its data is empty. */
  lemma PageInRange(page: int, limit: int, totalCount: nat)
    requires page >= 1 && limit >= 1
    ensures Skip(page, limit) < totalCount <==> page <= Meta(page, limit, totalCount).totalPages
  {
    var t := Meta(page, limit, totalCount).totalPages;
    if page <= t {
      MulMonotone(page - 1, t - 1, limit);
    } else {
      MulMonotone(t, page - 1, limit);
    }
  }
}
