/**
 * `paginationMiddleware`: turns the `page` and `limit` query strings into a
 * clamped page record and always calls `next`.
 */
module Pagination {
  import opened Wrappers

  const DEFAULT_LIMIT: int := 50
  const MAX_LIMIT: int := 200

  /** The record attached as `req.pagination`. */
  datatype Page = Page(page: int, limit: int, offset: int, hasNext: bool)

  /**
   * `parseInt(x) || fallback`: the parse result is an input (`None` for NaN);
   * NaN and 0 are falsy and give the fallback.
   */
  function OrFallback(parsed: Option<int>, fallback: int): (n: int)
    ensures parsed.Some? && parsed.value != 0 ==> n == parsed.value
    ensures parsed.None? || parsed.value == 0 ==> n == fallback
  {
    if parsed.Some? && parsed.value != 0 then parsed.value else fallback
  }

  function Max(a: int, b: int): int { if a >= b then a else b }
  function Min(a: int, b: int): int { if a <= b then a else b }

  /** The page number: a positive parse is kept, anything else becomes 1. */
  function PageNumber(parsedPage: Option<int>): (p: int)
    ensures p >= 1
    ensures parsedPage.Some? && parsedPage.value >= 1 ==> p == parsedPage.value
    ensures parsedPage.None? || parsedPage.value < 1 ==> p == 1
  {
    Max(1, OrFallback(parsedPage, 1))
  }

  /** The limit: 0 and NaN give 50, negatives give 1, and nothing exceeds 200. */
  function Limit(parsedLimit: Option<int>): (l: int)
    ensures 1 <= l <= MAX_LIMIT
    ensures parsedLimit.None? || parsedLimit.value == 0 ==> l == DEFAULT_LIMIT
    ensures parsedLimit.Some? && parsedLimit.value < 0 ==> l == 1
    ensures parsedLimit.Some? && 1 <= parsedLimit.value <= MAX_LIMIT ==> l == parsedLimit.value
    ensures parsedLimit.Some? && parsedLimit.value > MAX_LIMIT ==> l == MAX_LIMIT
  {
    Min(Max(1, OrFallback(parsedLimit, DEFAULT_LIMIT)), MAX_LIMIT)
  }

  /** The middleware's record; `next` is then called once, with no response. */
  function PaginationMiddleware(parsedPage: Option<int>, parsedLimit: Option<int>): (r: Page)
    ensures r.page == PageNumber(parsedPage) && r.limit == Limit(parsedLimit)
    ensures r.offset >= 0
    ensures !r.hasNext
  {
    var page := PageNumber(parsedPage);
    var limit := Limit(parsedLimit);
    var offset := (page - 1) * limit;
    assert offset >= 0 by { MulNonNegative(page - 1, limit); }
    Page(page, limit, offset, false)
  }

  lemma MulNonNegative(a: int, b: int)
    requires a >= 0 && b >= 0
    ensures a * b >= 0
  {
  }

  /** The offset is a whole number of pages, and dividing it by the limit gives back the page. */
  lemma {:induction false} OffsetSelectsPage(parsedPage: Option<int>, parsedLimit: Option<int>)
    ensures var r := PaginationMiddleware(parsedPage, parsedLimit);
      r.offset % r.limit == 0 && r.offset / r.limit == r.page - 1
  {
    var r := PaginationMiddleware(parsedPage, parsedLimit);
    DivExact(r.page - 1, r.limit);
  }

  lemma DivExact(q: int, d: int)
    requires q >= 0 && d >= 1
    ensures (q * d) % d == 0 && (q * d) / d == q
  {
    var n := q * d;
    var a, b := n / d, n % d;
    assert n == d * a + b && 0 <= b < d;
    assert d * (q - a) == b;
    MulSign(d, q - a);
  }

  /** The sign of a product with a positive factor: a non-zero multiple is at least that factor away from 0. */
  lemma MulSign(d: int, k: int)
    requires d >= 1
    ensures k >= 1 ==> d * k >= d
    ensures k <= -1 ==> d * k <= -d
  {
  }

  /** The first page starts at 0 and no other page does. */
  lemma FirstPageAtZero(parsedPage: Option<int>, parsedLimit: Option<int>)
    ensures var r := PaginationMiddleware(parsedPage, parsedLimit);
      r.offset == 0 <==> r.page == 1
  {
    var r := PaginationMiddleware(parsedPage, parsedLimit);
    if r.page > 1 {
      assert r.offset == (r.page - 1) * r.limit;
      MulPositive(r.page - 1, r.limit);
    }
  }

  lemma MulPositive(a: int, b: int)
    requires a >= 1 && b >= 1
    ensures a * b >= 1
  {
  }

  /** Consecutive pages are adjacent windows: the next page starts where this one ends. */
  lemma ConsecutivePagesTile(page: int, parsedLimit: Option<int>)
    requires page >= 1
    ensures PaginationMiddleware(Some(page + 1), parsedLimit).offset ==
      PaginationMiddleware(Some(page), parsedLimit).offset + Limit(parsedLimit)
  {
    var l := Limit(parsedLimit);
    assert (page + 1 - 1) * l == (page - 1) * l + l;
  }
}
