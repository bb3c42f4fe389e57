/** pkg/support/paginate/paginator.go: page arithmetic for list endpoints. */
module Paginate {

  /** The pagination summary returned beside a page of rows. */
  datatype Paginator = Paginator(page: int, limit: int, total: int, totalPages: int)

  /**
   * The number of pages needed for `total` rows at `limit` rows a page: zero
   * when there is nothing to page or no page size, otherwise the ceiling of
   * total / limit.
   */
  function ResolveTotalPages(total: int, limit: int): (pages: int)
    ensures total <= 0 || limit <= 0 ==> pages == 0
    ensures total > 0 && limit > 0 ==> pages >= 1 && (pages - 1) * limit < total <= pages * limit
  {
    if total <= 0 then 0
    else if limit <= 0 then 0
    else
      var pages := total / limit;
      var pages := if total % limit > 0 then pages + 1 else pages;
      assert (total / limit) * limit + total % limit == total;
      pages
  }

  /** The ceiling characterisation pins the page count down uniquely. */
  lemma TotalPagesUnique(total: int, limit: int, pages: int)
    requires total > 0 && limit > 0
    requires (pages - 1) * limit < total <= pages * limit
    ensures pages == ResolveTotalPages(total, limit)
  {
    var p := ResolveTotalPages(total, limit);
    if pages < p {
      assert pages * limit <= (p - 1) * limit by { MulMono(pages, p - 1, limit); }
    } else if pages > p {
      assert p * limit <= (pages - 1) * limit by { MulMono(p, pages - 1, limit); }
    }
  }

  lemma MulMono(a: int, b: int, k: int)
    requires a <= b && k >= 0
    ensures a * k <= b * k
  {
  }

  function Populate(page: int, limit: int, total: int): (p: Paginator)
    ensures p.page == page && p.limit == limit && p.total == total
    ensures total > 0 && limit > 0 ==> (p.totalPages - 1) * limit < total <= p.totalPages * limit
    ensures total <= 0 || limit <= 0 ==> p.totalPages == 0
  {
    Paginator(page, limit, total, ResolveTotalPages(total, limit))
  }

  /**
   * The number of rows to skip for a page, as written: a negative page is
   * treated as page 1, but page 0 is not.
   */
  function ResolveOffset(page: int, limit: int): (offset: int)
    ensures page < 0 ==> offset == 0
  {
    var page := if page < 0 then 1 else page;
    (page - 1) * limit
  }

  /** Page 0 skips a negative number of rows. */
  lemma ResolveOffsetPageZero(limit: int)
    requires limit > 0
    ensures ResolveOffset(0, limit) == -limit < 0
    ensures ResolveOffset(0, limit) != ResolveOffset(-1, limit)
  {
  }

  /** The intended offset: every page below 1 is the first page. */
  function ResolveOffsetIntended(page: int, limit: int): (offset: int)
    ensures limit >= 0 ==> offset >= 0
    ensures page < 1 ==> offset == 0
  {
    var page := if page < 1 then 1 else page;
    (page - 1) * limit
  }

  /** Both definitions agree on every page but page 0, which the callers map to page 1. */
  lemma OffsetsAgreeOffPageZero(page: int, limit: int)
    requires page != 0
    ensures ResolveOffset(page, limit) == ResolveOffsetIntended(page, limit)
  {
  }

  /** Consecutive pages are adjacent windows of `limit` rows. */
  lemma {:induction false} ConsecutivePages(page: int, limit: int)
    requires page >= 1
    ensures ResolveOffset(page + 1, limit) == ResolveOffset(page, limit) + limit
  {
    assert page * limit == (page - 1) * limit + limit;
  }

  /**
   * Every row of a non-empty result lies on exactly one of the pages 1 to
   * ResolveTotalPages(total, limit): the page (row / limit) + 1.
   */
  lemma RowOnPage(row: int, total: int, limit: int)
    requires 0 <= row < total && limit > 0
    ensures var p := row / limit + 1;
      1 <= p <= ResolveTotalPages(total, limit) &&
      ResolveOffset(p, limit) <= row < ResolveOffset(p, limit) + limit
  {
    var q, m := row / limit, row % limit;
    assert q * limit + m == row && 0 <= m < limit;
    assert q >= 0;
    assert ResolveOffset(q + 1, limit) == q * limit;
    var pages := ResolveTotalPages(total, limit);
    if pages <= q {
      MulMono(pages, q, limit);
      assert false;
    }
  }
}
