/** pkg/support/page_list/page_list.go: a page of rows with its pagination summary. */
module PageList {
  import Paginate

  datatype PaginateInfo = PaginateInfo(page: int, limit: int, total: int, totalPages: int)

  datatype PageList<T> = PageList(paginate: PaginateInfo, list: seq<T>)

  /**
   * `populate` uses the page count of pkg/support/helper, which is not part of
   * this model; it is taken to be the page count of pkg/support/paginate.
   */
  function Populate(page: int, limit: int, total: int): (p: PaginateInfo)
    ensures p.page == page && p.limit == limit && p.total == total
    ensures total > 0 && limit > 0 ==> p.totalPages >= 1 && (p.totalPages - 1) * limit < total <= p.totalPages * limit
    ensures total <= 0 || limit <= 0 ==> p.totalPages == 0
  {
    PaginateInfo(page, limit, total, Paginate.ResolveTotalPages(total, limit))
  }

  /** The rows are kept as given, in order, beside the summary of the page they came from. */
  function NewPageList<T>(list: seq<T>, page: int, limit: int, total: int): (r: PageList<T>)
    ensures r.list == list
    ensures r.paginate.page == page && r.paginate.limit == limit && r.paginate.total == total
    ensures r.paginate.totalPages == Paginate.Populate(page, limit, total).totalPages
  {
    PageList(Populate(page, limit, total), list)
  }
}
