/**
 * The response envelope (Response::success / Response::error), the paging
 * parameters every listing endpoint reads from the query string, and the
 * pagination metadata of Response::pagination.
 */
module Http {
  import opened Php
  import Config

  /**
   * What an endpoint answers: `Success` carries the data and message of
   * Response::success; `Failure` the HTTP status and error text of
   * Response::error. Both end the request.
   */
  datatype Response<T> =
    | Success(data: T, message: string)
    | Failure(code: int, error: string)

  /** The outcome of an endpoint's input checks: the accepted request, or the error it ends with. */
  datatype Checked<T> = Pass(value: T) | Reject(code: int, error: string)

  /** Response::error with its default status 400. */
  function BadRequest<T>(error: string): (r: Response<T>)
    ensures r.Failure? && r.code == 400
  {
    Failure(400, error)
  }

  function NotFound<T>(error: string): (r: Response<T>)
    ensures r.Failure? && r.code == 404
  {
    Failure(404, error)
  }

  function Forbidden<T>(error: string): (r: Response<T>)
    ensures r.Failure? && r.code == 403
  {
    Failure(403, error)
  }

  // ---------------------------------------------------------------- paging parameters

  /** `max(1, (int)($_GET['page'] ?? 1))`. */
  function PageParam(query: Value): (page: int)
    ensures page >= 1
    ensures !Isset(query, "page") ==> page == 1
    ensures Isset(query, "page") && ToInt(Get(query, "page")) >= 1 ==> page == ToInt(Get(query, "page"))
  {
    var p := ToInt(Coalesce(query, "page", VInt(1)));
    if p < 1 then 1 else p
  }

  /** `min(MAX_PAGE_SIZE, max(1, (int)($_GET['limit'] ?? DEFAULT_PAGE_SIZE)))`. */
  function LimitParam(query: Value): (limit: int)
    ensures 1 <= limit <= Config.MAX_PAGE_SIZE
    ensures !Isset(query, "limit") ==> limit == Config.DEFAULT_PAGE_SIZE
    ensures Isset(query, "limit") && 1 <= ToInt(Get(query, "limit")) <= Config.MAX_PAGE_SIZE
            ==> limit == ToInt(Get(query, "limit"))
  {
    var l := ToInt(Coalesce(query, "limit", VInt(Config.DEFAULT_PAGE_SIZE)));
    var atLeastOne := if l < 1 then 1 else l;
    if atLeastOne < Config.MAX_PAGE_SIZE then atLeastOne else Config.MAX_PAGE_SIZE
  }

  /** `($page - 1) * $limit`, the number of rows the page skips. */
  function Offset(page: int, limit: int): (offset: nat)
    requires page >= 1 && limit >= 1
    ensures offset + limit == page * limit
  {
    MulMonotone(1, page, limit);
    (page - 1) * limit
  }

  // ---------------------------------------------------------------- Response::pagination

  datatype PageMeta = PageMeta(
    currentPage: int,
    perPage: int,
    totalItems: int,
    totalPages: int,
    hasNext: bool,
    hasPrev: bool)

  datatype Paged<T> = Paged(items: seq<T>, pagination: PageMeta)

  /** `ceil($total / $limit)` on non-negative integers. */
  function CeilDiv(total: nat, limit: int): (pages: nat)
    requires limit >= 1
    ensures pages * limit >= total
    ensures pages * limit < total + limit
  {
    (total + limit - 1) / limit
  }

  /** Response::pagination: page metadata for `total` rows shown `limit` at a time. */
  function Pagination(total: nat, page: int, limit: int): (m: PageMeta)
    requires limit >= 1
    ensures m.totalPages == CeilDiv(total, limit)
    ensures m.hasNext <==> page * limit < total
    ensures m.hasPrev <==> page > 1
    ensures m.currentPage == page && m.perPage == limit && m.totalItems == total
  {
    PageMeta(page, limit, total, CeilDiv(total, limit), page * limit < total, page > 1)
  }

  /** There is a next page exactly when the current page is not the last one. */
  lemma HasNextIffNotLastPage(total: nat, page: int, limit: int)
    requires limit >= 1 && page >= 1
    ensures Pagination(total, page, limit).hasNext <==> page < Pagination(total, page, limit).totalPages
  {
    var pages := CeilDiv(total, limit);
    if page < pages {
      assert page + 1 <= pages;
      assert (page + 1) * limit <= pages * limit by {
        MulMonotone(page + 1, pages, limit);
      }
    } else {
      MulMonotone(pages, page, limit);
    }
  }

  lemma MulMonotone(a: int, b: int, c: int)
    requires a <= b && c >= 0
    ensures a * c <= b * c
  {
  }

  /** Response::pagination wrapped around one page of rows. */
  function Paginate<T>(items: seq<T>, total: nat, page: int, limit: int): (r: Paged<T>)
    requires limit >= 1
    ensures r.items == items && r.pagination == Pagination(total, page, limit)
  {
    Paged(items, Pagination(total, page, limit))
  }
}
