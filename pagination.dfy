/**
 * `paginate_query`: a LIMIT/OFFSET window over the rows of a query, each row
 * mapped through a representer, with the requested page and page size echoed
 * back. The database refuses a negative LIMIT or OFFSET.
 */
module Pagination {
  import opened Common

  const DefaultPage := 1
  const DefaultPerPage := 10

  datatype PaginationParams = PaginationParams(perPage: int, page: int)

  const DefaultParams := PaginationParams(DefaultPerPage, DefaultPage)

  /** PaginatedResponse, without the `pages` field, which is never filled in. */
  datatype PaginatedResponse<T> = PaginatedResponse(page: int, perPage: int, items: seq<T>)

  function Min(a: int, b: int): int {
    if a < b then a else b
  }

  /** The OFFSET of a page: the rows of all earlier pages are skipped. */
  function Offset(params: PaginationParams): (r: int)
    ensures params.page >= 1 && params.perPage >= 0 ==> r >= 0
    ensures params.page == 1 ==> r == 0
    ensures params.perPage > 0 && params.page < 1 ==> r < 0
  {
    (params.page - 1) * params.perPage
  }

  /** `LIMIT limit OFFSET offset` over rows in query order. */
  function Window<T>(rows: seq<T>, limit: nat, offset: nat): (w: seq<T>)
    ensures |w| <= limit
    ensures |w| == if offset >= |rows| then 0 else Min(limit, |rows| - offset)
    ensures forall i :: 0 <= i < |w| ==> w[i] == rows[offset + i]
  {
    if offset >= |rows| then [] else rows[offset..offset + Min(limit, |rows| - offset)]
  }

  function Paginate<T, U>(rows: seq<T>, params: PaginationParams, represent: T -> U)
    : (r: Result<PaginatedResponse<U>>)
    ensures r.Err? <==> params.perPage < 0 || Offset(params) < 0
    ensures r.Err? ==> r.error == DatabaseError
    ensures r.Ok? ==> r.value.page == params.page && r.value.perPage == params.perPage
    ensures r.Ok? ==> |r.value.items| <= params.perPage
    ensures r.Ok? ==>
      |r.value.items| == if Offset(params) >= |rows| then 0 else Min(params.perPage, |rows| - Offset(params))
    ensures r.Ok? ==>
      forall i :: 0 <= i < |r.value.items| ==> r.value.items[i] == represent(rows[Offset(params) + i])
  {
    if params.perPage < 0 || Offset(params) < 0 then Err(DatabaseError)
    else
      var window := Window(rows, params.perPage, Offset(params));
      Ok(PaginatedResponse(params.page, params.perPage, seq(|window|, i requires 0 <= i < |window| => represent(window[i]))))
  }

  /**
   * Every row is on exactly the page its position says: row k is item
   * k % perPage of page k / perPage + 1.
   */
  lemma EveryRowOnItsPage<T, U>(rows: seq<T>, perPage: int, k: int, represent: T -> U)
    requires perPage > 0 && 0 <= k < |rows|
    ensures Paginate(rows, PaginationParams(perPage, k / perPage + 1), represent).Ok?
    ensures k % perPage < |Paginate(rows, PaginationParams(perPage, k / perPage + 1), represent).value.items|
    ensures Paginate(rows, PaginationParams(perPage, k / perPage + 1), represent).value.items[k % perPage]
              == represent(rows[k])
  {
    var params := PaginationParams(perPage, k / perPage + 1);
    assert Offset(params) == (k / perPage) * perPage;
    assert Offset(params) + k % perPage == k;
    assert 0 <= Offset(params) <= k;
  }

  /** With the default parameters the response holds the first ten rows. */
  lemma DefaultIsFirstTenRows<T, U>(rows: seq<T>, represent: T -> U)
    ensures Paginate(rows, DefaultParams, represent).Ok?
    ensures |Paginate(rows, DefaultParams, represent).value.items| == Min(DefaultPerPage, |rows|)
    ensures forall i :: 0 <= i < Min(DefaultPerPage, |rows|) ==>
              Paginate(rows, DefaultParams, represent).value.items[i] == represent(rows[i])
  {
  }
}
