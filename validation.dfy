/** `validate_pagination_params`: the shared page/page-size guard. */
module Validation {

  import opened Common

  const PageError := HttpError(400, "페이지는 1 이상이어야 합니다.")
  const PageSizeError := HttpError(400, "페이지 크기는 1-100 사이여야 합니다.")
  const MaxPageSize := 100

  /** The error the guard raises, if any. The page is checked first. */
  function ValidatePaginationParams(page: int, pageSize: int): (r: Option<HttpError>)
    ensures r.None? <==> page >= 1 && 1 <= pageSize <= MaxPageSize
    ensures page < 1 ==> r == Some(PageError)
    ensures page >= 1 && r.Some? ==> r == Some(PageSizeError)
  {
    if page < 1 then Some(PageError)
    else if pageSize < 1 || pageSize > MaxPageSize then Some(PageSizeError)
    else None
  }

  /** Both checks fail: the page error wins. */
  lemma PageErrorFirst(page: int, pageSize: int)
    requires page < 1 && (pageSize < 1 || pageSize > MaxPageSize)
    ensures ValidatePaginationParams(page, pageSize) == Some(PageError)
  {
  }
}
