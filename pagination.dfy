/**
 * The pagination component and the pager rules of the list pages.
 */
module Pagination {
  import opened Wrappers

  const DefaultPageSizeOptions := [10, 20, 50]

  /** The component renders nothing when there are no pages. */
  predicate Renders(totalPages: int) {
    totalPages != 0
  }

  predicate PrevDisabled(currentPage: int) {
    currentPage == 0
  }

  predicate NextDisabled(currentPage: int, totalPages: int) {
    currentPage >= totalPages - 1
  }

  /** The page requested by a click on "previous". */
  function PrevTarget(currentPage: int): int {
    currentPage - 1
  }

  /** The page requested by a click on "next". */
  function NextTarget(currentPage: int): int {
    currentPage + 1
  }

  /** The "n of m" indicator: `m` is `Math.max(1, totalPages)`, the least count that is at least both. */
  function Indicator(currentPage: int, totalPages: int): (r: (int, int))
    ensures r.1 >= 1 && r.1 >= totalPages
    ensures r.1 == 1 || r.1 == totalPages
    ensures r.0 == currentPage + 1
  {
    (currentPage + 1, if totalPages > 1 then totalPages else 1)
  }

  /** From a page in range, every enabled button leads to a page in range. */
  lemma TargetsInRange(currentPage: int, totalPages: int)
    requires 0 <= currentPage < totalPages
    ensures Renders(totalPages)
    ensures !PrevDisabled(currentPage) ==> 0 <= PrevTarget(currentPage) < totalPages
    ensures !NextDisabled(currentPage, totalPages) ==> 0 <= NextTarget(currentPage) < totalPages
    ensures PrevDisabled(currentPage) <==> currentPage == 0
    ensures NextDisabled(currentPage, totalPages) <==> currentPage == totalPages - 1
  {
  }

  /** What the pages know of the loaded page: its number and the number of pages. */
  datatype PageInfo = PageInfo(number: int, totalPages: int)

  /** `canPrev`: a page is loaded and it is not the first. */
  predicate CanPrev(data: Option<PageInfo>) {
    data.Some? && data.value.number > 0
  }

  /** `canNext`: a page is loaded and it is not the last. */
  predicate CanNext(data: Option<PageInfo>) {
    data.Some? && data.value.number + 1 < data.value.totalPages
  }

  /** On a loaded page with a non-negative number the pages' rules and the component's agree. */
  lemma PagerAgreesWithComponent(p: PageInfo)
    requires p.number >= 0
    ensures CanPrev(Some(p)) <==> !PrevDisabled(p.number)
    ensures CanNext(Some(p)) <==> !NextDisabled(p.number, p.totalPages)
  {
  }

  /** The indicator of the company users pager: `0 of 0` before a page is loaded. */
  function UsersIndicator(data: Option<PageInfo>): (r: (int, int))
    ensures data.None? ==> r == (0, 0)
    ensures data.Some? ==> r == Indicator(data.value.number, data.value.totalPages)
  {
    if data.None? then (0, 0) else Indicator(data.value.number, data.value.totalPages)
  }

  /** The company users pager steps back with `Math.max(0, p - 1)` and forward with `p + 1`. */
  function UsersPrevPage(p: int): (r: int)
    ensures r >= 0 && r <= (if p > 0 then p else 0)
    ensures p > 0 ==> r == p - 1
  {
    if p - 1 > 0 then p - 1 else 0
  }

  /** The categories pager is shown only when there is more than one page. */
  predicate CategoriesPagerShown(data: Option<PageInfo>) {
    data.Some? && data.value.totalPages > 1
  }

  /** Whenever the categories pager is shown, at least one of its buttons is enabled. */
  lemma ShownPagerHasAWayOut(p: PageInfo)
    requires CategoriesPagerShown(Some(p)) && 0 <= p.number < p.totalPages
    ensures CanPrev(Some(p)) || CanNext(Some(p))
  {
  }
}
