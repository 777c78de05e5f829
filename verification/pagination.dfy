/** Page navigation as the notifications list and the customer table implement it: a
    current page starting at 1, Previous and Next handlers, one numbered button per page and
    the flags that disable Previous and Next. */
module Pagination {
  import opened Wrappers

  /** Rows per page of the customer table. */
  const UserLimit: nat := 8

  /** Both lists open on page 1. */
  const FirstPage: int := 1

  /** A numbered page button and whether it is highlighted as the current page. */
  datatype PageButton = PageButton(number: int, current: bool)

  /** The customer table's query argument. */
  datatype UserQuery = UserQuery(page: int, limit: nat, searchTerm: string)

  /** `handlePreviousPage`: go back one page unless already on page 1 or before. */
  function Previous(page: int): (p: int)
    ensures page > 1 ==> p == page - 1
    ensures page <= 1 ==> p == page
    ensures page >= 1 ==> p >= 1
  {
    if page > 1 then page - 1 else page
  }

  /** `handleNextPage`: advance only when the current page came back full, that is when the
      row count (missing when there is no data yet) is exactly the page size. */
  function Next(page: int, rowCount: Option<nat>, limit: nat): (p: int)
    ensures p == page + 1 <==> rowCount == Some(limit)
    ensures p != page + 1 ==> p == page
  {
    if rowCount == Some(limit) then page + 1 else page
  }

  /** `handlePageChange(i)`: jump to page `i`. */
  function GoTo(page: int, target: int): (p: int)
    ensures p == target
  {
    target
  }

  /** Previous is disabled exactly on page 1. */
  function PreviousDisabled(page: int): bool {
    page == 1
  }

  /** Next is disabled exactly when the page equals the reported page count; while the
      count is missing it is never disabled. */
  function NextDisabled(page: int, totalPages: Option<int>): bool {
    totalPages == Some(page)
  }

  /** Previous does something exactly when it is enabled, for every reachable page. */
  lemma PreviousEnabledIff(page: int)
    requires page >= 1
    ensures Previous(page) != page <==> !PreviousDisabled(page)
  {
  }

  /** The Next button and its handler disagree: on the last page the handler still advances
      when that page happened to be full, and on an earlier page that came back short the
      enabled button does nothing. */
  lemma NextEnabledDoesNotAgree()
    ensures NextDisabled(3, Some(3)) && Next(3, Some(UserLimit), UserLimit) == 4
    ensures !NextDisabled(1, Some(3)) && Next(1, Some(5), UserLimit) == 1
  {
  }

  /** A user action on the pager. */
  datatype Click = PrevClick | NextClick(rowCount: Option<nat>) | PageClick(target: nat)

  /** The page after a run of clicks. */
  function Run(page: int, clicks: seq<Click>, limit: nat): (p: int)
    decreases |clicks|
  {
    if |clicks| == 0 then page
    else
      var next := match clicks[0]
        case PrevClick => Previous(page)
        case NextClick(rows) => Next(page, rows, limit)
        case PageClick(t) => GoTo(page, t);
      Run(next, clicks[1..], limit)
  }

  /** Any run of Previous, Next and page-button clicks from a page >= 1 stays on a page
      >= 1, since the buttons are numbered from 1. */
  lemma {:induction false} RunStaysPositive(page: int, clicks: seq<Click>, limit: nat)
    requires page >= 1
    requires forall i :: 0 <= i < |clicks| && clicks[i].PageClick? ==> clicks[i].target >= 1
    ensures Run(page, clicks, limit) >= 1
    decreases |clicks|
  {
    if |clicks| > 0 {
      var next := match clicks[0]
        case PrevClick => Previous(page)
        case NextClick(rows) => Next(page, rows, limit)
        case PageClick(t) => GoTo(page, t);
      assert next >= 1;
      RunStaysPositive(next, clicks[1..], limit);
    }
  }

  /** `renderPageButtons()`: buttons numbered 1, 2, ... while `i <= pagination?.totalPages`;
      a missing page count compares false and gives no buttons. */
  method RenderPageButtons(totalPages: Option<int>, page: int) returns (buttons: seq<PageButton>)
    ensures totalPages.None? || totalPages.value < 1 ==> buttons == []
    ensures totalPages.Some? && totalPages.value >= 1 ==> |buttons| == totalPages.value
    ensures forall k :: 0 <= k < |buttons| ==> buttons[k].number == k + 1
    ensures forall k :: 0 <= k < |buttons| ==> (buttons[k].current <==> page == k + 1)
  {
    buttons := [];
    var i := 1;
    while totalPages.Some? && i <= totalPages.value
      invariant 1 <= i
      invariant |buttons| == i - 1
      invariant totalPages.Some? && totalPages.value >= 1 ==> i <= totalPages.value + 1
      invariant totalPages.None? || totalPages.value < 1 ==> buttons == []
      invariant forall k :: 0 <= k < |buttons| ==> buttons[k].number == k + 1
      invariant forall k :: 0 <= k < |buttons| ==> (buttons[k].current <==> page == k + 1)
      decreases if totalPages.Some? then totalPages.value - i + 1 else 0
    {
      buttons := buttons + [PageButton(i, page == i)];
      i := i + 1;
    }
  }

  /** Clicking the k-th button lands on a page in `1..totalPages`. */
  lemma ButtonClickInRange(totalPages: nat, k: nat)
    requires k < totalPages
    ensures 1 <= GoTo(1, k + 1) <= totalPages
  {
  }

  /** `useGetAllUsersQuery({ page: currentPage, limit, searchTerm: searchValue })`. */
  function UserTableQuery(page: int, searchValue: string): (q: UserQuery)
    ensures q.page == page && q.limit == 8 && q.searchTerm == searchValue
  {
    UserQuery(page, UserLimit, searchValue)
  }
}
