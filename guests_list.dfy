/**
 * Pagination of the seating list (app/components/tables/GuestsList.tsx): the
 * page record the server reports, the bounds-checked page change, the search
 * box that sends the list back to page 1, and the window of at most five page
 * buttons.
 */
module GuestsList {
  import opened Numbers

  /** The `pagination` state: which page is shown, and what the last response reported. */
  datatype Pagination = Pagination(currentPage: int, pageSize: int, totalItems: int, totalPages: int)

  /** `handlePageChange` only moves to a page that exists. */
  predicate PageChangeAccepted(p: Pagination, newPage: int) {
    1 <= newPage <= p.totalPages
  }

  /** The pagination after `handlePageChange(newPage)`: only `currentPage` may change, and only to an existing page. */
  function AfterPageChange(p: Pagination, newPage: int): (q: Pagination)
    ensures q.pageSize == p.pageSize && q.totalItems == p.totalItems && q.totalPages == p.totalPages
    ensures q.currentPage == (if PageChangeAccepted(p, newPage) then newPage else p.currentPage)
  {
    if 1 <= newPage <= p.totalPages then p.(currentPage := newPage) else p
  }

  /** Page changes keep the current page among the pages that exist, once it is there. */
  lemma PageChangeKeepsRange(p: Pagination, newPage: int)
    requires 1 <= p.currentPage <= p.totalPages
    ensures 1 <= AfterPageChange(p, newPage).currentPage <= AfterPageChange(p, newPage).totalPages
  {
  }

  /** A refused page change leaves the pagination exactly as it was. */
  lemma RefusedPageChangeIsNoOp(p: Pagination, newPage: int)
    requires !PageChangeAccepted(p, newPage)
    ensures AfterPageChange(p, newPage) == p
  {
  }

  /** The pagination bar is rendered only when there is more than one page. */
  predicate ShowsPagination(p: Pagination) {
    p.totalPages > 1
  }

  // ------------------------------------------------------- page window

  /** The page number shown on button `i` of the window. */
  function PageAt(i: int, currentPage: int, totalPages: int): int {
    if totalPages <= 5 then i + 1
    else if currentPage <= 3 then i + 1
    else if currentPage >= totalPages - 2 then totalPages - 4 + i
    else currentPage - 2 + i
  }

  /** `Array.from({ length: Math.min(5, totalPages) }, …)`: a negative length yields no button. */
  function PageWindow(currentPage: int, totalPages: int): (w: seq<int>)
    ensures |w| == Max(0, Min(5, totalPages))
  {
    seq(Max(0, Min(5, totalPages)), i => PageAt(i, currentPage, totalPages))
  }

  /** The buttons show consecutive pages in increasing order. */
  lemma WindowConsecutive(currentPage: int, totalPages: int)
    ensures var w := PageWindow(currentPage, totalPages);
      forall i :: 0 <= i < |w| - 1 ==> w[i + 1] == w[i] + 1
  {
  }

  /** With at most five pages, every page has its button, from 1 upwards. */
  lemma SmallWindowShowsAll(currentPage: int, totalPages: int)
    requires 0 <= totalPages <= 5
    ensures var w := PageWindow(currentPage, totalPages);
      |w| == totalPages && forall i :: 0 <= i < |w| ==> w[i] == i + 1
  {
  }

  /** On a page that exists, the window holds only existing pages and includes the current one. */
  lemma WindowCoversCurrentPage(currentPage: int, totalPages: int)
    requires 1 <= currentPage <= totalPages
    ensures var w := PageWindow(currentPage, totalPages);
      && (forall i :: 0 <= i < |w| ==> 1 <= w[i] <= totalPages)
      && currentPage in w
  {
    var w := PageWindow(currentPage, totalPages);
    var k :=
      if totalPages <= 5 || currentPage <= 3 then currentPage - 1
      else if currentPage >= totalPages - 2 then currentPage - totalPages + 4
      else 2;
    assert 0 <= k < |w| && w[k] == currentPage;
  }

  /** Every button of the window leads to a page `handlePageChange` accepts. */
  lemma WindowButtonsAccepted(p: Pagination, i: int)
    requires 1 <= p.currentPage <= p.totalPages
    requires 0 <= i < |PageWindow(p.currentPage, p.totalPages)|
    ensures PageChangeAccepted(p, PageWindow(p.currentPage, p.totalPages)[i])
  {
    WindowCoversCurrentPage(p.currentPage, p.totalPages);
  }

  // ------------------------------------------------ navigation buttons

  /** "««" and "‹ Anterior" are disabled on the first page or while loading. */
  predicate BackDisabled(p: Pagination, loading: bool) {
    p.currentPage == 1 || loading
  }

  /** "Siguiente ›" and "»»" are disabled on the last page or while loading. */
  predicate ForwardDisabled(p: Pagination, loading: bool) {
    p.currentPage == p.totalPages || loading
  }

  /**
   * On a page that exists and when not loading, "‹ Anterior" and
   * "Siguiente ›" are enabled exactly when the move they request would be
   * accepted, and "««"/"»»" when they lead somewhere else.
   */
  lemma ButtonsMatchAcceptedMoves(p: Pagination)
    requires 1 <= p.currentPage <= p.totalPages
    ensures !BackDisabled(p, false) <==> PageChangeAccepted(p, p.currentPage - 1)
    ensures !ForwardDisabled(p, false) <==> PageChangeAccepted(p, p.currentPage + 1)
    ensures !BackDisabled(p, false) <==> PageChangeAccepted(p, 1) && p.currentPage != 1
    ensures !ForwardDisabled(p, false) <==> PageChangeAccepted(p, p.totalPages) && p.currentPage != p.totalPages
  {
  }

  /** Loading disables every navigation button. */
  lemma LoadingDisablesNavigation(p: Pagination)
    ensures BackDisabled(p, true) && ForwardDisabled(p, true)
  {
  }

  /**
   * On a page that exists and when not loading, the pagination bar is shown
   * exactly when at least one direction can be taken: a bar is never shown
   * with every button disabled, and a single page offers no move.
   */
  lemma ShownBarIsNavigable(p: Pagination)
    requires 1 <= p.currentPage <= p.totalPages
    ensures ShowsPagination(p) <==> !BackDisabled(p, false) || !ForwardDisabled(p, false)
  {
  }

  // -------------------------------------------------------- component

  /** The list component's `pagination` and `searchFilter` state. */
  class GuestsList {
    var pagination: Pagination
    var searchFilter: string

    constructor ()
      ensures pagination == Pagination(1, 20, 0, 0) && searchFilter == ""
    {
      pagination := Pagination(1, 20, 0, 0);
      searchFilter := "";
    }

    /** `handlePageChange`: move to `newPage` when it exists; nothing else changes. */
    method HandlePageChange(newPage: int)
      modifies this
      ensures pagination == AfterPageChange(old(pagination), newPage)
      ensures searchFilter == old(searchFilter)
    {
      if 1 <= newPage <= pagination.totalPages {
        pagination := pagination.(currentPage := newPage);
      }
    }

    /** `handleSearchChange`: store the filter and go back to page 1. */
    method HandleSearchChange(value: string)
      modifies this
      ensures searchFilter == value
      ensures pagination == old(pagination).(currentPage := 1)
    {
      searchFilter := value;
      pagination := pagination.(currentPage := 1);
    }
  }
}
