// The paging footer of the enhanced table
// (src/common/data-table/EnhancedDataTable.tsx). It holds no state: the parent
// passes a pagination descriptor and the current page, and the footer emits
// page numbers to the optional `onPageChange` callback.

module EnhancedDataTable {
  import opened Wrappers
  import opened Pagination

  /** The descriptor the data source computes: `total` rows, `limit` per page,
      `totalPages` pages. */
  datatype PaginationInfo = PaginationInfo(total: int, page: int, limit: int, totalPages: int)

  /** The "Showing X to Y of Z results" line. */
  datatype Summary = Summary(from: int, to: int, of: int)

  /** The page list as a reference definition: nothing without a descriptor;
      all pages when there are at most five; otherwise five consecutive pages,
      pinned to the start up to page 3 and to the end from the third-last page. */
  function PageNumbers(pagination: Option<PaginationInfo>, currentPage: int): seq<int>
  {
    match pagination
    case None => []
    case Some(p) =>
      if p.totalPages <= 5 then Range(1, p.totalPages + 1)
      else if currentPage <= 3 then Range(1, 6)
      else if currentPage >= p.totalPages - 2 then Range(p.totalPages - 4, p.totalPages + 1)
      else Range(currentPage - 2, currentPage + 3)
  }

  /** `getPageNumbers`, with its three loops. */
  method GetPageNumbers(pagination: Option<PaginationInfo>, currentPage: int) returns (pages: seq<int>)
    ensures pages == PageNumbers(pagination, currentPage)
  {
    if pagination.None? {
      return [];
    }
    var totalPages := pagination.value.totalPages;
    pages := [];
    var maxVisible := 5;
    var lo, hi;
    if totalPages <= maxVisible {
      lo, hi := 1, totalPages;
    } else if currentPage <= 3 {
      lo, hi := 1, 5;
    } else if currentPage >= totalPages - 2 {
      lo, hi := totalPages - 4, totalPages;
    } else {
      lo, hi := currentPage - 2, currentPage + 2;
    }
    var i := lo;
    while i <= hi
      invariant lo <= i <= if lo <= hi then hi + 1 else lo
      invariant pages == Range(lo, i)
    {
      assert Range(lo, i) + [i] == Range(lo, i + 1);
      pages := pages + [i];
      i := i + 1;
    }
  }

  /** What `handlePrevious` hands to `onPageChange`: the page before, only
      after page 1. */
  function HandlePrevious(currentPage: int): (emitted: Option<int>)
    ensures emitted.Some? <==> currentPage > 1
    ensures emitted.Some? ==> emitted.value == currentPage - 1
  {
    if currentPage > 1 then Some(currentPage - 1) else None
  }

  /** What `handleNext` hands to `onPageChange`: the page after, only when
      there is a descriptor and the current page is before its last page. */
  function HandleNext(pagination: Option<PaginationInfo>, currentPage: int): (emitted: Option<int>)
    ensures emitted.Some? <==> pagination.Some? && currentPage < pagination.value.totalPages
    ensures emitted.Some? ==> emitted.value == currentPage + 1
  {
    if pagination.Some? && currentPage < pagination.value.totalPages then Some(currentPage + 1) else None
  }

  /** A numbered button hands its own page to `onPageChange`. */
  function HandlePageChange(page: int): Option<int>
  {
    Some(page)
  }

  /** The footer (summary, Previous, pages, Next) is rendered only with a
      descriptor of more than one page. */
  predicate FooterVisible(pagination: Option<PaginationInfo>)
  {
    pagination.Some? && pagination.value.totalPages > 1
  }

  function ShowingSummary(p: PaginationInfo, currentPage: int): Summary
  {
    var upper := currentPage * p.limit;
    Summary((currentPage - 1) * p.limit + 1, if upper <= p.total then upper else p.total, p.total)
  }

  /** The Previous and Next buttons are disabled on the first and last page. */
  predicate PreviousDisabled(currentPage: int)
  {
    currentPage == 1
  }

  predicate NextButtonDisabled(pagination: Option<PaginationInfo>, currentPage: int)
  {
    pagination.None? || currentPage == pagination.value.totalPages
  }

  // ---------------------------------------------------------------------------

  /** No descriptor, no pages. */
  lemma NoDescriptorNoPages(currentPage: int)
    ensures PageNumbers(None, currentPage) == []
  {
  }

  /** At most five pages: the list is 1..totalPages. */
  lemma SmallPageList(p: PaginationInfo, currentPage: int)
    requires 0 <= p.totalPages <= 5
    ensures var pages := PageNumbers(Some(p), currentPage);
      |pages| == p.totalPages && forall k :: 0 <= k < |pages| ==> pages[k] == k + 1
  {
  }

  /** More than five pages: five consecutive pages inside [1, totalPages], and
      the current page is among them when it is in range. */
  lemma {:induction false} LargePageList(p: PaginationInfo, currentPage: int)
    requires p.totalPages > 5
    ensures var pages := PageNumbers(Some(p), currentPage);
      |pages| == 5 && 1 <= pages[0] && pages[4] <= p.totalPages &&
      (forall k :: 0 < k < 5 ==> pages[k] == pages[k - 1] + 1) &&
      (1 <= currentPage <= p.totalPages ==> currentPage in pages)
  {
    var pages := PageNumbers(Some(p), currentPage);
    if 1 <= currentPage <= p.totalPages {
      assert pages[currentPage - pages[0]] == currentPage;
    }
  }

  /** Every page number on the footer is distinct and in range. */
  lemma PageListInRange(pagination: Option<PaginationInfo>, currentPage: int)
    ensures var pages := PageNumbers(pagination, currentPage);
      StrictlyIncreasing(pages) &&
      forall k :: 0 <= k < |pages| ==> 1 <= pages[k] <= pagination.value.totalPages
  {
  }

  /** Previous, Next and the numbered buttons emit only pages inside
      [1, totalPages], and a disabled button's handler would emit nothing. */
  lemma EmittedPagesInRange(p: PaginationInfo, currentPage: int)
    requires 1 <= currentPage <= p.totalPages
    ensures forall page :: page in PageNumbers(Some(p), currentPage) ==>
      HandlePageChange(page) == Some(page) && 1 <= page <= p.totalPages
    ensures HandlePrevious(currentPage).Some? ==> 1 <= HandlePrevious(currentPage).value <= p.totalPages
    ensures HandleNext(Some(p), currentPage).Some? ==> 1 <= HandleNext(Some(p), currentPage).value <= p.totalPages
    ensures PreviousDisabled(currentPage) ==> HandlePrevious(currentPage).None?
    ensures NextButtonDisabled(Some(p), currentPage) ==> HandleNext(Some(p), currentPage).None?
  {
    PageListInRange(Some(p), currentPage);
  }

  /** When the descriptor's page count is the ceiling of total/limit and the
      page is in range, the summary names a non-empty range of existing rows. */
  lemma SummaryBounds(p: PaginationInfo, currentPage: int)
    requires p.total > 0 && p.limit > 0 && p.totalPages == PageCount(p.total, p.limit)
    requires 1 <= currentPage <= p.totalPages
    ensures var s := ShowingSummary(p, currentPage);
      1 <= s.from <= s.to <= s.of == p.total && s.to - s.from < p.limit
  {
    RangeLabelBounds(p.total, currentPage, p.limit);
  }

  /** The two pagination components place their windows differently: at page
      4 of 12 this one shows 2..6 while the stand-alone bar shows 1..5. */
  lemma WindowsDiffer()
    ensures PageNumbers(Some(PaginationInfo(120, 4, 10, 12)), 4) == [2, 3, 4, 5, 6]
    ensures Window(12, 4) == [1, 2, 3, 4, 5]
  {
    assert PageNumbers(Some(PaginationInfo(120, 4, 10, 12)), 4) == [2, 3, 4, 5, 6];
    assert Window(12, 4) == [1, 2, 3, 4, 5];
  }
}
