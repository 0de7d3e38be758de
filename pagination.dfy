// The stand-alone pagination bar (src/common/Pagination.tsx): its three state
// cells, the page count derived from the data size and the rows per page, the
// five-button sliding window with the separate first and last buttons, the
// "start-end of N" label, and the Prev/Next rules.

module Pagination {

  /** The number of numbered buttons the window shows at most. */
  const MaxButtonsToShow: int := 5

  /** The page count the effect computes: 1 when there is less than one page of
      data, otherwise the number of pages needed to hold all the rows. */
  function PageCount(numberOfData: int, rowsPerPage: int): (r: int)
    requires rowsPerPage > 0
    ensures r >= 1
    ensures numberOfData <= rowsPerPage ==> r == 1
    ensures numberOfData > 0 ==> (r - 1) * rowsPerPage < numberOfData <= r * rowsPerPage
  {
    if numberOfData < rowsPerPage then 1
    else
      var q := (numberOfData + rowsPerPage - 1) / rowsPerPage;
      CeilBounds(numberOfData, rowsPerPage);
      q
  }

  lemma CeilBounds(n: int, d: int)
    requires d > 0 && n >= d
    ensures var q := (n + d - 1) / d; q >= 1 && (q - 1) * d < n <= q * d
  {
    var q := (n + d - 1) / d;
    var m := (n + d - 1) % d;
    assert n + d - 1 == q * d + m && 0 <= m < d;
    assert q * d == n + d - 1 - m;
    assert (q - 1) * d == q * d - d;
  }

  /** The consecutive pages lo, lo+1, ..., hi-1. */
  function Range(lo: int, hi: int): (r: seq<int>)
    ensures |r| == if lo < hi then hi - lo else 0
    ensures forall k :: 0 <= k < |r| ==> r[k] == lo + k
  {
    if lo >= hi then [] else seq(hi - lo, k => lo + k)
  }

  /** Where the five-button window starts when there are more than five pages. */
  function WindowStart(numberOfPage: int, currentPage: int): int
  {
    if currentPage <= 5 then 1
    else if currentPage > numberOfPage - 4 then numberOfPage - 4
    else currentPage - 2
  }

  /** The numbered buttons between Prev and Next, as a reference definition:
      every page when there are at most five, otherwise five consecutive pages
      from `WindowStart`. */
  function Window(numberOfPage: int, currentPage: int): seq<int>
  {
    if numberOfPage <= MaxButtonsToShow then Range(1, numberOfPage + 1)
    else Range(WindowStart(numberOfPage, currentPage), WindowStart(numberOfPage, currentPage) + 5)
  }

  /** The separate "1 ..." pair before the window is rendered. */
  predicate ShowsFirstButton(numberOfPage: int, currentPage: int)
  {
    currentPage > 5 && numberOfPage > 5
  }

  /** The separate "... last" pair after the window is rendered. */
  predicate ShowsLastButton(numberOfPage: int, currentPage: int)
  {
    currentPage <= numberOfPage - 5 && numberOfPage > 5
  }

  /** Every numbered button of the bar, left to right. */
  function Buttons(numberOfPage: int, currentPage: int): seq<int>
  {
    (if ShowsFirstButton(numberOfPage, currentPage) then [1] else [])
    + Window(numberOfPage, currentPage)
    + (if ShowsLastButton(numberOfPage, currentPage) then [numberOfPage] else [])
  }

  /** The "start-end of N" label. */
  function StartIdx(numberOfData: int, currentPage: int, rowsPerPage: int): int
  {
    if numberOfData == 0 then 0 else (currentPage - 1) * rowsPerPage + 1
  }

  function EndIdx(numberOfData: int, currentPage: int, rowsPerPage: int): int
  {
    if currentPage * rowsPerPage <= numberOfData then currentPage * rowsPerPage else numberOfData
  }

  predicate PrevDisabled(currentPage: int)
  {
    currentPage == 1
  }

  predicate NextDisabled(numberOfPage: int, currentPage: int)
  {
    numberOfPage <= 1 || numberOfPage == currentPage
  }

  predicate StrictlyIncreasing(s: seq<int>)
  {
    forall i, j :: 0 <= i < j < |s| ==> s[i] < s[j]
  }

  class PaginationBar {
    // props
    var numberOfData: int
    var limits: int
    // state cells
    var numberOfPage: int
    var currentPage: int
    var rowsPerPage: int
    // the optional callbacks and the pages reported to each, in call order
    const hasGetCurrentPage: bool
    const hasOnPageChange: bool
    var currentPageReports: seq<int>
    var pageChangeReports: seq<int>

    ghost predicate Valid()
      reads this
    {
      limits > 0 && rowsPerPage > 0 && numberOfPage >= 1
    }

    /** Mounting: the state cells start as one page, the active page and
        the given limit, then the page-count effect runs with that limit
        (the `limits` effect writes the same limit again). */
    constructor (numberOfData: int, limits: int, activePage: int, hasGetCurrentPage: bool, hasOnPageChange: bool)
      requires limits > 0
      ensures Valid()
      ensures this.numberOfData == numberOfData && this.limits == limits
      ensures numberOfPage == PageCount(numberOfData, limits)
      ensures currentPage == activePage && rowsPerPage == limits
      ensures this.hasGetCurrentPage == hasGetCurrentPage && this.hasOnPageChange == hasOnPageChange
      ensures currentPageReports == [] && pageChangeReports == []
    {
      this.numberOfData := numberOfData;
      this.limits := limits;
      numberOfPage := 1;
      currentPage := activePage;
      rowsPerPage := limits;
      this.hasGetCurrentPage := hasGetCurrentPage;
      this.hasOnPageChange := hasOnPageChange;
      currentPageReports := [];
      pageChangeReports := [];
      new;
      if numberOfData < rowsPerPage {
        numberOfPage := 1;
      } else {
        numberOfPage := PageCount(numberOfData, rowsPerPage);
      }
      rowsPerPage := limits;
    }

    /** New props arrive and both effects settle: `rowsPerPage` follows
        `limits`, the page count follows the data size. The current page is
        kept as it is, even when it now lies past the last page. */
    method ReceiveProps(numberOfData: int, limits: int)
      requires Valid() && limits > 0
      modifies this
      ensures Valid()
      ensures this.numberOfData == numberOfData && this.limits == limits
      ensures rowsPerPage == limits
      ensures numberOfPage == PageCount(numberOfData, limits)
      ensures currentPage == old(currentPage)
      ensures currentPageReports == old(currentPageReports) && pageChangeReports == old(pageChangeReports)
    {
      this.numberOfData := numberOfData;
      this.limits := limits;
      rowsPerPage := limits;
      if numberOfData < rowsPerPage {
        numberOfPage := 1;
      } else {
        numberOfPage := PageCount(numberOfData, rowsPerPage);
      }
    }

    /** Choosing the button at index `index` (page `index + 1`). */
    method SetLimitHandler(index: int)
      requires Valid()
      modifies this
      ensures Valid()
      ensures currentPage == index + 1
      ensures currentPageReports == old(currentPageReports) + (if hasGetCurrentPage then [index + 1] else [])
      ensures pageChangeReports == old(pageChangeReports) + (if hasOnPageChange then [index + 1] else [])
      ensures numberOfData == old(numberOfData) && limits == old(limits)
      ensures numberOfPage == old(numberOfPage) && rowsPerPage == old(rowsPerPage)
    {
      currentPage := index + 1;
      if hasGetCurrentPage {
        currentPageReports := currentPageReports + [index + 1];
      }
      if hasOnPageChange {
        pageChangeReports := pageChangeReports + [index + 1];
      }
    }

    /** `getDisplayedPages`. */
    method GetDisplayedPages() returns (pages: seq<int>)
      ensures pages == Window(numberOfPage, currentPage)
    {
      var maxButtonsToShow := 5;
      pages := [];
      if numberOfPage <= maxButtonsToShow {
        var i := 1;
        while i <= numberOfPage
          invariant 1 <= i <= if numberOfPage >= 0 then numberOfPage + 1 else 1
          invariant pages == Range(1, i)
        {
          assert Range(1, i) + [i] == Range(1, i + 1);
          pages := pages + [i];
          i := i + 1;
        }
      } else {
        if currentPage <= 5 {
          pages := [1, 2, 3, 4, 5];
        } else if currentPage > numberOfPage - 4 {
          pages := [numberOfPage - 4, numberOfPage - 3, numberOfPage - 2, numberOfPage - 1, numberOfPage];
        } else {
          pages := [currentPage - 2, currentPage - 1, currentPage, currentPage + 1, currentPage + 2];
        }
        var start := WindowStart(numberOfPage, currentPage);
        assert forall k :: 0 <= k < 5 ==> pages[k] == Range(start, start + 5)[k];
      }
    }

    /** The Prev button: disabled on page 1, otherwise one page back. */
    method ClickPrev()
      requires Valid()
      modifies this
      ensures Valid()
      ensures PrevDisabled(old(currentPage)) ==> currentPage == old(currentPage)
      ensures !PrevDisabled(old(currentPage)) ==> currentPage == old(currentPage) - 1
      ensures 1 <= old(currentPage) <= numberOfPage ==> 1 <= currentPage <= numberOfPage
      ensures currentPageReports == old(currentPageReports) +
        (if hasGetCurrentPage && !PrevDisabled(old(currentPage)) then [old(currentPage) - 1] else [])
      ensures pageChangeReports == old(pageChangeReports) +
        (if hasOnPageChange && !PrevDisabled(old(currentPage)) then [old(currentPage) - 1] else [])
      ensures numberOfData == old(numberOfData) && limits == old(limits)
      ensures numberOfPage == old(numberOfPage) && rowsPerPage == old(rowsPerPage)
    {
      if !PrevDisabled(currentPage) {
        SetLimitHandler(currentPage - 2);
      }
    }

    /** The Next button: disabled on the last page or when there is one page,
        otherwise one page on. */
    method ClickNext()
      requires Valid()
      modifies this
      ensures Valid()
      ensures NextDisabled(old(numberOfPage), old(currentPage)) ==> currentPage == old(currentPage)
      ensures !NextDisabled(old(numberOfPage), old(currentPage)) ==> currentPage == old(currentPage) + 1
      ensures 1 <= old(currentPage) <= numberOfPage ==> 1 <= currentPage <= numberOfPage
      ensures currentPageReports == old(currentPageReports) +
        (if hasGetCurrentPage && !NextDisabled(old(numberOfPage), old(currentPage)) then [old(currentPage) + 1] else [])
      ensures pageChangeReports == old(pageChangeReports) +
        (if hasOnPageChange && !NextDisabled(old(numberOfPage), old(currentPage)) then [old(currentPage) + 1] else [])
      ensures numberOfData == old(numberOfData) && limits == old(limits)
      ensures numberOfPage == old(numberOfPage) && rowsPerPage == old(rowsPerPage)
    {
      if !NextDisabled(numberOfPage, currentPage) {
        SetLimitHandler(currentPage);
      }
    }

    /** A numbered button (the window's, or the separate first or last one). */
    method ClickPageButton(page: int)
      requires Valid()
      requires page in Buttons(numberOfPage, currentPage)
      modifies this
      ensures Valid()
      ensures currentPage == page && 1 <= currentPage <= numberOfPage
      ensures currentPageReports == old(currentPageReports) + (if hasGetCurrentPage then [page] else [])
      ensures pageChangeReports == old(pageChangeReports) + (if hasOnPageChange then [page] else [])
      ensures numberOfData == old(numberOfData) && limits == old(limits)
      ensures numberOfPage == old(numberOfPage) && rowsPerPage == old(rowsPerPage)
    {
      ButtonsInRange(numberOfPage, currentPage);
      SetLimitHandler(page - 1);
    }
  }

  // ---------------------------------------------------------------------------
  // Properties of the window and the buttons.

  /** At most five pages: the window is exactly 1..numberOfPage in order. */
  lemma SmallWindowIsAllPages(numberOfPage: int, currentPage: int)
    requires 0 <= numberOfPage <= 5
    ensures |Window(numberOfPage, currentPage)| == numberOfPage
    ensures forall k :: 0 <= k < numberOfPage ==> Window(numberOfPage, currentPage)[k] == k + 1
  {
  }

  /** More than five pages: five consecutive pages inside [1, numberOfPage],
      whatever the current page. */
  lemma LargeWindowShape(numberOfPage: int, currentPage: int)
    requires numberOfPage > 5
    ensures var w := Window(numberOfPage, currentPage);
      |w| == 5 && 1 <= w[0] && w[4] <= numberOfPage &&
      forall k :: 0 < k < 5 ==> w[k] == w[k - 1] + 1
  {
  }

  /** Every button, in the window or separate, is a page in [1, numberOfPage],
      and the buttons are strictly increasing: no page appears twice. */
  lemma ButtonsInRange(numberOfPage: int, currentPage: int)
    ensures var b := Buttons(numberOfPage, currentPage);
      StrictlyIncreasing(b) && forall k :: 0 <= k < |b| ==> 1 <= b[k] <= numberOfPage
  {
    var w := Window(numberOfPage, currentPage);
    var first: seq<int> := if ShowsFirstButton(numberOfPage, currentPage) then [1] else [];
    var last: seq<int> := if ShowsLastButton(numberOfPage, currentPage) then [numberOfPage] else [];
    assert forall k :: 0 <= k < |w| ==> 1 <= w[k] <= numberOfPage;
    if ShowsFirstButton(numberOfPage, currentPage) {
      assert forall k :: 0 <= k < |w| ==> w[k] > 1;
    }
    if ShowsLastButton(numberOfPage, currentPage) {
      assert forall k :: 0 <= k < |w| ==> w[k] < numberOfPage;
    }
    var b := first + w + last;
    assert b == Buttons(numberOfPage, currentPage);
    forall i, j | 0 <= i < j < |b| ensures b[i] < b[j] {
      if i < |first| {
        assert b[i] == 1;
      }
    }
  }

  /** A current page in range always has its own button in the window. */
  lemma WindowContainsCurrent(numberOfPage: int, currentPage: int)
    requires 1 <= currentPage <= numberOfPage
    ensures currentPage in Window(numberOfPage, currentPage)
  {
    var w := Window(numberOfPage, currentPage);
    if numberOfPage <= 5 {
      assert w[currentPage - 1] == currentPage;
    } else {
      var s := WindowStart(numberOfPage, currentPage);
      assert w[currentPage - s] == currentPage;
    }
  }

  /** The separate first and last buttons never repeat a page of the window. */
  lemma SeparateButtonsNotInWindow(numberOfPage: int, currentPage: int)
    ensures ShowsFirstButton(numberOfPage, currentPage) ==> 1 !in Window(numberOfPage, currentPage)
    ensures ShowsLastButton(numberOfPage, currentPage) ==> numberOfPage !in Window(numberOfPage, currentPage)
  {
    ButtonsInRange(numberOfPage, currentPage);
    var w := Window(numberOfPage, currentPage);
    var b := Buttons(numberOfPage, currentPage);
    if ShowsFirstButton(numberOfPage, currentPage) {
      assert forall k :: 0 <= k < |w| ==> w[k] == b[k + 1];
    }
    if ShowsLastButton(numberOfPage, currentPage) {
      var f := if ShowsFirstButton(numberOfPage, currentPage) then 1 else 0;
      assert forall k :: 0 <= k < |w| ==> w[k] == b[k + f];
      assert b[|b| - 1] == numberOfPage;
    }
  }

  /** Twelve pages at page 7: the window is 5..9, with both separate buttons. */
  lemma TwelvePagesAtSeven()
    ensures Window(12, 7) == [5, 6, 7, 8, 9]
    ensures ShowsFirstButton(12, 7) && ShowsLastButton(12, 7)
    ensures Buttons(12, 7) == [1, 5, 6, 7, 8, 9, 12]
  {
    assert Window(12, 7) == [5, 6, 7, 8, 9];
  }

  /** As written, the last page can be left without a button: with seven pages
      at page 3 the window is 1..5 and no separate last button is shown, so
      pages 6 and 7 are reachable only through Next. */
  lemma LastPageCanLackButton()
    ensures Window(7, 3) == [1, 2, 3, 4, 5]
    ensures !ShowsLastButton(7, 3)
    ensures 7 !in Buttons(7, 3) && 6 !in Buttons(7, 3)
  {
    assert Window(7, 3) == [1, 2, 3, 4, 5];
    assert Buttons(7, 3) == [1, 2, 3, 4, 5];
  }

  // ---------------------------------------------------------------------------
  // The range label.

  /** For a page in range, the label names a non-empty range of existing rows,
      at most one page long. */
  lemma RangeLabelBounds(numberOfData: int, currentPage: int, rowsPerPage: int)
    requires numberOfData > 0 && rowsPerPage > 0
    requires 1 <= currentPage <= PageCount(numberOfData, rowsPerPage)
    ensures var s, e := StartIdx(numberOfData, currentPage, rowsPerPage), EndIdx(numberOfData, currentPage, rowsPerPage);
      1 <= s <= e <= numberOfData && e - s < rowsPerPage
  {
    var p := PageCount(numberOfData, rowsPerPage);
    assert (currentPage - 1) * rowsPerPage <= (p - 1) * rowsPerPage by {
      MultiplyMonotone(currentPage - 1, p - 1, rowsPerPage);
    }
    assert currentPage * rowsPerPage == (currentPage - 1) * rowsPerPage + rowsPerPage;
    assert 0 <= (currentPage - 1) * rowsPerPage by {
      MultiplyMonotone(0, currentPage - 1, rowsPerPage);
    }
  }

  lemma MultiplyMonotone(a: int, b: int, m: int)
    requires a <= b && m >= 0
    ensures a * m <= b * m
  {
    assert b * m - a * m == (b - a) * m;
  }

  /** No data: the label is "0-0 of 0". */
  lemma EmptyRangeLabel(currentPage: int, rowsPerPage: int)
    requires currentPage >= 1 && rowsPerPage > 0
    ensures StartIdx(0, currentPage, rowsPerPage) == 0 && EndIdx(0, currentPage, rowsPerPage) == 0
  {
    MultiplyMonotone(0, currentPage, rowsPerPage);
  }

  /** 23 rows, 10 per page: three pages, and page 2 shows rows 11-20. */
  lemma TwentyThreeRowsExample()
    ensures PageCount(23, 10) == 3
    ensures StartIdx(23, 2, 10) == 11 && EndIdx(23, 2, 10) == 20
    ensures PageCount(0, 10) == 1
  {
  }

  /** Enabled navigation from a page in range stays in range. */
  lemma NavigationStaysInRange(numberOfPage: int, currentPage: int)
    requires 1 <= currentPage <= numberOfPage
    ensures !PrevDisabled(currentPage) ==> 1 <= currentPage - 1 <= numberOfPage
    ensures !NextDisabled(numberOfPage, currentPage) ==> 1 <= currentPage + 1 <= numberOfPage
    ensures PrevDisabled(currentPage) <==> currentPage - 1 < 1
    ensures NextDisabled(numberOfPage, currentPage) <==> currentPage + 1 > numberOfPage
  {
  }
}
