/** The page-number bar of the client (`components/ui/Pagination.tsx`):
    which page numbers and ellipses it shows, and when its arrows are
    disabled. */
module Pagination {

  /** An entry of the bar: a page number or the `'...'` marker. */
  datatype PageItem = Num(n: int) | Ellipsis

  /** The page numbers `lo..hi` in order. */
  function Range(lo: int, hi: int): (r: seq<PageItem>)
    ensures |r| == if hi < lo then 0 else hi - lo + 1
    ensures forall i :: 0 <= i < |r| ==> r[i] == Num(lo + i)
    decreases hi - lo
  {
    if hi < lo then [] else [Num(lo)] + Range(lo + 1, hi)
  }

  /** `getPageNumbers`: every page up to 7 pages; beyond that the first
      three or the last three pages, or the current page with its two
      neighbours, joined to the first and last page by ellipses. */
  function GetPageNumbers(currentPage: int, totalPages: int): (r: seq<PageItem>)
    ensures totalPages <= 7 ==> r == Range(1, totalPages)
    ensures totalPages > 7 ==> 5 <= |r| <= 7 && r[0] == Num(1) && r[|r| - 1] == Num(totalPages)
    ensures totalPages > 7 && 3 < currentPage < totalPages - 2 ==>
      r == [Num(1), Ellipsis, Num(currentPage - 1), Num(currentPage), Num(currentPage + 1), Ellipsis, Num(totalPages)]
  {
    if totalPages > 7 then
      if currentPage <= 3 then Range(1, 3) + [Ellipsis, Num(totalPages)]
      else if currentPage >= totalPages - 2 then [Num(1), Ellipsis] + Range(totalPages - 2, totalPages)
      else [Num(1), Ellipsis, Num(currentPage - 1), Num(currentPage), Num(currentPage + 1), Ellipsis, Num(totalPages)]
    else Range(1, totalPages)
  }

  /** The numbers of a bar rise strictly from left to right. */
  predicate Ascending(r: seq<PageItem>) {
    forall i, j :: 0 <= i < j < |r| && r[i].Num? && r[j].Num? ==> r[i].n < r[j].n
  }

  /** Every number of a bar is a page. */
  predicate InRange(r: seq<PageItem>, totalPages: int) {
    forall i :: 0 <= i < |r| && r[i].Num? ==> 1 <= r[i].n <= totalPages
  }

  /** Each ellipsis stands between two shown pages more than one apart. */
  predicate EllipsesMarkGaps(r: seq<PageItem>) {
    forall i :: 0 <= i < |r| && r[i].Ellipsis? ==> 0 < i < |r| - 1 && r[i - 1].Num? && r[i + 1].Num? && r[i + 1].n - r[i - 1].n > 1
  }

  /** Whether a bar is well formed for `totalPages` pages: numbers rising,
      all of them pages, no more entries than pages and at most seven, and
      each ellipsis marking a gap. */
  predicate WellFormedBar(r: seq<PageItem>, totalPages: int) {
    Ascending(r) && InRange(r, totalPages) && |r| <= (if totalPages < 7 then (if totalPages < 0 then 0 else totalPages) else 7)
    && EllipsesMarkGaps(r)
  }

  /** The bar lists pages in order, at most seven entries, all of them real
      pages; and each ellipsis stands between two shown pages that are
      more than one apart. */
  lemma PageNumbersWellFormed(currentPage: int, totalPages: int)
    ensures var r := GetPageNumbers(currentPage, totalPages);
      Ascending(r) && InRange(r, totalPages) && |r| <= (if totalPages < 7 then (if totalPages < 0 then 0 else totalPages) else 7)
      && EllipsesMarkGaps(r)
  {
    if totalPages <= 7 {
      ShortBar(currentPage, totalPages);
    } else if currentPage <= 3 {
      HeadBar(currentPage, totalPages);
    } else if currentPage >= totalPages - 2 {
      TailBar(currentPage, totalPages);
    } else {
      MiddleBar(currentPage, totalPages);
    }
  }

  /** Up to seven pages: every page in order. */
  lemma ShortBar(currentPage: int, totalPages: int)
    requires totalPages <= 7
    ensures WellFormedBar(GetPageNumbers(currentPage, totalPages), totalPages)
  {
  }

  /** Near the start: pages 1 to 3, an ellipsis, the last page. */
  lemma HeadBar(currentPage: int, totalPages: int)
    requires totalPages > 7 && currentPage <= 3
    ensures WellFormedBar(GetPageNumbers(currentPage, totalPages), totalPages)
  {
    assert GetPageNumbers(currentPage, totalPages) == [Num(1), Num(2), Num(3), Ellipsis, Num(totalPages)];
  }

  /** Near the end: page 1, an ellipsis, the last three pages. */
  lemma TailBar(currentPage: int, totalPages: int)
    requires totalPages > 7 && 3 < currentPage && currentPage >= totalPages - 2
    ensures WellFormedBar(GetPageNumbers(currentPage, totalPages), totalPages)
  {
    assert GetPageNumbers(currentPage, totalPages)
        == [Num(1), Ellipsis, Num(totalPages - 2), Num(totalPages - 1), Num(totalPages)];
  }

  /** In between: page 1, the current page with its neighbours, the last page. */
  lemma MiddleBar(currentPage: int, totalPages: int)
    requires totalPages > 7 && 3 < currentPage < totalPages - 2
    ensures WellFormedBar(GetPageNumbers(currentPage, totalPages), totalPages)
  {
  }

  /** The current page, when it is a real page, is always shown. */
  lemma CurrentPageShown(currentPage: int, totalPages: int)
    requires 1 <= currentPage <= totalPages
    ensures Num(currentPage) in GetPageNumbers(currentPage, totalPages)
  {
    var r := GetPageNumbers(currentPage, totalPages);
    if totalPages <= 7 {
      assert r[currentPage - 1] == Num(currentPage);
    } else if currentPage <= 3 {
      assert r[currentPage - 1] == Num(currentPage);
    } else if currentPage >= totalPages - 2 {
      assert r[currentPage - totalPages + 4] == Num(currentPage);
    }
  }

  /** The arrows' `disabled` flags: previous only on page 1, next only on
      the last page (strict equality, so a page beyond the last leaves
      next enabled). */
  datatype Arrows = Arrows(previousDisabled: bool, nextDisabled: bool)

  /** The arrows of the bar. */
  function ArrowState(currentPage: int, totalPages: int): (a: Arrows)
    ensures a.previousDisabled <==> currentPage == 1
    ensures a.nextDisabled <==> currentPage == totalPages
  {
    Arrows(currentPage == 1, currentPage == totalPages)
  }

  /** Going back from a page with previous enabled, or forward from one
      with next enabled, stays a real page when the current page is one. */
  lemma ArrowsStayInRange(currentPage: int, totalPages: int)
    requires 1 <= currentPage <= totalPages
    ensures !ArrowState(currentPage, totalPages).previousDisabled ==> 1 <= currentPage - 1
    ensures !ArrowState(currentPage, totalPages).nextDisabled ==> currentPage + 1 <= totalPages
  {
  }
}
