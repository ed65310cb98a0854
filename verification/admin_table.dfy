/** The paging footer of the admin table (`components/admin/ui/AdminTable.tsx`):
    the "Showing a to b of n" line, the page buttons kept around the current
    page with ellipses over the gaps, and the arrows. */
module AdminTable {
  import opened Seqs
  import MealFilter
  import Pagination

  /** The pages `lo..hi` in order (`Array.from({length}, (_, i) => i + 1)`
      from `lo = 1`). */
  function Pages(lo: int, hi: int): (r: seq<int>)
    ensures |r| == if hi < lo then 0 else hi - lo + 1
    ensures forall i :: 0 <= i < |r| ==> r[i] == lo + i
    decreases hi - lo
  {
    if hi < lo then [] else [lo] + Pages(lo + 1, hi)
  }

  /** Whether a page gets a button: the first, the last, the current page,
      or one next to it. */
  predicate Kept(page: int, currentPage: int, totalPages: int) {
    page == 1 || page == totalPages || page == currentPage
    || (if page >= currentPage then page - currentPage else currentPage - page) <= 1
  }

  /** `Kept` as the callback given to `filter`. */
  function Keeper(currentPage: int, totalPages: int): int -> bool {
    (page: int) => Kept(page, currentPage, totalPages)
  }

  /** The page buttons, in order. */
  function ShownPages(currentPage: int, totalPages: int): seq<int> {
    Filter(Pages(1, totalPages), Keeper(currentPage, totalPages))
  }

  /** Strictly rising. */
  predicate Ascending(r: seq<int>) {
    forall i, j :: 0 <= i < j < |r| ==> r[i] < r[j]
  }

  /** Filtering keeps a strictly rising list rising. */
  lemma {:induction false} FilterKeepsAscending(xs: seq<int>, p: int -> bool)
    requires Ascending(xs)
    ensures Ascending(Filter(xs, p))
    decreases |xs|
  {
    if xs != [] {
      var tail := xs[1..];
      assert Ascending(tail) by {
        forall i, j | 0 <= i < j < |tail| ensures tail[i] < tail[j] {
          assert tail[i] == xs[i + 1] && tail[j] == xs[j + 1];
        }
      }
      var rest := Filter(tail, p);
      FilterKeepsAscending(tail, p);
      if p(xs[0]) {
        assert Filter(xs, p) == [xs[0]] + rest;
        forall j | 0 <= j < |rest| ensures xs[0] < rest[j] {
          var k :| 0 <= k < |tail| && tail[k] == rest[j];
          assert tail[k] == xs[k + 1];
        }
        ConsAscending(xs[0], rest);
      }
    }
  }

  /** A number below every element of a rising list may go in front. */
  lemma ConsAscending(x: int, rest: seq<int>)
    requires Ascending(rest) && forall j :: 0 <= j < |rest| ==> x < rest[j]
    ensures Ascending([x] + rest)
  {
    var r := [x] + rest;
    forall i, j | 0 <= i < j < |r| ensures r[i] < r[j] {
      assert r[j] == rest[j - 1];
      if i > 0 { assert r[i] == rest[i - 1]; }
    }
  }

  /** A strictly rising list drawn from a set is no longer than the set. */
  lemma {:induction false} AscendingWithin(r: seq<int>, s: set<int>)
    requires Ascending(r)
    requires forall i :: 0 <= i < |r| ==> r[i] in s
    ensures |r| <= |s|
    decreases |r|
  {
    if r != [] {
      var rest := r[1..];
      forall i | 0 <= i < |rest| ensures rest[i] in s - {r[0]} {
        assert rest[i] == r[i + 1];
      }
      AscendingWithin(rest, s - {r[0]});
    }
  }

  /** The buttons rise from left to right. */
  lemma ShownPagesAscending(currentPage: int, totalPages: int)
    ensures Ascending(ShownPages(currentPage, totalPages))
  {
    FilterKeepsAscending(Pages(1, totalPages), Keeper(currentPage, totalPages));
  }

  /** Every button is a kept, real page. */
  lemma ShownPagesSound(currentPage: int, totalPages: int)
    ensures var r := ShownPages(currentPage, totalPages);
      forall i :: 0 <= i < |r| ==> 1 <= r[i] <= totalPages && Kept(r[i], currentPage, totalPages)
  {
    var all := Pages(1, totalPages);
    var r := ShownPages(currentPage, totalPages);
    forall i | 0 <= i < |r| ensures 1 <= r[i] <= totalPages {
      var k :| 0 <= k < |all| && all[k] == r[i];
    }
  }

  /** Every kept, real page gets a button. */
  lemma ShownPagesComplete(currentPage: int, totalPages: int)
    ensures forall page :: 1 <= page <= totalPages && Kept(page, currentPage, totalPages) ==>
      page in ShownPages(currentPage, totalPages)
  {
    var all := Pages(1, totalPages);
    forall page | 1 <= page <= totalPages && Kept(page, currentPage, totalPages)
      ensures page in ShownPages(currentPage, totalPages)
    {
      assert all[page - 1] == page;
    }
  }

  /** At most five buttons: the first, the last, and the current page with
      its two neighbours. */
  lemma ShownPagesAtMostFive(currentPage: int, totalPages: int)
    ensures |ShownPages(currentPage, totalPages)| <= 5
  {
    var r := ShownPages(currentPage, totalPages);
    ShownPagesAscending(currentPage, totalPages);
    ShownPagesSound(currentPage, totalPages);
    var s := {1, totalPages, currentPage - 1, currentPage, currentPage + 1};
    assert forall i :: 0 <= i < |r| ==> r[i] in s;
    AscendingWithin(r, s);
  }

  /** With at least one page, the first and last pages and the current
      page with its in-range neighbours all get buttons. */
  lemma LandmarksShown(currentPage: int, totalPages: int)
    requires totalPages >= 1
    ensures 1 in ShownPages(currentPage, totalPages) && totalPages in ShownPages(currentPage, totalPages)
    ensures forall page :: 1 <= page <= totalPages && currentPage - 1 <= page <= currentPage + 1 ==>
      page in ShownPages(currentPage, totalPages)
  {
    ShownPagesComplete(currentPage, totalPages);
  }

  /** `showEllipsis` for the button at `i`: the previous button exists and
      is truthy (page numbers are never 0, so it always is) and the gap to
      it is more than one. */
  predicate ShowEllipsis(r: seq<int>, i: int)
    requires 0 <= i < |r|
  {
    i > 0 && r[i - 1] != 0 && r[i] - r[i - 1] > 1
  }

  /** An ellipsis appears exactly where the page after the previous button
      has no button of its own, and that page is a real page. */
  lemma EllipsisMarksGap(currentPage: int, totalPages: int, i: int)
    requires 0 < i < |ShownPages(currentPage, totalPages)|
    ensures var r := ShownPages(currentPage, totalPages);
      (ShowEllipsis(r, i) <==> r[i - 1] + 1 !in r) && 1 <= r[i - 1] + 1 <= totalPages
  {
    var r := ShownPages(currentPage, totalPages);
    ShownPagesAscending(currentPage, totalPages);
    ShownPagesSound(currentPage, totalPages);
    NextInAscending(r, i);
    assert 1 <= r[i - 1] && r[i] <= totalPages;
  }

  /** In a rising list, the number after an entry is in the list exactly
      when it is the next entry. */
  lemma NextInAscending(r: seq<int>, i: int)
    requires Ascending(r) && 0 < i < |r|
    ensures r[i - 1] + 1 in r <==> r[i] == r[i - 1] + 1
  {
    if r[i - 1] + 1 in r {
      var k :| 0 <= k < |r| && r[k] == r[i - 1] + 1;
      assert k >= i;
    }
  }

  /** The "Showing a to b of n" line. */
  datatype Showing = Showing(first: int, last: int, of: int)

  /** The line's numbers: from `(currentPage - 1) * pageSize + 1` to the
      smaller of `currentPage * pageSize` and the item count. */
  function ShowingLine(currentPage: int, pageSize: nat, totalItems: nat): (s: Showing)
    ensures s.of == totalItems
    ensures s.last <= totalItems && s.last <= currentPage * pageSize
    ensures s.last == totalItems || s.last == currentPage * pageSize
    ensures s.first == MealFilter.PageStart(currentPage, pageSize) + 1
  {
    var upTo := currentPage * pageSize;
    Showing((currentPage - 1) * pageSize + 1, if upTo < totalItems then upTo else totalItems, totalItems)
  }

  /** On a page that has items, the line counts exactly the items of that
      page of the list, and names their positions (from 1). */
  lemma ShowingMatchesPage<T>(xs: seq<T>, currentPage: int, pageSize: nat)
    requires currentPage >= 1 && pageSize > 0
    requires MealFilter.PageStart(currentPage, pageSize) < |xs|
    ensures var s := ShowingLine(currentPage, pageSize, |xs|);
      s.last - s.first + 1 == |MealFilter.Page(xs, currentPage, pageSize)|
      && 1 <= s.first <= s.last <= |xs|
  {
    var start := MealFilter.PageStart(currentPage, pageSize);
    assert currentPage * pageSize == start + pageSize;
  }

  /** The arrows: previous disabled on page 1 or below, next disabled on
      the last page or beyond. */
  function AdminArrows(currentPage: int, totalPages: int): (a: Pagination.Arrows)
    ensures a.previousDisabled <==> currentPage <= 1
    ensures a.nextDisabled <==> currentPage >= totalPages
  {
    Pagination.Arrows(currentPage <= 1, currentPage >= totalPages)
  }

  /** On a real page these arrows agree with the page-number bar's; off
      the range they stay disabled where the bar's would not. */
  lemma ArrowsAgreeInRange(currentPage: int, totalPages: int)
    ensures 1 <= currentPage <= totalPages ==>
      AdminArrows(currentPage, totalPages) == Pagination.ArrowState(currentPage, totalPages)
    ensures currentPage > totalPages ==>
      AdminArrows(currentPage, totalPages).nextDisabled && !Pagination.ArrowState(currentPage, totalPages).nextDisabled
  {
  }
}
