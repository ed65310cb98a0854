/** The meal filtering hook of the client (`hooks/useMealFilter.ts`): the
    quick filter, the detailed tag filters, the text search, the filtered
    list, and its pages.

    The hook filters with debounced copies of the search text and quick
    filter; this model takes the values in effect as its inputs.
    `toLowerCase` is ASCII case folding here. */
module MealFilter {
  import opened Strings
  import opened Seqs

  /** A meal of the catalogue; a missing `isNew` is `false`. */
  datatype Meal = Meal(
    id: int, name: string, description: string, image: string, price: string,
    tags: seq<string>, category: seq<string>, isNew: bool)

  /** `filterByQuickFilter`: `all` passes everything, `new` passes new
      meals, and any filter passes the meals whose categories include it
      (so `new` also passes a meal with the category `new`). */
  predicate QuickFilter(meal: Meal, filter: string) {
    filter == "all" || (filter == "new" && meal.isNew) || filter in meal.category
  }

  /** `filterByDetailedFilters`: every selected filter is one of the meal's
      tags; no selection passes everything. */
  predicate DetailedFilters(meal: Meal, filters: seq<string>) {
    |filters| == 0 || forall i :: 0 <= i < |filters| ==> filters[i] in meal.tags
  }

  /** Whether some tag contains the text, ignoring case. */
  predicate SomeTagContains(tags: seq<string>, query: string) {
    exists i :: 0 <= i < |tags| && ContainsIgnoringCase(tags[i], query)
  }

  /** `filterBySearch`: an empty query passes; otherwise the name, the
      description or a tag contains it, ignoring case. */
  predicate Search(meal: Meal, query: string) {
    query == "" || ContainsIgnoringCase(meal.name, query) || ContainsIgnoringCase(meal.description, query)
    || SomeTagContains(meal.tags, query)
  }

  /** The three filters together. */
  predicate Passes(meal: Meal, quick: string, selected: seq<string>, query: string) {
    QuickFilter(meal, quick) && DetailedFilters(meal, selected) && Search(meal, query)
  }

  /** `filteredMeals`: the meals passing all three filters, in catalogue
      order. */
  function FilteredMeals(meals: seq<Meal>, quick: string, selected: seq<string>, query: string): (r: seq<Meal>)
    ensures forall i :: 0 <= i < |r| ==> r[i] in meals && Passes(r[i], quick, selected, query)
    ensures forall i :: 0 <= i < |meals| && Passes(meals[i], quick, selected, query) ==> meals[i] in r
    ensures multiset(r) <= multiset(meals)
  {
    Filter(meals, (m: Meal) => Passes(m, quick, selected, query))
  }

  /** The filter keeps catalogue order: the meals of two catalogue parts
      come out as the first part's followed by the second's, and a single
      meal comes out alone exactly when it passes. Together these determine
      the result for every catalogue. */
  lemma FilteredMealsInOrder(xs: seq<Meal>, ys: seq<Meal>, m: Meal, quick: string, selected: seq<string>, query: string)
    ensures FilteredMeals(xs + ys, quick, selected, query)
         == FilteredMeals(xs, quick, selected, query) + FilteredMeals(ys, quick, selected, query)
    ensures FilteredMeals([m], quick, selected, query) == if Passes(m, quick, selected, query) then [m] else []
  {
    FilterConcat(xs, ys, (m: Meal) => Passes(m, quick, selected, query));
    assert [m][1..] == [];
  }

  /** `hasFilters`: some search text, a quick filter other than `all`, or
      a selected tag. */
  predicate HasFilters(query: string, quick: string, selected: seq<string>) {
    query != "" || quick != "all" || |selected| > 0
  }

  /** With no filter in effect every meal is listed, in order. */
  lemma NoFiltersListsAll(meals: seq<Meal>, query: string, quick: string, selected: seq<string>)
    requires !HasFilters(query, quick, selected)
    ensures FilteredMeals(meals, quick, selected, query) == meals
  {
  }

  /** Every selected tag a meal lacks rules it out, and a meal with every
      selected tag passes the detailed filters. */
  lemma DetailedFiltersExact(meal: Meal, filters: seq<string>)
    ensures DetailedFilters(meal, filters) <==> forall f :: f in filters ==> f in meal.tags
  {
    if DetailedFilters(meal, filters) {
      forall f | f in filters ensures f in meal.tags {
        var i :| 0 <= i < |filters| && filters[i] == f;
      }
    }
  }

  /** `Math.ceil(n / size)` for a positive page size. */
  function PageCount(n: nat, size: nat): (pages: nat)
    requires size > 0
    ensures pages * size >= n
    ensures pages > 0 ==> (pages - 1) * size < n
  {
    (n + size - 1) / size
  }

  /** The first index of a page, `(page - 1) * size`; negative for pages
      below 1. */
  function PageStart(page: int, size: nat): (start: int)
    ensures page >= 1 ==> start >= 0
  {
    (page - 1) * size
  }

  /** One page of the list, `slice(start, start + size)`. A page below 1
      has a negative start, which `slice` counts from the end. */
  function Page<T>(xs: seq<T>, page: int, size: nat): (r: seq<T>)
    ensures page >= 1 && PageStart(page, size) + size <= |xs| ==> r == xs[PageStart(page, size)..PageStart(page, size) + size]
    ensures page >= 1 && PageStart(page, size) <= |xs| < PageStart(page, size) + size ==> r == xs[PageStart(page, size)..]
    ensures page >= 1 && PageStart(page, size) >= |xs| ==> r == []
  {
    var start := PageStart(page, size);
    Slice(xs, start, start + size)
  }

  /** The page the hook returns with its totals. */
  datatype Paginated = Paginated(paginatedMeals: seq<Meal>, totalPages: nat, totalResults: nat)

  /** `paginatedData`. */
  function PaginatedData(filtered: seq<Meal>, page: int, itemsPerPage: nat): (r: Paginated)
    requires itemsPerPage > 0
    ensures r.totalResults == |filtered|
    ensures r.totalPages * itemsPerPage >= |filtered| && (r.totalPages > 0 ==> (r.totalPages - 1) * itemsPerPage < |filtered|)
    ensures page >= 1 ==> |r.paginatedMeals| <= itemsPerPage
    ensures r.paginatedMeals == Page(filtered, page, itemsPerPage)
  {
    Paginated(Page(filtered, page, itemsPerPage), PageCount(|filtered|, itemsPerPage), |filtered|)
  }

  /** Pages 1 to `k` of a list, one after another. */
  function PagesUpTo<T>(xs: seq<T>, size: nat, k: nat): seq<T> {
    if k == 0 then [] else PagesUpTo(xs, size, k - 1) + Page(xs, k, size)
  }

  /** The first `k` pages are the first `k * size` elements. */
  lemma {:induction false} PagesUpToPrefix<T>(xs: seq<T>, size: nat, k: nat)
    ensures k * size <= |xs| ==> PagesUpTo(xs, size, k) == xs[..k * size]
    ensures k * size > |xs| ==> PagesUpTo(xs, size, k) == xs
  {
    if k == 0 {
      assert k * size == 0;
    } else {
      PagesUpToPrefix(xs, size, k - 1);
      StepStart(k, size);
      AppendPage(xs, k, size, PagesUpTo(xs, size, k - 1));
    }
  }

  /** Page `k` starts `size` before where page `k + 1` starts. */
  lemma StepStart(k: nat, size: nat)
    requires k > 0
    ensures PageStart(k, size) == (k - 1) * size && PageStart(k, size) + size == k * size
  {
  }

  /** Appending page `k` to what comes before it extends the prefix by one
      page. */
  lemma AppendPage<T>(xs: seq<T>, k: int, size: nat, before: seq<T>)
    requires k >= 1
    requires PageStart(k, size) <= |xs| ==> before == xs[..PageStart(k, size)]
    requires PageStart(k, size) > |xs| ==> before == xs
    ensures var e := PageStart(k, size) + size;
      (e <= |xs| ==> before + Page(xs, k, size) == xs[..e])
      && (e > |xs| ==> before + Page(xs, k, size) == xs)
  {
    var a := PageStart(k, size);
    var e := a + size;
    if e <= |xs| {
      assert xs[..a] + xs[a..e] == xs[..e];
    } else if a <= |xs| {
      assert xs[..a] + xs[a..] == xs;
    }
  }

  /** Pages 1 to `totalPages` put back together are the filtered list. */
  lemma PagesTileList(filtered: seq<Meal>, itemsPerPage: nat)
    requires itemsPerPage > 0
    ensures PagesUpTo(filtered, itemsPerPage, PaginatedData(filtered, 1, itemsPerPage).totalPages) == filtered
  {
    var total := PageCount(|filtered|, itemsPerPage);
    PagesUpToPrefix(filtered, itemsPerPage, total);
    if total * itemsPerPage <= |filtered| {
      assert filtered[..total * itemsPerPage] == filtered;
    }
  }
}
