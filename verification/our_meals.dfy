/** The meal catalogue page of the client (`components/OurMeals.tsx`): its
    own filter (the quick and detailed filters of the filtering hook, and a
    search on the name alone), the growing "View More" window, and the
    liked-meal toggle. */
module OurMeals {
  import opened Strings
  import opened Seqs
  import opened MealFilter

  /** The page's search: the name contains the text, ignoring case (an
      empty text is contained in every name). */
  predicate NameSearch(meal: Meal, query: string) {
    ContainsIgnoringCase(meal.name, query)
  }

  /** The page's filter. */
  predicate PagePasses(meal: Meal, quick: string, selected: seq<string>, query: string) {
    QuickFilter(meal, quick) && DetailedFilters(meal, selected) && NameSearch(meal, query)
  }

  /** `filteredMeals`. */
  function PageFilteredMeals(meals: seq<Meal>, quick: string, selected: seq<string>, query: string): (r: seq<Meal>)
    ensures forall i :: 0 <= i < |r| ==> r[i] in meals && PagePasses(r[i], quick, selected, query)
    ensures forall i :: 0 <= i < |meals| && PagePasses(meals[i], quick, selected, query) ==> meals[i] in r
    ensures multiset(r) <= multiset(meals)
  {
    Filter(meals, (m: Meal) => PagePasses(m, quick, selected, query))
  }

  /** The page's filter keeps catalogue order, in the same sense as the
      hook's: it distributes over catalogue parts and keeps a single meal
      exactly when it passes. */
  lemma PageFilteredInOrder(xs: seq<Meal>, ys: seq<Meal>, m: Meal, quick: string, selected: seq<string>, query: string)
    ensures PageFilteredMeals(xs + ys, quick, selected, query)
         == PageFilteredMeals(xs, quick, selected, query) + PageFilteredMeals(ys, quick, selected, query)
    ensures PageFilteredMeals([m], quick, selected, query) == if PagePasses(m, quick, selected, query) then [m] else []
  {
    FilterConcat(xs, ys, (m: Meal) => PagePasses(m, quick, selected, query));
    assert [m][1..] == [];
  }

  /** An empty search keeps every meal the other two filters keep, as the
      hook's search does. */
  lemma EmptySearchPasses(meal: Meal)
    ensures NameSearch(meal, "")
  {
    ContainsEmpty(Lower(meal.name));
  }

  /** The page's search is narrower than the hook's: whatever it passes,
      the hook passes too. */
  lemma NameSearchNarrower(meal: Meal, quick: string, selected: seq<string>, query: string)
    ensures PagePasses(meal, quick, selected, query) ==> Passes(meal, quick, selected, query)
  {
  }

  /** How many meals "View More" adds, and the size of the first window. */
  const PageStep := 8

  /** What the page shows. */
  datatype Shown = Shown(visibleMeals: seq<Meal>, hasMore: bool)

  /** `visibleMeals` and `hasMore`: the first `itemsToShow` filtered meals,
      and whether any are left over. */
  function Visible(filtered: seq<Meal>, itemsToShow: nat): (r: Shown)
    ensures |r.visibleMeals| == if itemsToShow < |filtered| then itemsToShow else |filtered|
    ensures forall i :: 0 <= i < |r.visibleMeals| ==> r.visibleMeals[i] == filtered[i]
    ensures r.hasMore <==> |r.visibleMeals| < |filtered|
  {
    Shown(Slice(filtered, 0, itemsToShow), itemsToShow < |filtered|)
  }

  /** The window size and what the page last filtered with. */
  datatype WindowState = WindowState(itemsToShow: nat, quick: string, selected: seq<string>)

  /** What the user does to the filters. React re-runs the window effect
      when `activeQuickFilter` or `selectedFilters` changes by reference, and
      a state setter given the same reference (or an equal string) bails out:
      - QuickFilterClicked: `setActiveQuickFilter(id)`, a string;
      - FiltersApplied: the modal's `onFilterChange(tempFilters)`, where
        `edited` says a checkbox was toggled since the modal last copied
        `selectedFilters` (so `tempFilters` is a fresh array);
      - FiltersReset: `onReset`, which always passes a fresh `[]`. */
  datatype FilterEvent =
    | QuickFilterClicked(id: string)
    | FiltersApplied(filters: seq<string>, edited: bool)
    | FiltersReset

  /** Whether the event hands React a new dependency value. */
  predicate Refires(s: WindowState, e: FilterEvent) {
    match e
    case QuickFilterClicked(id) => id != s.quick
    case FiltersApplied(filters, edited) => edited || filters != s.selected
    case FiltersReset => true
  }

  /** The filters after the event, and the window reset to 8 whenever the
      effect re-runs; a change of the search text alone never resets it. */
  function OnFilterEvent(s: WindowState, e: FilterEvent): (t: WindowState)
    ensures e.QuickFilterClicked? ==> t.quick == e.id && t.selected == s.selected
    ensures e.FiltersApplied? ==> t.quick == s.quick && t.selected == e.filters
    ensures e.FiltersReset? ==> t.quick == s.quick && t.selected == []
    ensures e.FiltersReset? ==> t.itemsToShow == PageStep
    ensures e.QuickFilterClicked? ==> (t.itemsToShow == PageStep || t == s)
    ensures e.QuickFilterClicked? && e.id != s.quick ==> t.itemsToShow == PageStep
    ensures e.QuickFilterClicked? && e.id == s.quick ==> t == s
    ensures e.FiltersApplied? && (e.edited || e.filters != s.selected) ==> t.itemsToShow == PageStep
    ensures e.FiltersApplied? && !e.edited && e.filters == s.selected ==> t == s
  {
    match e
    case QuickFilterClicked(id) =>
      if id != s.quick then WindowState(PageStep, id, s.selected) else s
    case FiltersApplied(filters, edited) =>
      if edited || filters != s.selected then WindowState(PageStep, s.quick, filters) else s
    case FiltersReset =>
      WindowState(PageStep, s.quick, [])
  }

  /** Resetting the modal always shrinks the window back to eight meals,
      even when no detailed filter was set: the effect sees a new `[]`. */
  lemma ResetShrinksWindow(filtered: seq<Meal>, s: WindowState)
    ensures OnFilterEvent(s, FiltersReset).itemsToShow == PageStep
    ensures |Visible(filtered, OnFilterEvent(s, FiltersReset).itemsToShow).visibleMeals| <= PageStep
    ensures s.itemsToShow > PageStep && |filtered| > PageStep ==>
      |Visible(filtered, OnFilterEvent(s, FiltersReset).itemsToShow).visibleMeals|
        < |Visible(filtered, s.itemsToShow).visibleMeals|
  {
  }

  /** An event changes the window exactly when it re-fires the effect. */
  lemma WindowResetsIffRefired(s: WindowState, e: FilterEvent)
    requires s.itemsToShow != PageStep
    ensures OnFilterEvent(s, e).itemsToShow == PageStep <==> Refires(s, e)
  {
  }

  /** "View More". */
  function ViewMore(s: WindowState): (t: WindowState)
    ensures t.itemsToShow == s.itemsToShow + PageStep && t.quick == s.quick && t.selected == s.selected
  {
    s.(itemsToShow := s.itemsToShow + PageStep)
  }

  /** Each "View More" shows eight more meals, until all are shown. */
  lemma ViewMoreShowsEightMore(filtered: seq<Meal>, s: WindowState)
    requires Visible(filtered, s.itemsToShow).hasMore
    ensures |Visible(filtered, ViewMore(s).itemsToShow).visibleMeals| ==
      if s.itemsToShow + PageStep < |filtered| then s.itemsToShow + PageStep else |filtered|
    ensures |Visible(filtered, ViewMore(s).itemsToShow).visibleMeals| > |Visible(filtered, s.itemsToShow).visibleMeals|
  {
  }

  /** `toggleLike`: drop the id when liked (every copy), add it at the end
      otherwise. */
  function ToggleLike(liked: seq<int>, id: int): (r: seq<int>)
    ensures id in liked ==> id !in r && forall x :: x in r <==> x in liked && x != id
    ensures id !in liked ==> r == liked + [id]
  {
    if id in liked then Filter(liked, (x: int) => x != id) else liked + [id]
  }

  /** Two toggles restore which meals are liked. */
  lemma ToggleTwice(liked: seq<int>, id: int)
    ensures (set x | x in ToggleLike(ToggleLike(liked, id), id)) == (set x | x in liked)
  {
    var once := ToggleLike(liked, id);
    if id in liked {
      assert id !in once;
      var twice := ToggleLike(once, id);
      assert twice == once + [id];
    } else {
      var twice := ToggleLike(once, id);
      assert id in once by { assert once[|liked|] == id; }
      assert forall x :: x in twice <==> x in liked;
    }
  }
}
