/** The subscription set-up page of the client (`pages/ConfigureSubscriptionPage.tsx`):
    four weeks of chosen meal ids, each capped at the plan's meals per
    week, and the hand-over to the cart once every week is full.

    The plan is found by name in the plan list; here its meals per week
    arrive as `cap` (`None` when the name matches no plan). The price
    carried to the cart is computed in floating point and is passed through
    as an opaque amount. */
module ConfigureSubscription {
  import opened Wrappers
  import opened Seqs
  import opened MealSelection

  /** The number of weeks the page configures. */
  const WeekCount := 4

  /** The chosen ids of weeks 1 to 4 (week `w` at index `w - 1`). */
  type Weeks = s: seq<seq<int>> | |s| == WeekCount witness [[], [], [], []]

  /** The empty choice the page starts with. */
  const NoMeals: Weeks := [[], [], [], []]

  /** `handleMealSelection`: the toggle applied to one week. */
  function SelectMeal(weeks: Weeks, week: int, mealId: int, cap: Option<int>): (r: Weeks)
    requires 1 <= week <= WeekCount
    ensures r[week - 1] == Toggle(weeks[week - 1], mealId, cap)
    ensures forall w :: 0 <= w < WeekCount && w != week - 1 ==> r[w] == weeks[w]
  {
    weeks[week - 1 := Toggle(weeks[week - 1], mealId, cap)]
  }

  /** Every week's choice is allowed by the cap. */
  predicate AllAllowed(weeks: Weeks, cap: Option<int>) {
    forall w :: 0 <= w < WeekCount ==> Allowed(weeks[w], cap)
  }

  /** Choosing keeps every week free of duplicates and within the cap. */
  lemma SelectKeepsAllowed(weeks: Weeks, week: int, mealId: int, cap: Option<int>)
    requires 1 <= week <= WeekCount && AllAllowed(weeks, cap)
    ensures AllAllowed(SelectMeal(weeks, week, mealId, cap), cap)
  {
    ToggleKeepsAllowed(weeks[week - 1], mealId, cap);
  }

  /** `isWeekComplete`: the plan is known and the week holds exactly its
      meals per week. */
  predicate WeekComplete(weeks: Weeks, week: int, cap: Option<int>)
    requires 1 <= week <= WeekCount
  {
    cap.Some? && |weeks[week - 1]| == cap.value
  }

  /** `isAllWeeksComplete`. */
  predicate AllWeeksComplete(weeks: Weeks, cap: Option<int>) {
    cap.Some? && forall w :: 0 <= w < WeekCount ==> |weeks[w]| == cap.value
  }

  /** The page is complete exactly when each of its four weeks is. */
  lemma AllCompleteIffEachWeek(weeks: Weeks, cap: Option<int>)
    ensures AllWeeksComplete(weeks, cap) <==> forall week :: 1 <= week <= WeekCount ==> WeekComplete(weeks, week, cap)
  {
    if forall week :: 1 <= week <= WeekCount ==> WeekComplete(weeks, week, cap) {
      assert WeekComplete(weeks, 1, cap);
      forall w | 0 <= w < WeekCount ensures |weeks[w]| == cap.value {
        assert WeekComplete(weeks, w + 1, cap);
      }
    }
  }

  /** What is handed to the cart. */
  datatype SubscriptionRequest = SubscriptionRequest(
    planName: string, weeks: nat, mealsByWeek: seq<seq<string>>, totalCost: int)

  /** `searchParams.get('billing') || 'weekly'`. */
  function BillingFrequency(billing: Option<string>): (f: string)
    ensures f != ""
    ensures billing.Some? && billing.value != "" ==> f == billing.value
  {
    if billing.Some? && billing.value != "" then billing.value else "weekly"
  }

  /** The names of a week's ids, `''` for an id the catalogue lacks. */
  function WeekNames(ids: seq<int>, catalogue: seq<CatalogueMeal>): (r: seq<string>)
    ensures |r| == |ids| && forall i :: 0 <= i < |ids| ==> r[i] == NameOf(catalogue, ids[i])
  {
    Map(ids, (id: int) => NameOf(catalogue, id))
  }

  /** `handleProceedToCheckout`: nothing until the plan is known and every
      week is full; then the plan name (or `''`), 4 weeks for monthly
      billing and 1 otherwise, and each week's meal names. */
  function ProceedToCheckout(planName: Option<string>, billing: Option<string>, weeks: Weeks,
                             cap: Option<int>, catalogue: seq<CatalogueMeal>, totalCost: int): (r: Option<SubscriptionRequest>)
    ensures r.Some? <==> AllWeeksComplete(weeks, cap)
    ensures r.Some? ==> r.value.planName == planName.GetOr("") && r.value.totalCost == totalCost
    ensures r.Some? ==> (r.value.weeks == 4 <==> BillingFrequency(billing) == "monthly")
    ensures r.Some? ==> r.value.weeks == 4 || r.value.weeks == 1
    ensures r.Some? ==> (|r.value.mealsByWeek| == WeekCount
      && forall w :: 0 <= w < WeekCount ==> |r.value.mealsByWeek[w]| == cap.value)
  {
    if !AllWeeksComplete(weeks, cap) then None
    else
      var byWeek := Map(weeks, (ids: seq<int>) => WeekNames(ids, catalogue));
      Some(SubscriptionRequest(
        if planName.Some? then planName.value else "",
        if BillingFrequency(billing) == "monthly" then 4 else 1,
        byWeek, totalCost))
  }

  /** Each saved name is the catalogue name of the id chosen at that place,
      so a non-empty one belongs to a catalogue meal with that id. */
  lemma CheckoutNamesFollowChoice(planName: Option<string>, billing: Option<string>, weeks: Weeks,
                                  cap: Option<int>, catalogue: seq<CatalogueMeal>, totalCost: int, w: nat, k: nat)
    requires AllWeeksComplete(weeks, cap) && w < WeekCount && k < |weeks[w]|
    ensures var r := ProceedToCheckout(planName, billing, weeks, cap, catalogue, totalCost).value;
      r.mealsByWeek[w][k] == NameOf(catalogue, weeks[w][k])
      && (r.mealsByWeek[w][k] != "" ==> CatalogueMeal(weeks[w][k], r.mealsByWeek[w][k]) in catalogue)
  {
  }

  /** The page starts from an allowed choice, which `SelectKeepsAllowed`
      then keeps allowed. */
  lemma StartAllowed(cap: Option<int>)
    requires cap.Some? ==> cap.value >= 0
    ensures AllAllowed(NoMeals, cap)
  {
  }
}
