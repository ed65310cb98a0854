/** The state-hook cart of the client (`context/CartProvider.tsx`): meal
    lines with quantities, subscription lines, and the dispatch functions
    that change them. The item types come from a `types` module that is not
    part of this model; their fields are the ones the provider uses. */
module CartProvider {
  import opened Wrappers
  import opened Seqs

  /** A meal line. */
  datatype MealItem = MealItem(id: int, name: string, price: string, image: string, quantity: int)

  /** A subscription line; the cost is in cents. */
  datatype SubscriptionItem = SubscriptionItem(
    planName: string, weeks: int, mealsByWeek: seq<seq<string>>, totalCost: int, billingFrequency: string)

  /** A line of the cart, tagged by its `type` field. */
  datatype CartItem = Meal(meal: MealItem) | Subscription(sub: SubscriptionItem)

  /** What `addToCart` is given: a meal without type or quantity. */
  datatype NewMeal = NewMeal(id: int, name: string, price: string, image: string)

  /** The argument of `removeFromCart`, a number or a string. */
  datatype ItemKey = ById(id: int) | ByName(name: string)

  /** Whether a line is a meal with the id. */
  predicate IsMeal(item: CartItem, id: int) {
    item.Meal? && item.meal.id == id
  }

  /** Whether the cart holds a meal with the id. */
  predicate HasMeal(items: seq<CartItem>, id: int) {
    exists i :: 0 <= i < |items| && IsMeal(items[i], id)
  }

  /** What one line adds to the count: its quantity for a meal, one for a
      subscription. */
  function LineCount(item: CartItem): int {
    if item.Meal? then item.meal.quantity else 1
  }

  /** `cartCount`: meal quantities plus one per subscription. */
  function CartCount(items: seq<CartItem>): (n: int)
    ensures (forall i :: 0 <= i < |items| ==> LineCount(items[i]) >= 0) ==> n >= 0
  {
    Sum(items, LineCount)
  }

  /** Meal quantities are at least one. */
  predicate AllPositive(items: seq<CartItem>) {
    forall i :: 0 <= i < |items| && items[i].Meal? ==> items[i].meal.quantity >= 1
  }

  /** Meal ids are distinct. */
  predicate UniqueMealIds(items: seq<CartItem>) {
    forall i, j :: 0 <= i < j < |items| && items[i].Meal? && items[j].Meal? ==> items[i].meal.id != items[j].meal.id
  }

  /** A meal line with its quantity moved by `d`; other lines as they are. */
  function Shifted(item: CartItem, d: int): (b: CartItem)
    ensures b.Meal? <==> item.Meal?
    ensures item.Meal? ==> b.meal == item.meal.(quantity := item.meal.quantity + d)
    ensures item.Subscription? ==> b == item
  {
    if item.Meal? then Meal(item.meal.(quantity := item.meal.quantity + d)) else item
  }

  /** Move the quantity of every meal with the id by `d`. */
  function ShiftMeal(items: seq<CartItem>, id: int, d: int): (r: seq<CartItem>)
    ensures |r| == |items|
    ensures forall i :: 0 <= i < |items| ==> r[i] == (if IsMeal(items[i], id) then Shifted(items[i], d) else items[i])
  {
    Map(items, (x: CartItem) => if IsMeal(x, id) then Shifted(x, d) else x)
  }

  /** `addToCart`: one more of a meal already in the cart, or the meal
      appended with quantity 1. */
  function AddToCart(items: seq<CartItem>, m: NewMeal): (r: seq<CartItem>)
    ensures HasMeal(items, m.id) ==> r == ShiftMeal(items, m.id, 1)
    ensures !HasMeal(items, m.id) ==> r == items + [Meal(MealItem(m.id, m.name, m.price, m.image, 1))]
  {
    if Any(items, (x: CartItem) => IsMeal(x, m.id)) then ShiftMeal(items, m.id, 1)
    else items + [Meal(MealItem(m.id, m.name, m.price, m.image, 1))]
  }

  /** `addSubscriptionItem`: every subscription already in the cart is
      dropped and the new one appended. */
  function AddSubscriptionItem(items: seq<CartItem>, s: SubscriptionItem): (r: seq<CartItem>)
    ensures |r| >= 1 && r[|r| - 1] == Subscription(s)
    ensures forall i :: 0 <= i < |r| - 1 ==> r[i].Meal? && r[i] in items
    ensures r[..|r| - 1] == Filter(items, (x: CartItem) => x.Meal?)
  {
    var meals := Filter(items, (x: CartItem) => x.Meal?);
    assert (meals + [Subscription(s)])[..|meals|] == meals;
    meals + [Subscription(s)]
  }

  /** Whether `removeFromCart(key)` keeps the line: a meal is matched only
      by a number equal to its id, a subscription only by a string equal to
      its plan name (strict equality never matches across types). */
  predicate KeptBy(item: CartItem, key: ItemKey) {
    match item
    case Meal(m) => key != ById(m.id)
    case Subscription(s) => key != ByName(s.planName)
  }

  /** `removeFromCart`. */
  function RemoveFromCart(items: seq<CartItem>, key: ItemKey): (r: seq<CartItem>)
    ensures forall i :: 0 <= i < |r| ==> r[i] in items && KeptBy(r[i], key)
    ensures forall i :: 0 <= i < |items| && KeptBy(items[i], key) ==> items[i] in r
    ensures key.ById? ==> forall i :: 0 <= i < |r| ==> !IsMeal(r[i], key.id)
  {
    Filter(items, (x: CartItem) => KeptBy(x, key))
  }

  /** `clearCart`. */
  function ClearCart(items: seq<CartItem>): (r: seq<CartItem>)
    ensures |r| == 0 && CartCount(r) == 0
  {
    []
  }

  /** `incrementQuantity`. */
  function IncrementQuantity(items: seq<CartItem>, id: int): (r: seq<CartItem>)
    ensures r == ShiftMeal(items, id, 1)
    ensures AllPositive(items) ==> AllPositive(r)
  {
    ShiftMeal(items, id, 1)
  }

  /** `decrementQuantity`: the first meal with the id decides. At quantity
      1 every meal with the id is removed; otherwise every one loses a
      portion. An absent id changes nothing. */
  function DecrementQuantity(items: seq<CartItem>, id: int): (r: seq<CartItem>)
    ensures !HasMeal(items, id) ==> r == items
    ensures HasMeal(items, id) && FirstMealQuantity(items, id) == 1 ==> r == Filter(items, (x: CartItem) => !IsMeal(x, id))
    ensures HasMeal(items, id) && FirstMealQuantity(items, id) != 1 ==> r == ShiftMeal(items, id, -1)
  {
    match FirstIndex(items, (x: CartItem) => IsMeal(x, id))
    case None => items
    case Some(k) =>
      if items[k].meal.quantity == 1 then Filter(items, (x: CartItem) => !IsMeal(x, id))
      else ShiftMeal(items, id, -1)
  }

  /** The quantity of the first meal with the id, the one `find` returns. */
  function FirstMealQuantity(items: seq<CartItem>, id: int): (q: int)
    requires HasMeal(items, id)
    ensures exists k :: 0 <= k < |items| && IsMeal(items[k], id) && q == items[k].meal.quantity
                        && (forall i :: 0 <= i < k ==> !IsMeal(items[i], id))
  {
    var k := FirstIndex(items, (x: CartItem) => IsMeal(x, id)).value;
    items[k].meal.quantity
  }

  /** Quantities stay at least one under add, increment and decrement. */
  lemma QuantitiesStayPositive(items: seq<CartItem>, m: NewMeal, id: int)
    requires AllPositive(items) && UniqueMealIds(items)
    ensures AllPositive(AddToCart(items, m))
    ensures AllPositive(IncrementQuantity(items, id))
    ensures AllPositive(DecrementQuantity(items, id))
  {
    if HasMeal(items, id) {
      var k :| 0 <= k < |items| && IsMeal(items[k], id) && FirstMealQuantity(items, id) == items[k].meal.quantity;
      if items[k].meal.quantity != 1 {
        var r := ShiftMeal(items, id, -1);
        forall i | 0 <= i < |items| && r[i].Meal?
          ensures r[i].meal.quantity >= 1
        {
          if IsMeal(items[i], id) {
            assert i == k;
          }
        }
      }
    }
  }

  /** With distinct ids, a meal in the cart is matched exactly once. */
  lemma {:induction false} MatchedOnce(items: seq<CartItem>, id: int)
    requires UniqueMealIds(items) && HasMeal(items, id)
    ensures Count(items, (x: CartItem) => IsMeal(x, id)) == 1
    decreases |items|
  {
    var p := (x: CartItem) => IsMeal(x, id);
    if p(items[0]) {
      assert forall i :: 0 <= i < |items[1..]| ==> !p(items[1..][i]) by {
        forall i | 0 <= i < |items[1..]| ensures !p(items[1..][i]) {
          assert items[1..][i] == items[i + 1];
        }
      }
    } else {
      var j :| 0 <= j < |items| && IsMeal(items[j], id);
      assert IsMeal(items[1..][j - 1], id);
      MatchedOnce(items[1..], id);
    }
  }

  /** `addToCart` raises the count by exactly one while ids are distinct. */
  lemma AddRaisesCountByOne(items: seq<CartItem>, m: NewMeal)
    requires UniqueMealIds(items)
    ensures CartCount(AddToCart(items, m)) == CartCount(items) + 1
  {
    if HasMeal(items, m.id) {
      IncrementRaisesCount(items, m.id);
    } else {
      SumConcat(items, [Meal(MealItem(m.id, m.name, m.price, m.image, 1))], LineCount);
    }
  }

  /** `addToCart` keeps meal ids distinct. */
  lemma AddKeepsMealIdsUnique(items: seq<CartItem>, m: NewMeal)
    requires UniqueMealIds(items)
    ensures UniqueMealIds(AddToCart(items, m))
  {
  }

  /** `incrementQuantity` raises the count by one for a meal in the cart. */
  lemma IncrementRaisesCount(items: seq<CartItem>, id: int)
    requires UniqueMealIds(items) && HasMeal(items, id)
    ensures CartCount(IncrementQuantity(items, id)) == CartCount(items) + 1
  {
    SumPointwise(items, IncrementQuantity(items, id), LineCount, (x: CartItem) => IsMeal(x, id), 1);
    MatchedOnce(items, id);
  }

  /** Decrementing undoes incrementing a meal in the cart. */
  lemma IncrementThenDecrement(items: seq<CartItem>, id: int)
    requires AllPositive(items) && HasMeal(items, id)
    ensures DecrementQuantity(IncrementQuantity(items, id), id) == items
  {
    var up := IncrementQuantity(items, id);
    assert HasMeal(up, id) by {
      var j :| 0 <= j < |items| && IsMeal(items[j], id);
      assert IsMeal(up[j], id);
    }
    var k :| 0 <= k < |up| && IsMeal(up[k], id) && FirstMealQuantity(up, id) == up[k].meal.quantity;
    assert up[k].meal.quantity >= 2;
    ShiftBack(items, id);
  }

  /** Moving the quantities up by one and back down restores the cart. */
  lemma ShiftBack(items: seq<CartItem>, id: int)
    ensures ShiftMeal(ShiftMeal(items, id, 1), id, -1) == items
  {
    var down := ShiftMeal(ShiftMeal(items, id, 1), id, -1);
    assert forall i :: 0 <= i < |items| ==> down[i] == items[i];
  }

  /** After `addSubscriptionItem` the cart holds exactly one subscription,
      the new one, and the meals as they were. */
  lemma OneSubscription(items: seq<CartItem>, s: SubscriptionItem)
    ensures var r := AddSubscriptionItem(items, s);
      forall i :: 0 <= i < |r| && r[i].Subscription? ==> i == |r| - 1 && r[i].sub == s
  {
  }

  /** Removing by a number never touches a subscription, and removing by a
      string never touches a meal. */
  lemma RemoveKeysDoNotCross(items: seq<CartItem>, id: int, name: string)
    ensures Filter(RemoveFromCart(items, ById(id)), (x: CartItem) => x.Subscription?) == Filter(items, (x: CartItem) => x.Subscription?)
    ensures Filter(RemoveFromCart(items, ByName(name)), (x: CartItem) => x.Meal?) == Filter(items, (x: CartItem) => x.Meal?)
  {
    var subs := (x: CartItem) => x.Subscription?;
    var meals := (x: CartItem) => x.Meal?;
    assert forall x :: subs(x) ==> KeptBy(x, ById(id));
    assert forall x :: meals(x) ==> KeptBy(x, ByName(name));
    FilterFilter(items, (x: CartItem) => KeptBy(x, ById(id)), subs);
    FilterFilter(items, (x: CartItem) => KeptBy(x, ByName(name)), meals);
  }

  /** The fields an `updateSubscriptionPlan` call may carry; an absent
      field is `None`. */
  datatype SubscriptionPatch = SubscriptionPatch(
    planName: Option<string>, weeks: Option<int>, mealsByWeek: Option<seq<seq<string>>>,
    totalCost: Option<int>, billingFrequency: Option<string>)

  /** `{...item, ...updatedData}`: each field the patch carries replaces the
      subscription's own. */
  function Patched(s: SubscriptionItem, p: SubscriptionPatch): (r: SubscriptionItem)
    ensures r.planName == (if p.planName.Some? then p.planName.value else s.planName)
    ensures r.weeks == (if p.weeks.Some? then p.weeks.value else s.weeks)
    ensures r.totalCost == (if p.totalCost.Some? then p.totalCost.value else s.totalCost)
  {
    SubscriptionItem(
      p.planName.GetOr(s.planName), p.weeks.GetOr(s.weeks), p.mealsByWeek.GetOr(s.mealsByWeek),
      p.totalCost.GetOr(s.totalCost), p.billingFrequency.GetOr(s.billingFrequency))
  }

  /** Whether a line is the subscription to the named plan. */
  predicate IsPlan(item: CartItem, planName: string) {
    item.Subscription? && item.sub.planName == planName
  }

  /** `updateSubscriptionPlan`: every subscription to the plan takes the
      patch; every other line is kept as it is. */
  function UpdateSubscriptionPlan(items: seq<CartItem>, planName: string, patch: SubscriptionPatch): (r: seq<CartItem>)
    ensures |r| == |items|
    ensures forall i :: 0 <= i < |items| ==> (r[i].Meal? <==> items[i].Meal?)
    ensures forall i :: 0 <= i < |items| && !IsPlan(items[i], planName) ==> r[i] == items[i]
    ensures forall i :: 0 <= i < |items| && IsPlan(items[i], planName) ==> r[i] == Subscription(Patched(items[i].sub, patch))
  {
    Map(items, (x: CartItem) => if IsPlan(x, planName) then Subscription(Patched(x.sub, patch)) else x)
  }

  /** A plan update leaves the meals and the count as they were. */
  lemma UpdatePlanKeepsMealsAndCount(items: seq<CartItem>, planName: string, patch: SubscriptionPatch)
    ensures Filter(UpdateSubscriptionPlan(items, planName, patch), (x: CartItem) => x.Meal?) == Filter(items, (x: CartItem) => x.Meal?)
    ensures CartCount(UpdateSubscriptionPlan(items, planName, patch)) == CartCount(items)
  {
    var r := UpdateSubscriptionPlan(items, planName, patch);
    MealsPointwise(items, r);
    SameLineCounts(items, r);
  }

  /** Two carts that agree on which lines are meals, and agree outright on
      the meal lines, hold the same meals. */
  lemma {:induction false} MealsPointwise(xs: seq<CartItem>, ys: seq<CartItem>)
    requires |xs| == |ys|
    requires forall i :: 0 <= i < |xs| ==> (ys[i].Meal? <==> xs[i].Meal?)
    requires forall i :: 0 <= i < |xs| && xs[i].Meal? ==> ys[i] == xs[i]
    ensures Filter(ys, (x: CartItem) => x.Meal?) == Filter(xs, (x: CartItem) => x.Meal?)
    decreases |xs|
  {
    if xs != [] {
      MealsPointwise(xs[1..], ys[1..]);
    }
  }

  /** Carts whose lines count the same, line by line, count the same. */
  lemma {:induction false} SameLineCounts(xs: seq<CartItem>, ys: seq<CartItem>)
    requires |xs| == |ys|
    requires forall i :: 0 <= i < |xs| ==> (ys[i].Meal? <==> xs[i].Meal?)
    requires forall i :: 0 <= i < |xs| && xs[i].Meal? ==> ys[i] == xs[i]
    ensures CartCount(ys) == CartCount(xs)
    decreases |xs|
  {
    if xs != [] {
      SameLineCounts(xs[1..], ys[1..]);
    }
  }
}
