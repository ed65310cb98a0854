/** The reducer-based cart of the client (`components/cart/CartContext.tsx`):
    a list of meal lines and subscription lines, and the actions that
    change it. The `total` field is carried but no action touches it. */
module CartReducer {
  import opened Seqs

  /** A meal line; the price is display text such as `$12.99`. */
  datatype MealItem = MealItem(id: int, name: string, price: string, quantity: int, image: string)

  /** A subscription line; the cost is in cents. */
  datatype SubscriptionItem = SubscriptionItem(
    planName: string, weeks: int, mealsByWeek: seq<seq<string>>, totalCost: int, billingFrequency: string)

  /** A line of the cart. */
  datatype CartItem = MealLine(meal: MealItem) | SubscriptionLine(sub: SubscriptionItem)

  /** The reducer's state. */
  datatype CartState = CartState(items: seq<CartItem>, total: int)

  /** The actions the reducer knows, and any other action object. */
  datatype CartAction =
    | AddItem(payload: MealItem)
    | RemoveItem(id: int)
    | UpdateQuantity(id: int, quantity: int)
    | AddSubscription(subscription: SubscriptionItem)
    | RemoveSubscription(planName: string)
    | ClearCart
    | UnknownAction

  /** Whether a line is a meal with the id (the `'id' in item` test). */
  predicate IsMeal(item: CartItem, id: int) {
    item.MealLine? && item.meal.id == id
  }

  /** Whether a line is the subscription to the named plan. */
  predicate IsPlan(item: CartItem, planName: string) {
    item.SubscriptionLine? && item.sub.planName == planName
  }

  /** Whether the cart holds a meal with the id. */
  predicate HasMeal(items: seq<CartItem>, id: int) {
    exists i :: 0 <= i < |items| && IsMeal(items[i], id)
  }

  /** A meal line with one more portion; other lines as they are. */
  function Bumped(item: CartItem): (b: CartItem)
    ensures b.MealLine? <==> item.MealLine?
    ensures item.MealLine? ==> b.meal == item.meal.(quantity := item.meal.quantity + 1)
    ensures item.SubscriptionLine? ==> b == item
  {
    if item.MealLine? then MealLine(item.meal.(quantity := item.meal.quantity + 1)) else item
  }

  /** `ADD_ITEM`: one more portion of every line with the payload's id (the
      payload's own quantity is then ignored), or the payload appended at
      the end when the id is new. */
  function AddItemTo(items: seq<CartItem>, m: MealItem): (r: seq<CartItem>)
    ensures HasMeal(items, m.id) ==> |r| == |items|
    ensures HasMeal(items, m.id) ==> forall i :: 0 <= i < |items| ==>
      r[i] == (if IsMeal(items[i], m.id) then Bumped(items[i]) else items[i])
    ensures !HasMeal(items, m.id) ==> r == items + [MealLine(m)]
  {
    if Any(items, (x: CartItem) => IsMeal(x, m.id)) then
      Map(items, (x: CartItem) => if IsMeal(x, m.id) then Bumped(x) else x)
    else items + [MealLine(m)]
  }

  /** `REMOVE_ITEM`: drop every meal line with the id. */
  function RemoveItemFrom(items: seq<CartItem>, id: int): (r: seq<CartItem>)
    ensures forall i :: 0 <= i < |r| ==> r[i] in items && !IsMeal(r[i], id)
    ensures forall i :: 0 <= i < |items| && !IsMeal(items[i], id) ==> items[i] in r
  {
    Filter(items, (x: CartItem) => !IsMeal(x, id))
  }

  /** `UPDATE_QUANTITY`: set the quantity of every meal line with the id,
      with no lower bound; a line set to 0 stays in the cart. */
  function SetQuantity(items: seq<CartItem>, id: int, quantity: int): (r: seq<CartItem>)
    ensures |r| == |items|
    ensures forall i :: 0 <= i < |items| ==>
      r[i] == (if IsMeal(items[i], id) then MealLine(items[i].meal.(quantity := quantity)) else items[i])
  {
    Map(items, (x: CartItem) => if IsMeal(x, id) then MealLine(x.meal.(quantity := quantity)) else x)
  }

  /** `ADD_SUBSCRIPTION`: the first subscription with the same plan name is
      replaced in place; otherwise the subscription is appended. */
  function AddSubscriptionTo(items: seq<CartItem>, s: SubscriptionItem): (r: seq<CartItem>)
    ensures (exists i :: 0 <= i < |items| && IsPlan(items[i], s.planName)) ==>
      |r| == |items| && (exists k :: 0 <= k < |items| && IsPlan(items[k], s.planName)
                                    && (forall i :: 0 <= i < k ==> !IsPlan(items[i], s.planName))
                                    && r == items[k := SubscriptionLine(s)])
    ensures (forall i :: 0 <= i < |items| ==> !IsPlan(items[i], s.planName)) ==> r == items + [SubscriptionLine(s)]
  {
    match FirstIndex(items, (x: CartItem) => IsPlan(x, s.planName))
    case Some(k) => items[k := SubscriptionLine(s)]
    case None => items + [SubscriptionLine(s)]
  }

  /** `REMOVE_SUBSCRIPTION`: drop the subscriptions with the plan name. */
  function RemoveSubscriptionFrom(items: seq<CartItem>, planName: string): (r: seq<CartItem>)
    ensures forall i :: 0 <= i < |r| ==> r[i] in items && !IsPlan(r[i], planName)
    ensures forall i :: 0 <= i < |items| && !IsPlan(items[i], planName) ==> items[i] in r
  {
    Filter(items, (x: CartItem) => !IsPlan(x, planName))
  }

  /** `cartReducer`. No action changes `total`, and an unknown action
      returns the state itself. */
  function Reduce(state: CartState, action: CartAction): (r: CartState)
    ensures r.total == state.total
    ensures action.UnknownAction? ==> r == state
    ensures action.ClearCart? ==> r.items == []
    ensures action.AddItem? ==> r.items == AddItemTo(state.items, action.payload)
    ensures action.RemoveItem? ==> r.items == RemoveItemFrom(state.items, action.id)
    ensures action.UpdateQuantity? ==> r.items == SetQuantity(state.items, action.id, action.quantity)
    ensures action.AddSubscription? ==> r.items == AddSubscriptionTo(state.items, action.subscription)
    ensures action.RemoveSubscription? ==> r.items == RemoveSubscriptionFrom(state.items, action.planName)
  {
    match action
    case AddItem(m) => state.(items := AddItemTo(state.items, m))
    case RemoveItem(id) => state.(items := RemoveItemFrom(state.items, id))
    case UpdateQuantity(id, q) => state.(items := SetQuantity(state.items, id, q))
    case AddSubscription(s) => state.(items := AddSubscriptionTo(state.items, s))
    case RemoveSubscription(n) => state.(items := RemoveSubscriptionFrom(state.items, n))
    case ClearCart => state.(items := [])
    case UnknownAction => state
  }

  /** Meal ids are distinct. */
  predicate UniqueMealIds(items: seq<CartItem>) {
    forall i, j :: 0 <= i < j < |items| && items[i].MealLine? && items[j].MealLine? ==> items[i].meal.id != items[j].meal.id
  }

  /** Plan names are distinct among subscriptions. */
  predicate UniquePlans(items: seq<CartItem>) {
    forall i, j :: 0 <= i < j < |items| && items[i].SubscriptionLine? && items[j].SubscriptionLine? ==> items[i].sub.planName != items[j].sub.planName
  }

  /** Adding a meal keeps meal ids distinct and leaves the subscriptions
      as they were. */
  lemma AddItemKeepsUnique(items: seq<CartItem>, m: MealItem)
    requires UniqueMealIds(items)
    ensures UniqueMealIds(AddItemTo(items, m))
    ensures Filter(AddItemTo(items, m), (x: CartItem) => x.SubscriptionLine?) == Filter(items, (x: CartItem) => x.SubscriptionLine?)
  {
    var r := AddItemTo(items, m);
    if HasMeal(items, m.id) {
      assert forall i :: 0 <= i < |items| ==> (r[i].MealLine? <==> items[i].MealLine?) && (r[i].MealLine? ==> r[i].meal.id == items[i].meal.id);
      assert forall i :: 0 <= i < |items| ==> (r[i].SubscriptionLine? ==> r[i] == items[i]);
      FilterSubscriptionsPointwise(items, r);
    } else {
      FilterConcat(items, [MealLine(m)], (x: CartItem) => x.SubscriptionLine?);
    }
  }

  /** Two carts whose lines agree on being subscriptions, and agree outright
      where they are, hold the same subscriptions. */
  lemma {:induction false} FilterSubscriptionsPointwise(xs: seq<CartItem>, ys: seq<CartItem>)
    requires |xs| == |ys|
    requires forall i :: 0 <= i < |xs| ==> (ys[i].SubscriptionLine? <==> xs[i].SubscriptionLine?)
    requires forall i :: 0 <= i < |xs| ==> (ys[i].SubscriptionLine? ==> ys[i] == xs[i])
    ensures Filter(ys, (x: CartItem) => x.SubscriptionLine?) == Filter(xs, (x: CartItem) => x.SubscriptionLine?)
    decreases |xs|
  {
    if xs != [] {
      FilterSubscriptionsPointwise(xs[1..], ys[1..]);
    }
  }

  /** Adding a subscription keeps at most one subscription per plan name. */
  lemma AddSubscriptionKeepsUnique(items: seq<CartItem>, s: SubscriptionItem)
    requires UniquePlans(items)
    ensures UniquePlans(AddSubscriptionTo(items, s))
    ensures exists i :: 0 <= i < |AddSubscriptionTo(items, s)| && AddSubscriptionTo(items, s)[i] == SubscriptionLine(s)
  {
    var r := AddSubscriptionTo(items, s);
    if exists i :: 0 <= i < |items| && IsPlan(items[i], s.planName) {
      var k :| 0 <= k < |items| && IsPlan(items[k], s.planName) && r == items[k := SubscriptionLine(s)];
      assert r[k] == SubscriptionLine(s);
    } else {
      assert r[|items|] == SubscriptionLine(s);
    }
  }

  /** Removing a subscription leaves no subscription to that plan and
      every meal line in place. */
  lemma RemoveSubscriptionOnlyThatPlan(items: seq<CartItem>, planName: string)
    ensures forall i :: 0 <= i < |RemoveSubscriptionFrom(items, planName)| ==> !IsPlan(RemoveSubscriptionFrom(items, planName)[i], planName)
    ensures Filter(RemoveSubscriptionFrom(items, planName), (x: CartItem) => x.MealLine?) == Filter(items, (x: CartItem) => x.MealLine?)
  {
    var p := (x: CartItem) => !IsPlan(x, planName);
    var q := (x: CartItem) => x.MealLine?;
    assert forall x :: q(x) ==> p(x);
    FilterFilter(items, p, q);
  }

  /** Removing a meal's id after adding it leaves the same cart as
      removing the id alone: the add touched nothing else. */
  lemma AddThenRemove(items: seq<CartItem>, m: MealItem)
    ensures RemoveItemFrom(AddItemTo(items, m), m.id) == RemoveItemFrom(items, m.id)
  {
    var p := (x: CartItem) => !IsMeal(x, m.id);
    if HasMeal(items, m.id) {
      var r := AddItemTo(items, m);
      FilterPointwise(items, r, m.id);
    } else {
      FilterConcat(items, [MealLine(m)], p);
    }
  }

  /** The meal filter does not see lines that differ only where it drops
      them. */
  lemma {:induction false} FilterPointwise(xs: seq<CartItem>, ys: seq<CartItem>, id: int)
    requires |xs| == |ys|
    requires forall i :: 0 <= i < |xs| ==> (IsMeal(ys[i], id) <==> IsMeal(xs[i], id))
    requires forall i :: 0 <= i < |xs| ==> (!IsMeal(xs[i], id) ==> ys[i] == xs[i])
    ensures Filter(ys, (x: CartItem) => !IsMeal(x, id)) == Filter(xs, (x: CartItem) => !IsMeal(x, id))
    decreases |xs|
  {
    if xs != [] {
      FilterPointwise(xs[1..], ys[1..], id);
    }
  }
}
