/** The order-line manager of the data layer (`mealOrderManager.js`): the
    `order_meal` table that attaches meals to orders.

    Whether the database accepts one more inserted row (its key and foreign
    key constraints) is the oracle `accepts`, asked with the table as it
    stands at that moment; whether the database answers at all is `up`. */
module MealOrderManager {
  import opened Wrappers
  import opened Seqs
  import opened Sorting
  import opened Tables

  /** A row of `order_meal`. */
  datatype OrderMeal = OrderMeal(orderId: int, mealId: int, quantity: int, unitPrice: int)

  /** One requested meal of `addMealsToOrder`. */
  datatype MealRequest = MealRequest(mealId: int, quantity: int, unitPrice: int)

  /** Whether `l` is the line of meal `mealId` in order `orderId`. */
  predicate IsLine(l: OrderMeal, orderId: int, mealId: int) {
    l.orderId == orderId && l.mealId == mealId
  }

  /** `addMealToOrder`: insert one line. */
  function AddMealToOrder(lines: seq<OrderMeal>, row: OrderMeal, accepts: (seq<OrderMeal>, OrderMeal) -> bool, up: bool): (r: (seq<OrderMeal>, Outcome<OrderMeal>))
    ensures r.1.Done? <==> up && accepts(lines, row)
    ensures r.1.Done? ==> r.0 == lines + [row] && r.1.value == row
    ensures !r.1.Done? ==> r.1.Failed? && r.0 == lines
  {
    if up && accepts(lines, row) then (lines + [row], Done(row)) else (lines, Failed)
  }

  /** The rows `addMealsToOrder` inserts, one per request, in request order. */
  function RowsFor(orderId: int, meals: seq<MealRequest>): (rows: seq<OrderMeal>)
    ensures |rows| == |meals|
    ensures forall i :: 0 <= i < |meals| ==>
      rows[i] == OrderMeal(orderId, meals[i].mealId, meals[i].quantity, meals[i].unitPrice)
  {
    Map(meals, (m: MealRequest) => OrderMeal(orderId, m.mealId, m.quantity, m.unitPrice))
  }

  /** Whether every row is accepted when inserted after `base` and the rows
      before it, the order a transaction runs its statements in. */
  predicate AllAccepted(base: seq<OrderMeal>, rows: seq<OrderMeal>, accepts: (seq<OrderMeal>, OrderMeal) -> bool) {
    forall k :: 0 <= k < |rows| ==> accepts(base + rows[..k], rows[k])
  }

  /** `addMealsToOrder`: the inserts run in one transaction; the first
      rejected insert rolls every earlier one back, so the table gains all
      the rows or none. The success payload is the number of meals. */
  method AddMealsToOrder(lines: seq<OrderMeal>, orderId: int, meals: seq<MealRequest>,
                         accepts: (seq<OrderMeal>, OrderMeal) -> bool, up: bool)
    returns (r: seq<OrderMeal>, out: Outcome<nat>)
    ensures out.Done? <==> up && AllAccepted(lines, RowsFor(orderId, meals), accepts)
    ensures out.Done? ==> r == lines + RowsFor(orderId, meals) && out.value == |meals|
    ensures !out.Done? ==> out.Failed? && r == lines
  {
    if !up {
      return lines, Failed;
    }
    var rows := RowsFor(orderId, meals);
    var staged := lines;
    var i := 0;
    while i < |rows|
      invariant 0 <= i <= |rows|
      invariant staged == lines + rows[..i]
      invariant forall k :: 0 <= k < i ==> accepts(lines + rows[..k], rows[k])
    {
      if !accepts(staged, rows[i]) {
        assert !accepts(lines + rows[..i], rows[i]);
        return lines, Failed;
      }
      assert rows[..i + 1] == rows[..i] + [rows[i]];
      staged := staged + [rows[i]];
      assert staged == lines + rows[..i + 1];
      i := i + 1;
    }
    assert rows[..i] == rows;
    return staged, Done(|meals|);
  }

  /** The join condition of `getMealsByOrderId`. */
  predicate SameMeal(l: OrderMeal, m: Meal) {
    l.mealId == m.mealId
  }

  /** `getMealsByOrderId`: the order's lines joined with their meals, by
      meal name; `[]` on a database error. */
  function GetMealsByOrderId(lines: seq<OrderMeal>, inv: seq<Meal>, orderId: int, up: bool): (r: seq<(OrderMeal, Meal)>)
    ensures !up ==> r == []
    ensures up ==> multiset(r) == multiset(Join(Filter(lines, (l: OrderMeal) => l.orderId == orderId), inv, SameMeal))
    ensures forall i, j :: 0 <= i < j < |r| ==> TextLe(r[i].1.name, r[j].1.name)
  {
    if !up then []
    else SortByText(Join(Filter(lines, (l: OrderMeal) => l.orderId == orderId), inv, SameMeal), (v: (OrderMeal, Meal)) => v.1.name, Asc)
  }

  /** The listing holds exactly the order's lines that have a meal: each row
      is one of the order's lines with its meal, and each such pair is
      listed. */
  lemma MealsByOrderExact(lines: seq<OrderMeal>, inv: seq<Meal>, orderId: int, l: OrderMeal, m: Meal)
    ensures (l, m) in GetMealsByOrderId(lines, inv, orderId, true) <==>
            l in lines && l.orderId == orderId && m in inv && m.mealId == l.mealId
  {
    var mine := Filter(lines, (x: OrderMeal) => x.orderId == orderId);
    var r := GetMealsByOrderId(lines, inv, orderId, true);
    if (l, m) in r {
      assert (l, m) in multiset(r);
      assert (l, m) in Join(mine, inv, SameMeal);
    }
    if l in lines && l.orderId == orderId && m in inv && m.mealId == l.mealId {
      assert l in mine;
      JoinComplete(mine, inv, SameMeal, l, m);
      assert (l, m) in multiset(Join(mine, inv, SameMeal));
    }
  }

  /** Whether order `orderId` has a line for meal `mealId`. */
  predicate HasLine(lines: seq<OrderMeal>, orderId: int, mealId: int) {
    exists i :: 0 <= i < |lines| && IsLine(lines[i], orderId, mealId)
  }

  /** `updateMealQuantity`: set the quantity of the (order, meal) line. */
  function UpdateMealQuantity(lines: seq<OrderMeal>, orderId: int, mealId: int, quantity: int, up: bool): (r: (seq<OrderMeal>, Outcome<OrderMeal>))
    ensures r.1.Failed? <==> !up
    ensures r.1.Done? <==> up && HasLine(lines, orderId, mealId)
    ensures r.1.Refused? ==> r.1.message == "Order meal not found"
    ensures |r.0| == |lines|
    ensures forall i :: 0 <= i < |lines| ==>
      r.0[i] == (if r.1.Done? && IsLine(lines[i], orderId, mealId) then lines[i].(quantity := quantity) else lines[i])
    ensures r.1.Done? ==> IsLine(r.1.value, orderId, mealId) && r.1.value.quantity == quantity
  {
    if !up then (lines, Failed)
    else match First(lines, (l: OrderMeal) => IsLine(l, orderId, mealId))
      case None => (lines, Refused("Order meal not found"))
      case Some(l) =>
        (SetWhere(lines, (l: OrderMeal) => IsLine(l, orderId, mealId), (l: OrderMeal) => l.(quantity := quantity)),
         Done(l.(quantity := quantity)))
  }

  /** `removeMealFromOrder`: delete the (order, meal) line. */
  function RemoveMealFromOrder(lines: seq<OrderMeal>, orderId: int, mealId: int, up: bool): (r: (seq<OrderMeal>, Outcome<()>))
    ensures r.1.Failed? <==> !up
    ensures r.1.Done? <==> up && HasLine(lines, orderId, mealId)
    ensures r.1.Refused? ==> r.1.message == "Order meal not found"
    ensures !r.1.Done? ==> r.0 == lines
    ensures r.1.Done? ==> r.0 == Filter(lines, (l: OrderMeal) => !IsLine(l, orderId, mealId))
  {
    if !up then (lines, Failed)
    else if !HasLine(lines, orderId, mealId) then (lines, Refused("Order meal not found"))
    else (Filter(lines, (l: OrderMeal) => !IsLine(l, orderId, mealId)), Done(()))
  }

  /** `orderContainsMeal`: whether the line exists; false on a database
      error. */
  function OrderContainsMeal(lines: seq<OrderMeal>, orderId: int, mealId: int, up: bool): (r: bool)
    ensures r <==> up && HasLine(lines, orderId, mealId)
  {
    up && Any(lines, (l: OrderMeal) => IsLine(l, orderId, mealId))
  }

  /** After a remove on a working database the line is gone, whether or not
      it was there; every other line is kept in order. */
  lemma RemoveThenAbsent(lines: seq<OrderMeal>, orderId: int, mealId: int)
    ensures !OrderContainsMeal(RemoveMealFromOrder(lines, orderId, mealId, true).0, orderId, mealId, true)
    ensures forall i :: 0 <= i < |lines| && !IsLine(lines[i], orderId, mealId) ==>
      lines[i] in RemoveMealFromOrder(lines, orderId, mealId, true).0
  {
  }

  /** The containment check and the quantity update agree on which lines
      exist. */
  lemma ContainsIffUpdateFinds(lines: seq<OrderMeal>, orderId: int, mealId: int, quantity: int, up: bool)
    ensures OrderContainsMeal(lines, orderId, mealId, up) <==> UpdateMealQuantity(lines, orderId, mealId, quantity, up).1.Done?
  {
  }

  /** The value of one line, `quantity * unit_price`. */
  function LineValue(l: OrderMeal): int {
    l.quantity * l.unitPrice
  }

  /** `getOrderMealTotal`: the sum of line values over the order; 0 when it
      has no lines and on a database error. */
  function GetOrderMealTotal(lines: seq<OrderMeal>, orderId: int, up: bool): (t: int)
    ensures !up ==> t == 0
    ensures (forall i :: 0 <= i < |lines| ==> lines[i].orderId != orderId) ==> t == 0
    ensures up ==> t == Sum(lines, ValueIn(orderId))
  {
    if !up then 0
    else
      SumFilterMasked(lines, LineValue, (l: OrderMeal) => l.orderId == orderId, ValueIn(orderId));
      Sum(Filter(lines, (l: OrderMeal) => l.orderId == orderId), LineValue)
  }

  /** A line's value towards an order's total: its value when it belongs to
      the order, 0 otherwise. */
  function ValueIn(orderId: int): OrderMeal -> int {
    (l: OrderMeal) => if l.orderId == orderId then LineValue(l) else 0
  }

  /** A successful `addMealsToOrder` raises the order's total by exactly the
      value of the added lines. */
  lemma TotalAfterAddMeals(lines: seq<OrderMeal>, orderId: int, meals: seq<MealRequest>)
    ensures GetOrderMealTotal(lines + RowsFor(orderId, meals), orderId, true)
         == GetOrderMealTotal(lines, orderId, true) + Sum(RowsFor(orderId, meals), LineValue)
  {
    var rows := RowsFor(orderId, meals);
    var mine := (l: OrderMeal) => l.orderId == orderId;
    FilterConcat(lines, rows, mine);
    assert Filter(rows, mine) == rows;
    SumConcat(Filter(lines, mine), rows, LineValue);
  }

  /** Adding lines to one order leaves every other order's total alone. */
  lemma OtherTotalsUnchanged(lines: seq<OrderMeal>, orderId: int, meals: seq<MealRequest>, other: int)
    requires other != orderId
    ensures GetOrderMealTotal(lines + RowsFor(orderId, meals), other, true) == GetOrderMealTotal(lines, other, true)
  {
    var rows := RowsFor(orderId, meals);
    var theirs := (l: OrderMeal) => l.orderId == other;
    FilterConcat(lines, rows, theirs);
    assert Filter(rows, theirs) == [];
    assert Filter(lines, theirs) + [] == Filter(lines, theirs);
  }
}
