/** The inventory manager of the data layer (`inventoryManager.js`): guarded
    stock and price updates, the availability check, and the two catalogue
    listings.

    Updates are SQL `UPDATE … WHERE meal_id = $ AND is_active = true`, the
    guarded update of `Tables`. A database error is the parameter `up` being
    false. */
module InventoryManager {
  import opened Wrappers
  import opened Seqs
  import opened Sorting
  import opened Tables

  /** Whether `m` is the active meal `mealId`. */
  predicate IsActiveMeal(m: Meal, mealId: int) {
    m.mealId == mealId && m.isActive
  }

  /** Whether the active meal `mealId` is present. */
  predicate HasActiveMeal(inv: seq<Meal>, mealId: int) {
    exists i :: 0 <= i < |inv| && IsActiveMeal(inv[i], mealId)
  }

  /** Whether the active meal `mealId` is present with at least `q` in stock. */
  predicate HasStock(inv: seq<Meal>, mealId: int, q: int) {
    exists i :: 0 <= i < |inv| && IsActiveMeal(inv[i], mealId) && inv[i].quantity >= q
  }

  /** `meal_id` is the key of `inventory`. */
  predicate UniqueMealIds(inv: seq<Meal>) {
    forall i, j :: 0 <= i < j < |inv| ==> inv[i].mealId != inv[j].mealId
  }

  /** No stock level is negative. */
  predicate StockNonNegative(inv: seq<Meal>) {
    forall i :: 0 <= i < |inv| ==> inv[i].quantity >= 0
  }

  /** The two columns the inventory updates set outright. */
  datatype StockColumn = QuantityColumn | PriceColumn

  /** A meal's value in a column. */
  function ColumnOf(m: Meal, c: StockColumn): int {
    match c
    case QuantityColumn => m.quantity
    case PriceColumn => m.price
  }

  /** The meal with `value` in column `c`. */
  function SetColumn(m: Meal, c: StockColumn, value: int): (m': Meal)
    ensures ColumnOf(m', c) == value
    ensures m'.mealId == m.mealId && m'.isActive == m.isActive
  {
    match c
    case QuantityColumn => m.(quantity := value)
    case PriceColumn => m.(price := value)
  }

  /** `UPDATE inventory SET <column> = $1 … WHERE meal_id = $2 AND
      is_active = true RETURNING …`, shared by `updateMealQuantity` and
      `updateMealPrice`: set the column of an active meal. */
  function UpdateActiveMeal(inv: seq<Meal>, mealId: int, c: StockColumn, value: int, up: bool): (r: (seq<Meal>, Outcome<Meal>))
    ensures r.1.Failed? <==> !up
    ensures r.1.Done? <==> up && HasActiveMeal(inv, mealId)
    ensures r.1.Refused? ==> r.1.message == "Meal not found or inactive"
    ensures !r.1.Done? ==> r.0 == inv
    ensures |r.0| == |inv|
    ensures forall i :: 0 <= i < |inv| ==>
      r.0[i] == (if r.1.Done? && IsActiveMeal(inv[i], mealId) then SetColumn(inv[i], c, value) else inv[i])
    ensures r.1.Done? ==> r.1.value.mealId == mealId && ColumnOf(r.1.value, c) == value
  {
    GuardedUpdate(inv, (m: Meal) => IsActiveMeal(m, mealId), (m: Meal) => SetColumn(m, c, value), "Meal not found or inactive", up)
  }

  /** `updateMealQuantity`: set the stock of an active meal. */
  function UpdateMealQuantity(inv: seq<Meal>, mealId: int, quantity: int, up: bool): (r: (seq<Meal>, Outcome<Meal>)) {
    UpdateActiveMeal(inv, mealId, QuantityColumn, quantity, up)
  }

  /** `updateMealPrice`: set the price of an active meal. */
  function UpdateMealPrice(inv: seq<Meal>, mealId: int, price: int, up: bool): (r: (seq<Meal>, Outcome<Meal>)) {
    UpdateActiveMeal(inv, mealId, PriceColumn, price, up)
  }

  /** `decreaseMealQuantity`: take `q` from an active meal holding at least
      `q`; the guard is part of the `WHERE`, so stock cannot go negative. */
  function DecreaseMealQuantity(inv: seq<Meal>, mealId: int, q: int, up: bool): (r: (seq<Meal>, Outcome<Meal>))
    ensures r.1.Failed? <==> !up
    ensures r.1.Done? <==> up && HasStock(inv, mealId, q)
    ensures r.1.Refused? ==> r.1.message == "Insufficient quantity or meal not found"
    ensures !r.1.Done? ==> r.0 == inv
    ensures |r.0| == |inv|
    ensures forall i :: 0 <= i < |inv| ==>
      r.0[i] == (if r.1.Done? && IsActiveMeal(inv[i], mealId) && inv[i].quantity >= q
                 then inv[i].(quantity := inv[i].quantity - q) else inv[i])
    ensures r.1.Done? ==> r.1.value.mealId == mealId && r.1.value.quantity >= 0
    ensures StockNonNegative(inv) ==> StockNonNegative(r.0)
  {
    GuardedUpdate(inv, (m: Meal) => IsActiveMeal(m, mealId) && m.quantity >= q,
                  (m: Meal) => m.(quantity := m.quantity - q), "Insufficient quantity or meal not found", up)
  }

  /** `isMealAvailable`: the first active row for the meal holds at least
      `q`; a missing meal and a database error both give false. */
  function IsMealAvailable(inv: seq<Meal>, mealId: int, q: int, up: bool): (r: bool)
    ensures r ==> up && HasStock(inv, mealId, q)
    ensures !up || !HasActiveMeal(inv, mealId) ==> !r
  {
    if !up then false
    else match First(inv, (m: Meal) => IsActiveMeal(m, mealId))
      case None => false
      case Some(m) => m.quantity >= q
  }

  /** With `meal_id` a key, the availability check agrees exactly with the
      guard of `decreaseMealQuantity`. */
  lemma AvailableIffDecreaseSucceeds(inv: seq<Meal>, mealId: int, q: int, up: bool)
    requires UniqueMealIds(inv)
    ensures IsMealAvailable(inv, mealId, q, up) <==> DecreaseMealQuantity(inv, mealId, q, up).1.Done?
  {
    if up && HasStock(inv, mealId, q) {
      var i :| 0 <= i < |inv| && IsActiveMeal(inv[i], mealId) && inv[i].quantity >= q;
      var p := (m: Meal) => IsActiveMeal(m, mealId);
      var k := FirstIndex(inv, p);
      assert p(inv[i]);
      assert k.Some? && p(inv[k.value]);
      assert k.value == i;
    }
  }

  /** The optional filters of `getAllMeals`; each applies only when truthy. */
  datatype MealQuery = MealQuery(category: Option<string>, maxPrice: Option<int>, minPrice: Option<int>)

  /** Whether an active meal passes the truthy filters of `q`. */
  predicate MatchesQuery(q: MealQuery, m: Meal) {
    && m.isActive
    && (TruthyText(q.category) ==> m.category == q.category.value)
    && (TruthyInt(q.maxPrice) ==> m.price <= q.maxPrice.value)
    && (TruthyInt(q.minPrice) ==> m.price >= q.minPrice.value)
  }

  /** `getAllMeals`: the active meals passing the filters, by name ascending;
      `[]` on a database error. */
  function GetAllMeals(inv: seq<Meal>, q: MealQuery, up: bool): (r: seq<Meal>)
    ensures !up ==> r == []
    ensures up ==> multiset(r) == multiset(Filter(inv, (m: Meal) => MatchesQuery(q, m)))
    ensures forall i, j :: 0 <= i < j < |r| ==> TextLe(r[i].name, r[j].name)
  {
    if !up then [] else SortByText(Filter(inv, (m: Meal) => MatchesQuery(q, m)), (m: Meal) => m.name, Asc)
  }

  /** Every listed meal is an active inventory row passing the filters, and
      every such row is listed. */
  lemma AllMealsExact(inv: seq<Meal>, q: MealQuery, m: Meal)
    ensures m in GetAllMeals(inv, q, true) <==> m in inv && MatchesQuery(q, m)
  {
    var r := GetAllMeals(inv, q, true);
    PermutedFilterMembers(r, inv, (m: Meal) => MatchesQuery(q, m));
    if m in inv && MatchesQuery(q, m) {
      assert m in Filter(inv, (m: Meal) => MatchesQuery(q, m));
      assert m in multiset(r);
    }
  }

  /** A price bound of 0 is falsy, so it filters nothing: the listing is the
      one without that bound. */
  lemma ZeroPriceBoundIgnored(inv: seq<Meal>, q: MealQuery, up: bool)
    ensures GetAllMeals(inv, q.(minPrice := Some(0)), up) == GetAllMeals(inv, q.(minPrice := None), up)
    ensures GetAllMeals(inv, q.(maxPrice := Some(0)), up) == GetAllMeals(inv, q.(maxPrice := None), up)
  {
    var a := q.(minPrice := Some(0));
    var b := q.(minPrice := None);
    assert forall m :: MatchesQuery(a, m) == MatchesQuery(b, m);
    FilterSamePredicate(inv, (m: Meal) => MatchesQuery(a, m), (m: Meal) => MatchesQuery(b, m));
    var c := q.(maxPrice := Some(0));
    var d := q.(maxPrice := None);
    assert forall m :: MatchesQuery(c, m) == MatchesQuery(d, m);
    FilterSamePredicate(inv, (m: Meal) => MatchesQuery(c, m), (m: Meal) => MatchesQuery(d, m));
  }

  /** Whether `m` is an active meal with at most `t` in stock. */
  predicate IsLowStock(m: Meal, t: int) {
    m.isActive && m.quantity <= t
  }

  /** The default threshold of `getLowStockMeals`. */
  const DefaultLowStock := 10

  /** `getLowStockMeals`: active meals with stock at most the threshold (10
      when none is given), by stock ascending; `[]` on a database error. */
  function GetLowStockMeals(inv: seq<Meal>, threshold: Option<int>, up: bool): (r: seq<Meal>)
    ensures !up ==> r == []
    ensures up ==> multiset(r) == multiset(Filter(inv, (m: Meal) => IsLowStock(m, threshold.GetOr(DefaultLowStock))))
    ensures forall i, j :: 0 <= i < j < |r| ==> r[i].quantity <= r[j].quantity
  {
    var t := threshold.GetOr(DefaultLowStock);
    if !up then []
    else
      var r := SortByInt(Filter(inv, (m: Meal) => IsLowStock(m, t)), (m: Meal) => m.quantity, Asc);
      assert forall i, j :: 0 <= i < j < |r| ==> IntInOrder(r[i].quantity, r[j].quantity, Asc);
      r
  }

  /** Every low-stock row is active and at or under the threshold. */
  lemma LowStockMembers(inv: seq<Meal>, threshold: Option<int>)
    ensures forall i :: 0 <= i < |GetLowStockMeals(inv, threshold, true)| ==>
      (var m := GetLowStockMeals(inv, threshold, true)[i];
       m in inv && m.isActive && m.quantity <= threshold.GetOr(DefaultLowStock))
  {
    var t := threshold.GetOr(DefaultLowStock);
    PermutedFilterMembers(GetLowStockMeals(inv, threshold, true), inv, (m: Meal) => IsLowStock(m, t));
  }
}
