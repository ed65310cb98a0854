/** The order-history hook of the client (`hooks/useOrderHistory.ts`): the
    mapping of stored statuses to the six statuses the page knows, the
    `BUMBA-00042` display id, and the item count of an order.

    Prices arrive as text or numbers and are read with `parseFloat`; here
    the parsed amount in cents is an input (`None` for `NaN`). */
module OrderHistory {
  import opened Wrappers
  import opened Strings
  import opened Seqs
  import opened JsParse

  /** The statuses the history page shows. */
  datatype UiStatus = Pending | Confirmed | Preparing | Shipped | Delivered | Cancelled

  /** The lower-case name of a status, as stored and as shown. */
  function StatusName(st: UiStatus): (s: string)
    ensures KnownName(s)
  {
    match st
    case Pending => "pending"
    case Confirmed => "confirmed"
    case Preparing => "preparing"
    case Shipped => "shipped"
    case Delivered => "delivered"
    case Cancelled => "cancelled"
  }

  /** Whether a lower-case text names one of the six statuses. */
  predicate KnownName(s: string) {
    s == "pending" || s == "confirmed" || s == "preparing" || s == "shipped" || s == "delivered" || s == "cancelled"
  }

  /** `mapOrderStatus`: the stored status lower-cased and matched against
      the six names; anything else, or no status at all, is `pending`. */
  function MapOrderStatus(dbStatus: Option<string>): (r: UiStatus)
    ensures dbStatus.Some? && KnownName(Lower(dbStatus.value)) ==> StatusName(r) == Lower(dbStatus.value)
    ensures (dbStatus.None? || !KnownName(Lower(dbStatus.value))) ==> r == Pending
  {
    if dbStatus.None? then Pending
    else
      var s := Lower(dbStatus.value);
      if s == "pending" then Pending
      else if s == "confirmed" then Confirmed
      else if s == "preparing" then Preparing
      else if s == "shipped" then Shipped
      else if s == "delivered" then Delivered
      else if s == "cancelled" then Cancelled
      else Pending
  }

  /** Each of the six names maps to its own status. */
  lemma MapStatusKnown(st: UiStatus)
    ensures MapOrderStatus(Some(StatusName(st))) == st
  {
    LowerOfLowerCase(StatusName(st));
  }

  /** Case does not matter: a status and its lower-case spelling map
      alike. */
  lemma MapStatusIgnoresCase(s: string)
    ensures MapOrderStatus(Some(s)) == MapOrderStatus(Some(Lower(s)))
  {
    LowerIdempotent(s);
  }

  /** The prefix of every display id. */
  const IdPrefix := "BUMBA-"

  /** The display id: `BUMBA-` and the order id, zero-padded to at least
      five characters. */
  function DisplayId(orderId: int): (id: string)
    ensures StartsWith(id, IdPrefix) && |id| >= |IdPrefix| + 5
    ensures EndsWith(id, IntToString(orderId))
  {
    IdPrefix + PadStart(IntToString(orderId), 5, '0')
  }

  /** An order as the server sends it. */
  datatype DbOrder = DbOrder(orderId: int, userId: int, totalPrice: Option<int>, status: Option<string>, orderDate: string)

  /** A quantity of an order line: a number, a text, or missing. */
  datatype Quantity = QNumber(n: int) | QText(s: string) | QMissing

  /** A line of an order's meal details. */
  datatype OrderMeal = OrderMeal(mealId: int, meal: string, quantity: Quantity, unitPrice: Option<int>)

  /** An order as the history page keeps it; `meals` is `None` until the
      details arrive. */
  datatype HistoryItem = HistoryItem(
    id: string, orderId: int, date: string, total: int, status: UiStatus, items: int,
    meals: Option<seq<OrderMeal>>)

  /** `transformOrder`: the display id, the date, the total (0 when the
      price does not parse), the mapped status and one item. */
  function TransformOrder(o: DbOrder): (h: HistoryItem)
    ensures h.id == DisplayId(o.orderId) && h.orderId == o.orderId && h.date == o.orderDate
    ensures h.total == o.totalPrice.GetOr(0)
    ensures h.status == MapOrderStatus(o.status)
    ensures h.items == 1 && h.meals.None?
  {
    HistoryItem(DisplayId(o.orderId), o.orderId, o.orderDate,
      if o.totalPrice.Some? then o.totalPrice.value else 0,
      MapOrderStatus(o.status), 1, None)
  }

  /** `String(meal.quantity || '0')`: a falsy quantity (0, the empty text,
      missing) becomes `'0'`. */
  function QuantityText(q: Quantity): string {
    match q
    case QNumber(n) => if n == 0 then "0" else IntToString(n)
    case QText(s) => if s == "" then "0" else s
    case QMissing => "0"
  }

  /** `parseInt(String(meal.quantity || '0')) || 0`, with `NaN` read as 0. */
  function LineQuantity(m: OrderMeal): int {
    ParseInt(QuantityText(m.quantity)).GetOr(0)
  }

  /** A numeric quantity reads back as itself, a missing or empty one as
      0, and a text that is no number as 0. */
  lemma LineQuantityReadsBack(m: OrderMeal)
    ensures m.quantity.QNumber? ==> LineQuantity(m) == m.quantity.n
    ensures m.quantity.QMissing? || m.quantity == QText("") ==> LineQuantity(m) == 0
    ensures m.quantity.QText? && m.quantity.s != "" && ParseInt(m.quantity.s).None? ==> LineQuantity(m) == 0
  {
    ParseIntZero();
    if m.quantity.QNumber? && m.quantity.n != 0 {
      ParseIntOfIntToString(m.quantity.n);
    }
  }

  /** `totalItems || 1`: the sum of the line quantities, or 1 when it is 0. */
  function ItemCount(meals: seq<OrderMeal>): (n: int)
    ensures Sum(meals, LineQuantity) != 0 ==> n == Sum(meals, LineQuantity)
    ensures Sum(meals, LineQuantity) == 0 ==> n == 1
  {
    var total := Sum(meals, LineQuantity);
    if total == 0 then 1 else total
  }

  /** The order once its meal details were fetched (`Some`) or failed to
      be (`None`, which keeps the base order). */
  function WithMeals(o: DbOrder, details: Option<seq<OrderMeal>>): (h: HistoryItem)
    ensures details.None? ==> h == TransformOrder(o)
    ensures details.Some? ==> h == TransformOrder(o).(items := ItemCount(details.value), meals := details)
  {
    var base := TransformOrder(o);
    if details.Some? then base.(items := ItemCount(details.value), meals := details) else base
  }

  /** With no negative quantity the count is at least one, and an order
      with no lines counts one. */
  lemma {:induction false} ItemCountAtLeastOne(meals: seq<OrderMeal>)
    requires forall i :: 0 <= i < |meals| ==> LineQuantity(meals[i]) >= 0
    ensures ItemCount(meals) >= 1
    ensures meals == [] ==> ItemCount(meals) == 1
  {
    SumNonNegative(meals);
  }

  /** The sum of non-negative quantities is non-negative. */
  lemma {:induction false} SumNonNegative(meals: seq<OrderMeal>)
    requires forall i :: 0 <= i < |meals| ==> LineQuantity(meals[i]) >= 0
    ensures Sum(meals, LineQuantity) >= 0
    decreases |meals|
  {
    if meals != [] {
      assert forall i :: 0 <= i < |meals[1..]| ==> meals[1..][i] == meals[i + 1];
      SumNonNegative(meals[1..]);
    }
  }

  /** `useOrderHistory`'s list: each order transformed with its details. */
  function HistoryItems(orders: seq<DbOrder>, details: seq<Option<seq<OrderMeal>>>): (r: seq<HistoryItem>)
    requires |details| == |orders|
    ensures |r| == |orders|
    ensures forall i :: 0 <= i < |r| ==> r[i].orderId == orders[i].orderId && r[i].id == DisplayId(orders[i].orderId)
    ensures forall i :: 0 <= i < |r| ==> r[i] == WithMeals(orders[i], details[i])
  {
    seq(|orders|, i requires 0 <= i < |orders| => WithMeals(orders[i], details[i]))
  }
}
