/** The order manager of the data layer (`orderManager.js`): the `order`
    table with its serial key, the owner join, the per-user listing, the
    status update and the revenue sum.

    `order_id` is a serial column: the table carries the next value the
    sequence hands out. Whether an insert is accepted (the foreign keys) and
    whether the database answers are the parameters `ok` and `up`; the clock
    is the parameter `now`. */
module OrderManager {
  import opened Wrappers
  import opened Seqs
  import opened Sorting
  import opened Tables

  /** A row of `order`. */
  datatype OrderRow = OrderRow(
    orderId: int, userId: int, planId: Option<int>, totalPrice: int, status: string,
    orderType: string, address: Option<string>, orderDate: int, updatedAt: int)

  /** The `order` table and the next value of its id sequence. */
  datatype OrderTable = OrderTable(rows: seq<OrderRow>, nextId: int)

  /** The serial key is sound: ids are distinct and below the next value. */
  predicate SerialOk(t: OrderTable) {
    && (forall i :: 0 <= i < |t.rows| ==> t.rows[i].orderId < t.nextId)
    && (forall i, j :: 0 <= i < j < |t.rows| ==> t.rows[i].orderId != t.rows[j].orderId)
  }

  /** The default status of a new order. */
  const DefaultStatus := "pending"

  /** The default order type of a new order. */
  const DefaultOrderType := "individual"

  /** `addOrder`: insert an order under the next serial id; an omitted status
      or type takes its default, an omitted address or plan is `NULL`. */
  function AddOrder(t: OrderTable, userId: int, totalPrice: int, status: Option<string>, orderType: Option<string>,
                    address: Option<string>, planId: Option<int>, now: int, ok: bool): (r: (OrderTable, Outcome<OrderRow>))
    ensures r.1.Done? <==> ok
    ensures !r.1.Done? ==> r.1.Failed? && r.0 == t
    ensures r.1.Done? ==> r.0.rows == t.rows + [r.1.value] && r.0.nextId == t.nextId + 1
    ensures r.1.Done? ==> r.1.value.orderId == t.nextId && r.1.value.userId == userId
    ensures r.1.Done? ==> r.1.value.totalPrice == totalPrice && r.1.value.address == address && r.1.value.planId == planId
    ensures r.1.Done? ==> r.1.value.orderDate == now
    ensures r.1.Done? && status.None? ==> r.1.value.status == "pending"
    ensures r.1.Done? && status.Some? ==> r.1.value.status == status.value
    ensures r.1.Done? && orderType.None? ==> r.1.value.orderType == "individual"
    ensures r.1.Done? && orderType.Some? ==> r.1.value.orderType == orderType.value
  {
    if !ok then (t, Failed)
    else
      var row := OrderRow(t.nextId, userId, planId, totalPrice, status.GetOr(DefaultStatus),
                          orderType.GetOr(DefaultOrderType), address, now, now);
      (OrderTable(t.rows + [row], t.nextId + 1), Done(row))
  }

  /** Inserting through the sequence keeps the serial key sound, so ids
      never collide. */
  lemma AddOrderKeepsSerial(t: OrderTable, userId: int, totalPrice: int, status: Option<string>, orderType: Option<string>,
                            address: Option<string>, planId: Option<int>, now: int, ok: bool)
    requires SerialOk(t)
    ensures SerialOk(AddOrder(t, userId, totalPrice, status, orderType, address, planId, now, ok).0)
  {
    var r := AddOrder(t, userId, totalPrice, status, orderType, address, planId, now, ok);
    if ok {
      var rows := r.0.rows;
      assert forall i :: 0 <= i < |t.rows| ==> rows[i] == t.rows[i];
      assert rows[|t.rows|].orderId == t.nextId;
    }
  }

  /** An order joined with its owner's account, as `getOrderById` returns it. */
  datatype OrderWithOwner = OrderWithOwner(order: OrderRow, owner: Account)

  /** Whether `a` owns `o`. */
  predicate Owns(a: Account, o: OrderRow) {
    a.userId == o.userId
  }

  /** Whether order `o` has an owner in `accounts`. */
  predicate HasOwner(accounts: seq<Account>, o: OrderRow) {
    exists j :: 0 <= j < |accounts| && Owns(accounts[j], o)
  }

  /** `getOrderById`: the order joined with its account; `null` when the
      order or its account is missing and on a database error. */
  function GetOrderById(t: OrderTable, accounts: seq<Account>, orderId: int, up: bool): (r: Option<OrderWithOwner>)
    ensures r.None? <==> !up || !exists i :: 0 <= i < |t.rows| && t.rows[i].orderId == orderId && HasOwner(accounts, t.rows[i])
    ensures r.Some? ==> r.value.order in t.rows && r.value.order.orderId == orderId
    ensures r.Some? ==> r.value.owner in accounts && Owns(r.value.owner, r.value.order)
  {
    if !up then None
    else match First(t.rows, (o: OrderRow) => o.orderId == orderId && HasOwner(accounts, o))
      case None => None
      case Some(o) =>
        match First(accounts, (a: Account) => Owns(a, o))
        case None => None
        case Some(a) => Some(OrderWithOwner(o, a))
  }

  /** Whether `o` belongs to `userId` and passes the optional status filter,
      which applies only when truthy. */
  predicate ListedFor(o: OrderRow, userId: int, status: Option<string>) {
    o.userId == userId && (TruthyText(status) ==> o.status == status.value)
  }

  /** `getOrdersByUserId`: the user's orders, optionally of one status,
      newest `order_date` first; `[]` on a database error. */
  function GetOrdersByUserId(t: OrderTable, userId: int, status: Option<string>, up: bool): (r: seq<OrderRow>)
    ensures !up ==> r == []
    ensures up ==> multiset(r) == multiset(Filter(t.rows, (o: OrderRow) => ListedFor(o, userId, status)))
    ensures forall i, j :: 0 <= i < j < |r| ==> r[i].orderDate >= r[j].orderDate
  {
    if !up then []
    else
      var r := SortByInt(Filter(t.rows, (o: OrderRow) => ListedFor(o, userId, status)), (o: OrderRow) => o.orderDate, Desc);
      assert forall i, j :: 0 <= i < j < |r| ==> IntInOrder(r[i].orderDate, r[j].orderDate, Desc);
      r
  }

  /** The listing holds exactly the user's orders passing the filter. */
  lemma OrdersByUserExact(t: OrderTable, userId: int, status: Option<string>, o: OrderRow)
    ensures o in GetOrdersByUserId(t, userId, status, true) <==> o in t.rows && ListedFor(o, userId, status)
  {
    var p := (x: OrderRow) => ListedFor(x, userId, status);
    var r := GetOrdersByUserId(t, userId, status, true);
    PermutedFilterMembers(r, t.rows, p);
    if o in t.rows && ListedFor(o, userId, status) {
      assert o in Filter(t.rows, p);
      assert o in multiset(r);
    }
  }

  /** An empty status is falsy and filters nothing. */
  lemma EmptyStatusIgnored(t: OrderTable, userId: int, up: bool)
    ensures GetOrdersByUserId(t, userId, Some(""), up) == GetOrdersByUserId(t, userId, None, up)
  {
    FilterSamePredicate(t.rows, (x: OrderRow) => ListedFor(x, userId, Some("")), (x: OrderRow) => ListedFor(x, userId, None));
  }

  /** `updateOrderStatus`: set the status and `updated_at` of the order. */
  function UpdateOrderStatus(t: OrderTable, orderId: int, status: string, now: int, up: bool): (r: (OrderTable, Outcome<OrderRow>))
    ensures r.1.Failed? <==> !up
    ensures r.1.Done? <==> up && exists i :: 0 <= i < |t.rows| && t.rows[i].orderId == orderId
    ensures r.1.Refused? ==> r.1.message == "Order not found"
    ensures r.0.nextId == t.nextId && |r.0.rows| == |t.rows|
    ensures forall i :: 0 <= i < |t.rows| ==>
      r.0.rows[i] == (if r.1.Done? && t.rows[i].orderId == orderId
                      then t.rows[i].(status := status, updatedAt := now) else t.rows[i])
    ensures r.1.Done? ==> r.1.value.orderId == orderId && r.1.value.status == status
  {
    var p := (o: OrderRow) => o.orderId == orderId;
    var f := (o: OrderRow) => o.(status := status, updatedAt := now);
    if !up then (t, Failed)
    else match First(t.rows, p)
      case None => (t, Refused("Order not found"))
      case Some(o) => (t.(rows := SetWhere(t.rows, p, f)), Done(f(o)))
  }

  /** A status update keeps every id, so the serial key stays sound. */
  lemma UpdateKeepsSerial(t: OrderTable, orderId: int, status: string, now: int, up: bool)
    requires SerialOk(t)
    ensures SerialOk(UpdateOrderStatus(t, orderId, status, now, up).0)
  {
    var r := UpdateOrderStatus(t, orderId, status, now, up);
    assert forall i :: 0 <= i < |t.rows| ==> r.0.rows[i].orderId == t.rows[i].orderId;
  }

  /** After a successful update, listing the owner's orders of the new
      status shows the updated row. */
  lemma UpdateThenListed(t: OrderTable, orderId: int, status: string, now: int, userId: int)
    ensures var r := UpdateOrderStatus(t, orderId, status, now, true);
      r.1.Done? && r.1.value.userId == userId ==> r.1.value in GetOrdersByUserId(r.0, userId, Some(status), true)
  {
    var r := UpdateOrderStatus(t, orderId, status, now, true);
    if r.1.Done? {
      var i :| 0 <= i < |t.rows| && t.rows[i].orderId == orderId && r.1.value == t.rows[i].(status := status, updatedAt := now);
      assert r.0.rows[i] == r.1.value;
      if r.1.value.userId == userId {
        OrdersByUserExact(r.0, userId, Some(status), r.1.value);
      }
    }
  }

  /** `getLatestOrderId`: the id of the user's newest order; `null` when the
      user has none and on a database error. */
  function GetLatestOrderId(t: OrderTable, userId: int, up: bool): (r: Option<int>)
    ensures r.None? <==> !up || forall i :: 0 <= i < |t.rows| ==> t.rows[i].userId != userId
  {
    var listed := GetOrdersByUserId(t, userId, None, up);
    if listed == [] then
      assert up ==> Filter(t.rows, (o: OrderRow) => ListedFor(o, userId, None)) == [];
      None
    else
      assert up && listed[0] in multiset(Filter(t.rows, (o: OrderRow) => ListedFor(o, userId, None)));
      Some(listed[0].orderId)
  }

  /** Whether row `i` is an order of `userId` that no other order of the
      user postdates. */
  predicate IsNewestOf(t: OrderTable, userId: int, i: int) {
    && 0 <= i < |t.rows|
    && t.rows[i].userId == userId
    && forall j :: 0 <= j < |t.rows| && t.rows[j].userId == userId ==> t.rows[j].orderDate <= t.rows[i].orderDate
  }

  /** The latest id belongs to one of the user's orders whose date no other
      order of the user exceeds. */
  lemma LatestIsNewest(t: OrderTable, userId: int)
    ensures var r := GetLatestOrderId(t, userId, true);
      r.Some? ==> exists i :: IsNewestOf(t, userId, i) && t.rows[i].orderId == r.value
  {
    var listed := GetOrdersByUserId(t, userId, None, true);
    if listed != [] {
      HeadRowIsNewest(t, userId);
    }
  }

  /** Some row of the user is the head of the listing and postdates every
      order of the user. */
  lemma HeadRowIsNewest(t: OrderTable, userId: int)
    requires GetOrdersByUserId(t, userId, None, true) != []
    ensures var head := GetOrdersByUserId(t, userId, None, true)[0];
      exists i :: IsNewestOf(t, userId, i) && t.rows[i].orderId == head.orderId
  {
    var listed := GetOrdersByUserId(t, userId, None, true);
    OrdersByUserExact(t, userId, None, listed[0]);
    var i :| 0 <= i < |t.rows| && t.rows[i] == listed[0];
    HeadIsNewest(t, userId, i);
  }

  /** The head of the user's listing postdates every order of the user. */
  lemma HeadIsNewest(t: OrderTable, userId: int, i: int)
    requires var listed := GetOrdersByUserId(t, userId, None, true);
      listed != [] && 0 <= i < |t.rows| && t.rows[i] == listed[0]
    ensures IsNewestOf(t, userId, i)
  {
    var listed := GetOrdersByUserId(t, userId, None, true);
    OrdersByUserExact(t, userId, None, listed[0]);
    forall j | 0 <= j < |t.rows| && t.rows[j].userId == userId
      ensures t.rows[j].orderDate <= t.rows[i].orderDate
    {
      OrdersByUserExact(t, userId, None, t.rows[j]);
      var k :| 0 <= k < |listed| && listed[k] == t.rows[j];
      if k > 0 {
        assert listed[0].orderDate >= listed[k].orderDate;
      }
    }
  }

  /** Whether `o` counts towards revenue: delivered, within the optional
      date bounds. */
  predicate CountsAsRevenue(o: OrderRow, startDate: Option<int>, endDate: Option<int>) {
    && o.status == "delivered"
    && (startDate.Some? ==> o.orderDate >= startDate.value)
    && (endDate.Some? ==> o.orderDate <= endDate.value)
  }

  /** The revenue column. */
  function Price(o: OrderRow): int {
    o.totalPrice
  }

  /** An order's contribution to the revenue: its price when it counts, 0
      otherwise. */
  function RevenueIn(startDate: Option<int>, endDate: Option<int>): OrderRow -> int {
    (o: OrderRow) => if CountsAsRevenue(o, startDate, endDate) then o.totalPrice else 0
  }

  /** `getTotalRevenue`: the sum of `total_price` over delivered orders in the
      date range; 0 when there are none and on a database error. */
  function GetTotalRevenue(t: OrderTable, startDate: Option<int>, endDate: Option<int>, up: bool): (r: int)
    ensures !up ==> r == 0
    ensures up ==> r == Sum(t.rows, RevenueIn(startDate, endDate))
    ensures (forall i :: 0 <= i < |t.rows| ==> t.rows[i].status != "delivered") ==> r == 0
    ensures (forall i :: 0 <= i < |t.rows| ==> t.rows[i].totalPrice >= 0) ==> r >= 0
  {
    if !up then 0
    else
      var counted := Filter(t.rows, (o: OrderRow) => CountsAsRevenue(o, startDate, endDate));
      assert forall i :: 0 <= i < |counted| ==> counted[i] in t.rows;
      SumFilterMasked(t.rows, Price, (o: OrderRow) => CountsAsRevenue(o, startDate, endDate), RevenueIn(startDate, endDate));
      Sum(counted, Price)
  }

  /** Adding an order raises the revenue over any date bounds by its price
      exactly when it is delivered and its order date (the clock reading)
      lies within the bounds, and leaves it unchanged otherwise. */
  lemma RevenueAfterAddOrder(t: OrderTable, userId: int, totalPrice: int, status: Option<string>, orderType: Option<string>,
                             address: Option<string>, planId: Option<int>, now: int,
                             startDate: Option<int>, endDate: Option<int>)
    ensures var t2 := AddOrder(t, userId, totalPrice, status, orderType, address, planId, now, true).0;
      GetTotalRevenue(t2, startDate, endDate, true)
        == GetTotalRevenue(t, startDate, endDate, true)
           + (if status == Some("delivered") && (startDate.Some? ==> now >= startDate.value)
                 && (endDate.Some? ==> now <= endDate.value)
              then totalPrice else 0)
  {
    var r := AddOrder(t, userId, totalPrice, status, orderType, address, planId, now, true);
    var p := (o: OrderRow) => CountsAsRevenue(o, startDate, endDate);
    FilterConcat(t.rows, [r.1.value], p);
    SumConcat(Filter(t.rows, p), Filter([r.1.value], p), Price);
    assert [r.1.value][1..] == [];
  }

  /** Marking an order `delivered` raises the revenue over any date bounds
      by its price when it was not delivered before and its order date lies
      within the bounds; with ids distinct, no other order changes. */
  lemma RevenueAfterDelivered(t: OrderTable, k: int, now: int, startDate: Option<int>, endDate: Option<int>)
    requires SerialOk(t) && 0 <= k < |t.rows| && t.rows[k].status != "delivered"
    ensures var t2 := UpdateOrderStatus(t, t.rows[k].orderId, "delivered", now, true).0;
      GetTotalRevenue(t2, startDate, endDate, true)
        == GetTotalRevenue(t, startDate, endDate, true)
           + (if (startDate.Some? ==> t.rows[k].orderDate >= startDate.value)
                 && (endDate.Some? ==> t.rows[k].orderDate <= endDate.value)
              then t.rows[k].totalPrice else 0)
  {
    var t2 := UpdateOrderStatus(t, t.rows[k].orderId, "delivered", now, true).0;
    forall i | 0 <= i < |t.rows| && i != k
      ensures t2.rows[i] == t.rows[i]
    {
      assert t.rows[i].orderId != t.rows[k].orderId;
    }
    SumReplaceOne(t.rows, t2.rows, RevenueIn(startDate, endDate), k);
  }

  /** With no negative prices, date bounds can only lower the revenue, and a
      delivered order dated outside the bounds adds nothing to it. */
  lemma BoundedRevenueAtMostTotal(t: OrderTable, startDate: Option<int>, endDate: Option<int>)
    requires forall i :: 0 <= i < |t.rows| ==> t.rows[i].totalPrice >= 0
    ensures GetTotalRevenue(t, startDate, endDate, true) <= GetTotalRevenue(t, None, None, true)
  {
    SumFilterMonotone(t.rows, Price, (o: OrderRow) => CountsAsRevenue(o, startDate, endDate),
                      (o: OrderRow) => CountsAsRevenue(o, None, None));
  }

  /** An order dated outside the bounds never counts, whatever its status. */
  lemma OutsideBoundsNeverCounts(o: OrderRow, startDate: Option<int>, endDate: Option<int>)
    requires (startDate.Some? && o.orderDate < startDate.value) || (endDate.Some? && o.orderDate > endDate.value)
    ensures !CountsAsRevenue(o, startDate, endDate)
    ensures GetTotalRevenue(OrderTable([o], o.orderId + 1), startDate, endDate, true) == 0
  {
  }
}
