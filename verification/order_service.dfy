/** The order store of the Java backend (`OrderService`): id allocation,
    order and line inserts, the two read paths and the status update.

    The `order` and `order_meal` tables are sequences of rows in insertion
    order; `inventory` is the catalogue the read paths join with. Whether the
    database answers a call is the parameter `up`; a failed insert is the
    source's `RuntimeException`, modelled as `None`. `order_id` is taken to
    be the primary key of `order`, so inserting a used id fails. */
module OrderService {
  import opened Wrappers
  import opened Seqs
  import opened Sorting
  import Tables

  /** A row of `order`. */
  datatype Order = Order(orderId: int, userId: int, totalPrice: int, status: string)

  /** A row of `order_meal`. */
  datatype OrderLine = OrderLine(orderId: int, mealId: int, quantity: int)

  /** The catalogue columns the read paths join in. */
  datatype CatalogMeal = CatalogMeal(name: string, price: int)

  /** The tables the service touches. */
  datatype Store = Store(orders: seq<Order>, lines: seq<OrderLine>, catalog: map<int, CatalogMeal>)

  /** An attached item as the read paths return it. */
  datatype OrderItem = OrderItem(mealId: int, mealName: string, price: int, quantity: int)

  /** An order with its items, as returned to clients. */
  datatype OrderDetails = OrderDetails(orderId: int, userId: int, totalPrice: int, status: string, items: seq<OrderItem>, itemCount: int)

  /** Whether some order has id `id`. */
  predicate HasOrder(s: Store, id: int) {
    exists i :: 0 <= i < |s.orders| && s.orders[i].orderId == id
  }

  /** No two orders share an id. */
  predicate UniqueOrderIds(s: Store) {
    forall i, j :: 0 <= i < j < |s.orders| ==> s.orders[i].orderId != s.orders[j].orderId
  }

  /** `MAX(order_id)`, or `None` for an empty table. */
  function MaxOrderId(orders: seq<Order>): (m: Option<int>)
    ensures m.None? <==> orders == []
    ensures m.Some? ==> forall i :: 0 <= i < |orders| ==> orders[i].orderId <= m.value
    ensures m.Some? ==> exists i :: 0 <= i < |orders| && orders[i].orderId == m.value
  {
    if orders == [] then None
    else
      var rest := MaxOrderId(orders[1..]);
      if rest.None? || orders[0].orderId >= rest.value then Some(orders[0].orderId)
      else
        assert forall i :: 1 <= i < |orders| ==> orders[i] == orders[1..][i - 1];
        var k :| 0 <= k < |orders[1..]| && orders[1..][k].orderId == rest.value;
        assert orders[k + 1].orderId == rest.value;
        rest
  }

  /** Every order id is below the largest `integer`, so `MAX(order_id) + 1`
      still fits one. */
  predicate IdsBelowInt4Max(s: Store) {
    forall i :: 0 <= i < |s.orders| ==> s.orders[i].orderId < Tables.Int4Max
  }

  /** Every order id fits the `integer` column. */
  predicate IdsAreInt4(s: Store) {
    forall i :: 0 <= i < |s.orders| ==> Tables.IsInt4(s.orders[i].orderId)
  }

  /** `generateOrderId`: `COALESCE(MAX(order_id), 0) + 1` when the database
      answers, and the constant 1 when it does not. The sum is `integer`
      arithmetic: past the largest `integer` the query raises, and the catch
      answers 1 as for any other failure. */
  function GenerateOrderId(s: Store, up: bool): (id: int)
    ensures Tables.IsInt4(id)
    ensures up && IdsBelowInt4Max(s) ==> forall i :: 0 <= i < |s.orders| ==> s.orders[i].orderId < id
    ensures up && IdsBelowInt4Max(s) ==> !HasOrder(s, id)
    ensures up && !IdsBelowInt4Max(s) ==> id == 1
    ensures up && s.orders == [] ==> id == 1
    ensures up && s.orders != [] && id != 1 ==> exists i :: 0 <= i < |s.orders| && s.orders[i].orderId == id - 1
    ensures up && s.orders != [] && IdsBelowInt4Max(s) && IdsAreInt4(s) ==>
      exists i :: 0 <= i < |s.orders| && s.orders[i].orderId == id - 1
    ensures !up ==> id == 1
  {
    if !up then 1
    else match MaxOrderId(s.orders)
      case None => 1
      case Some(m) => if Tables.IsInt4(m + 1) then m + 1 else 1
  }

  /** `createOrder`: insert the order row; `None` when the database fails or
      the id is already used. */
  function CreateOrder(s: Store, orderId: int, userId: int, totalPrice: int, status: string, up: bool): (r: Option<Store>)
    ensures r.Some? <==> up && !HasOrder(s, orderId)
    ensures r.Some? ==> r.value == s.(orders := s.orders + [Order(orderId, userId, totalPrice, status)])
  {
    if up && !HasOrder(s, orderId) then Some(s.(orders := s.orders + [Order(orderId, userId, totalPrice, status)]))
    else None
  }

  /** Inserting through `CreateOrder` keeps order ids unique. */
  lemma CreateOrderKeepsIdsUnique(s: Store, orderId: int, userId: int, totalPrice: int, status: string, up: bool)
    requires UniqueOrderIds(s)
    requires CreateOrder(s, orderId, userId, totalPrice, status, up).Some?
    ensures UniqueOrderIds(CreateOrder(s, orderId, userId, totalPrice, status, up).value)
  {
  }

  /** `addOrderItem`: append one line; `None` when the database fails. */
  function AddOrderItem(s: Store, orderId: int, mealId: int, quantity: int, up: bool): (r: Option<Store>)
    ensures r.Some? <==> up
    ensures r.Some? ==> r.value == s.(lines := s.lines + [OrderLine(orderId, mealId, quantity)])
  {
    if up then Some(s.(lines := s.lines + [OrderLine(orderId, mealId, quantity)])) else None
  }

  /** `getOrderItems`: the order's lines whose meal is in the catalogue (an
      inner join drops the others), in table order. */
  function OrderItems(s: Store, orderId: int): (items: seq<OrderItem>)
    ensures |items| <= |s.lines|
    ensures forall k :: 0 <= k < |items| ==>
      items[k].mealId in s.catalog
      && items[k].mealName == s.catalog[items[k].mealId].name
      && items[k].price == s.catalog[items[k].mealId].price
      && OrderLine(orderId, items[k].mealId, items[k].quantity) in s.lines
    ensures forall i :: 0 <= i < |s.lines| && s.lines[i].orderId == orderId && s.lines[i].mealId in s.catalog ==>
      ItemOf(s, s.lines[i]) in items
    ensures |items| == Count(s.lines, JoinedLine(s.catalog, orderId))
  {
    LineItemsCount(s.lines, s.catalog, orderId);
    LineItems(s.lines, s.catalog, orderId)
  }

  /** Whether a line belongs to the order and survives the inner join with
      the catalogue. */
  function JoinedLine(catalog: map<int, CatalogMeal>, orderId: int): OrderLine -> bool {
    (l: OrderLine) => l.orderId == orderId && l.mealId in catalog
  }

  /** The item a line reads as, given its meal is in the catalogue. */
  function ItemOf(s: Store, l: OrderLine): (it: OrderItem)
    requires l.mealId in s.catalog
    ensures it.mealId == l.mealId && it.quantity == l.quantity
  {
    OrderItem(l.mealId, s.catalog[l.mealId].name, s.catalog[l.mealId].price, l.quantity)
  }

  function LineItems(lines: seq<OrderLine>, catalog: map<int, CatalogMeal>, orderId: int): (items: seq<OrderItem>)
    ensures |items| <= |lines|
    ensures forall k :: 0 <= k < |items| ==>
      items[k].mealId in catalog
      && items[k].mealName == catalog[items[k].mealId].name
      && items[k].price == catalog[items[k].mealId].price
      && OrderLine(orderId, items[k].mealId, items[k].quantity) in lines
    ensures forall i :: 0 <= i < |lines| && lines[i].orderId == orderId && lines[i].mealId in catalog ==>
      OrderItem(lines[i].mealId, catalog[lines[i].mealId].name, catalog[lines[i].mealId].price, lines[i].quantity) in items
  {
    if lines == [] then []
    else
      var rest := LineItems(lines[1..], catalog, orderId);
      assert forall i :: 1 <= i < |lines| ==> lines[i] == lines[1..][i - 1];
      var l := lines[0];
      if l.orderId == orderId && l.mealId in catalog then
        [OrderItem(l.mealId, catalog[l.mealId].name, catalog[l.mealId].price, l.quantity)] + rest
      else rest
  }

  /** The join yields one item per joined line. */
  lemma {:induction false} LineItemsCount(lines: seq<OrderLine>, catalog: map<int, CatalogMeal>, orderId: int)
    ensures |LineItems(lines, catalog, orderId)| == Count(lines, JoinedLine(catalog, orderId))
    decreases |lines|
  {
    if lines != [] {
      LineItemsCount(lines[1..], catalog, orderId);
    }
  }

  /** How many lines the order has, the `COUNT(om.meal_id)` of the listing. */
  function LineCount(s: Store, orderId: int): (n: nat)
    ensures n <= |s.lines|
  {
    Count(s.lines, (l: OrderLine) => l.orderId == orderId)
  }

  /** The details of an order row. */
  function Details(s: Store, o: Order, itemCount: int): (d: OrderDetails)
    ensures d.orderId == o.orderId && d.userId == o.userId && d.status == o.status
  {
    OrderDetails(o.orderId, o.userId, o.totalPrice, o.status, OrderItems(s, o.orderId), itemCount)
  }

  /** The details of each order of `os`, in the same order. */
  function DetailsOf(s: Store, os: seq<Order>): (r: seq<OrderDetails>)
    ensures |r| == |os|
    ensures forall k :: 0 <= k < |r| ==> r[k] == Details(s, os[k], LineCount(s, os[k].orderId))
  {
    if os == [] then [] else [Details(s, os[0], LineCount(s, os[0].orderId))] + DetailsOf(s, os[1..])
  }

  /** The user's orders, newest id first. */
  function UserOrderRows(s: Store, userId: int): (r: seq<Order>)
    ensures multiset(r) == multiset(Filter(s.orders, (o: Order) => o.userId == userId))
    ensures forall i, j :: 0 <= i < j < |r| ==> r[i].orderId >= r[j].orderId
  {
    var mine := Filter(s.orders, (o: Order) => o.userId == userId);
    var r := SortByInt(mine, (o: Order) => o.orderId, Desc);
    assert forall i, j :: 0 <= i < j < |r| ==> r[i].orderId >= r[j].orderId by {
      forall i, j | 0 <= i < j < |r| ensures r[i].orderId >= r[j].orderId {
        assert IntInOrder(r[i].orderId, r[j].orderId, Desc);
      }
    }
    r
  }

  /** The listing holds the user's orders and only those. */
  lemma UserOrderRowsContent(s: Store, userId: int)
    ensures |UserOrderRows(s, userId)| == Count(s.orders, (o: Order) => o.userId == userId)
    ensures forall k :: 0 <= k < |UserOrderRows(s, userId)| ==> UserOrderRows(s, userId)[k].userId == userId
  {
    var r := UserOrderRows(s, userId);
    assert |multiset(r)| == |r|;
    forall k | 0 <= k < |r| ensures r[k].userId == userId {
      assert r[k] in multiset(r);
    }
  }

  /** `getUserOrders`: the user's orders, newest id first, each with its
      items and the count of its lines; empty when the database fails. */
  function GetUserOrders(s: Store, userId: int, up: bool): (r: seq<OrderDetails>)
    ensures !up ==> r == []
    ensures forall i, j :: 0 <= i < j < |r| ==> r[i].orderId >= r[j].orderId
    ensures forall k :: 0 <= k < |r| ==>
      (r[k].userId == userId && r[k].itemCount == LineCount(s, r[k].orderId) && r[k].items == OrderItems(s, r[k].orderId))
    ensures up ==> |r| == Count(s.orders, (o: Order) => o.userId == userId)
  {
    if !up then []
    else
      UserOrderRowsContent(s, userId);
      DetailsOf(s, UserOrderRows(s, userId))
  }

  /** Every order of the user appears in the listing. */
  lemma UserOrdersComplete(s: Store, userId: int, i: int)
    requires 0 <= i < |s.orders| && s.orders[i].userId == userId
    ensures Details(s, s.orders[i], LineCount(s, s.orders[i].orderId)) in GetUserOrders(s, userId, true)
  {
    var rows := UserOrderRows(s, userId);
    assert s.orders[i] in Filter(s.orders, (o: Order) => o.userId == userId);
    assert s.orders[i] in multiset(rows);
    var k :| 0 <= k < |rows| && rows[k] == s.orders[i];
    assert GetUserOrders(s, userId, true)[k] == Details(s, s.orders[i], LineCount(s, s.orders[i].orderId));
  }

  /** `getOrderById`: the order with its attached items, the item count being
      the number of items returned; `None` when absent or on failure. */
  function GetOrderById(s: Store, orderId: int, up: bool): (r: Option<OrderDetails>)
    ensures r.Some? <==> up && HasOrder(s, orderId)
    ensures r.Some? ==>
      (r.value.orderId == orderId && r.value.items == OrderItems(s, orderId) && r.value.itemCount == |r.value.items|)
    ensures r.Some? ==> exists i :: (0 <= i < |s.orders| && s.orders[i].orderId == orderId
                                    && r.value == Details(s, s.orders[i], |OrderItems(s, orderId)|))
  {
    if !up then None
    else
      var hits := Filter(s.orders, (o: Order) => o.orderId == orderId);
      if hits == [] then None
      else
        var o := hits[0];
        assert o in s.orders;
        Some(Details(s, o, |OrderItems(s, orderId)|))
  }

  /** `updateOrderStatus`: set the status of the order and answer whether a
      row was changed; `false` and no change when the database fails. */
  function UpdateOrderStatus(s: Store, orderId: int, status: string, up: bool): (r: (Store, bool))
    ensures r.1 <==> up && HasOrder(s, orderId)
    ensures r.0.lines == s.lines && r.0.catalog == s.catalog && |r.0.orders| == |s.orders|
    ensures forall i :: 0 <= i < |s.orders| ==>
      r.0.orders[i] == (if up && s.orders[i].orderId == orderId then s.orders[i].(status := status) else s.orders[i])
  {
    if !up then (s, false)
    else
      var orders := seq(|s.orders|, i requires 0 <= i < |s.orders| =>
        if s.orders[i].orderId == orderId then s.orders[i].(status := status) else s.orders[i]);
      (s.(orders := orders), HasOrder(s, orderId))
  }

  /** The status the store holds for an order, if any. */
  function StatusOf(s: Store, orderId: int): (r: Option<string>)
    ensures r.Some? <==> HasOrder(s, orderId)
    ensures r.Some? ==> exists i :: 0 <= i < |s.orders| && s.orders[i].orderId == orderId && s.orders[i].status == r.value
  {
    var hits := Filter(s.orders, (o: Order) => o.orderId == orderId);
    if hits == [] then None
    else
      assert hits[0] in s.orders;
      Some(hits[0].status)
  }

  /** After a successful update the order reads back with the new status. */
  lemma UpdateThenRead(s: Store, orderId: int, status: string)
    requires HasOrder(s, orderId)
    ensures StatusOf(UpdateOrderStatus(s, orderId, status, true).0, orderId) == Some(status)
  {
    var s' := UpdateOrderStatus(s, orderId, status, true).0;
    var st := StatusOf(s', orderId);
    assert HasOrder(s', orderId) by {
      var i :| 0 <= i < |s.orders| && s.orders[i].orderId == orderId;
      assert s'.orders[i].orderId == orderId;
    }
    var i :| 0 <= i < |s'.orders| && s'.orders[i].orderId == orderId && s'.orders[i].status == st.value;
    assert s'.orders[i] == s.orders[i].(status := status);
  }

  /** Setting the same status twice leaves the store as one update left
      it, and both answers agree. */
  lemma UpdateIdempotent(s: Store, orderId: int, status: string, up: bool)
    ensures var once := UpdateOrderStatus(s, orderId, status, up);
      var twice := UpdateOrderStatus(once.0, orderId, status, up);
      twice.0 == once.0 && twice.1 == once.1
  {
    var once := UpdateOrderStatus(s, orderId, status, up);
    var twice := UpdateOrderStatus(once.0, orderId, status, up);
    assert |twice.0.orders| == |once.0.orders|;
    assert forall i :: 0 <= i < |once.0.orders| ==> twice.0.orders[i] == once.0.orders[i];
    if up && HasOrder(s, orderId) {
      var i :| 0 <= i < |s.orders| && s.orders[i].orderId == orderId;
      assert once.0.orders[i].orderId == orderId;
    }
    if up && HasOrder(once.0, orderId) {
      var i :| 0 <= i < |once.0.orders| && once.0.orders[i].orderId == orderId;
      assert s.orders[i].orderId == orderId;
    }
  }
}
