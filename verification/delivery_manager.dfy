/** The delivery manager of the data layer (`deliveryManager.js`): one
    `delivery` row per shipped order, its status updates, the lookup by
    order and the joined listing.

    `delivery_id` is a serial column, so the table carries the next value.
    Whether an insert is accepted (the foreign key to `order`) and whether
    the database answers are the parameters `ok` and `up`. */
module DeliveryManager {
  import opened Wrappers
  import opened Seqs
  import opened Sorting
  import opened Tables
  import opened OrderManager

  /** A row of `delivery`; the estimated time is a nullable timestamp. */
  datatype Delivery = Delivery(
    deliveryId: int, orderId: int, status: string, estimatedTime: Option<int>,
    address: Option<string>, firstName: Option<string>, lastName: Option<string>,
    phone: Option<string>, city: Option<string>)

  /** The `delivery` table and the next value of its id sequence. */
  datatype DeliveryTable = DeliveryTable(rows: seq<Delivery>, nextId: int)

  /** The delivery information object; `None` is an omitted key, and for the
      estimated time also an explicit `null`. */
  datatype DeliveryInfo = DeliveryInfo(
    address: Option<string>, firstName: Option<string>, lastName: Option<string>,
    phone: Option<string>, city: Option<string>, status: Option<string>, estimatedTime: Option<int>)

  /** The default status of a new delivery. */
  const DefaultDeliveryStatus := "pending"

  /** `createDeliveryRecord`: insert the delivery of an order; an omitted
      status is `pending` and an omitted estimated time is `NULL`. */
  function CreateDeliveryRecord(t: DeliveryTable, orderId: int, info: DeliveryInfo, ok: bool): (r: (DeliveryTable, Outcome<Delivery>))
    ensures r.1.Done? <==> ok
    ensures !r.1.Done? ==> r.1.Failed? && r.0 == t
    ensures r.1.Done? ==> r.0.rows == t.rows + [r.1.value] && r.0.nextId == t.nextId + 1
    ensures r.1.Done? ==> r.1.value.deliveryId == t.nextId && r.1.value.orderId == orderId
    ensures r.1.Done? ==> r.1.value.status == (if info.status.Some? then info.status.value else "pending")
    ensures r.1.Done? ==> r.1.value.estimatedTime == info.estimatedTime
    ensures r.1.Done? ==> r.1.value.address == info.address && r.1.value.city == info.city
  {
    if !ok then (t, Failed)
    else
      var row := Delivery(t.nextId, orderId, info.status.GetOr(DefaultDeliveryStatus), info.estimatedTime,
                          info.address, info.firstName, info.lastName, info.phone, info.city);
      (DeliveryTable(t.rows + [row], t.nextId + 1), Done(row))
  }

  /** Whether `d` is a delivery of order `orderId`. */
  predicate ForOrder(d: Delivery, orderId: int) {
    d.orderId == orderId
  }

  /** Whether order `orderId` has a delivery. */
  predicate HasDelivery(t: DeliveryTable, orderId: int) {
    exists i :: 0 <= i < |t.rows| && ForOrder(t.rows[i], orderId)
  }

  /** `getDeliveryByOrderId`: the first delivery of the order. A missing
      record is a refusal object, never `null`. */
  function GetDeliveryByOrderId(t: DeliveryTable, orderId: int, up: bool): (r: Outcome<Delivery>)
    ensures r.Failed? <==> !up
    ensures r.Done? <==> up && HasDelivery(t, orderId)
    ensures r.Refused? ==> r.message == "Delivery record not found for this order"
    ensures r.Done? ==> r.value in t.rows && ForOrder(r.value, orderId)
  {
    if !up then Failed
    else match First(t.rows, (d: Delivery) => ForOrder(d, orderId))
      case None => Refused("Delivery record not found for this order")
      case Some(d) => Done(d)
  }

  /** A delivery with a new status, and a new estimated time when one is
      given. */
  function WithStatus(d: Delivery, status: string, estimatedTime: Option<int>): (e: Delivery)
    ensures e.status == status
    ensures e.estimatedTime == (if estimatedTime.Some? then estimatedTime else d.estimatedTime)
    ensures e.(status := d.status, estimatedTime := d.estimatedTime) == d
  {
    if estimatedTime.Some? then d.(status := status, estimatedTime := estimatedTime) else d.(status := status)
  }

  /** `updateDeliveryStatus`: set the status of the order's deliveries, and
      their estimated time too when one is given (`null` leaves it alone). */
  function UpdateDeliveryStatus(t: DeliveryTable, orderId: int, status: string, estimatedTime: Option<int>, up: bool): (r: (DeliveryTable, Outcome<Delivery>))
    ensures r.1.Failed? <==> !up
    ensures r.1.Done? <==> up && HasDelivery(t, orderId)
    ensures r.1.Refused? ==> r.1.message == "Delivery record not found"
    ensures !r.1.Done? ==> r.0 == t
    ensures r.0.nextId == t.nextId && |r.0.rows| == |t.rows|
    ensures forall i :: 0 <= i < |t.rows| ==>
      r.0.rows[i] == (if r.1.Done? && ForOrder(t.rows[i], orderId) then WithStatus(t.rows[i], status, estimatedTime) else t.rows[i])
    ensures r.1.Done? ==> ForOrder(r.1.value, orderId) && r.1.value.status == status
  {
    var u := GuardedUpdate(t.rows, (d: Delivery) => ForOrder(d, orderId),
                           (d: Delivery) => WithStatus(d, status, estimatedTime), "Delivery record not found", up);
    (t.(rows := u.0), u.1)
  }

  /** After a successful update, the lookup reports the new status, and the
      new estimated time when one was given. */
  lemma UpdateThenGet(t: DeliveryTable, orderId: int, status: string, estimatedTime: Option<int>)
    requires UpdateDeliveryStatus(t, orderId, status, estimatedTime, true).1.Done?
    ensures var g := GetDeliveryByOrderId(UpdateDeliveryStatus(t, orderId, status, estimatedTime, true).0, orderId, true);
      g.Done? && g.value.status == status && (estimatedTime.Some? ==> g.value.estimatedTime == estimatedTime)
  {
    var t1 := UpdateDeliveryStatus(t, orderId, status, estimatedTime, true).0;
    var i :| 0 <= i < |t.rows| && ForOrder(t.rows[i], orderId);
    assert ForOrder(t1.rows[i], orderId);
    forall j | 0 <= j < |t1.rows| && ForOrder(t1.rows[j], orderId)
      ensures t1.rows[j].status == status && (estimatedTime.Some? ==> t1.rows[j].estimatedTime == estimatedTime)
    {
      assert ForOrder(t.rows[j], orderId);
    }
    LookupFindsUpdated(t1, orderId, status, estimatedTime);
  }

  /** When every delivery of the order carries the status (and the time),
      the lookup finds them. */
  lemma LookupFindsUpdated(t: DeliveryTable, orderId: int, status: string, estimatedTime: Option<int>)
    requires HasDelivery(t, orderId)
    requires forall j :: 0 <= j < |t.rows| && ForOrder(t.rows[j], orderId) ==>
      t.rows[j].status == status && (estimatedTime.Some? ==> t.rows[j].estimatedTime == estimatedTime)
    ensures var g := GetDeliveryByOrderId(t, orderId, true);
      g.Done? && g.value.status == status && (estimatedTime.Some? ==> g.value.estimatedTime == estimatedTime)
  {
    var g := GetDeliveryByOrderId(t, orderId, true);
    var k :| 0 <= k < |t.rows| && t.rows[k] == g.value;
  }

  /** A new record for an order without one is what the lookup then finds,
      with the defaults filled in. */
  lemma CreateThenGet(t: DeliveryTable, orderId: int, info: DeliveryInfo)
    requires !HasDelivery(t, orderId)
    ensures var g := GetDeliveryByOrderId(CreateDeliveryRecord(t, orderId, info, true).0, orderId, true);
      g == Done(CreateDeliveryRecord(t, orderId, info, true).1.value)
      && (info.status.None? ==> g.value.status == "pending")
  {
    var r := CreateDeliveryRecord(t, orderId, info, true);
    var rows := r.0.rows;
    assert forall i :: 0 <= i < |t.rows| ==> rows[i] == t.rows[i];
    assert ForOrder(rows[|t.rows|], orderId);
    var g := GetDeliveryByOrderId(r.0, orderId, true);
    var k :| 0 <= k < |rows| && rows[k] == g.value;
    assert k == |t.rows|;
  }

  /** A delivery row joined with its order and the order's account. */
  type DeliveryView = ((Delivery, OrderRow), Account)

  /** The first join condition of the listing. */
  predicate DeliveryOfOrder(d: Delivery, o: OrderRow) {
    d.orderId == o.orderId
  }

  /** The second join condition of the listing. */
  predicate OrderOfAccount(v: (Delivery, OrderRow), a: Account) {
    v.1.userId == a.userId
  }

  /** Whether a delivery passes the optional status filter, which applies
      only when truthy. */
  predicate HasStatus(d: Delivery, status: Option<string>) {
    TruthyText(status) ==> d.status == status.value
  }

  /** `getAllDeliveries`: the deliveries joined with their orders and the
      orders' accounts, optionally of one status, newest order first; `[]`
      on a database error. */
  function GetAllDeliveries(t: DeliveryTable, orders: seq<OrderRow>, accounts: seq<Account>, status: Option<string>, up: bool): (r: seq<DeliveryView>)
    ensures !up ==> r == []
    ensures up ==> multiset(r) == multiset(Join(Join(Filter(t.rows, (d: Delivery) => HasStatus(d, status)), orders, DeliveryOfOrder), accounts, OrderOfAccount))
    ensures forall i, j :: 0 <= i < j < |r| ==> r[i].0.1.orderDate >= r[j].0.1.orderDate
  {
    if !up then []
    else
      var joined := Join(Join(Filter(t.rows, (d: Delivery) => HasStatus(d, status)), orders, DeliveryOfOrder), accounts, OrderOfAccount);
      var r := SortByInt(joined, (v: DeliveryView) => v.0.1.orderDate, Desc);
      forall i, j | 0 <= i < j < |r| ensures r[i].0.1.orderDate >= r[j].0.1.orderDate {
        assert IntInOrder(r[i].0.1.orderDate, r[j].0.1.orderDate, Desc);
      }
      r
  }

  /** Every listed row is a delivery passing the filter, with its order and
      that order's account. */
  lemma AllDeliveriesSound(t: DeliveryTable, orders: seq<OrderRow>, accounts: seq<Account>, status: Option<string>,
                           d: Delivery, o: OrderRow, a: Account)
    requires ((d, o), a) in GetAllDeliveries(t, orders, accounts, status, true)
    ensures d in t.rows && HasStatus(d, status) && o in orders && o.orderId == d.orderId && a in accounts && a.userId == o.userId
  {
    var kept := Filter(t.rows, (x: Delivery) => HasStatus(x, status));
    var inner := Join(kept, orders, DeliveryOfOrder);
    assert ((d, o), a) in multiset(GetAllDeliveries(t, orders, accounts, status, true));
    assert ((d, o), a) in Join(inner, accounts, OrderOfAccount);
    assert (d, o) in inner;
  }

  /** Every delivery passing the filter whose order and account exist is
      listed with them. */
  lemma AllDeliveriesComplete(t: DeliveryTable, orders: seq<OrderRow>, accounts: seq<Account>, status: Option<string>,
                              d: Delivery, o: OrderRow, a: Account)
    requires d in t.rows && HasStatus(d, status) && o in orders && o.orderId == d.orderId && a in accounts && a.userId == o.userId
    ensures ((d, o), a) in GetAllDeliveries(t, orders, accounts, status, true)
  {
    var kept := Filter(t.rows, (x: Delivery) => HasStatus(x, status));
    assert d in kept;
    JoinComplete(kept, orders, DeliveryOfOrder, d, o);
    var inner := Join(kept, orders, DeliveryOfOrder);
    JoinComplete(inner, accounts, OrderOfAccount, (d, o), a);
    assert ((d, o), a) in multiset(Join(inner, accounts, OrderOfAccount));
  }
}
