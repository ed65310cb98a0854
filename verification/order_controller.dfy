/** The order endpoints of the Java backend (`OrderController`), above all
    the create-with-payment saga: allocate an id, write a pending order,
    attach its lines, take the payment, then finalise the status to
    `confirmed`/`paid` or compensate with `cancelled`.

    The session, the parsed body and every database call's availability
    are inputs. A body Jackson cannot parse is `None`. */
module OrderController {
  import opened Wrappers
  import opened Strings
  import OrderService
  import PaymentService
  import Tables

  /** One requested line. */
  datatype ItemRequest = ItemRequest(mealId: int, quantity: int)

  /** The body of `POST /create` and `POST /create-with-payment`; `items` or
      `paymentRequest` left out of the JSON are `None`. */
  datatype CreateRequest = CreateRequest(
    totalPrice: int,
    items: Option<seq<ItemRequest>>,
    paymentRequest: Option<PaymentService.PaymentRequest>)

  /** Which database calls of one saga run succeed: the id query, the order
      insert, the line inserts (`failingItem` is the index of the first line
      insert that fails, if any), the payment insert (inside `env`) and the
      final status update. */
  datatype Faults = Faults(
    allocatorUp: bool,
    createUp: bool,
    failingItem: Option<nat>,
    finalizeUp: bool)

  /** The tables the saga writes. */
  datatype World = World(store: OrderService.Store, payments: seq<PaymentService.PaymentRecord>)

  /** The HTTP status and JSON body of a response. */
  datatype Response = Response(status: int, success: bool, message: string, orderId: Option<int>, paymentId: Option<string>)

  /** The 500 answer of the saga's catch-all handler. */
  const SagaFailed := Response(500, false, "Failed to process order and payment", None, None)

  /** The 401 answer to a request without a logged-in user. */
  const NotLoggedIn := Response(401, false, "Please log in to place an order", None, None)

  /** The lines `items` become for order `orderId`. */
  function LinesFor(orderId: int, items: seq<ItemRequest>): (ls: seq<OrderService.OrderLine>)
    ensures |ls| == |items|
    ensures forall k :: 0 <= k < |items| ==> ls[k] == OrderService.OrderLine(orderId, items[k].mealId, items[k].quantity)
  {
    if items == [] then [] else [OrderService.OrderLine(orderId, items[0].mealId, items[0].quantity)] + LinesFor(orderId, items[1..])
  }

  /** How many of `n` line inserts succeed when the one at `failingItem` fails. */
  function Written(n: nat, failingItem: Option<nat>): (k: nat)
    ensures k <= n
    ensures k == n <==> failingItem.None? || failingItem.value >= n
  {
    if failingItem.Some? && failingItem.value < n then failingItem.value else n
  }

  /** The loop over `orderReq.getItems()`: insert the lines in order until one
      insert fails. Answers the store and whether every insert succeeded;
      the lines before the failing one stay written. */
  function AddItems(s: OrderService.Store, orderId: int, items: seq<ItemRequest>, failingItem: Option<nat>): (r: (OrderService.Store, bool))
    ensures r.1 <==> Written(|items|, failingItem) == |items|
    ensures r.0 == s.(lines := s.lines + LinesFor(orderId, items[..Written(|items|, failingItem)]))
    decreases |items|
  {
    if items == [] then (s, true)
    else if failingItem == Some(0) then (s, false)
    else
      var s1 := OrderService.AddOrderItem(s, orderId, items[0].mealId, items[0].quantity, true).value;
      var next := if failingItem.Some? then Some(failingItem.value - 1) else None;
      var r := AddItems(s1, orderId, items[1..], next);
      AddItemsStep(s, orderId, items, failingItem, next);
      r
  }

  /** The first insert of `AddItems` followed by the rest gives the lines
      `AddItems` promises. */
  lemma AddItemsStep(s: OrderService.Store, orderId: int, items: seq<ItemRequest>, failingItem: Option<nat>, next: Option<nat>)
    requires items != [] && failingItem != Some(0)
    requires next == if failingItem.Some? then Some(failingItem.value - 1) else None
    ensures var line := OrderService.OrderLine(orderId, items[0].mealId, items[0].quantity);
      Written(|items|, failingItem) == 1 + Written(|items| - 1, next)
      && s.lines + LinesFor(orderId, items[..Written(|items|, failingItem)])
         == (s.lines + [line]) + LinesFor(orderId, items[1..][..Written(|items| - 1, next)])
  {
    var k := Written(|items|, failingItem);
    var line := OrderService.OrderLine(orderId, items[0].mealId, items[0].quantity);
    var tail := items[1..][..k - 1];
    assert items[..k] == [items[0]] + tail;
    assert ([items[0]] + tail)[1..] == tail;
    assert LinesFor(orderId, items[..k]) == [line] + LinesFor(orderId, tail);
  }

  /** The status a successful payment gives the order. */
  function PaidStatus(req: PaymentService.PaymentRequest): (st: string)
    ensures st == "confirmed" || st == "paid"
    ensures st == "confirmed" <==> req.paymentMethod == Some("cash")
  {
    if req.paymentMethod == Some("cash") then "confirmed" else "paid"
  }

  /** Every write before the payment succeeds: the body parses and lists
      its items, the allocated id is free and the order insert answers, and
      no line insert fails. */
  predicate WritesSucceed(body: Option<CreateRequest>, s: OrderService.Store, f: Faults) {
    body.Some? && body.value.items.Some? && f.createUp
    && !OrderService.HasOrder(s, OrderService.GenerateOrderId(s, f.allocatorUp))
    && Written(|body.value.items.value|, f.failingItem) == |body.value.items.value|
  }

  /** `handleCreateOrderWithPayment`. For a logged-in user the answer is
      201 exactly when every write succeeds and the payment is taken, 402
      exactly when every write succeeds and the payment is refused, and 500
      exactly when some write fails. */
  function CreateOrderWithPayment(session: Option<int>, body: Option<CreateRequest>, w: World, f: Faults, env: PaymentService.PaymentEnv): (r: (World, Response))
    ensures r.1.status in {201, 401, 402, 500}
    ensures session.None? <==> r.1 == NotLoggedIn
    ensures session.None? ==> r.0 == w
    ensures r.1.success <==> r.1.status == 201
    ensures r.0.store.catalog == w.store.catalog
    ensures session.Some? ==>
      (r.1.status == 201 <==> WritesSucceed(body, w.store, f) && PaymentService.Accepted(body.value.paymentRequest, env))
    ensures session.Some? ==>
      (r.1.status == 402 <==> WritesSucceed(body, w.store, f) && !PaymentService.Accepted(body.value.paymentRequest, env))
    ensures session.Some? ==> (r.1.status == 500 <==> !WritesSucceed(body, w.store, f))
  {
    if session.None? then (w, NotLoggedIn)
    else if body.None? then (w, SagaFailed)
    else
      var req := body.value;
      var orderId := OrderService.GenerateOrderId(w.store, f.allocatorUp);
      match OrderService.CreateOrder(w.store, orderId, session.value, req.totalPrice, "pending", f.createUp)
      case None => (w, SagaFailed)
      case Some(s1) =>
        if req.items.None? then (w.(store := s1), SagaFailed)
        else
          var (s2, allAdded) := AddItems(s1, orderId, req.items.value, f.failingItem);
          if !allAdded then (w.(store := s2), SagaFailed)
          else
            var (pay, payments) := PaymentService.ProcessPayment(req.paymentRequest, req.totalPrice, orderId, env, w.payments);
            if pay.success then
              var (s3, _) := OrderService.UpdateOrderStatus(s2, orderId, PaidStatus(req.paymentRequest.value), f.finalizeUp);
              (World(s3, payments), Response(201, true, "Order created and payment processed successfully", Some(orderId), pay.paymentId))
            else
              var (s3, _) := OrderService.UpdateOrderStatus(s2, orderId, "cancelled", f.finalizeUp);
              (World(s3, payments), Response(402, false, pay.message, None, None))
  }

  /** The id the saga allocates. */
  function SagaOrderId(w: World, f: Faults): (id: int)
  {
    OrderService.GenerateOrderId(w.store, f.allocatorUp)
  }

  /** The order rows the saga leaves once the pending order is written: the
      old rows plus the new one, whose status is the only thing the final
      step may change. */
  predicate OrderWritten(w: World, w': World, userId: int, req: CreateRequest, orderId: int, status: string) {
    |w'.store.orders| == |w.store.orders| + 1
    && w'.store.orders[..|w.store.orders|] == w.store.orders
    && w'.store.orders[|w.store.orders|] == OrderService.Order(orderId, userId, req.totalPrice, status)
  }

  /** When every write succeeds and the payment is taken, the answer is
      201 with the allocated id and a `PAY_` payment id; the order is stored
      for the user with the caller's total and every requested line; exactly
      one payment record with the returned id is stored; the order's status
      is `confirmed` (cash) or `paid` (card) when the final update reaches
      the database and stays `pending` otherwise. */
  lemma {:induction false} SagaSuccess(userId: int, req: CreateRequest, w: World, f: Faults, env: PaymentService.PaymentEnv)
    requires WritesSucceed(Some(req), w.store, f) && PaymentService.Accepted(req.paymentRequest, env)
    ensures req.paymentRequest.Some?
    ensures var (w', resp) := CreateOrderWithPayment(Some(userId), Some(req), w, f, env);
      var id := SagaOrderId(w, f);
      resp.status == 201
      && resp.orderId == Some(id) && resp.paymentId.Some? && StartsWith(resp.paymentId.value, "PAY_")
      && OrderWritten(w, w', userId, req, id, if f.finalizeUp then PaidStatus(req.paymentRequest.value) else "pending")
      && w'.store.lines == w.store.lines + LinesFor(id, req.items.value)
      && |w'.payments| == |w.payments| + 1 && w'.payments[..|w.payments|] == w.payments
      && w'.payments[|w.payments|].paymentId == resp.paymentId.value
      && w'.payments[|w.payments|].orderId == id
      && w'.payments[|w.payments|].amount == req.totalPrice
  {
    var id := SagaOrderId(w, f);
    var s1 := OrderService.CreateOrder(w.store, id, userId, req.totalPrice, "pending", f.createUp).value;
    var (s2, _) := AddItems(s1, id, req.items.value, f.failingItem);
    PendingOrderFinalized(userId, req, w, f, PaidStatus(req.paymentRequest.value));
    var (pay, payments) := PaymentService.ProcessPayment(req.paymentRequest, req.totalPrice, id, env, w.payments);
    assert pay.success;
  }

  /** When every write succeeds and the payment is refused, the answer is
      402 with the payment service's message, nothing is added to
      `payments`, the lines stay attached, and the pending order is marked
      `cancelled` when that update reaches the database; it stays `pending`
      otherwise. */
  lemma {:induction false} SagaPaymentRefused(userId: int, req: CreateRequest, w: World, f: Faults, env: PaymentService.PaymentEnv)
    requires WritesSucceed(Some(req), w.store, f) && !PaymentService.Accepted(req.paymentRequest, env)
    ensures var (w', resp) := CreateOrderWithPayment(Some(userId), Some(req), w, f, env);
      var id := SagaOrderId(w, f);
      resp.status == 402 && !resp.success
      && w'.payments == w.payments
      && resp.message == PaymentService.ProcessPayment(req.paymentRequest, req.totalPrice, id, env, w.payments).0.message
      && OrderWritten(w, w', userId, req, id, if f.finalizeUp then "cancelled" else "pending")
      && w'.store.lines == w.store.lines + LinesFor(id, req.items.value)
  {
    PendingOrderFinalized(userId, req, w, f, "cancelled");
  }

  /** Once the pending order and all its lines are written, the final status
      update leaves the earlier orders alone, gives the new order `status`
      when it reaches the database, and keeps every line. */
  lemma {:induction false} PendingOrderFinalized(userId: int, req: CreateRequest, w: World, f: Faults, status: string)
    requires WritesSucceed(Some(req), w.store, f)
    ensures var id := SagaOrderId(w, f);
      var s1 := OrderService.CreateOrder(w.store, id, userId, req.totalPrice, "pending", f.createUp);
      s1.Some? &&
      var s2 := AddItems(s1.value, id, req.items.value, f.failingItem);
      var s3 := OrderService.UpdateOrderStatus(s2.0, id, status, f.finalizeUp).0;
      s2.1
      && OrderWritten(w, w.(store := s3), userId, req, id, if f.finalizeUp then status else "pending")
      && s3.lines == w.store.lines + LinesFor(id, req.items.value)
  {
    var id := SagaOrderId(w, f);
    var s1 := OrderService.CreateOrder(w.store, id, userId, req.totalPrice, "pending", f.createUp).value;
    var (s2, _) := AddItems(s1, id, req.items.value, f.failingItem);
    assert req.items.value[..|req.items.value|] == req.items.value;
    var s3 := OrderService.UpdateOrderStatus(s2, id, status, f.finalizeUp).0;
    var n := |w.store.orders|;
    assert s2.orders == w.store.orders + [OrderService.Order(id, userId, req.totalPrice, "pending")];
    assert s3.orders[n] == (if f.finalizeUp then OrderService.Order(id, userId, req.totalPrice, status) else OrderService.Order(id, userId, req.totalPrice, "pending"));
    assert forall i :: 0 <= i < n ==> s2.orders[i].orderId != id;
    assert s3.orders[..n] == w.store.orders;
  }

  /** The result of the final status update is ignored: the answer is the
      same whether or not that write reaches the database. */
  lemma FinalizeResultIgnored(session: Option<int>, body: Option<CreateRequest>, w: World, f: Faults, env: PaymentService.PaymentEnv)
    ensures CreateOrderWithPayment(session, body, w, f.(finalizeUp := true), env).1
         == CreateOrderWithPayment(session, body, w, f.(finalizeUp := false), env).1
  {
  }

  /** A failed line insert answers 500 and leaves the pending order and the
      lines written so far in place: no compensation runs, and no payment is
      attempted. */
  lemma ItemFailureLeavesPendingOrder(userId: int, req: CreateRequest, w: World, f: Faults, env: PaymentService.PaymentEnv)
    requires req.items.Some? && f.failingItem.Some? && f.failingItem.value < |req.items.value|
    requires f.createUp && !OrderService.HasOrder(w.store, SagaOrderId(w, f))
    ensures var (w', resp) := CreateOrderWithPayment(Some(userId), Some(req), w, f, env);
      var id := SagaOrderId(w, f);
      resp == SagaFailed
      && w'.payments == w.payments
      && OrderWritten(w, w', userId, req, id, "pending")
      && w'.store.lines == w.store.lines + LinesFor(id, req.items.value[..f.failingItem.value])
  {
    var id := SagaOrderId(w, f);
    var s1 := OrderService.CreateOrder(w.store, id, userId, req.totalPrice, "pending", f.createUp).value;
    var n := |w.store.orders|;
    assert s1.orders[..n] == w.store.orders;
  }

  /** When the id query fails the allocator answers 1; if order 1 exists the
      insert collides and the request fails with nothing written. */
  lemma AllocatorFaultCollides(userId: int, req: CreateRequest, w: World, f: Faults, env: PaymentService.PaymentEnv)
    requires !f.allocatorUp && OrderService.HasOrder(w.store, 1)
    ensures CreateOrderWithPayment(Some(userId), Some(req), w, f, env) == (w, SagaFailed)
  {
  }

  /** When the id query fails but order 1 is free, the new order takes id 1
      even if larger ids are in use: ids are then not increasing. */
  lemma AllocatorFaultReusesOne(userId: int, req: CreateRequest, w: World, f: Faults, env: PaymentService.PaymentEnv)
    requires !f.allocatorUp && f.createUp && !OrderService.HasOrder(w.store, 1)
    requires req.items.Some?
    ensures var w' := CreateOrderWithPayment(Some(userId), Some(req), w, f, env).0;
      |w'.store.orders| == |w.store.orders| + 1 && w'.store.orders[|w.store.orders|].orderId == 1
  {
    var s1 := OrderService.CreateOrder(w.store, 1, userId, req.totalPrice, "pending", true).value;
    var (s2, ok) := AddItems(s1, 1, req.items.value, f.failingItem);
    assert s2.orders[|w.store.orders|].orderId == 1;
  }

  /** With every store call answering, a new order's id exceeds every
      existing id while those stay below the largest `integer`; once one
      reaches it, the allocator's sum overflows and the saga takes id 1. */
  lemma AllocatorUpIsFresh(w: World, f: Faults)
    requires f.allocatorUp
    ensures OrderService.IdsBelowInt4Max(w.store) ==>
      forall i :: 0 <= i < |w.store.orders| ==> w.store.orders[i].orderId < SagaOrderId(w, f)
    ensures !OrderService.IdsBelowInt4Max(w.store) ==> SagaOrderId(w, f) == 1
  {
  }

  /** An order numbered 2147483647 makes the next allocation collide with
      order 1 when that exists: the saga then answers 500 and writes
      nothing. */
  lemma AllocatorOverflowCollides(userId: int, req: CreateRequest, w: World, f: Faults, env: PaymentService.PaymentEnv)
    requires f.allocatorUp && OrderService.HasOrder(w.store, 1) && OrderService.HasOrder(w.store, Tables.Int4Max)
    ensures CreateOrderWithPayment(Some(userId), Some(req), w, f, env) == (w, SagaFailed)
  {
  }

  /** `handleCreateOrder`: the same steps without the payment; the order
      stays `pending`. A logged-in user gets 201 exactly when every write
      succeeds. */
  function CreateOrder(session: Option<int>, body: Option<CreateRequest>, s: OrderService.Store, f: Faults): (r: (OrderService.Store, Response))
    ensures session.None? ==> r == (s, NotLoggedIn)
    ensures r.1.status in {201, 401, 500}
    ensures session.Some? ==> (r.1.status == 201 <==> WritesSucceed(body, s, f))
    ensures r.1.status == 201 ==>
      var id := OrderService.GenerateOrderId(s, f.allocatorUp);
      body.Some? && body.value.items.Some? && r.1.orderId == Some(id)
      && r.0.orders == s.orders + [OrderService.Order(id, session.value, body.value.totalPrice, "pending")]
      && r.0.lines == s.lines + LinesFor(id, body.value.items.value)
  {
    if session.None? then (s, NotLoggedIn)
    else if body.None? then (s, Response(500, false, "Failed to create order", None, None))
    else
      var req := body.value;
      var orderId := OrderService.GenerateOrderId(s, f.allocatorUp);
      match OrderService.CreateOrder(s, orderId, session.value, req.totalPrice, "pending", f.createUp)
      case None => (s, Response(500, false, "Failed to create order", None, None))
      case Some(s1) =>
        if req.items.None? then (s1, Response(500, false, "Failed to create order", None, None))
        else
          var (s2, allAdded) := AddItems(s1, orderId, req.items.value, f.failingItem);
          assert req.items.value[..|req.items.value|] == req.items.value;
          if allAdded then (s2, Response(201, true, "Order created successfully", Some(orderId), None))
          else (s2, Response(500, false, "Failed to create order", None, None))
  }

  /** The body of `POST /update-status`. */
  datatype StatusRequest = StatusRequest(orderId: int, status: string)

  /** `handleUpdateOrderStatus`: 200 when a row changed, 404 when none did
      (the order is absent or the update failed), 500 for an unreadable body. */
  function UpdateStatus(body: Option<StatusRequest>, s: OrderService.Store, up: bool): (r: (OrderService.Store, Response))
    ensures body.None? ==> r.0 == s && r.1.status == 500
    ensures body.Some? ==> (r.1.status == 200 <==> up && OrderService.HasOrder(s, body.value.orderId))
    ensures body.Some? && r.1.status != 200 ==> r.1 == Response(404, false, "Order not found", None, None)
    ensures r.1.status == 200 ==> OrderService.StatusOf(r.0, body.value.orderId) == Some(body.value.status)
    ensures body.Some? ==> r.0 == OrderService.UpdateOrderStatus(s, body.value.orderId, body.value.status, up).0
    ensures r.1.status != 200 ==> r.0.orders == s.orders
    ensures r.0.lines == s.lines && r.0.catalog == s.catalog && |r.0.orders| == |s.orders|
    ensures forall i :: 0 <= i < |s.orders| && (body.None? || s.orders[i].orderId != body.value.orderId) ==>
      r.0.orders[i] == s.orders[i]
    ensures body.Some? ==> forall i :: 0 <= i < |s.orders| && r.1.status == 200 && s.orders[i].orderId == body.value.orderId ==>
      r.0.orders[i] == s.orders[i].(status := body.value.status)
  {
    if body.None? then (s, Response(500, false, "Failed to update order status", None, None))
    else
      var (s', updated) := OrderService.UpdateOrderStatus(s, body.value.orderId, body.value.status, up);
      if updated then
        OrderService.UpdateThenRead(s, body.value.orderId, body.value.status);
        (s', Response(200, true, "Order status updated successfully", None, None))
      else (s', Response(404, false, "Order not found", None, None))
  }

  /** The range of a Java `int`. */
  predicate IsInt32(n: int) {
    -0x8000_0000 <= n < 0x8000_0000
  }

  /** `Integer.parseInt(s)`: an optional sign, then one or more digits, and
      a value within the `int` range; `None` is `NumberFormatException`. */
  function JavaParseInt(s: string): (r: Option<int>)
    ensures r.Some? ==> IsInt32(r.value)
    ensures r.Some? ==> s != [] && Unsigned(s) != [] && AllDigits(Unsigned(s))
    ensures r.Some? ==> r.value == if s[0] == '-' then -(DecimalValue(Unsigned(s)) as int) else DecimalValue(Unsigned(s))
    ensures s != [] && Unsigned(s) != [] && AllDigits(Unsigned(s))
         && IsInt32(if s[0] == '-' then -(DecimalValue(Unsigned(s)) as int) else DecimalValue(Unsigned(s)))
         ==> r.Some?
  {
    if s == [] then None
    else
      var neg := s[0] == '-';
      var digits := Unsigned(s);
      if digits == [] || !AllDigits(digits) then None
      else
        var v := if neg then -(DecimalValue(digits) as int) else DecimalValue(digits);
        if IsInt32(v) then Some(v) else None
  }

  /** A leading zero does not change a digit string's value. */
  lemma {:induction false} LeadingZeroValue(d: string)
    requires AllDigits(d)
    ensures AllDigits("0" + d) && DecimalValue("0" + d) == DecimalValue(d)
    decreases |d|
  {
    if d != [] {
      var init := d[..|d| - 1];
      assert ("0" + d)[..|"0" + d| - 1] == "0" + init;
      assert ("0" + d)[|"0" + d| - 1] == d[|d| - 1];
      LeadingZeroValue(init);
    }
  }

  /** `parseInt` ignores a `+` sign: "+5" and "5" read alike. */
  lemma JavaParseIntIgnoresPlus(d: string)
    requires d != [] && AllDigits(d)
    ensures JavaParseInt("+" + d) == JavaParseInt(d)
  {
    assert Unsigned("+" + d) == d;
  }

  /** `parseInt` ignores leading zeros: "007" and "7" read alike. */
  lemma JavaParseIntIgnoresZeros(d: string)
    requires d != [] && AllDigits(d)
    ensures JavaParseInt("0" + d) == JavaParseInt(d)
  {
    LeadingZeroValue(d);
    assert Unsigned("0" + d) == "0" + d;
  }

  /** "-0", and any negated run of zeros, reads as 0. */
  lemma JavaParseIntNegativeZero(d: string)
    requires d != [] && AllDigits(d) && DecimalValue(d) == 0
    ensures JavaParseInt("-" + d) == Some(0)
  {
    assert Unsigned("-" + d) == d;
  }

  /** Every `int` survives printing and `Integer.parseInt`. */
  lemma JavaParseIntRoundTrip(n: int)
    requires IsInt32(n)
    ensures JavaParseInt(IntToString(n)) == Some(n)
  {
    if n >= 0 {
      DecimalValueOfNatToString(n);
      assert IsDigit(NatToString(n)[0]);
    } else {
      DecimalValueOfNatToString(-n);
      assert ("-" + NatToString(-n))[1..] == NatToString(-n);
    }
  }

  /** The `GET /{id}` outcome. */
  datatype GetOrderResult = Found(order: OrderService.OrderDetails) | Failed(response: Response)

  /** `handleGetOrder`: 400 for an id `Integer.parseInt` rejects, 404 when
      the order is absent (or the query fails), otherwise the order. */
  function GetOrder(orderIdText: string, s: OrderService.Store, up: bool): (r: GetOrderResult)
    ensures JavaParseInt(orderIdText).None? <==> r == Failed(Response(400, false, "Invalid order ID", None, None))
    ensures r.Found? ==>
      (JavaParseInt(orderIdText).Some? && r.order.orderId == JavaParseInt(orderIdText).value
       && up && OrderService.HasOrder(s, r.order.orderId))
    ensures r.Failed? && JavaParseInt(orderIdText).Some? ==>
      r.response == Response(404, false, "Order not found", None, None)
      && !(up && OrderService.HasOrder(s, JavaParseInt(orderIdText).value))
    ensures r.Found? ==> Some(r.order) == OrderService.GetOrderById(s, r.order.orderId, up)
  {
    match JavaParseInt(orderIdText)
    case None => Failed(Response(400, false, "Invalid order ID", None, None))
    case Some(id) =>
      match OrderService.GetOrderById(s, id, up)
      case None => Failed(Response(404, false, "Order not found", None, None))
      case Some(d) => Found(d)
  }

  /** `handleGetUserOrders`: 401 without a session, otherwise the listing. */
  function GetUserOrders(session: Option<int>, s: OrderService.Store, up: bool): (r: Option<seq<OrderService.OrderDetails>>)
    ensures r.None? <==> session.None?
    ensures r.Some? ==> forall k :: 0 <= k < |r.value| ==> r.value[k].userId == session.value
    ensures r.Some? ==> r.value == OrderService.GetUserOrders(s, session.value, up)
  {
    if session.None? then None else Some(OrderService.GetUserOrders(s, session.value, up))
  }

  /** The handlers the second `doPost` routes to. */
  datatype PostRoute = RouteCreate | RouteCreateWithPayment | RouteUpdateStatus | RouteNotFound

  /** The second `doPost`: exact path matches, otherwise 404. */
  function RoutePost(pathInfo: Option<string>): (r: PostRoute)
    ensures r == RouteCreate <==> pathInfo == Some("/create")
    ensures r == RouteCreateWithPayment <==> pathInfo == Some("/create-with-payment")
    ensures r == RouteUpdateStatus <==> pathInfo == Some("/update-status")
    ensures r == RouteNotFound <==> pathInfo !in {Some("/create"), Some("/create-with-payment"), Some("/update-status")}
  {
    if pathInfo == Some("/create") then RouteCreate
    else if pathInfo == Some("/create-with-payment") then RouteCreateWithPayment
    else if pathInfo == Some("/update-status") then RouteUpdateStatus
    else RouteNotFound
  }

  /** The handlers `doGet` routes to. */
  datatype GetRoute = RouteUserOrders | RouteOrder(orderIdText: string) | RouteGetNotFound

  /** `doGet`: `/user` lists, any other path starting with `/` is an order id. */
  function RouteGet(pathInfo: Option<string>): (r: GetRoute)
    ensures r == RouteUserOrders <==> pathInfo == Some("/user")
    ensures r.RouteOrder? <==> pathInfo.Some? && pathInfo != Some("/user") && StartsWith(pathInfo.value, "/")
    ensures r.RouteOrder? ==> pathInfo.value == "/" + r.orderIdText
  {
    if pathInfo == Some("/user") then RouteUserOrders
    else if pathInfo.Some? && StartsWith(pathInfo.value, "/") then RouteOrder(pathInfo.value[1..])
    else RouteGetNotFound
  }
}
