/** The admin order listing of the backend (`routes/admin.js`): the admin
    gate, the status filter and the mapping of stored order statuses to the
    four statuses the admin pages show.

    The order rows come from the statistics manager's `getOrders`, whose
    query is not part of this model: the rows it would read are a
    parameter, and whether the database answers is `up`. That call catches
    its own errors and answers `[]`, so a database fault reaches the route
    as an empty listing, never as a 500. The locale date rendering is the
    function `dateText`. */
module AdminRoutes {
  import opened Wrappers
  import opened Strings
  import opened Seqs
  import opened Tables

  /** The authenticated user a request carries, when there is one. */
  datatype RequestUser = RequestUser(userId: int, role: string)

  /** Whether the admin gate lets a request through to its handler. */
  predicate IsAdmin(user: Option<RequestUser>) {
    user.Some? && user.value.role == "admin"
  }

  /** What an admin route answers: 403 from the gate, the handler's answer,
      or 500 when the handler throws. */
  datatype AdminReply<T> = Forbidden | Answered(body: T) | ServerError

  /** `adminMiddleware` in front of a handler: the handler's answer for an
      admin, 403 for anyone else (no user, or any other role). */
  function AdminMiddleware<T>(user: Option<RequestUser>, handler: Option<T>): (r: AdminReply<T>)
    ensures r.Forbidden? <==> !IsAdmin(user)
    ensures r.Answered? <==> IsAdmin(user) && handler.Some?
    ensures r.Answered? ==> r.body == handler.value
  {
    if !IsAdmin(user) then Forbidden
    else match handler
      case Some(b) => Answered(b)
      case None => ServerError
  }

  /** A row of the order statistics the listing starts from; money in cents. */
  datatype AdminOrder = AdminOrder(
    orderId: int, customerName: string, customerEmail: string, orderDate: int,
    totalItems: int, totalPrice: int, status: string)

  /** The statuses the admin pages show. */
  const FrontendStatuses: set<string> := {"processing", "shipped", "delivered", "cancelled"}

  /** The statuses that pass through the mapping unchanged. */
  const KeptStatuses: set<string> := {"shipped", "delivered", "cancelled"}

  /** The status switch: shipped, delivered and cancelled are kept, and
      everything else — confirmed, pending, preparing, paid or any unknown
      value — is `processing`. */
  function FrontendStatus(raw: string): (s: string)
    ensures s in FrontendStatuses
    ensures s == raw <==> raw in FrontendStatuses
  {
    match raw
    case "confirmed" => "processing"
    case "pending" => "processing"
    case "preparing" => "processing"
    case "shipped" => "shipped"
    case "delivered" => "delivered"
    case "cancelled" => "cancelled"
    case _ => "processing"
  }

  /** Each status the switch names lands where it says, and the mapping is
      the identity on its own outputs. */
  lemma FrontendStatusTable(raw: string)
    ensures raw in {"confirmed", "pending", "preparing", "paid"} ==> FrontendStatus(raw) == "processing"
    ensures raw in KeptStatuses ==> FrontendStatus(raw) == raw
    ensures FrontendStatus(raw) == "processing" <==> raw !in KeptStatuses
    ensures FrontendStatus(FrontendStatus(raw)) == FrontendStatus(raw)
  {
  }

  /** Whether the status query filters at all: only a truthy value other
      than `all` does. */
  predicate Filters(status: Option<string>) {
    TruthyText(status) && status.value != "all"
  }

  /** The status filter, on the stored status and before the mapping. */
  function FilterOrders(orders: seq<AdminOrder>, status: Option<string>): (r: seq<AdminOrder>)
    ensures !Filters(status) ==> r == orders
    ensures Filters(status) ==> forall i :: 0 <= i < |r| ==> r[i] in orders && r[i].status == status.value
    ensures Filters(status) ==> forall i :: 0 <= i < |orders| && orders[i].status == status.value ==> orders[i] in r
  {
    if Filters(status) then Filter(orders, (o: AdminOrder) => o.status == status.value) else orders
  }

  /** One row of the listing as the admin pages receive it. */
  datatype OrderView = OrderView(
    id: int, customer: string, email: string, date: string, items: int, total: string, status: string)

  /** The row of one order: the total as dollars with two decimals and the
      mapped status. */
  function ViewOf(o: AdminOrder, dateText: int -> string): (v: OrderView)
    ensures v.id == o.orderId && v.customer == o.customerName && v.email == o.customerEmail
    ensures v.date == dateText(o.orderDate) && v.items == o.totalItems
    ensures v.total == "$" + FixedTwo(o.totalPrice)
    ensures v.status in FrontendStatuses && (v.status == o.status <==> o.status in FrontendStatuses)
  {
    OrderView(o.orderId, o.customerName, o.customerEmail, dateText(o.orderDate), o.totalItems,
              "$" + FixedTwo(o.totalPrice), FrontendStatus(o.status))
  }

  /** `UserStatsManager.getOrders`: the rows when the database answers,
      and `[]` when the query throws. */
  function FetchedOrders(orders: seq<AdminOrder>, up: bool): (r: seq<AdminOrder>)
    ensures up ==> r == orders
    ensures !up ==> r == []
  {
    if up then orders else []
  }

  /** `GET /api/admin/orders`: filter the fetched orders, then map each one
      to its row. Nothing in the handler throws, so an admin always gets an
      answer. */
  function AdminOrders(user: Option<RequestUser>, orders: seq<AdminOrder>, up: bool, status: Option<string>,
                       dateText: int -> string): (r: AdminReply<seq<OrderView>>)
    ensures r.Forbidden? <==> !IsAdmin(user)
    ensures r.Answered? <==> IsAdmin(user)
    ensures IsAdmin(user) && !up ==> r == Answered([])
    ensures r.Answered? ==> |r.body| == |FilterOrders(FetchedOrders(orders, up), status)|
    ensures r.Answered? ==> forall i :: 0 <= i < |r.body| ==>
      r.body[i] == ViewOf(FilterOrders(FetchedOrders(orders, up), status)[i], dateText)
    ensures r.Answered? ==> forall i :: 0 <= i < |r.body| ==> r.body[i].status in FrontendStatuses
  {
    AdminMiddleware(user, Some(Map(FilterOrders(FetchedOrders(orders, up), status), (o: AdminOrder) => ViewOf(o, dateText))))
  }

  /** Without a filter (no status, an empty one, or `all`) every order is
      listed, in order. */
  lemma UnfilteredListsAll(user: Option<RequestUser>, orders: seq<AdminOrder>, status: Option<string>, dateText: int -> string)
    requires IsAdmin(user)
    requires status.None? || status == Some("") || status == Some("all")
    ensures var r := AdminOrders(user, orders, true, status, dateText);
      r.Answered? && |r.body| == |orders| && forall i :: 0 <= i < |orders| ==> r.body[i].id == orders[i].orderId
  {
  }

  /** The filter compares stored statuses, so asking for a status the pages
      show but the database never stores, such as `processing`, lists
      nothing. */
  lemma DisplayedStatusFilterMatchesNothing(user: Option<RequestUser>, orders: seq<AdminOrder>, status: string, dateText: int -> string)
    requires IsAdmin(user) && status != "" && status != "all"
    requires forall i :: 0 <= i < |orders| ==> orders[i].status != status
    ensures AdminOrders(user, orders, true, Some(status), dateText) == Answered([])
  {
    assert FilterOrders(orders, Some(status)) == [];
  }

  /** A listed row with a kept status came from an order stored with that
      very status; a `processing` row came from one stored with any other. */
  lemma ListedStatusTracesBack(user: Option<RequestUser>, orders: seq<AdminOrder>, status: Option<string>, dateText: int -> string, i: nat)
    requires AdminOrders(user, orders, true, status, dateText).Answered?
    requires i < |AdminOrders(user, orders, true, status, dateText).body|
    ensures var v := AdminOrders(user, orders, true, status, dateText).body[i];
      exists o :: o in orders && o.orderId == v.id
        && (v.status in KeptStatuses ==> o.status == v.status)
        && (v.status == "processing" ==> o.status !in KeptStatuses)
  {
    var kept := FilterOrders(orders, status);
    assert kept[i] in orders;
    FrontendStatusTable(kept[i].status);
  }

  /** A request the gate refuses never reaches the handler: the answer is
      the same whatever the orders are. */
  lemma DeniedIgnoresOrders(user: Option<RequestUser>, a: seq<AdminOrder>, upA: bool, b: seq<AdminOrder>, upB: bool,
                             status: Option<string>, dateText: int -> string)
    requires !IsAdmin(user)
    ensures AdminOrders(user, a, upA, status, dateText) == AdminOrders(user, b, upB, status, dateText) == Forbidden
  {
  }
}
