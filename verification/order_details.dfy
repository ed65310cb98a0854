/** The order-details page of the client (`components/account/OrderDetails.tsx`):
    how it reads the `BUMBA-` id from the address before fetching, and the
    status timeline it draws; and the status badge of the order service
    (`services/orders.ts`). */
module OrderDetails {
  import opened Wrappers
  import opened Strings
  import opened JsParse
  import opened OrderHistory

  /** What the page does with the id in the address. */
  datatype IdCheck =
    | Waiting               // authentication still loading: nothing yet
    | Rejected(error: string)
    | Fetch(orderId: int)   // the numeric id to fetch

  /** The messages of the checks. */
  const NoOrderId := "No order ID provided"
  const PleaseLogIn := "Please log in to view order details"
  const InvalidId := "Invalid order ID"
  const InvalidFormat := "Invalid order ID format"

  /** A non-blank id, with authentication loaded and the user logged in:
      only the id's form is left to check. */
  predicate PastLogin(orderId: Option<string>, authLoading: bool, isAuthenticated: bool) {
    orderId.Some? && orderId.value != "" && !authLoading && isAuthenticated && Trim(orderId.value) != ""
  }

  /** The checks of the effect and of `fetchOrderDetails`, in order: a
      missing or empty id, loading authentication, no login, a blank id, a
      missing `BUMBA-` prefix, and a remainder that `parseInt` reads as
      `NaN` or as no more than 0. */
  function CheckOrderId(orderId: Option<string>, authLoading: bool, isAuthenticated: bool): (r: IdCheck)
    ensures (orderId.None? || orderId.value == "") ==> r == Rejected(NoOrderId)
    ensures r.Fetch? ==> (orderId.Some? && StartsWith(orderId.value, IdPrefix) && r.orderId > 0
      && ParseInt(orderId.value[|IdPrefix|..]) == Some(r.orderId))
    ensures r.Fetch? ==> !authLoading && isAuthenticated
    ensures orderId.Some? && orderId.value != "" && authLoading ==> r == Waiting
    ensures orderId.Some? && orderId.value != "" && !authLoading && !isAuthenticated ==> r == Rejected(PleaseLogIn)
    ensures PastLogin(orderId, authLoading, isAuthenticated) && !StartsWith(orderId.value, IdPrefix) ==> r == Rejected(InvalidFormat)
    ensures PastLogin(orderId, authLoading, isAuthenticated) && StartsWith(orderId.value, IdPrefix) ==>
      var n := ParseInt(orderId.value[|IdPrefix|..]);
      r == if n.None? || n.value <= 0 then Rejected(InvalidFormat) else Fetch(n.value)
  {
    if orderId.None? || orderId.value == "" then Rejected(NoOrderId)
    else if authLoading then Waiting
    else if !isAuthenticated then Rejected(PleaseLogIn)
    else if Trim(orderId.value) == "" then Rejected(InvalidId)
    else if !StartsWith(orderId.value, IdPrefix) then Rejected(InvalidFormat)
    else
      var n := ParseInt(orderId.value[|IdPrefix|..]);
      if n.None? || n.value <= 0 then Rejected(InvalidFormat) else Fetch(n.value)
  }

  /** A blank id (white space only) is refused as invalid once the user is
      logged in. */
  lemma BlankIdRejected(orderId: string)
    requires orderId != [] && forall i :: 0 <= i < |orderId| ==> IsJsSpace(orderId[i])
    ensures CheckOrderId(Some(orderId), false, true) == Rejected(InvalidId)
  {
    TrimEmptyIff(orderId);
  }

  /** The zero-padded digits of a positive id read back as the id. */
  lemma PaddedDigitsReadBack(orderId: int)
    requires orderId > 0
    ensures ParseInt(PadStart(NatToString(orderId), 5, '0')) == Some(orderId)
  {
    var digits := NatToString(orderId);
    var padded := PadStart(digits, 5, '0');
    var zeros := if |digits| >= 5 then 0 else 5 - |digits|;
    assert padded == Repeat('0', zeros) + digits by {
      if |digits| >= 5 { assert Repeat('0', 0) + digits == digits; }
    }
    DecimalValueZeros(zeros, digits);
    DecimalValueOfNatToString(orderId);
    ParseIntDigits(padded);
  }

  /** The display id starts with a visible character and holds the padded
      digits after its prefix. */
  lemma DisplayIdShape(orderId: int)
    requires orderId > 0
    ensures var id := DisplayId(orderId);
      Trim(id) != "" && id[|IdPrefix|..] == PadStart(NatToString(orderId), 5, '0')
  {
    var id := DisplayId(orderId);
    assert id == IdPrefix + PadStart(NatToString(orderId), 5, '0');
    assert id[0] == 'B';
    VisibleStartNotBlank(id);
  }

  /** A text starting with a visible character does not trim to nothing. */
  lemma VisibleStartNotBlank(s: string)
    requires s != [] && !IsJsSpace(s[0])
    ensures Trim(s) != ""
  {
    TrimEmptyIff(s);
  }

  /** The display id of the history page reads back as the order id. */
  lemma DisplayIdRoundTrip(orderId: int)
    requires orderId > 0
    ensures CheckOrderId(Some(DisplayId(orderId)), false, true) == Fetch(orderId)
  {
    DisplayIdShape(orderId);
    PaddedDigitsReadBack(orderId);
  }

  /** A step of the timeline. */
  datatype Step = Step(caption: string, date: string, completed: bool)

  /** `getOrderTimeline`: two finished steps for a cancelled order,
      otherwise four steps finished as far as the status has got. The
      status is compared exactly as stored. */
  function OrderTimeline(status: string, orderDate: string): (r: seq<Step>)
    ensures status == "cancelled" ==> |r| == 2 && r[0].completed && r[1].completed && r[1].caption == "Cancelled"
    ensures status != "cancelled" ==> |r| == 4 && r[0].completed
    ensures status != "cancelled" ==> (r[1].completed <==> status != "pending")
    ensures status != "cancelled" ==> (r[2].completed <==> status == "shipped" || status == "delivered")
    ensures status != "cancelled" ==> (r[3].completed <==> status == "delivered")
    ensures forall i :: 0 <= i < |r| ==> r[i].date == orderDate
  {
    if status == "cancelled" then
      [Step("Order Confirmed", orderDate, true), Step("Cancelled", orderDate, true)]
    else
      [Step("Order Confirmed", orderDate, true),
       Step("Preparing Meals", orderDate, status != "pending"),
       Step("Shipped", orderDate, status == "shipped" || status == "delivered"),
       Step("Delivered", orderDate, status == "delivered")]
  }

  /** The finished steps always come first: no unfinished step precedes a
      finished one. */
  lemma TimelineFinishedPrefix(status: string, orderDate: string)
    ensures var r := OrderTimeline(status, orderDate);
      forall i, j :: 0 <= i < j < |r| && r[j].completed ==> r[i].completed
  {
  }

  /** The number of finished steps grows along the order's progress. */
  function FinishedSteps(r: seq<Step>): (n: nat)
    ensures n <= |r|
  {
    if r == [] then 0 else (if r[0].completed then 1 else 0) + FinishedSteps(r[1..])
  }

  /** The finished steps of a four-step timeline, counted. */
  lemma FinishedOfFour(r: seq<Step>)
    requires |r| == 4
    ensures FinishedSteps(r) == (if r[0].completed then 1 else 0) + (if r[1].completed then 1 else 0)
      + (if r[2].completed then 1 else 0) + (if r[3].completed then 1 else 0)
  {
    var r1 := r[1..];
    var r2 := r1[1..];
    var r3 := r2[1..];
    assert FinishedSteps(r3) == (if r[3].completed then 1 else 0) by {
      assert r3[1..] == [];
    }
    assert FinishedSteps(r2) == (if r[2].completed then 1 else 0) + FinishedSteps(r3);
    assert FinishedSteps(r1) == (if r[1].completed then 1 else 0) + FinishedSteps(r2);
  }

  /** How many steps the page knows to be finished for a status. */
  function Progress(st: UiStatus): nat {
    match st
    case Pending => 1
    case Confirmed => 2
    case Preparing => 2
    case Shipped => 3
    case Delivered => 4
    case Cancelled => 2
  }

  /** For the six statuses the page knows, the timeline counts one step
      finished for `pending`, two for `confirmed` and `preparing`, three
      for `shipped`, four for `delivered`, and both steps of a cancelled
      order. */
  lemma TimelineProgress(st: UiStatus, orderDate: string)
    ensures FinishedSteps(OrderTimeline(StatusName(st), orderDate)) == Progress(st)
  {
    var r := OrderTimeline(StatusName(st), orderDate);
    if st == Cancelled {
      assert r[1..][1..] == [];
    } else {
      FinishedOfFour(r);
    }
  }

  /** A status badge. */
  datatype Badge = Badge(caption: string, color: string)

  const Gray := "bg-gray-100 text-gray-800"
  const Blue := "bg-blue-100 text-blue-800"
  const Yellow := "bg-yellow-100 text-yellow-800"
  const Green := "bg-green-100 text-green-800"
  const Red := "bg-red-100 text-red-800"

  /** The caption of a known status: its name with a capital letter. */
  function Capitalised(st: UiStatus): (caption: string)
    ensures |caption| > 0 && IsUpper(caption[0])
  {
    match st
    case Pending => "Pending"
    case Confirmed => "Confirmed"
    case Preparing => "Preparing"
    case Shipped => "Shipped"
    case Delivered => "Delivered"
    case Cancelled => "Cancelled"
  }

  /** `getOrderStatusDisplay`: the six statuses, matched exactly, get their
      caption and colour; anything else is an `Unknown` gray badge. */
  function StatusDisplay(status: string): (b: Badge)
    ensures KnownName(status) ==> b.caption != "Unknown"
    ensures !KnownName(status) ==> b == Badge("Unknown", Gray)
    ensures b.color in {Gray, Blue, Yellow, Green, Red} && b.caption != ""
  {
    if status == "pending" then Badge(Capitalised(Pending), Gray)
    else if status == "confirmed" then Badge(Capitalised(Confirmed), Blue)
    else if status == "preparing" then Badge(Capitalised(Preparing), Yellow)
    else if status == "shipped" then Badge(Capitalised(Shipped), Blue)
    else if status == "delivered" then Badge(Capitalised(Delivered), Green)
    else if status == "cancelled" then Badge(Capitalised(Cancelled), Red)
    else Badge("Unknown", Gray)
  }

  /** Every known status gets its capitalised caption; pending shares the
      unknown status's gray, and confirmed shares shipped's blue. */
  lemma StatusDisplayTable(st: UiStatus)
    ensures StatusDisplay(StatusName(st)).caption == Capitalised(st)
    ensures StatusDisplay(StatusName(st)).color == Gray <==> st == Pending
    ensures StatusDisplay(StatusName(st)).color == Blue <==> st == Confirmed || st == Shipped
  {
    match st
    case Pending =>
    case Confirmed =>
    case Preparing =>
    case Shipped =>
    case Delivered =>
    case Cancelled =>
  }

  /** A caption is the status name with its first letter in upper case. */
  lemma CapitalisedNames(st: UiStatus)
    ensures |Capitalised(st)| == |StatusName(st)|
    ensures LowerChar(Capitalised(st)[0]) == StatusName(st)[0]
    ensures Capitalised(st)[1..] == StatusName(st)[1..]
  {
  }

  /** A badge is case-sensitive where the history page is not: an upper-case
      stored status is a known status there and `Unknown` here. */
  lemma BadgeCaseSensitive()
    ensures MapOrderStatus(Some("Shipped")) == Shipped
    ensures StatusDisplay("Shipped").caption == "Unknown"
  {
    assert Lower("Shipped") == "shipped";
  }
}
