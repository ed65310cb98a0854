/** The payment step of the order saga (`PaymentService`): dispatch on the
    payment method, card validation by regular expressions, the simulated
    gateway, payment-id generation and the `payments` table.

    The clock, `Math.random()` and the database's availability are inputs
    (`PaymentEnv`); an SQL failure while storing a record is the source's
    `RuntimeException`. Amounts are integer cents. */
module PaymentService {
  import opened Wrappers
  import opened Strings
  import Seqs
  import JsParse

  /** The request fields the service reads; `None` is a JSON field left `null`. */
  datatype PaymentRequest = PaymentRequest(
    paymentMethod: Option<string>,
    cardNumber: Option<string>,
    expiryDate: Option<string>,
    cvv: Option<string>)

  /** What `processPayment` returns to the controller. */
  datatype PaymentResponse = PaymentResponse(success: bool, message: string, paymentId: Option<string>)

  /** One row of the `payments` table. */
  datatype PaymentRecord = PaymentRecord(paymentId: string, orderId: int, paymentMethod: string, amount: int, status: string)

  /** The outside world for one payment: the clock in milliseconds, the text of
      `Math.random()`, and whether the database accepts the insert. */
  datatype PaymentEnv = PaymentEnv(millis: nat, randomText: string, storeUp: bool)

  /** The outcome of `validateCard`: a verdict, or the `NullPointerException`
      raised when a field it reads is `null`. */
  datatype CardCheck = CardValid | CardInvalid | CardNullField

  /** `s.replaceAll("\\s+", "")`: every Java white-space character removed. */
  function StripSpaces(s: string): (r: string)
    ensures forall i :: 0 <= i < |r| ==> !IsJavaSpace(r[i])
    ensures (forall i :: 0 <= i < |s| ==> !IsJavaSpace(s[i])) ==> r == s
  {
    Seqs.Filter(s, c => !IsJavaSpace(c))
  }

  /** Stripping distributes over concatenation. */
  lemma StripSpacesConcat(a: string, b: string)
    ensures StripSpaces(a + b) == StripSpaces(a) + StripSpaces(b)
  {
    Seqs.FilterConcat(a, b, c => !IsJavaSpace(c));
  }

  /** `^[0-9]{13,19}$`. */
  predicate CardNumberMatches(n: string) {
    13 <= |n| <= 19 && AllDigits(n)
  }

  /** `^(0[1-9]|1[0-2])/[0-9]{2}$`. */
  predicate ExpiryMatches(e: string) {
    |e| == 5
    && ((e[0] == '0' && '1' <= e[1] <= '9') || (e[0] == '1' && '0' <= e[1] <= '2'))
    && e[2] == '/' && IsDigit(e[3]) && IsDigit(e[4])
  }

  /** `^[0-9]{3}$`. */
  predicate CvvMatches(c: string) {
    |c| == 3 && AllDigits(c)
  }

  /** Two-digit zero-padded rendering of `n < 100`. */
  function TwoDigits(n: nat): (s: string)
    requires n < 100
    ensures |s| == 2 && AllDigits(s)
  {
    [DigitChar(n / 10), DigitChar(n % 10)]
  }

  /** The expiry pattern accepts exactly the strings `MM/YY` with a month
      1..12 and any two-digit year; no date comparison is made. */
  lemma ExpiryMatchesIff(e: string)
    ensures ExpiryMatches(e) <==>
      exists m: nat, y: nat :: 1 <= m <= 12 && y < 100 && e == TwoDigits(m) + "/" + TwoDigits(y)
  {
    if ExpiryMatches(e) {
      ExpiryReadsAsDate(e);
    }
    if exists m: nat, y: nat :: 1 <= m <= 12 && y < 100 && e == TwoDigits(m) + "/" + TwoDigits(y) {
      var m: nat, y: nat :| 1 <= m <= 12 && y < 100 && e == TwoDigits(m) + "/" + TwoDigits(y);
      DateMatchesExpiry(m, y);
    }
  }

  /** A matching expiry is a month and a two-digit year. */
  lemma ExpiryReadsAsDate(e: string)
    requires ExpiryMatches(e)
    ensures exists m: nat, y: nat :: 1 <= m <= 12 && y < 100 && e == TwoDigits(m) + "/" + TwoDigits(y)
  {
    var m := DigitValue(e[0]) * 10 + DigitValue(e[1]);
    var y := DigitValue(e[3]) * 10 + DigitValue(e[4]);
    assert m / 10 == DigitValue(e[0]) && m % 10 == DigitValue(e[1]);
    assert y / 10 == DigitValue(e[3]) && y % 10 == DigitValue(e[4]);
    assert e == TwoDigits(m) + "/" + TwoDigits(y);
  }

  /** Every month and two-digit year written `MM/YY` matches. */
  lemma DateMatchesExpiry(m: nat, y: nat)
    requires 1 <= m <= 12 && y < 100
    ensures ExpiryMatches(TwoDigits(m) + "/" + TwoDigits(y))
  {
    var e := TwoDigits(m) + "/" + TwoDigits(y);
    assert e[0] == DigitChar(m / 10) && e[1] == DigitChar(m % 10);
    assert e[3] == DigitChar(y / 10) && e[4] == DigitChar(y % 10);
  }

  /** `validateCard`: the number, stripped of white space, must be 13 to 19
      digits starting with 4 or 5; the expiry and CVV are matched as given.
      A `null` field that is reached raises an exception. */
  function ValidateCard(req: PaymentRequest): (r: CardCheck)
    ensures r == CardValid <==>
      (req.cardNumber.Some? && req.expiryDate.Some? && req.cvv.Some?
       && CardNumberMatches(StripSpaces(req.cardNumber.value))
       && (StartsWith(StripSpaces(req.cardNumber.value), "4") || StartsWith(StripSpaces(req.cardNumber.value), "5"))
       && ExpiryMatches(req.expiryDate.value) && CvvMatches(req.cvv.value))
    ensures req.cardNumber.None? ==> r == CardNullField
    ensures r == CardNullField ==> req.cardNumber.None? || req.expiryDate.None? || req.cvv.None?
  {
    if req.cardNumber.None? then CardNullField
    else
      var n := StripSpaces(req.cardNumber.value);
      if !CardNumberMatches(n) then CardInvalid
      else if !StartsWith(n, "4") && !StartsWith(n, "5") then CardInvalid
      else if req.expiryDate.None? then CardNullField
      else if !ExpiryMatches(req.expiryDate.value) then CardInvalid
      else if req.cvv.None? then CardNullField
      else if !CvvMatches(req.cvv.value) then CardInvalid
      else CardValid
  }

  /** White space anywhere in the card number is ignored. */
  lemma CardSpacesIgnored(req: PaymentRequest, a: string, b: string, c: char)
    requires IsJavaSpace(c)
    ensures ValidateCard(req.(cardNumber := Some(a + [c] + b))) == ValidateCard(req.(cardNumber := Some(a + b)))
  {
    assert StripSpaces([c]) == [] by {
      assert [c][1..] == [];
    }
    calc {
      StripSpaces(a + [c] + b);
      { StripSpacesConcat(a + [c], b); }
      StripSpaces(a + [c]) + StripSpaces(b);
      { StripSpacesConcat(a, [c]); }
      StripSpaces(a) + StripSpaces(b);
      { StripSpacesConcat(a, b); }
      StripSpaces(a + b);
    }
  }

  /** White space is not stripped from the expiry date: a leading space
      makes an otherwise well-formed card invalid. */
  lemma ExpirySpaceRejected(req: PaymentRequest)
    requires req.expiryDate.Some?
    ensures ValidateCard(req.(expiryDate := Some(" " + req.expiryDate.value))) != CardValid
  {
  }

  /** No check digit is verified: whatever digit ends a well-formed VISA or
      Mastercard number, the card is accepted (a checksum such as Luhn's
      admits one final digit in ten). Nor is the expiry compared with any
      date: `01/00` passes. */
  lemma AnyCheckDigitAccepted(prefix: string, d: char, cvv: string)
    requires 12 <= |prefix| <= 18 && AllDigits(prefix) && (prefix[0] == '4' || prefix[0] == '5')
    requires IsDigit(d) && CvvMatches(cvv)
    ensures ValidateCard(PaymentRequest(Some("card"), Some(prefix + [d]), Some("01/00"), Some(cvv))) == CardValid
  {
    var n := prefix + [d];
    assert forall i :: 0 <= i < |n| ==> IsDigit(n[i]);
    assert StripSpaces(n) == n;
  }

  /** `simulateCardPayment`: a number ending in `0000` (after stripping) is
      declined; every other is approved. The one-second delay is not modelled. */
  predicate CardApproved(cardNumber: string) {
    !EndsWith(StripSpaces(cardNumber), "0000")
  }

  /** `"PAY_" + System.currentTimeMillis() + "_" + Math.random()`. */
  function GeneratePaymentId(millis: nat, randomText: string): (id: string)
    ensures StartsWith(id, "PAY_")
  {
    "PAY_" + NatToString(millis) + "_" + randomText
  }

  /** In `a + "_" + r` with `a` all digits, the leading digit run is `a`. */
  lemma DigitRunBeforeUnderscore(a: string, r: string)
    requires AllDigits(a)
    ensures JsParse.DigitRun(a + "_" + r, false) == |a|
  {
    var s := a + "_" + r;
    assert s[|a|] == '_';
    assert forall i :: 0 <= i < |a| ==> s[i] == a[i];
  }

  /** Two digit strings followed by `_` are equal when the whole strings are. */
  lemma DigitsBeforeUnderscore(a: string, b: string, r1: string, r2: string)
    requires AllDigits(a) && AllDigits(b)
    requires a + "_" + r1 == b + "_" + r2
    ensures a == b && r1 == r2
  {
    var s := a + "_" + r1;
    DigitRunBeforeUnderscore(a, r1);
    DigitRunBeforeUnderscore(b, r2);
    assert a == s[..|a|] == b;
    assert r1 == s[|a| + 1..] == r2;
  }

  /** A payment id determines the instant and the random text it was made
      from, so ids generated at different milliseconds differ. */
  lemma PaymentIdInjective(m1: nat, r1: string, m2: nat, r2: string)
    requires GeneratePaymentId(m1, r1) == GeneratePaymentId(m2, r2)
    ensures m1 == m2 && r1 == r2
  {
    var s1 := NatToString(m1) + "_" + r1;
    var s2 := NatToString(m2) + "_" + r2;
    assert GeneratePaymentId(m1, r1) == "PAY_" + s1;
    assert GeneratePaymentId(m2, r2) == "PAY_" + s2;
    assert s1 == GeneratePaymentId(m1, r1)[4..] == s2;
    DigitsBeforeUnderscore(NatToString(m1), NatToString(m2), r1, r2);
    DecimalValueOfNatToString(m1);
    DecimalValueOfNatToString(m2);
  }

  /** `storePaymentRecord`: append the row, or raise when the database fails. */
  function StorePaymentRecord(payments: seq<PaymentRecord>, rec: PaymentRecord, up: bool): (r: Option<seq<PaymentRecord>>)
    ensures r.Some? <==> up
    ensures r.Some? ==> r.value == payments + [rec]
  {
    if up then Some(payments + [rec]) else None
  }

  /** `processCashPayment`: record a pending cash payment. */
  function ProcessCashPayment(orderId: int, amount: int, env: PaymentEnv, payments: seq<PaymentRecord>): (r: (PaymentResponse, seq<PaymentRecord>))
  {
    var id := GeneratePaymentId(env.millis, env.randomText);
    match StorePaymentRecord(payments, PaymentRecord(id, orderId, "cash", amount, "pending"), env.storeUp)
    case Some(p) => (PaymentResponse(true, "Cash on delivery order confirmed", Some(id)), p)
    case None => (PaymentResponse(false, "Failed to process cash payment", None), payments)
  }

  /** `processCardPayment`; `None` is the exception `validateCard` lets escape. */
  function ProcessCardPayment(req: PaymentRequest, orderId: int, amount: int, env: PaymentEnv, payments: seq<PaymentRecord>): (r: Option<(PaymentResponse, seq<PaymentRecord>)>)
  {
    match ValidateCard(req)
    case CardNullField => None
    case CardInvalid => Some((PaymentResponse(false, "Invalid card details", None), payments))
    case CardValid =>
      if CardApproved(req.cardNumber.value) then
        var id := GeneratePaymentId(env.millis, env.randomText);
        match StorePaymentRecord(payments, PaymentRecord(id, orderId, "card", amount, "completed"), env.storeUp)
        case Some(p) => Some((PaymentResponse(true, "Payment successful", Some(id)), p))
        case None => Some((PaymentResponse(false, "Payment processing failed", None), payments))
      else Some((PaymentResponse(false, "Payment declined", None), payments))
  }

  /** The payment is taken: cash always, a card when valid and approved, and
      in both cases only if the record can be stored. */
  predicate Accepted(req: Option<PaymentRequest>, env: PaymentEnv) {
    req.Some? && env.storeUp
    && (req.value.paymentMethod == Some("cash")
        || (req.value.paymentMethod == Some("card") && ValidateCard(req.value) == CardValid
            && CardApproved(req.value.cardNumber.value)))
  }

  /** The payment status a record gets for a method. */
  function RecordStatus(paymentMethod: string): (s: string)
  {
    if paymentMethod == "cash" then "pending" else "completed"
  }

  /** `processPayment`. A success stores exactly one record carrying the new
      payment id, the order and the amount; a failure stores nothing and
      returns no id. */
  function ProcessPayment(req: Option<PaymentRequest>, amount: int, orderId: int, env: PaymentEnv, payments: seq<PaymentRecord>): (r: (PaymentResponse, seq<PaymentRecord>))
    ensures r.0.success <==> Accepted(req, env)
    ensures r.0.success ==>
      var m := req.value.paymentMethod.value;
      r.0.paymentId == Some(GeneratePaymentId(env.millis, env.randomText))
      && r.1 == payments + [PaymentRecord(r.0.paymentId.value, orderId, m, amount, RecordStatus(m))]
    ensures !r.0.success ==> r.0.paymentId.None? && r.1 == payments
    ensures r.0.message ==
      if req.None? then "Payment processing failed"
      else if req.value.paymentMethod == Some("cash") then
        (if env.storeUp then "Cash on delivery order confirmed" else "Failed to process cash payment")
      else if req.value.paymentMethod != Some("card") then "Invalid payment method"
      else match ValidateCard(req.value)
        case CardNullField => "Payment processing failed"
        case CardInvalid => "Invalid card details"
        case CardValid =>
          if !CardApproved(req.value.cardNumber.value) then "Payment declined"
          else if env.storeUp then "Payment successful" else "Payment processing failed"
  {
    if req.None? then (PaymentResponse(false, "Payment processing failed", None), payments)
    else if req.value.paymentMethod == Some("cash") then ProcessCashPayment(orderId, amount, env, payments)
    else if req.value.paymentMethod == Some("card") then
      match ProcessCardPayment(req.value, orderId, amount, env, payments)
      case None => (PaymentResponse(false, "Payment processing failed", None), payments)
      case Some(res) => res
    else (PaymentResponse(false, "Invalid payment method", None), payments)
  }

  /** A declined card never stores a record, whatever the database does. */
  lemma DeclinedStoresNothing(req: PaymentRequest, amount: int, orderId: int, env: PaymentEnv, payments: seq<PaymentRecord>)
    requires req.paymentMethod == Some("card") && ValidateCard(req) == CardValid
    requires EndsWith(StripSpaces(req.cardNumber.value), "0000")
    ensures ProcessPayment(Some(req), amount, orderId, env, payments) ==
      (PaymentResponse(false, "Payment declined", None), payments)
  {
  }

  /** `getPaymentByOrderId`: the first record of the order, or `null` when
      there is none or the query fails. */
  function GetPaymentByOrderId(payments: seq<PaymentRecord>, orderId: int, up: bool): (r: Option<PaymentRecord>)
    ensures r.Some? ==> up && r.value in payments && r.value.orderId == orderId
    ensures r.Some? ==> exists i :: 0 <= i < |payments| && payments[i] == r.value
                          && forall j :: 0 <= j < i ==> payments[j].orderId != orderId
    ensures r.None? <==> !up || forall i :: 0 <= i < |payments| ==> payments[i].orderId != orderId
  {
    if !up || payments == [] then None
    else if payments[0].orderId == orderId then Some(payments[0])
    else
      var r := GetPaymentByOrderId(payments[1..], orderId, up);
      assert r.Some? ==> exists i :: 0 <= i < |payments| && payments[i] == r.value
                          && forall j :: 0 <= j < i ==> payments[j].orderId != orderId by {
        if r.Some? {
          var i :| 0 <= i < |payments[1..]| && payments[1..][i] == r.value
                   && forall j :: 0 <= j < i ==> payments[1..][j].orderId != orderId;
          assert payments[i + 1] == r.value;
          assert forall j :: 0 <= j < i + 1 ==> payments[j].orderId != orderId by {
            forall j | 0 <= j < i + 1 ensures payments[j].orderId != orderId {
              if j > 0 { assert payments[j] == payments[1..][j - 1]; }
            }
          }
        }
      }
      assert r.None? ==> forall i :: 0 <= i < |payments| ==> payments[i].orderId != orderId || !up by {
        if r.None? && up {
          forall i | 0 <= i < |payments| ensures payments[i].orderId != orderId {
            if i > 0 { assert payments[i] == payments[1..][i - 1]; }
          }
        }
      }
      r
  }
}
