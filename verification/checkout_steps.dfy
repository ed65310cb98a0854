/** The three step displays of the checkout pages: the progress stepper
    (`components/checkout/ProgressStepper.tsx`), the delivery timeline
    (`components/checkout/Timeline.tsx`) and the step indicator
    (`components/checkout/StepIndicator.tsx`). Each gives every step a
    status from the position of the current one; colours and icons follow
    the status. */
module CheckoutSteps {
  import opened Seqs

  /** A step's status: before, at, or after the current step. The timeline
      calls these complete, current and pending. */
  datatype StepStatus = Completed | Current | Upcoming

  /** The status of the step at `index` when the current step is at
      `currentIndex` (`getStepStatus`); `currentIndex` is -1 when
      `findIndex` finds nothing. */
  function StatusOf(index: int, currentIndex: int): (s: StepStatus)
    ensures s == Completed <==> index < currentIndex
    ensures s == Current <==> index == currentIndex
    ensures s == Upcoming <==> index > currentIndex
  {
    if index < currentIndex then Completed
    else if index == currentIndex then Current
    else Upcoming
  }

  /** The statuses of `n` steps in order. */
  function Statuses(n: nat, currentIndex: int): (r: seq<StepStatus>)
    ensures |r| == n && forall i :: 0 <= i < n ==> r[i] == StatusOf(i, currentIndex)
  {
    seq(n, i => StatusOf(i, currentIndex))
  }

  /** Whether a status is `Current`. */
  predicate IsCurrent(s: StepStatus) {
    s == Current
  }

  /** Exactly one step is current when the current index is one of the
      steps, and none otherwise. */
  lemma {:induction false} OneCurrentStep(n: nat, currentIndex: int)
    ensures Count(Statuses(n, currentIndex), IsCurrent) == (if 0 <= currentIndex < n then 1 else 0)
    decreases n
  {
    if n > 0 {
      var r := Statuses(n, currentIndex);
      var shorter := Statuses(n - 1, currentIndex);
      assert r == shorter + [StatusOf(n - 1, currentIndex)];
      OneCurrentStep(n - 1, currentIndex);
      CountAppend(shorter, StatusOf(n - 1, currentIndex));
    }
  }

  /** Counting over a sequence with one more element. */
  lemma {:induction false} CountAppend(xs: seq<StepStatus>, x: StepStatus)
    ensures Count(xs + [x], IsCurrent) == Count(xs, IsCurrent) + (if IsCurrent(x) then 1 else 0)
    decreases |xs|
  {
    if xs != [] {
      assert (xs + [x])[1..] == xs[1..] + [x];
      CountAppend(xs[1..], x);
    }
  }

  /** Moving on one step turns the current step completed and the next one
      current, and changes no other step. */
  lemma AdvanceOneStep(n: nat, currentIndex: int)
    requires 0 <= currentIndex && currentIndex + 1 < n
    ensures var before := Statuses(n, currentIndex);
      var after := Statuses(n, currentIndex + 1);
      after[currentIndex] == Completed && after[currentIndex + 1] == Current
      && before[currentIndex] == Current && before[currentIndex + 1] == Upcoming
      && forall i :: 0 <= i < n && i != currentIndex && i != currentIndex + 1 ==> after[i] == before[i]
  {
  }

  /** The steps of the progress stepper. */
  datatype CheckoutStep = Cart | Payment | Confirmation

  /** The stepper's order of steps. */
  function StepperIndex(s: CheckoutStep): (i: nat)
    ensures i < 3
  {
    match s
    case Cart => 0
    case Payment => 1
    case Confirmation => 2
  }

  /** The statuses the progress stepper shows for its three steps. */
  function StepperStatuses(currentStep: CheckoutStep): (r: seq<StepStatus>)
    ensures |r| == 3 && r[StepperIndex(currentStep)] == Current
    ensures forall i :: 0 <= i < 3 ==> (r[i] == Completed <==> i < StepperIndex(currentStep))
  {
    Statuses(3, StepperIndex(currentStep))
  }

  /** A step's icon is drawn in white unless it is upcoming, and the line
      after it is coloured only when it is completed. */
  predicate StepperIconFilled(s: StepStatus) {
    s != Upcoming
  }
  predicate StepperConnectorFilled(s: StepStatus) {
    s == Completed
  }

  /** On the confirmation step every icon is filled and both connectors
      are coloured; on the cart step only the first icon is filled and no
      connector is coloured. */
  lemma StepperEnds()
    ensures var r := StepperStatuses(Confirmation);
      StepperIconFilled(r[0]) && StepperIconFilled(r[1]) && StepperIconFilled(r[2])
      && StepperConnectorFilled(r[0]) && StepperConnectorFilled(r[1])
    ensures var r := StepperStatuses(Cart);
      StepperIconFilled(r[0]) && !StepperIconFilled(r[1]) && !StepperIconFilled(r[2])
      && !StepperConnectorFilled(r[0]) && !StepperConnectorFilled(r[1])
  {
  }

  /** The delivery timeline's four statuses for a step number: step `k`
      (from 1) is complete once the number reaches `k`, current when the
      number is `k - 1` (never for the first step), pending otherwise. */
  function TimelineStatuses(currentStep: int): (r: seq<StepStatus>)
    ensures |r| == 4
    ensures forall i :: 0 <= i < 4 ==> (r[i] == Completed <==> currentStep >= i + 1)
    ensures forall i :: 1 <= i < 4 ==> (r[i] == Current <==> currentStep == i)
    ensures r[0] != Current
  {
    [ if currentStep >= 1 then Completed else Upcoming,
      if currentStep >= 2 then Completed else if currentStep == 1 then Current else Upcoming,
      if currentStep >= 3 then Completed else if currentStep == 2 then Current else Upcoming,
      if currentStep >= 4 then Completed else if currentStep == 3 then Current else Upcoming ]
  }

  /** The timeline agrees with the general rule at every step number but
      0, where the general rule would make the first step current and the
      timeline leaves it pending. */
  lemma TimelineMatchesRule(currentStep: int)
    ensures currentStep != 0 ==> TimelineStatuses(currentStep) == Statuses(4, currentStep)
    ensures currentStep == 0 ==> (TimelineStatuses(0)[0] == Upcoming && Statuses(4, 0)[0] == Current
      && TimelineStatuses(0)[1..] == Statuses(4, 0)[1..])
  {
    var t := TimelineStatuses(currentStep);
    var s := Statuses(4, currentStep);
    if currentStep != 0 {
      assert forall i :: 0 <= i < 4 ==> t[i] == s[i];
    } else {
      assert forall i :: 1 <= i < 4 ==> t[i] == s[i];
    }
  }

  /** The steps of the step indicator. */
  datatype IndicatorStep = IndicatorCart | Shipping | IndicatorPayment | IndicatorConfirmation

  function IndicatorIndex(s: IndicatorStep): (i: nat)
    ensures i < 4
  {
    match s
    case IndicatorCart => 0
    case Shipping => 1
    case IndicatorPayment => 2
    case IndicatorConfirmation => 3
  }

  /** What the indicator draws for one step: the step number, or a tick
      once completed, and the colour of the line after it (which follows
      the step's own status). */
  datatype IndicatorView = IndicatorView(showsNumber: bool, number: nat, line: StepStatus)

  function IndicatorViews(currentStep: IndicatorStep): (r: seq<IndicatorView>)
    ensures |r| == 4
    ensures forall i :: 0 <= i < 4 ==> (r[i].number == i + 1
      && (r[i].showsNumber <==> i >= IndicatorIndex(currentStep))
      && r[i].line == StatusOf(i, IndicatorIndex(currentStep)))
  {
    var statuses := Statuses(4, IndicatorIndex(currentStep));
    seq(4, i requires 0 <= i < 4 => IndicatorView(statuses[i] != Completed, i + 1, statuses[i]))
  }

  /** The indicator and the stepper agree on the steps they share: the
      stepper's cart, payment and confirmation have the statuses of the
      indicator's cart, payment and confirmation whenever the current step
      is one of those three. */
  lemma IndicatorAgreesWithStepper(step: CheckoutStep)
    ensures var ind := match step
      case Cart => IndicatorCart
      case Payment => IndicatorPayment
      case Confirmation => IndicatorConfirmation;
      var views := IndicatorViews(ind);
      var stepper := StepperStatuses(step);
      views[0].line == stepper[0] && views[2].line == stepper[1] && views[3].line == stepper[2]
  {
  }
}
