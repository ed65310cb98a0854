/** The subscription-plan manager of the data layer (`planManager.js`):
    guarded cancel and reactivate, the whitelisted field update, and the two
    plan listings.

    `CURRENT_TIMESTAMP` is the parameter `now` and `CURRENT_DATE` is
    `today`; dates are integers on one scale. Whether the database answers is
    `up`. */
module PlanManager {
  import opened Wrappers
  import opened Seqs
  import opened Sorting
  import opened Tables
  import opened Strings
  import opened JsParse

  /** A row of `plan`; money in cents. */
  datatype Plan = Plan(
    planId: int, subscriptionPlan: string, mealsPerWeek: int, pricePerMeal: int, billingCycle: string,
    startDate: int, timeExpired: int, isActive: bool, userId: int, createdAt: int, updatedAt: int)

  /** Whether `p` is plan `planId`. */
  predicate IsPlan(p: Plan, planId: int) {
    p.planId == planId
  }

  /** Whether `p` is plan `planId` and still active. */
  predicate IsActivePlan(p: Plan, planId: int) {
    p.planId == planId && p.isActive
  }

  /** Whether plan `planId` exists. */
  predicate HasPlan(t: seq<Plan>, planId: int) {
    exists i :: 0 <= i < |t| && IsPlan(t[i], planId)
  }

  /** Whether plan `planId` exists and is active. */
  predicate HasActivePlan(t: seq<Plan>, planId: int) {
    exists i :: 0 <= i < |t| && IsActivePlan(t[i], planId)
  }

  /** The cancelled form of a plan. */
  function Cancelled(p: Plan, now: int): (q: Plan)
    ensures !q.isActive && q.updatedAt == now
    ensures q.(isActive := p.isActive, updatedAt := p.updatedAt) == p
  {
    p.(isActive := false, updatedAt := now)
  }

  /** `cancelPlan`: deactivate the plan if it is active. */
  function CancelPlan(t: seq<Plan>, planId: int, now: int, up: bool): (r: (seq<Plan>, Outcome<Plan>))
    ensures r.1.Failed? <==> !up
    ensures r.1.Done? <==> up && HasActivePlan(t, planId)
    ensures r.1.Refused? ==> r.1.message == "Plan not found or already cancelled"
    ensures !r.1.Done? ==> r.0 == t
    ensures |r.0| == |t|
    ensures forall i :: 0 <= i < |t| ==>
      r.0[i] == (if r.1.Done? && IsActivePlan(t[i], planId) then Cancelled(t[i], now) else t[i])
    ensures r.1.Done? ==> IsPlan(r.1.value, planId) && !r.1.value.isActive
  {
    GuardedUpdate(t, (p: Plan) => IsActivePlan(p, planId), (p: Plan) => Cancelled(p, now),
                  "Plan not found or already cancelled", up)
  }

  /** After a cancel on a working database no row of the plan is active, so
      a second cancel is refused. */
  lemma CancelTwiceRefused(t: seq<Plan>, planId: int, now: int, later: int)
    ensures !HasActivePlan(CancelPlan(t, planId, now, true).0, planId)
    ensures CancelPlan(CancelPlan(t, planId, now, true).0, planId, later, true).1
         == Refused("Plan not found or already cancelled")
  {
  }

  /** The reactivated form of a plan. */
  function Reactivated(p: Plan, expiry: int, now: int): (q: Plan)
    ensures q.isActive && q.timeExpired == expiry && q.updatedAt == now
    ensures q.(isActive := p.isActive, timeExpired := p.timeExpired, updatedAt := p.updatedAt) == p
  {
    p.(isActive := true, timeExpired := expiry, updatedAt := now)
  }

  /** `reactivatePlan`: activate the plan with a new expiry, whether or not
      it was active. */
  function ReactivatePlan(t: seq<Plan>, planId: int, expiry: int, now: int, up: bool): (r: (seq<Plan>, Outcome<Plan>))
    ensures r.1.Failed? <==> !up
    ensures r.1.Done? <==> up && HasPlan(t, planId)
    ensures r.1.Refused? ==> r.1.message == "Plan not found"
    ensures !r.1.Done? ==> r.0 == t
    ensures |r.0| == |t|
    ensures forall i :: 0 <= i < |t| ==>
      r.0[i] == (if r.1.Done? && IsPlan(t[i], planId) then Reactivated(t[i], expiry, now) else t[i])
    ensures r.1.Done? ==> IsPlan(r.1.value, planId) && r.1.value.isActive && r.1.value.timeExpired == expiry
  {
    GuardedUpdate(t, (p: Plan) => IsPlan(p, planId), (p: Plan) => Reactivated(p, expiry, now), "Plan not found", up)
  }

  /** A cancelled plan can be reactivated, and is then cancellable again. */
  lemma CancelReactivateCancel(t: seq<Plan>, planId: int, expiry: int, now: int)
    requires CancelPlan(t, planId, now, true).1.Done?
    ensures ReactivatePlan(CancelPlan(t, planId, now, true).0, planId, expiry, now, true).1.Done?
    ensures CancelPlan(ReactivatePlan(CancelPlan(t, planId, now, true).0, planId, expiry, now, true).0, planId, now, true).1.Done?
  {
    var t1 := CancelPlan(t, planId, now, true).0;
    var i :| 0 <= i < |t| && IsActivePlan(t[i], planId);
    assert IsPlan(t1[i], planId);
    var t2 := ReactivatePlan(t1, planId, expiry, now, true).0;
    assert IsActivePlan(t2[i], planId);
  }

  /** A value given for a field. */
  datatype FieldValue = Text(text: string) | Number(number: int) | Flag(flag: bool)

  /** The fields `updatePlan` may set. */
  const AllowedFields: set<string> :=
    {"subscription_plan", "meals_per_week", "price_per_meal", "billing_cycle", "time_expired", "is_active"}

  /** The whitelisted part of an update object; other keys are ignored. */
  function Whitelisted(updates: map<string, FieldValue>): (w: map<string, FieldValue>)
    ensures w.Keys == updates.Keys * AllowedFields
    ensures forall k :: k in w ==> w[k] == updates[k]
  {
    map k | k in updates.Keys * AllowedFields :: updates[k]
  }

  /** The text node-postgres sends for a parameter: a string as it is, a
      number through `String`, a boolean as `true` or `false`. */
  function ParamText(v: FieldValue): (t: string)
    ensures v.Text? ==> t == v.text
    ensures v.Flag? ==> (t == "true" <==> v.flag) && (t == "false" <==> !v.flag)
    ensures v.Number? ==> ParseInt(t) == Some(v.number)
  {
    match v
    case Text(text) => text
    case Number(n) => ParseIntOfIntToString(n); IntToString(n)
    case Flag(b) => if b then "true" else "false"
  }

  /** The text columns of `plan`. */
  predicate IsTextColumn(field: string) {
    field == "subscription_plan" || field == "billing_cycle"
  }

  /** Whether a value fits the column of a whitelisted field. Every
      parameter reaches a text column as its text; the other columns take a
      value of their own type. */
  predicate Fits(field: string, v: FieldValue) {
    if IsTextColumn(field) then true
    else if field == "is_active" then v.Flag?
    else v.Number?
  }

  /** Whether every value fits its column; otherwise the database rejects
      the statement. */
  predicate AllFit(w: map<string, FieldValue>) {
    forall k :: k in w ==> Fits(k, w[k])
  }

  /** The plan with the whitelisted fields of `w` set. */
  function ApplyFields(p: Plan, w: map<string, FieldValue>, now: int): (q: Plan)
    requires AllFit(w)
    ensures q.planId == p.planId && q.userId == p.userId && q.startDate == p.startDate && q.createdAt == p.createdAt
    ensures q.updatedAt == now
    ensures q.subscriptionPlan == (if "subscription_plan" in w then ParamText(w["subscription_plan"]) else p.subscriptionPlan)
    ensures q.mealsPerWeek == (if "meals_per_week" in w then w["meals_per_week"].number else p.mealsPerWeek)
    ensures q.pricePerMeal == (if "price_per_meal" in w then w["price_per_meal"].number else p.pricePerMeal)
    ensures q.billingCycle == (if "billing_cycle" in w then ParamText(w["billing_cycle"]) else p.billingCycle)
    ensures q.timeExpired == (if "time_expired" in w then w["time_expired"].number else p.timeExpired)
    ensures q.isActive == (if "is_active" in w then w["is_active"].flag else p.isActive)
  {
    p.(subscriptionPlan := if "subscription_plan" in w then ParamText(w["subscription_plan"]) else p.subscriptionPlan,
       mealsPerWeek := if "meals_per_week" in w then w["meals_per_week"].number else p.mealsPerWeek,
       pricePerMeal := if "price_per_meal" in w then w["price_per_meal"].number else p.pricePerMeal,
       billingCycle := if "billing_cycle" in w then ParamText(w["billing_cycle"]) else p.billingCycle,
       timeExpired := if "time_expired" in w then w["time_expired"].number else p.timeExpired,
       isActive := if "is_active" in w then w["is_active"].flag else p.isActive,
       updatedAt := now)
  }

  /** `updatePlan`: set the whitelisted fields of the plan. With no
      whitelisted field the call is refused before any query, so it neither
      touches the store nor depends on the database. */
  function UpdatePlan(t: seq<Plan>, planId: int, updates: map<string, FieldValue>, now: int, up: bool): (r: (seq<Plan>, Outcome<Plan>))
    ensures r.1 == Refused("No valid fields to update") <==> updates.Keys * AllowedFields == {}
    ensures r.1.Failed? <==> updates.Keys * AllowedFields != {} && (!up || !AllFit(Whitelisted(updates)))
    ensures r.1 == Refused("Plan not found") <==>
      updates.Keys * AllowedFields != {} && up && AllFit(Whitelisted(updates)) && !HasPlan(t, planId)
    ensures r.1.Done? <==> updates.Keys * AllowedFields != {} && up && AllFit(Whitelisted(updates)) && HasPlan(t, planId)
    ensures !r.1.Done? ==> r.0 == t
    ensures |r.0| == |t|
    ensures forall i :: 0 <= i < |t| && !IsPlan(t[i], planId) ==> r.0[i] == t[i]
    ensures r.1.Done? ==> forall i :: 0 <= i < |t| && IsPlan(t[i], planId) ==>
      r.0[i] == ApplyFields(t[i], Whitelisted(updates), now)
  {
    var w := Whitelisted(updates);
    if |w| == 0 then
      assert w.Keys == {};
      (t, Refused("No valid fields to update"))
    else if !AllFit(w) then
      assert w.Keys != {};
      (t, Failed)
    else
      assert w.Keys != {} by {
        var k :| k in w;
      }
      GuardedUpdate(t, (p: Plan) => IsPlan(p, planId), (p: Plan) => ApplyFields(p, w, now), "Plan not found", up)
  }

  /** A number given for a text column is stored as its text: the update
      succeeds on an existing plan, and the plan name reads back as the
      number. */
  lemma NumberStoredAsText(t: seq<Plan>, planId: int, n: int, now: int)
    requires HasPlan(t, planId)
    ensures var r := UpdatePlan(t, planId, map["subscription_plan" := Number(n)], now, true);
      r.1.Done? && forall i :: 0 <= i < |t| && IsPlan(t[i], planId) ==> ParseInt(r.0[i].subscriptionPlan) == Some(n)
  {
    var u := map["subscription_plan" := Number(n)];
    assert "subscription_plan" in u.Keys * AllowedFields;
    assert Whitelisted(u) == u;
  }

  /** Keys outside the whitelist make no difference to the update. */
  lemma UpdateIgnoresOtherKeys(t: seq<Plan>, planId: int, updates: map<string, FieldValue>, now: int, up: bool)
    ensures UpdatePlan(t, planId, updates, now, up) == UpdatePlan(t, planId, Whitelisted(updates), now, up)
  {
    assert Whitelisted(Whitelisted(updates)) == Whitelisted(updates);
  }

  /** An update that sets `is_active` to true revives a cancelled plan like
      a reactivation without a new expiry. */
  lemma UpdateCanReactivate(t: seq<Plan>, planId: int, now: int)
    requires HasPlan(t, planId)
    ensures HasActivePlan(UpdatePlan(t, planId, map["is_active" := Flag(true)], now, true).0, planId)
  {
    var u := map["is_active" := Flag(true)];
    assert "is_active" in u.Keys * AllowedFields;
    var w := Whitelisted(u);
    assert w == u;
    var i :| 0 <= i < |t| && IsPlan(t[i], planId);
    var r := UpdatePlan(t, planId, u, now, true).0;
    assert r[i] == ApplyFields(t[i], w, now);
    assert IsActivePlan(r[i], planId);
  }

  /** Whether `p` is an active plan of the user. */
  predicate ActiveOf(p: Plan, userId: int) {
    p.userId == userId && p.isActive
  }

  /** `getUserPlans`: the user's active plans, newest first; `[]` on a
      database error. */
  function GetUserPlans(t: seq<Plan>, userId: int, up: bool): (r: seq<Plan>)
    ensures !up ==> r == []
    ensures up ==> multiset(r) == multiset(Filter(t, (p: Plan) => ActiveOf(p, userId)))
    ensures forall i, j :: 0 <= i < j < |r| ==> r[i].createdAt >= r[j].createdAt
  {
    if !up then []
    else
      var r := SortByInt(Filter(t, (p: Plan) => ActiveOf(p, userId)), (p: Plan) => p.createdAt, Desc);
      assert forall i, j :: 0 <= i < j < |r| ==> IntInOrder(r[i].createdAt, r[j].createdAt, Desc);
      r
  }

  /** The listing holds exactly the user's active plans. */
  lemma UserPlansExact(t: seq<Plan>, userId: int, p: Plan)
    ensures p in GetUserPlans(t, userId, true) <==> p in t && ActiveOf(p, userId)
  {
    var keep := (x: Plan) => ActiveOf(x, userId);
    var r := GetUserPlans(t, userId, true);
    PermutedFilterMembers(r, t, keep);
    if p in t && ActiveOf(p, userId) {
      assert p in Filter(t, keep);
      assert p in multiset(r);
    }
  }

  /** Whether `p` is active and expired before `today`. */
  predicate ExpiredBy(p: Plan, today: int) {
    p.isActive && p.timeExpired < today
  }

  /** The join condition of `getExpiredPlans`. */
  predicate PlanOwner(p: Plan, a: Account) {
    p.userId == a.userId
  }

  /** `getExpiredPlans`: active plans whose expiry is before today, each
      with its owner's account, earliest expiry first; `[]` on a database
      error. */
  function GetExpiredPlans(t: seq<Plan>, accounts: seq<Account>, today: int, up: bool): (r: seq<(Plan, Account)>)
    ensures !up ==> r == []
    ensures up ==> multiset(r) == multiset(Join(Filter(t, (p: Plan) => ExpiredBy(p, today)), accounts, PlanOwner))
    ensures forall i, j :: 0 <= i < j < |r| ==> r[i].0.timeExpired <= r[j].0.timeExpired
  {
    if !up then []
    else
      var rows := Join(Filter(t, (p: Plan) => ExpiredBy(p, today)), accounts, PlanOwner);
      var r := SortByInt(rows, ExpiryOf, Asc);
      assert forall i, j :: 0 <= i < j < |r| ==> IntInOrder(ExpiryOf(r[i]), ExpiryOf(r[j]), Asc);
      r
  }

  /** The sort key of the expired listing. */
  function ExpiryOf(v: (Plan, Account)): int {
    v.0.timeExpired
  }

  /** The listing holds exactly the expired active plans that have an owner. */
  lemma ExpiredPlansExact(t: seq<Plan>, accounts: seq<Account>, today: int, p: Plan, a: Account)
    ensures (p, a) in GetExpiredPlans(t, accounts, today, true) <==>
      p in t && ExpiredBy(p, today) && a in accounts && a.userId == p.userId
  {
    var expired := Filter(t, (x: Plan) => ExpiredBy(x, today));
    var r := GetExpiredPlans(t, accounts, today, true);
    if (p, a) in r {
      assert (p, a) in multiset(r);
      assert (p, a) in Join(expired, accounts, PlanOwner);
    }
    if p in t && ExpiredBy(p, today) && a in accounts && a.userId == p.userId {
      assert p in expired;
      JoinComplete(expired, accounts, PlanOwner, p, a);
      assert (p, a) in multiset(Join(expired, accounts, PlanOwner));
    }
  }

  /** A cancelled plan is never reported as expired. */
  lemma CancelledNotExpired(t: seq<Plan>, accounts: seq<Account>, planId: int, now: int, today: int)
    ensures forall i :: 0 <= i < |GetExpiredPlans(CancelPlan(t, planId, now, true).0, accounts, today, true)| ==>
      GetExpiredPlans(CancelPlan(t, planId, now, true).0, accounts, today, true)[i].0.planId != planId
  {
    var t1 := CancelPlan(t, planId, now, true).0;
    CancelTwiceRefused(t, planId, now, now);
    var r := GetExpiredPlans(t1, accounts, today, true);
    forall i | 0 <= i < |r| ensures r[i].0.planId != planId {
      ExpiredPlansExact(t1, accounts, today, r[i].0, r[i].1);
      var k :| 0 <= k < |t1| && t1[k] == r[i].0;
      assert !IsActivePlan(t1[k], planId);
    }
  }
}
