/** The billing states of a tenant.

    Every billing operation ends in one update of the tenant row, decided on a row that may be stale by then, and
    messages are counted on the same row in between. The steps below are those updates, without any guard, so a run of
    them covers every interleaving of webhooks, cron, verification requests and usage. Times are milliseconds. */
module Billing {
  import opened Options
  import opened PlanGates

  const DAY := 24 * 60 * 60 * 1000

  datatype Write =
    | ActivateTrial(now: int, trialDays: nat, customer: Option<string>)
    | ActivateSubscription(now: int, plan: Plan)
    | CancelSubscription
    | PaymentFailed
    | VerifyPayment(now: int)
    | ExpireWithoutCard
    | ExpireAwaitingCharge
    | StoreCustomer(code: string)
    | CountUsage(feature: Feature)
    | MonthlyReset

  function Apply(t: Tenant, w: Write): Tenant {
    match w
    case ActivateTrial(now, days, customer) =>
      t.(trialActive := true, trialStart := now, trialEnd := Some(now + days * DAY), status := TRIALING,
         limits := LimitsFor(Trial), customer := if customer.Some? then customer else t.customer)
    case ActivateSubscription(now, plan) =>
      t.(status := ACTIVE, plan := plan, trialActive := false, renewal := Some(now + 30 * DAY),
         sms := 0, voice := 0, ai := 0, whatsapp := 0, limits := LimitsFor(Paid(plan)))
    case CancelSubscription => t.(status := CANCELLED)
    case PaymentFailed => t.(status := PAST_DUE)
    case VerifyPayment(now) =>
      t.(status := TRIALING, trialActive := true, trialStart := now, trialEnd := Some(now + 14 * DAY))
    case ExpireWithoutCard => t.(trialActive := false, status := EXPIRED)
    case ExpireAwaitingCharge => t.(trialActive := false)
    case StoreCustomer(c) => t.(customer := Some(c))
    case CountUsage(f) => CountUse(t, f)
    case MonthlyReset => ResetMonth(t)
  }

  function ApplyAll(t: Tenant, ws: seq<Write>): Tenant {
    if ws == [] then t else Apply(ApplyAll(t, ws[..|ws| - 1]), ws[|ws| - 1])
  }

  /** A tenant as registration creates it: trialing on paper, the trial clock not started. */
  predicate Registered(t: Tenant) {
    && t.status == TRIALING && t.plan == SmsPlan && !t.trialActive && t.trialEnd.None? && t.customer.None?
    && t.sms == t.voice == t.whatsapp == t.ai == 0
  }

  // ---------- The invariant ----------

  predicate Consistent(t: Tenant) {
    && (t.status in {ACTIVE, EXPIRED} ==> !t.trialActive)
    && (t.trialActive ==> t.trialEnd.Some? && t.trialStart <= t.trialEnd.value)
    && (t.status == ACTIVE ==> t.limits == LimitsFor(Paid(t.plan)) && t.renewal.Some?)
  }

  lemma {:induction false} WritesKeepConsistent(t: Tenant, ws: seq<Write>)
    requires Consistent(t)
    ensures Consistent(ApplyAll(t, ws))
  {
    if ws != [] {
      WritesKeepConsistent(t, ws[..|ws| - 1]);
    }
  }

  lemma {:induction false} ReachableIsConsistent(t: Tenant, ws: seq<Write>)
    requires Registered(t)
    ensures Consistent(ApplyAll(t, ws))
  {
    WritesKeepConsistent(t, ws);
  }

  /** The reachable states include every usage: n texts counted in a trial, whatever n. */
  lemma {:induction false} EveryUsageIsReachable(t: Tenant, start: Write, n: nat) returns (ws: seq<Write>)
    requires start.ActivateTrial?
    ensures ApplyAll(t, ws) == Apply(t, start).(sms := t.sms + n)
  {
    if n == 0 {
      ws := [start];
      assert [start][..0] == [] && ApplyAll(t, []) == t;
    } else {
      var init := EveryUsageIsReachable(t, start, n - 1);
      ws := init + [CountUsage(Sms)];
      assert ws[..|ws| - 1] == init;
    }
  }

  /** What the invariant buys: in every reachable state the usage service and the reminder worker let a text message
      through only for an active subscription or before the trial's end date; the row can otherwise lack that date. */
  lemma SmsNeedsSubscriptionOrTrial(t: Tenant, ws: seq<Write>, now: int, counted: nat, rowLimit: int)
    requires Registered(t)
    ensures
      var r := ApplyAll(t, ws);
      UsageGate(r, Sms, now, counted, rowLimit).Allowed? || ReminderGate(r, Sms, now) ==>
        r.status == ACTIVE || (r.trialActive && r.trialEnd.Some? && now <= r.trialEnd.value)
  {
    ReachableIsConsistent(t, ws);
    UsageAndReminderAgree(ApplyAll(t, ws), now, counted, rowLimit);
  }

  /** The campaign worker gives no such guarantee: on reachable states it allows a text message outside both conditions
      exactly while an ended trial has not been closed by the hourly job and has messages left. */
  lemma CampaignOutsideExactlyWhen(t: Tenant, ws: seq<Write>, now: int)
    requires Registered(t)
    ensures
      var r := ApplyAll(t, ws);
      var entitled := r.status == ACTIVE || (r.trialActive && r.trialEnd.Some? && now <= r.trialEnd.value);
      (CampaignGate(r, Sms) && !entitled) <==> (r.trialActive && TrialOver(r, now) && r.sms < r.smsTrialLimit)
  {
    ReachableIsConsistent(t, ws);
  }

  predicate Expired(t: Tenant, now: int) {
    t.trialActive && t.trialEnd.Some? && t.trialEnd.value <= now && t.status == TRIALING
  }

  /** Registration alone opens nothing: no gate lets a new tenant use anything, at any time, until a payment or a
      card. */
  lemma RegisteredIsRefused(t: Tenant, f: Feature, now: int, counted: nat, rowLimit: int)
    requires Registered(t)
    ensures !UsageGate(t, f, now, counted, rowLimit).Allowed? && !ReminderGate(t, f, now) && !CampaignGate(t, f)
    ensures !Expired(t, now)
  {
  }

  // ---------- What a payment buys ----------

  /** A trial lasts its number of days to the millisecond, and as long as there are texts left; the card that started it
      is kept, or else the one known before. */
  lemma TrialLasts(t: Tenant, now: int, days: nat, customer: Option<string>, later: int, counted: nat, rowLimit: int)
    ensures
      var r := Apply(t, ActivateTrial(now, days, customer));
      && (UsageGate(r, Sms, later, counted, rowLimit).Allowed? <==>
            later <= now + days * 86_400_000 && t.sms < t.smsTrialLimit)
      && (Expired(r, later) <==> now + days * 86_400_000 <= later)
      && r.trialStart == now && r.customer == (if customer.Some? then customer else t.customer)
      && r.limits == Limits(100, 3, 50, 5, 0) && r.plan == t.plan
  {
  }

  /** A verified payment opens a trial of fourteen days in the same way. */
  lemma VerifiedTrialLasts(t: Tenant, now: int, later: int, counted: nat, rowLimit: int)
    ensures
      var r := Apply(t, VerifyPayment(now));
      && (UsageGate(r, Sms, later, counted, rowLimit).Allowed? <==>
            later <= now + 14 * 86_400_000 && t.sms < t.smsTrialLimit)
      && (Expired(r, later) <==> now + 14 * 86_400_000 <= later)
      && r.trialStart == now && r.customer == t.customer && r.limits == t.limits && r.plan == t.plan
  {
  }

  /** A subscription opens the features of its plan, up to its allowances, counted from zero, whatever was used before;
      it needs no date to last. */
  lemma SubscriptionGives(t: Tenant, now: int, plan: Plan, r: Tenant, later: int, counted: nat, rowLimit: int)
    requires Terms(r) == Terms(Apply(t, ActivateSubscription(now, plan)))
    ensures
      var start := Apply(t, ActivateSubscription(now, plan));
      && start.sms == start.voice == start.ai == start.whatsapp == 0 && start.renewal == Some(now + 30 * 86_400_000)
      && start.customer == t.customer
      && start.limits == match plan
                         case SmsPlan => Limits(1000, 10, 500, 0, 500)
                         case VoicePlan => Limits(5000, 25, 2000, 0, 2000)
                         case AiPlan => Limits(20000, 100, 10000, 500, 10000)
    ensures UsageGate(r, Sms, later, counted, rowLimit).Allowed?
       <==> r.sms < match plan case SmsPlan => 2000 case VoicePlan => 10000 case AiPlan => 50000
    ensures UsageGate(r, Voice, later, counted, rowLimit).Allowed? <==> plan != SmsPlan
    ensures UsageGate(r, WhatsApp, later, counted, rowLimit).Allowed?
       <==> r.whatsapp < match plan case SmsPlan => 0 case VoicePlan => 2000 case AiPlan => 10000
    ensures UsageGate(r, Ai, later, counted, rowLimit).Allowed? <==> plan == AiPlan && r.ai < 500
  {
    assert r.trialActive == Terms(r).trialActive && r.status == Terms(r).status && r.plan == Terms(r).plan;
    assert r.limits == Terms(r).limits;
  }

  /** A cancelled or overdue subscription is refused everything, by every gate; a trial that runs at that moment goes
      on. */
  lemma LapsedIsRefused(t: Tenant, w: Write, f: Feature, now: int, counted: nat, rowLimit: int)
    requires w in {CancelSubscription, PaymentFailed}
    ensures
      var r := Apply(t, w);
      && r.status == (if w == PaymentFailed then PAST_DUE else CANCELLED) && r.(status := t.status) == t
      && (!t.trialActive ==>
            !UsageGate(r, f, now, counted, rowLimit).Allowed? && !ReminderGate(r, f, now) && !CampaignGate(r, f))
      && (t.trialActive && t.status == TRIALING ==>
            UsageGate(r, f, now, counted, rowLimit) == UsageGate(t, f, now, counted, rowLimit))
  {
  }

  // ---------- The hourly job ----------

  function Closing(t: Tenant): Write {
    if t.customer.None? then ExpireWithoutCard else ExpireAwaitingCharge
  }

  function Closed(t: Tenant, now: int): Tenant {
    if Expired(t, now) then Apply(t, Closing(t)) else t
  }

  /** After the hourly job no gate lets a tenant text on an ended trial unless its status moved on before the job saw
      it: the job looks for TRIALING only, so an ended trial that is past due or cancelled stays open to the campaign
      gate. */
  lemma ClosedTrialsExactlyWhen(t: Tenant, ws: seq<Write>, now: int)
    requires Registered(t)
    ensures
      var before, after := ApplyAll(t, ws), Closed(ApplyAll(t, ws), now);
      (after.trialActive && after.trialEnd.Some? && after.trialEnd.value <= now) <==>
      (before.trialActive && before.trialEnd.Some? && before.trialEnd.value <= now &&
       before.status in {PAST_DUE, CANCELLED})
    ensures
      var r := Closed(ApplyAll(t, ws), now);
      Closed(r, now) == r && Consistent(r)
  {
    ReachableIsConsistent(t, ws);
    var r := ApplyAll(t, ws);
    assert r.trialActive ==> r.status in {TRIALING, PAST_DUE, CANCELLED};
  }

  /** The row after the job's write, when the writes `between` came after the job had read the row. */
  function ClosedLate(read: Tenant, between: seq<Write>): Tenant {
    Apply(ApplyAll(read, between), Closing(read))
  }

  /** A lost update: the tenant pays between the job's read and its write. A paying tenant stays one exactly when the
      row that was read had a card on file; otherwise it is expired, and no later run of the job changes that row
      again. */
  lemma StaleCronExpiresPayingTenant(read: Tenant, now: int, between: seq<Write>, later: int)
    requires Expired(read, now)
    ensures
      var current, after := ApplyAll(read, between), ClosedLate(read, between);
      && (current.status == ACTIVE ==>
            (after.status == ACTIVE <==> read.customer.Some?) && (read.customer.None? ==> after.status == EXPIRED))
      && Closed(after, later) == after
  {
    assert !ClosedLate(read, between).trialActive;
  }

  /** A tenant that may text when the late write comes may still text after it exactly when a card was on file at the
      read and the row is ACTIVE by then: a trial that was restarted meanwhile is cut short in either case. */
  lemma LateClosingKeepsAccessIff(read: Tenant, now: int, between: seq<Write>, later: int, counted: nat, rowLimit: int)
    requires Expired(read, now) && Consistent(read)
    requires UsageGate(ApplyAll(read, between), Sms, later, counted, rowLimit).Allowed?
    ensures UsageGate(ClosedLate(read, between), Sms, later, counted, rowLimit).Allowed?
       <==> read.customer.Some? && ApplyAll(read, between).status == ACTIVE
  {
    WritesKeepConsistent(read, between);
  }

  // ---------- The service ----------

  class BillingService {
    var tenants: map<nat, Tenant>

    constructor (tenants: map<nat, Tenant>)
      ensures this.tenants == tenants
    {
      this.tenants := tenants;
    }

    /** `prisma.tenant.update`: throws for an unknown id. */
    method Update(id: nat, w: Write) returns (ok: bool)
      modifies this
      ensures ok <==> id in old(tenants)
      ensures tenants == if ok then old(tenants)[id := Apply(old(tenants)[id], w)] else old(tenants)
    {
      ok := id in tenants;
      if ok {
        tenants := tenants[id := Apply(tenants[id], w)];
      }
    }

    /** The hourly loop. `failing` are the tenants whose update throws: the loop logs them and goes on. */
    method ProcessExpiredTrials(now: int, failing: set<nat>) returns (closed: set<nat>)
      modifies this
      ensures tenants.Keys == old(tenants).Keys
      ensures forall id :: id in tenants ==>
        tenants[id] == if id in failing then old(tenants)[id] else Closed(old(tenants)[id], now)
      ensures closed == set id | id in old(tenants) && Expired(old(tenants)[id], now) && id !in failing
    {
      ghost var before := tenants;
      var found := set id | id in tenants && Expired(tenants[id], now);
      var todo := found;
      closed := {};
      while todo != {}
        invariant todo <= found && tenants.Keys == before.Keys
        invariant closed == found - todo - failing
        invariant forall id :: id in tenants ==>
          tenants[id] == if id in closed then Closed(before[id], now) else before[id]
        decreases todo
      {
        var id :| id in todo;
        todo := todo - {id};
        if id !in failing {
          var ok := Update(id, Closing(tenants[id]));
          closed := closed + {id};
        }
      }
    }
  }
}
