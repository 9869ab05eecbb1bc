/** Paystack deliveries: a table of processed event ids in front, the charge cases behind. */
module PaystackWebhook {
  import opened Options
  import opened PlanGates
  import opened Billing
  import opened Decimals
  import opened Texts

  datatype Event =
    | ChargeSuccess(email: Option<string>, planCode: Option<string>, customerCode: Option<string>)
    | SubscriptionCreate(email: Option<string>, planCode: Option<string>)
    | SubscriptionEnd(email: Option<string>)
    | InvoiceFailed(email: Option<string>)
    | Other

  /** The handler throws after the event was recorded: before its one write to the tenant row, or after it. */
  datatype Failure = NoFailure | BeforeUpdate | AfterUpdate

  /** `payloadId` is None where the payload's id is missing or falsy. `dbDown`: reading or writing the table of
      processed events throws, and the delivery is processed all the same. */
  datatype Delivery = Delivery(
    payloadId: Option<string>,
    name: string,
    now: nat,
    event: Event,
    dbDown: bool,
    failure: Failure)

  /** The id in the table; a payload without one is given its name and the time of its arrival. */
  function EventId(d: Delivery): string {
    if d.payloadId.Some? then d.payloadId.value else d.name + "-" + Decimal(d.now)
  }

  /** `owners` maps a user's email to the tenant `findFirst` finds, `codes` the Paystack plan codes to plans. */
  datatype Config = Config(owners: map<string, nat>, codes: map<string, Plan>, trialDays: nat)

  datatype Store = Store(tenants: map<nat, Tenant>, processed: set<string>)

  function PlanFor(cfg: Config, code: Option<string>): Plan {
    if code.Some? && code.value in cfg.codes then cfg.codes[code.value] else SmsPlan
  }

  function Owner(cfg: Config, tenants: map<nat, Tenant>, email: Option<string>): Option<nat> {
    if email.Some? && email.value in cfg.owners && cfg.owners[email.value] in tenants
    then Some(cfg.owners[email.value]) else None
  }

  /** The write a charge leads to on the tenant row it read, if any. */
  function ChargeWrite(cfg: Config, t: Tenant, now: int, planCode: Option<string>, customerCode: Option<string>)
    : Option<Write>
  {
    if !t.trialActive && t.status == TRIALING then Some(ActivateTrial(now, cfg.trialDays, customerCode))
    else if planCode.Some? then Some(ActivateSubscription(now, PlanFor(cfg, planCode)))
    else if customerCode.Some? && t.customer.None? then Some(StoreCustomer(customerCode.value))
    else None
  }

  function EmailOf(e: Event): Option<string> {
    match e
    case ChargeSuccess(email, _, _) => email
    case SubscriptionCreate(email, _) => email
    case SubscriptionEnd(email) => email
    case InvoiceFailed(email) => email
    case Other => None
  }

  /** The write an event leads to on its tenant's row, if any. */
  function RowWrite(cfg: Config, t: Tenant, now: int, e: Event): Option<Write> {
    match e
    case ChargeSuccess(_, planCode, customerCode) => ChargeWrite(cfg, t, now, planCode, customerCode)
    case SubscriptionCreate(_, planCode) => Some(ActivateSubscription(now, PlanFor(cfg, planCode)))
    case SubscriptionEnd(_) => Some(CancelSubscription)
    case InvoiceFailed(_) => Some(PaymentFailed)
    case Other => None
  }

  function ApplyOption(t: Tenant, w: Option<Write>): Tenant { if w.Some? then Apply(t, w.value) else t }

  function Route(cfg: Config, tenants: map<nat, Tenant>, d: Delivery): map<nat, Tenant> {
    var owner := Owner(cfg, tenants, EmailOf(d.event));
    if d.failure == BeforeUpdate || owner.None? then tenants else
      var t := tenants[owner.value];
      tenants[owner.value := ApplyOption(t, RowWrite(cfg, t, d.now, d.event))]
  }

  function Handle(cfg: Config, s: Store, d: Delivery): Store {
    if d.dbDown then s.(tenants := Route(cfg, s.tenants, d))
    else if EventId(d) in s.processed then s
    else Store(Route(cfg, s.tenants, d), s.processed + {EventId(d)})
  }

  function HandleAll(cfg: Config, s: Store, ds: seq<Delivery>): Store
    decreases |ds|
  {
    if ds == [] then s else HandleAll(cfg, Handle(cfg, s, ds[0]), ds[1..])
  }

  // ---------- Idempotency ----------

  /** The stream without the deliveries whose id is in `seen` or came earlier. */
  function FirstOccurrences(ds: seq<Delivery>, seen: set<string>): seq<Delivery> {
    if ds == [] then []
    else if EventId(ds[0]) in seen then FirstOccurrences(ds[1..], seen)
    else [ds[0]] + FirstOccurrences(ds[1..], seen + {EventId(ds[0])})
  }

  predicate TableUp(ds: seq<Delivery>) { forall d :: d in ds ==> !d.dbDown }

  /** A stream of deliveries does what its first occurrences do. */
  lemma {:induction false} SameAsDeduplicated(cfg: Config, s: Store, ds: seq<Delivery>)
    requires TableUp(ds)
    ensures HandleAll(cfg, s, ds) == HandleAll(cfg, s, FirstOccurrences(ds, s.processed))
    decreases |ds|
  {
    if ds != [] {
      SameAsDeduplicated(cfg, Handle(cfg, s, ds[0]), ds[1..]);
      if EventId(ds[0]) !in s.processed {
        var rest := FirstOccurrences(ds[1..], s.processed + {EventId(ds[0])});
        assert ([ds[0]] + rest)[1..] == rest;
      }
    }
  }

  lemma {:induction false} HandleAllConcat(cfg: Config, s: Store, a: seq<Delivery>, b: seq<Delivery>)
    ensures HandleAll(cfg, s, a + b) == HandleAll(cfg, HandleAll(cfg, s, a), b)
    decreases |a|
  {
    if a == [] {
      assert a + b == b;
    } else {
      assert (a + b)[1..] == a[1..] + b;
      HandleAllConcat(cfg, Handle(cfg, s, a[0]), a[1..], b);
    }
  }

  /** What the table remembers: exactly the ids of the deliveries whose check went through. */
  lemma {:induction false} Remembers(cfg: Config, s: Store, ds: seq<Delivery>)
    ensures HandleAll(cfg, s, ds).processed == s.processed + set d | d in ds && !d.dbDown :: EventId(d)
    decreases |ds|
  {
    if ds != [] {
      Remembers(cfg, Handle(cfg, s, ds[0]), ds[1..]);
      assert ds == [ds[0]] + ds[1..];
    }
  }

  /** Anywhere in a stream, with failures around it, a delivery changes nothing if an earlier one with its id was
      recorded and its own check goes through. */
  lemma RedeliveryIsNoOp(cfg: Config, s: Store, before: seq<Delivery>, d: Delivery, after: seq<Delivery>)
    requires !d.dbDown && exists e :: e in before && EventId(e) == EventId(d) && !e.dbDown
    ensures HandleAll(cfg, s, before + [d] + after) == HandleAll(cfg, s, before + after)
  {
    Remembers(cfg, s, before);
    var e :| e in before && EventId(e) == EventId(d) && !e.dbDown;
    assert EventId(e) in HandleAll(cfg, s, before).processed;
    HandleAllConcat(cfg, s, before, [d] + after);
    assert before + [d] + after == before + ([d] + after);
    assert ([d] + after)[1..] == after;
    HandleAllConcat(cfg, s, before, after);
  }

  lemma {:induction false} OnlyDuplicates(cfg: Config, s: Store, ds: seq<Delivery>)
    requires forall d :: d in ds ==> EventId(d) in s.processed && !d.dbDown
    ensures HandleAll(cfg, s, ds) == s
  {
    if ds != [] {
      OnlyDuplicates(cfg, s, ds[1..]);
    }
  }

  /** The price of recording first: an event whose handler fails is never taken up again, however often it is
      redelivered. What its first delivery did stays: nothing where the handler failed before its update, all of it
      where it failed after. */
  lemma {:induction false} FailedEventIsLost(cfg: Config, s: Store, d: Delivery, retries: seq<Delivery>)
    requires d.failure != NoFailure && !d.dbDown && EventId(d) !in s.processed
    requires forall r :: r in retries ==> EventId(r) == EventId(d) && !r.dbDown
    ensures
      var after := HandleAll(cfg, s, [d] + retries).tenants;
      if d.failure == BeforeUpdate then after == s.tenants else after == Route(cfg, s.tenants, d.(failure := NoFailure))
  {
    var s1 := Handle(cfg, s, d);
    assert ([d] + retries)[1..] == retries;
    OnlyDuplicates(cfg, s1, retries);
  }

  /** Without an id in the payload two deliveries share a table entry exactly when they have one name and arrive in the
      same millisecond. */
  lemma FallbackIdsCollideIff(d: Delivery, e: Delivery)
    requires d.payloadId.None? && e.payloadId.None?
    ensures EventId(d) == EventId(e) <==> d.name == e.name && d.now == e.now
  {
    if EventId(d) == EventId(e) {
      DecimalRoundTrip(d.now);
      DecimalRoundTrip(e.now);
      NoOccurrence(Decimal(d.now), '-');
      NoOccurrence(Decimal(e.now), '-');
      SplitAtSeparator(d.name, Decimal(d.now), e.name, Decimal(e.now), '-');
    }
  }

  /** So such an event that is delivered again is routed again, unless it comes in the same millisecond. */
  lemma NamelessRedeliveryIsRoutedIff(cfg: Config, s: Store, d: Delivery, later: nat)
    requires d.payloadId.None? && !d.dbDown && EventId(d) !in s.processed && EventId(d.(now := later)) !in s.processed
    ensures
      var once, again := Handle(cfg, s, d), d.(now := later);
      && (later == d.now ==> Handle(cfg, once, again) == once)
      && (later != d.now ==> Handle(cfg, once, again).tenants == Route(cfg, once.tenants, again))
  {
    FallbackIdsCollideIff(d, d.(now := later));
  }

  // ---------- Duplicates that pass the table ----------

  /** The first charge of a tenant that is trialing without a running trial, with a plan attached. */
  predicate FirstChargeWithPlan(cfg: Config, tenants: map<nat, Tenant>, d: Delivery) {
    && d.event.ChargeSuccess? && d.event.planCode.Some?
    && var owner := Owner(cfg, tenants, d.event.email);
       owner.Some? && !tenants[owner.value].trialActive && tenants[owner.value].status == TRIALING
  }

  /** Routing one delivery twice does what routing it once does, unless it is such a charge. */
  lemma SecondRoutingIsNoOpIff(cfg: Config, tenants: map<nat, Tenant>, d: Delivery)
    requires d.failure != BeforeUpdate
    ensures Route(cfg, Route(cfg, tenants, d), d) == Route(cfg, tenants, d) <==> !FirstChargeWithPlan(cfg, tenants, d)
  {
    var once := Route(cfg, tenants, d);
    var owner := Owner(cfg, tenants, EmailOf(d.event));
    if owner.Some? {
      assert Owner(cfg, once, EmailOf(d.event)) == owner;
      if FirstChargeWithPlan(cfg, tenants, d) {
        assert Route(cfg, once, d)[owner.value].status != once[owner.value].status;
      } else {
        assert Route(cfg, once, d)[owner.value] == once[owner.value];
      }
    }
  }

  /** What goes wrong then: one payment both starts the trial and ends it with a subscription. */
  lemma ConcurrentDuplicateChargesTwice(cfg: Config, s: Store, d: Delivery, id: nat)
    requires !d.dbDown && d.failure == NoFailure && FirstChargeWithPlan(cfg, s.tenants, d) && EventId(d) !in s.processed
    requires Owner(cfg, s.tenants, d.event.email) == Some(id)
    ensures
      var once := Handle(cfg, s, d);
      var twice, raced := Handle(cfg, once, d), Handle(cfg, once, d.(dbDown := true));
      && id in twice.tenants && twice.tenants[id].status == TRIALING && twice.tenants[id].trialActive
      && id in raced.tenants && raced.tenants[id].status == ACTIVE && !raced.tenants[id].trialActive
  {
  }

  // ---------- What a stream can do to a tenant ----------

  predicate AllConsistent(tenants: map<nat, Tenant>) { forall id :: id in tenants ==> Consistent(tenants[id]) }

  /** No stream, duplicates and failures included, leaves the consistent states, and none adds or removes a tenant. */
  lemma {:induction false} StreamKeepsConsistent(cfg: Config, s: Store, ds: seq<Delivery>)
    requires AllConsistent(s.tenants)
    ensures AllConsistent(HandleAll(cfg, s, ds).tenants)
    ensures HandleAll(cfg, s, ds).tenants.Keys == s.tenants.Keys
    decreases |ds|
  {
    if ds != [] {
      StreamKeepsConsistent(cfg, Handle(cfg, s, ds[0]), ds[1..]);
    }
  }

  /** A charge with a plan starts a trial instead of the subscription exactly when the tenant is trialing without a
      running trial. That is also the state the hourly job leaves an ended trial in when a card is on file, so such a
      tenant's next charge starts another trial, and so on for ever. */
  lemma ChargeStartsTrialExactlyWhen(cfg: Config, t: Tenant, now: int, code: string, customer: Option<string>)
    ensures ChargeWrite(cfg, t, now, Some(code), customer).Some?
    ensures ChargeWrite(cfg, t, now, Some(code), customer).value.ActivateTrial?
       <==> !t.trialActive && t.status == TRIALING
    ensures Expired(t, now) && t.customer.Some? ==>
      var again := Apply(Closed(t, now), ChargeWrite(cfg, Closed(t, now), now, Some(code), customer).value);
      again.trialActive && again.trialStart == now && Expired(again, now + cfg.trialDays * DAY) && again.customer.Some?
  {
  }

  // ---------- What each event leaves ----------

  /** The terms of a row without those that a payment sets. */
  predicate SameButCard(a: Tenant, b: Tenant) { a.(customer := b.customer) == b }

  predicate GivesPlan(cfg: Config, r: Tenant, code: Option<string>) {
    && r.status == ACTIVE && !r.trialActive && r.sms == 0
    && (code.Some? && code.value in cfg.codes ==> r.plan == cfg.codes[code.value])
    && (!(code.Some? && code.value in cfg.codes) ==> r.plan == SmsPlan)
  }

  /** What an event leaves on its tenant's row, and that it leaves every other row alone: the plan that was paid for is
      the plan that is given, an unknown code gives the smallest one, a first card starts a trial and is kept, and a
      later card is kept if there was none. */
  lemma EventOutcome(cfg: Config, tenants: map<nat, Tenant>, d: Delivery, id: nat)
    requires d.failure != BeforeUpdate && Owner(cfg, tenants, EmailOf(d.event)) == Some(id)
    ensures
      var after := Route(cfg, tenants, d);
      var t, r := tenants[id], after[id];
      var first := !t.trialActive && t.status == TRIALING;
      && after.Keys == tenants.Keys
      && (forall other :: other in tenants && other != id ==> after[other] == tenants[other])
      && match d.event
         case SubscriptionEnd(_) => r.status == CANCELLED && r.(status := t.status) == t
         case InvoiceFailed(_) => r.status == PAST_DUE && r.(status := t.status) == t
         case SubscriptionCreate(_, code) => GivesPlan(cfg, r, code)
         case ChargeSuccess(_, code, card) =>
           if first then
             && r.status == TRIALING && r.trialActive && r.trialStart == d.now
             && r.trialEnd == Some(d.now + cfg.trialDays * 86_400_000)
             && r.customer == (if card.Some? then card else t.customer) && r.plan == t.plan && r.sms == t.sms
           else if code.Some? then GivesPlan(cfg, r, code)
           else SameButCard(r, t) && r.customer == (if t.customer.Some? then t.customer else card)
         case Other => r == t
  {
  }

  /** An event of an unknown or missing email changes nothing. */
  lemma StrangersChangeNothing(cfg: Config, tenants: map<nat, Tenant>, d: Delivery)
    requires
      var email := EmailOf(d.event);
      email.None? || email.value !in cfg.owners || cfg.owners[email.value] !in tenants
    ensures Route(cfg, tenants, d) == tenants
  {
  }

  // ---------- The controller ----------

  class Controller {
    const cfg: Config
    const billing: BillingService
    var processed: set<string>

    ghost function View(): Store
      reads this, billing
    {
      Store(billing.tenants, processed)
    }

    constructor (cfg: Config, billing: BillingService)
      ensures this.cfg == cfg && this.billing == billing && processed == {}
    {
      this.cfg, this.billing, processed := cfg, billing, {};
    }

    method HandleWebhook(d: Delivery)
      modifies this, billing
      ensures View() == Handle(cfg, old(View()), d)
    {
      if !d.dbDown {
        if EventId(d) in processed {
          return;
        }
        processed := processed + {EventId(d)};
      }
      if d.failure == BeforeUpdate {
        return;
      }
      match d.event
      case ChargeSuccess(email, planCode, customerCode) =>
        HandleChargeSuccess(d.now, email, planCode, customerCode);
      case SubscriptionCreate(email, planCode) =>
        var owner := Owner(cfg, billing.tenants, email);
        if owner.Some? {
          var ok := billing.Update(owner.value, ActivateSubscription(d.now, PlanFor(cfg, planCode)));
        }
      case SubscriptionEnd(email) =>
        var owner := Owner(cfg, billing.tenants, email);
        if owner.Some? {
          var ok := billing.Update(owner.value, CancelSubscription);
        }
      case InvoiceFailed(email) =>
        var owner := Owner(cfg, billing.tenants, email);
        if owner.Some? {
          var ok := billing.Update(owner.value, PaymentFailed);
        }
      case Other =>
    }

    method HandleChargeSuccess(now: nat, email: Option<string>, planCode: Option<string>, customerCode: Option<string>)
      modifies billing
      ensures
        var e := ChargeSuccess(email, planCode, customerCode);
        billing.tenants == Route(cfg, old(billing.tenants), Delivery(None, "", now, e, false, NoFailure))
    {
      var owner := Owner(cfg, billing.tenants, email);
      if owner.None? {
        return;
      }
      var t := billing.tenants[owner.value];
      if !t.trialActive && t.status == TRIALING {
        var ok := billing.Update(owner.value, ActivateTrial(now, cfg.trialDays, customerCode));
        return;
      }
      if planCode.Some? {
        var ok := billing.Update(owner.value, ActivateSubscription(now, PlanFor(cfg, planCode)));
      } else if customerCode.Some? && t.customer.None? {
        var ok := billing.Update(owner.value, StoreCustomer(customerCode.value));
      }
    }
  }
}
