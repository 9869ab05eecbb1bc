/** The tenant row and the three gates that read it before a message goes out: the usage service, the reminder
    worker and the campaign worker decide separately, each with its own code. */
module PlanGates {
  import opened Options

  datatype Status = TRIALING | ACTIVE | PAST_DUE | CANCELLED | EXPIRED

  datatype Plan = SmsPlan | VoicePlan | AiPlan  // SMS, SMS_VOICE, SMS_VOICE_AI

  datatype Limits = Limits(contacts: nat, workflows: nat, events: nat, aiMonthly: nat, whatsappMonthly: nat)

  datatype Tenant = Tenant(
    status: Status,
    plan: Plan,
    trialActive: bool,
    trialStart: int,
    trialEnd: Option<int>,
    renewal: Option<int>,
    customer: Option<string>,
    sms: nat,
    voice: nat,
    whatsapp: nat,
    ai: nat,
    smsTrialLimit: int,
    aiTrialLimit: int,
    limits: Limits)

  // ---------- Plan limits ----------

  datatype Tier = Trial | Paid(plan: Plan)

  function LimitsFor(tier: Tier): Limits {
    match tier
    case Trial => Limits(100, 3, 50, 5, 0)
    case Paid(SmsPlan) => Limits(1000, 10, 500, 0, 500)
    case Paid(VoicePlan) => Limits(5000, 25, 2000, 0, 2000)
    case Paid(AiPlan) => Limits(20000, 100, 10000, 500, 10000)
  }

  function SmsMonthlyLimit(plan: Plan): nat {
    match plan
    case SmsPlan => 2000
    case VoicePlan => 10000
    case AiPlan => 50000
  }

  function CampaignAudienceLimit(tier: Tier): nat {
    match tier
    case Trial => 50
    case Paid(SmsPlan) => 500
    case Paid(VoicePlan) => 2000
    case Paid(AiPlan) => 10000
  }

  // ---------- Counters ----------

  datatype Feature = Sms | Voice | Ai | WhatsApp | ContactCount | EventCount | WorkflowCount

  /** The counter that a use of a feature goes to. */
  function Used(t: Tenant, f: Feature): nat {
    match f
    case Sms => t.sms
    case Voice => t.voice
    case WhatsApp => t.whatsapp
    case _ => t.ai
  }

  function CountUse(t: Tenant, f: Feature): Tenant {
    match f
    case Sms => t.(sms := t.sms + 1)
    case Voice => t.(voice := t.voice + 1)
    case WhatsApp => t.(whatsapp := t.whatsapp + 1)
    case _ => t.(ai := t.ai + 1)
  }

  /** The row without its counters. */
  function Terms(t: Tenant): Tenant { t.(sms := 0, voice := 0, whatsapp := 0, ai := 0) }

  /** Two features share a counter. */
  predicate SameCounter(f: Feature, g: Feature) {
    f == g || (f !in {Sms, Voice, WhatsApp} && g !in {Sms, Voice, WhatsApp})
  }

  function ResetMonth(t: Tenant): Tenant { t.(sms := 0, ai := 0) }

  /** The cap that applies to a tenant's text messages. */
  function SmsCap(t: Tenant): int {
    if t.trialActive then t.smsTrialLimit else SmsMonthlyLimit(t.plan)
  }

  /** A use of a feature adds one to its counter, which it shares with no other of texts, calls and WhatsApp, and
      changes nothing else. */
  lemma CountUseIsOne(t: Tenant, f: Feature, g: Feature)
    ensures Terms(CountUse(t, f)) == Terms(t)
    ensures Used(CountUse(t, f), g) == Used(t, g) + if SameCounter(f, g) then 1 else 0
    ensures f in {Sms, Voice, WhatsApp} && g in {Sms, Voice, WhatsApp, Ai} ==> (SameCounter(f, g) <==> f == g)
    ensures f !in {Sms, Voice, WhatsApp} ==> (SameCounter(f, g) <==> g !in {Sms, Voice, WhatsApp})
  {
  }

  // ---------- The usage service ----------

  datatype Access =
    | Allowed(remaining: Option<int>)
    | TrialExpired
    | NotInTrial
    | NoSubscription
    | PlanLacks
    | UnknownFeature
    | LimitReached(limit: int)

  predicate TrialOver(t: Tenant, now: int) {
    t.trialEnd.Some? && now > t.trialEnd.value
  }

  function PlanAccess(t: Tenant, f: Feature): Access {
    match f
    case Sms => Allowed(None)
    case Voice => if t.plan == SmsPlan then PlanLacks else Allowed(None)
    case WhatsApp => if t.plan == SmsPlan then PlanLacks else Allowed(None)
    case Ai => if t.plan != AiPlan then PlanLacks else Allowed(None)
    case _ => UnknownFeature
  }

  function SubscriptionAccess(t: Tenant, f: Feature, now: int): Access {
    if t.trialActive then
      if TrialOver(t, now) && t.status != ACTIVE then TrialExpired
      else if f == Voice || f == WhatsApp then NotInTrial
      else Allowed(None)
    else if t.status != ACTIVE then NoSubscription
    else PlanAccess(t, f)
  }

  function Under(used: nat, limit: int): Access {
    if used >= limit then LimitReached(limit) else Allowed(Some(limit - used))
  }

  /** `counted` is how many rows of the counted kind the tenant has, `rowLimit` the tenant's cap for that kind. */
  function FeatureLimits(t: Tenant, f: Feature, counted: nat, rowLimit: int): Access {
    if t.trialActive || t.status == TRIALING then
      match f
      case Sms => Under(t.sms, t.smsTrialLimit)
      case Ai => Under(t.ai, t.aiTrialLimit)
      case _ => Allowed(None)
    else
      match f
      case Ai => Under(t.ai, t.limits.aiMonthly)
      case WhatsApp => Under(t.whatsapp, t.limits.whatsappMonthly)
      case Sms => Under(t.sms, SmsMonthlyLimit(t.plan))
      case Voice => Allowed(None)
      case _ => Under(counted, rowLimit)
  }

  function UsageGate(t: Tenant, f: Feature, now: int, counted: nat, rowLimit: int): Access {
    var access := SubscriptionAccess(t, f, now);
    if !access.Allowed? then access else FeatureLimits(t, f, counted, rowLimit)
  }

  // ---------- The workers ----------

  function ReminderGate(t: Tenant, f: Feature, now: int): bool {
    if t.trialActive then
      if TrialOver(t, now) && t.status != ACTIVE then false
      else if f == Voice then false
      else if f == Sms && t.sms >= t.smsTrialLimit then false
      else !(f == Ai && t.ai >= t.aiTrialLimit)
    else if t.status != ACTIVE then false
    else if f == Voice && t.plan == SmsPlan then false
    else !(f == Sms && t.sms >= SmsMonthlyLimit(t.plan))
  }

  function CampaignGate(t: Tenant, f: Feature): bool {
    if !t.trialActive && t.status != ACTIVE then false
    else if f == Voice && t.plan == SmsPlan then false
    else !(t.trialActive && f == Sms && t.sms >= t.smsTrialLimit)
  }

  // ---------- What the gates agree on ----------

  /** For text messages and calls the usage service and the reminder worker decide alike on every tenant. */
  lemma UsageAndReminderAgree(t: Tenant, now: int, counted: nat, rowLimit: int)
    ensures UsageGate(t, Sms, now, counted, rowLimit).Allowed? <==> ReminderGate(t, Sms, now)
    ensures UsageGate(t, Voice, now, counted, rowLimit).Allowed? <==> ReminderGate(t, Voice, now)
    ensures UsageGate(t, Sms, now, counted, rowLimit).Allowed? ==> CampaignGate(t, Sms)
  {
    assert SmsMonthlyLimit(t.plan) > 0;
  }

  /** The campaign worker lets a text message through that the usage service refuses in exactly two situations: a
      trial whose end date has passed, and a paying tenant whose monthly cap is spent. */
  lemma CampaignIsLaxerExactlyWhen(t: Tenant, now: int, counted: nat, rowLimit: int)
    ensures CampaignGate(t, Sms) && !UsageGate(t, Sms, now, counted, rowLimit).Allowed?
       <==> || (t.trialActive && t.sms < t.smsTrialLimit && TrialOver(t, now) && t.status != ACTIVE)
            || (!t.trialActive && t.status == ACTIVE && t.sms >= SmsMonthlyLimit(t.plan))
  {
    assert SubscriptionAccess(t, Sms, now).Allowed? <==>
      (if t.trialActive then !(TrialOver(t, now) && t.status != ACTIVE) else t.status == ACTIVE);
  }

  /** The reminder worker sends WhatsApp where the usage service would not exactly when the tenant is in a live trial,
      or pays for a plan without WhatsApp, or has spent the monthly WhatsApp allowance. */
  lemma ReminderWhatsAppExactlyWhen(t: Tenant, now: int, counted: nat, rowLimit: int)
    ensures ReminderGate(t, WhatsApp, now) && !UsageGate(t, WhatsApp, now, counted, rowLimit).Allowed?
       <==> || (t.trialActive && (!TrialOver(t, now) || t.status == ACTIVE))
            || (!t.trialActive && t.status == ACTIVE &&
                (t.plan == SmsPlan || t.whatsapp >= t.limits.whatsappMonthly))
  {
    assert SubscriptionAccess(t, WhatsApp, now).Allowed? <==>
      !t.trialActive && t.status == ACTIVE && t.plan != SmsPlan;
  }

  /** The row caps for contacts, events and workflows are never consulted: the plan switch in front of them knows none
      of the three, so a subscriber is refused outright and a trial tenant is never counted. */
  lemma RowCapsNeverConsulted(t: Tenant, f: Feature, now: int, counted: nat, rowLimit: int)
    requires f in {ContactCount, EventCount, WorkflowCount}
    ensures UsageGate(t, f, now, counted, rowLimit).Allowed?
       <==> t.trialActive && !(TrialOver(t, now) && t.status != ACTIVE)
    ensures !t.trialActive && t.status == ACTIVE ==> UsageGate(t, f, now, counted, rowLimit) == UnknownFeature
  {
  }

  /** The remaining allowance that an allowed text message reports is what the effective cap leaves. */
  lemma RemainingSms(t: Tenant, now: int, counted: nat, rowLimit: int)
    requires UsageGate(t, Sms, now, counted, rowLimit).Allowed?
    ensures UsageGate(t, Sms, now, counted, rowLimit).remaining == Some(SmsCap(t) - t.sms) && t.sms < SmsCap(t)
  {
  }

  /** The monthly reset opens the text gate again for exactly the tenants whose access stands and whose cap is positive,
      and the AI gate likewise, but it leaves calls and WhatsApp as they were: a subscriber who has spent the monthly
      WhatsApp allowance is refused until a payment clears that counter. */
  lemma MonthlyResetOpens(t: Tenant, now: int, counted: nat, rowLimit: int)
    ensures UsageGate(ResetMonth(t), Sms, now, counted, rowLimit).Allowed?
       <==> SubscriptionAccess(t, Sms, now).Allowed? && SmsCap(t) > 0
    ensures UsageGate(ResetMonth(t), Ai, now, counted, rowLimit).Allowed?
       <==> && SubscriptionAccess(t, Ai, now).Allowed?
            && (if t.trialActive then t.aiTrialLimit else t.limits.aiMonthly) > 0
    ensures forall f :: f in {Voice, WhatsApp} ==>
      UsageGate(ResetMonth(t), f, now, counted, rowLimit) == UsageGate(t, f, now, counted, rowLimit)
  {
    var r := ResetMonth(t);
    assert forall f :: SubscriptionAccess(r, f, now) == SubscriptionAccess(t, f, now);
  }

  // ---------- The gates from the row ----------

  predicate InTrial(t: Tenant, now: int) {
    t.trialActive && (t.status == ACTIVE || (t.trialEnd.Some? ==> now <= t.trialEnd.value))
  }

  predicate Subscribed(t: Tenant) { !t.trialActive && t.status == ACTIVE }

  /** Which uses the usage service allows: two checks in a row, each with its own idea of what a trial is, come to
      this. */
  lemma UsageGateIff(t: Tenant, now: int, counted: nat, rowLimit: int)
    ensures UsageGate(t, Sms, now, counted, rowLimit).Allowed?
       <==> (InTrial(t, now) && t.sms < t.smsTrialLimit) ||
            (Subscribed(t) && t.sms < match t.plan case SmsPlan => 2000 case VoicePlan => 10000 case AiPlan => 50000)
    ensures UsageGate(t, Voice, now, counted, rowLimit).Allowed? <==> Subscribed(t) && t.plan != SmsPlan
    ensures UsageGate(t, WhatsApp, now, counted, rowLimit).Allowed?
       <==> Subscribed(t) && t.plan != SmsPlan && t.whatsapp < t.limits.whatsappMonthly
    ensures UsageGate(t, Ai, now, counted, rowLimit).Allowed?
       <==> (InTrial(t, now) && t.ai < t.aiTrialLimit) ||
            (Subscribed(t) && t.plan == AiPlan && t.ai < t.limits.aiMonthly)
  {
  }

  /** Why a use is refused. */
  lemma RefusalMeans(t: Tenant, f: Feature, now: int, counted: nat, rowLimit: int)
    ensures
      var answer := UsageGate(t, f, now, counted, rowLimit);
      && (answer.TrialExpired? <==> t.trialActive && !InTrial(t, now))
      && (answer.NoSubscription? <==> !t.trialActive && t.status != ACTIVE)
      && (answer.NotInTrial? <==> InTrial(t, now) && f in {Voice, WhatsApp})
      && (answer.PlanLacks? <==>
            Subscribed(t) && ((f in {Voice, WhatsApp} && t.plan == SmsPlan) || (f == Ai && t.plan != AiPlan)))
      && (answer.UnknownFeature? <==> Subscribed(t) && f !in {Sms, Voice, WhatsApp, Ai})
      && (answer.LimitReached? ==> f in {Sms, Ai, WhatsApp} && Used(t, f) >= answer.limit)
  {
  }

  /** What the reminder worker lets through besides texts and calls: there it knows no allowance of a plan. */
  lemma ReminderGateIff(t: Tenant, now: int)
    ensures ReminderGate(t, WhatsApp, now) <==> InTrial(t, now) || Subscribed(t)
    ensures ReminderGate(t, Ai, now) <==> (InTrial(t, now) && t.ai < t.aiTrialLimit) || Subscribed(t)
  {
  }

  /** What the campaign worker lets through on each channel. */
  lemma CampaignGateIff(t: Tenant)
    ensures CampaignGate(t, Sms) <==> (t.trialActive && t.sms < t.smsTrialLimit) || Subscribed(t)
    ensures CampaignGate(t, Voice) <==> (t.trialActive || t.status == ACTIVE) && t.plan != SmsPlan
    ensures CampaignGate(t, WhatsApp) <==> t.trialActive || t.status == ACTIVE
  {
  }

  // ---------- The plans ----------

  predicate NoMore(a: Limits, b: Limits) {
    && a.contacts <= b.contacts && a.workflows <= b.workflows && a.events <= b.events
    && a.aiMonthly <= b.aiMonthly && a.whatsappMonthly <= b.whatsappMonthly
  }

  /** Every paid plan allows at least what the one below it does, in each respect, and strictly more texts, contacts and
      campaign recipients. A trial has less room than any plan, except for AI, of which it has some and the two lower
      plans have none. */
  lemma PlansAscend()
    ensures NoMore(LimitsFor(Paid(SmsPlan)), LimitsFor(Paid(VoicePlan)))
    ensures NoMore(LimitsFor(Paid(VoicePlan)), LimitsFor(Paid(AiPlan)))
    ensures SmsMonthlyLimit(SmsPlan) < SmsMonthlyLimit(VoicePlan) < SmsMonthlyLimit(AiPlan)
    ensures LimitsFor(Trial).contacts < LimitsFor(Paid(SmsPlan)).contacts
         < LimitsFor(Paid(VoicePlan)).contacts < LimitsFor(Paid(AiPlan)).contacts
    ensures CampaignAudienceLimit(Trial) < CampaignAudienceLimit(Paid(SmsPlan))
         < CampaignAudienceLimit(Paid(VoicePlan)) < CampaignAudienceLimit(Paid(AiPlan))
    ensures forall p: Plan :: NoMore(LimitsFor(Trial).(aiMonthly := 0), LimitsFor(Paid(p)))
    ensures forall p: Plan :: LimitsFor(Paid(p)).aiMonthly > LimitsFor(Trial).aiMonthly <==> p == AiPlan
    ensures forall p: Plan :: p != AiPlan ==> LimitsFor(Paid(p)).aiMonthly == 0 < LimitsFor(Trial).aiMonthly
  {
  }
}
