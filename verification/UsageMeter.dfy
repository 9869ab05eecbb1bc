/** Check first, send and count later: the usage counter under many jobs that interleave.

    Three writers pass a gate on the counter they read and increment it in later statements, without a transaction:
    the usage service (one send), a reminder job (one send for each recipient it finds after its check) and a campaign
    job (one send). A job is the number of sends it may still make. */
module UsageMeter {
  import opened Options
  import opened PlanGates
  import opened Arithmetic

  datatype Writer = Api | Reminder | Campaign

  datatype State = State(tenant: Tenant, now: int, jobs: seq<nat>)

  datatype Step =
    | Check(writer: Writer, sends: nat)  // a job reads the tenant and, if the gate lets it, goes on
    | Count(job: nat)                    // a send succeeded: increment
    | Drop(job: nat)                     // a send failed or a recipient has no address
    | Abandon(job: nat)                  // the job ends early: blocked later on, crashed, or thrown out
    | Tick(seconds: nat)
    | MonthlyReset

  predicate Gate(w: Writer, t: Tenant, now: int) {
    match w
    case Api => UsageGate(t, Sms, now, 0, 0).Allowed?
    case Reminder => ReminderGate(t, Sms, now)
    case Campaign => CampaignGate(t, Sms)
  }

  predicate Enabled(s: State, step: Step) {
    match step
    case Check(w, sends) => w != Reminder ==> sends == 1
    case Count(j) => j < |s.jobs| && s.jobs[j] > 0
    case Drop(j) => j < |s.jobs| && s.jobs[j] > 0
    case Abandon(j) => j < |s.jobs|
    case Tick(_) => true
    case MonthlyReset => true
  }

  function Next(s: State, step: Step): State
    requires Enabled(s, step)
  {
    match step
    case Check(w, sends) => if Gate(w, s.tenant, s.now) then s.(jobs := s.jobs + [sends]) else s
    case Count(j) => s.(jobs := s.jobs[j := s.jobs[j] - 1], tenant := CountUse(s.tenant, Sms))
    case Drop(j) => s.(jobs := s.jobs[j := s.jobs[j] - 1])
    case Abandon(j) => s.(jobs := s.jobs[j := 0])
    case Tick(d) => s.(now := s.now + d)
    case MonthlyReset => s.(tenant := ResetMonth(s.tenant))
  }

  /** The states a run goes through, the first one included. */
  ghost predicate IsRun(states: seq<State>, run: seq<Step>) {
    && |states| == |run| + 1
    && forall i :: 0 <= i < |run| ==> Enabled(states[i], run[i]) && states[i + 1] == Next(states[i], run[i])
  }

  function Outstanding(jobs: seq<nat>): nat {
    if jobs == [] then 0 else Outstanding(jobs[..|jobs| - 1]) + jobs[|jobs| - 1]
  }

  /** W: the most sends that were outstanding at one time. */
  function Peak(states: seq<State>): nat {
    if states == [] then 0 else
      var before, last := Peak(states[..|states| - 1]), Outstanding(states[|states| - 1].jobs);
      if before < last then last else before
  }

  /** Every writer of the run is held to the cap: all three are during a trial, campaigns are not afterwards. */
  predicate Metered(t: Tenant, run: seq<Step>) {
    t.trialActive || forall i :: 0 <= i < |run| && run[i].Check? ==> run[i].writer != Campaign
  }

  lemma {:induction false} OutstandingUpdate(jobs: seq<nat>, j: nat, v: nat)
    requires j < |jobs|
    ensures Outstanding(jobs[j := v]) == Outstanding(jobs) - jobs[j] + v
  {
    var n := |jobs| - 1;
    if j < n {
      OutstandingUpdate(jobs[..n], j, v);
      assert jobs[j := v][..n] == jobs[..n][j := v];
    } else {
      assert jobs[j := v][..n] == jobs[..n];
    }
  }

  /** One step: the sum of what is counted and what is outstanding only grows past the cap at a check, and a check needs
      a counter below the cap. */
  lemma MeterStep(s: State, step: Step, peak: nat)
    requires Enabled(s, step) && Metered(s.tenant, [step])
    requires Outstanding(s.jobs) <= peak && Outstanding(Next(s, step).jobs) <= peak
    requires s.tenant.sms + Outstanding(s.jobs) < SmsCap(s.tenant) + peak
    ensures
      var s' := Next(s, step);
      && s'.tenant.sms + Outstanding(s'.jobs) < SmsCap(s.tenant) + peak
      && s'.tenant == s.tenant.(sms := s'.tenant.sms, ai := s'.tenant.ai)
  {
    match step
    case Check(w, sends) =>
      assert [step][0].Check?;
      UsageAndReminderAgree(s.tenant, s.now, 0, 0);
      if Gate(w, s.tenant, s.now) {
        assert s.tenant.sms < SmsCap(s.tenant);
        assert (s.jobs + [sends])[..|s.jobs|] == s.jobs;
      }
    case Count(j) => OutstandingUpdate(s.jobs, j, s.jobs[j] - 1);
    case Drop(j) => OutstandingUpdate(s.jobs, j, s.jobs[j] - 1);
    case Abandon(j) => OutstandingUpdate(s.jobs, j, 0);
    case Tick(_) =>
    case MonthlyReset =>
  }

  lemma {:induction false} PeakCovers(states: seq<State>, i: nat)
    requires i < |states|
    ensures Outstanding(states[i].jobs) <= Peak(states)
    ensures Peak(states[..i + 1]) <= Peak(states)
  {
    if i < |states| - 1 {
      PeakCovers(states[..|states| - 1], i);
      assert states[..|states| - 1][..i + 1] == states[..i + 1];
    } else {
      assert states[..i + 1] == states;
    }
  }

  /** The counter never exceeds the cap by as much as the peak of outstanding sends, in any interleaving of metered
      writers, with resets and the passing of time anywhere. */
  lemma {:induction false} OvershootBound(states: seq<State>, run: seq<Step>, i: nat)
    requires IsRun(states, run) && Metered(states[0].tenant, run) && i < |states|
    requires states[0].jobs == [] && states[0].tenant.sms < SmsCap(states[0].tenant)
    ensures states[i].tenant.sms + Outstanding(states[i].jobs) < SmsCap(states[0].tenant) + Peak(states)
    ensures states[i].tenant == states[0].tenant.(sms := states[i].tenant.sms, ai := states[i].tenant.ai)
  {
    if i > 0 {
      OvershootBound(states, run, i - 1);
      PeakCovers(states, i - 1);
      PeakCovers(states, i);
      assert states[i - 1 + 1] == Next(states[i - 1], run[i - 1]);
      assert Metered(states[i - 1].tenant, [run[i - 1]]);
      MeterStep(states[i - 1], run[i - 1], Peak(states));
    }
  }

  /** With never more than one send outstanding the cap itself holds. */
  lemma OneAtATimeKeepsTheCap(states: seq<State>, run: seq<Step>)
    requires IsRun(states, run) && Metered(states[0].tenant, run)
    requires states[0].jobs == [] && states[0].tenant.sms < SmsCap(states[0].tenant)
    requires Peak(states) <= 1
    ensures forall i :: 0 <= i < |states| ==> states[i].tenant.sms <= SmsCap(states[0].tenant)
  {
    forall i | 0 <= i < |states| ensures states[i].tenant.sms <= SmsCap(states[0].tenant) {
      OvershootBound(states, run, i);
    }
  }

  /** Nothing holds the steps back: at any time a job may be checked, the clock may go on and the month may end, and a
      job with sends outstanding may count one, drop one or be abandoned. */
  lemma AlwaysPossible(s: State, w: Writer, d: nat, j: nat)
    ensures Enabled(s, Check(w, 1)) && Enabled(s, MonthlyReset)
    ensures Enabled(s, Check(Reminder, d))
    ensures Enabled(s, Tick(d)) && Next(s, Tick(d)) == s.(now := s.now + d)
    ensures j < |s.jobs| ==> Enabled(s, Abandon(j))
    ensures j < |s.jobs| && s.jobs[j] > 0 ==> Enabled(s, Count(j)) && Enabled(s, Drop(j))
  {
  }

  // ---------- Where the sends go ----------

  /** The sends that a step lets start. */
  function Opened(s: State, step: Step): nat {
    match step
    case Check(w, sends) => if Gate(w, s.tenant, s.now) then sends else 0
    case _ => 0
  }

  /** The sends that a step takes off the outstanding ones without counting them. */
  function Lost(s: State, step: Step): nat
    requires Enabled(s, step)
  {
    match step
    case Drop(_) => 1
    case Abandon(j) => s.jobs[j]
    case _ => 0
  }

  ghost function OpenedBy(states: seq<State>, run: seq<Step>, n: nat): nat
    requires IsRun(states, run) && n <= |run|
  {
    if n == 0 then 0 else OpenedBy(states, run, n - 1) + Opened(states[n - 1], run[n - 1])
  }

  ghost function LostBy(states: seq<State>, run: seq<Step>, n: nat): nat
    requires IsRun(states, run) && n <= |run|
  {
    if n == 0 then 0 else LostBy(states, run, n - 1) + Lost(states[n - 1], run[n - 1])
  }

  lemma StepConserves(s: State, step: Step)
    requires Enabled(s, step) && step != MonthlyReset
    ensures
      var s' := Next(s, step);
      s'.tenant.sms + Outstanding(s'.jobs) + Lost(s, step) == s.tenant.sms + Outstanding(s.jobs) + Opened(s, step)
  {
    match step
    case Check(w, sends) => assert (s.jobs + [sends])[..|s.jobs|] == s.jobs;
    case Count(j) => OutstandingUpdate(s.jobs, j, s.jobs[j] - 1);
    case Drop(j) => OutstandingUpdate(s.jobs, j, s.jobs[j] - 1);
    case Abandon(j) => OutstandingUpdate(s.jobs, j, 0);
    case Tick(_) =>
  }

  /** Between two resets every send that was let through is counted, lost or still outstanding, and the counter shows
      exactly the counted ones. */
  lemma {:induction false} SendsAreConserved(states: seq<State>, run: seq<Step>, n: nat)
    requires IsRun(states, run) && n <= |run| && MonthlyReset !in run
    ensures states[n].tenant.sms + Outstanding(states[n].jobs) + LostBy(states, run, n)
         == states[0].tenant.sms + Outstanding(states[0].jobs) + OpenedBy(states, run, n)
  {
    if n > 0 {
      SendsAreConserved(states, run, n - 1);
      assert states[n - 1 + 1] == Next(states[n - 1], run[n - 1]);
      StepConserves(states[n - 1], run[n - 1]);
    }
  }

  // ---------- The bound is attained ----------

  /** A run given by its last state, which is how the runs below are built. */
  ghost predicate Reaches(s: State, s': State, peak: nat) {
    exists states, run :: IsRun(states, run) && states[0] == s && states[|run|] == s' && Peak(states) == peak
  }

  lemma RunExtends(states: seq<State>, run: seq<Step>, step: Step)
    requires IsRun(states, run) && Enabled(states[|run|], step)
    ensures IsRun(states + [Next(states[|run|], step)], run + [step])
  {
  }

  lemma Extend(s: State, s': State, peak: nat, step: Step)
    requires Reaches(s, s', peak) && Enabled(s', step)
    ensures Reaches(s, Next(s', step), Max(peak, Outstanding(Next(s', step).jobs)))
  {
    var states, run :| IsRun(states, run) && states[0] == s && states[|run|] == s' && Peak(states) == peak;
    var states' := states + [Next(s', step)];
    assert states'[..|states'| - 1] == states;
    RunExtends(states, run, step);
  }

  predicate CanSpend(s: State, n: nat) {
    s.jobs != [] && s.jobs[|s.jobs| - 1] >= n
  }

  /** The last job counts n of its sends. */
  function Spent(s: State, n: nat): State
    requires CanSpend(s, n)
    decreases n
  {
    if n == 0 then s else Spent(Next(s, Count(|s.jobs| - 1)), n - 1)
  }

  lemma {:induction false} SpentIs(s: State, n: nat)
    requires CanSpend(s, n)
    ensures
      var j := |s.jobs| - 1;
      Spent(s, n) == s.(tenant := s.tenant.(sms := s.tenant.sms + n), jobs := s.jobs[j := s.jobs[j] - n])
    decreases n
  {
    var j := |s.jobs| - 1;
    if n == 0 {
      assert s.jobs[j := s.jobs[j]] == s.jobs;
    } else {
      SpentIs(Next(s, Count(j)), n - 1);
      assert s.jobs[j := s.jobs[j] - 1][j := s.jobs[j] - n] == s.jobs[j := s.jobs[j] - n];
    }
  }

  lemma OneMoreSpent(s: State, s': State, peak: nat)
    requires Reaches(s, s', peak) && CanSpend(s', 1) && Outstanding(s'.jobs) <= peak
    ensures
      var after := Next(s', Count(|s'.jobs| - 1));
      Reaches(s, after, peak) && Outstanding(after.jobs) <= peak
  {
    var j := |s'.jobs| - 1;
    OutstandingUpdate(s'.jobs, j, s'.jobs[j] - 1);
    assert Max(peak, Outstanding(Next(s', Count(j)).jobs)) == peak;
    Extend(s, s', peak, Count(j));
  }

  /** One job that passed its check may spend what it has outstanding, whatever the counter says by then. */
  lemma {:induction false} Spend(s: State, s': State, peak: nat, n: nat)
    requires Reaches(s, s', peak) && CanSpend(s', n) && Outstanding(s'.jobs) <= peak
    ensures Reaches(s, Spent(s', n), peak)
    decreases n
  {
    if n > 0 {
      OneMoreSpent(s, s', peak);
      Spend(s, Next(s', Count(|s'.jobs| - 1)), peak, n - 1);
    }
  }

  lemma {:induction false} FillAndOvershoot(s: State, s1: State, peak: nat, w: nat)
    requires peak <= 1 && Reaches(s, s1, peak) && Outstanding(s1.jobs) == 0 && w >= 1
    requires s1.tenant.trialActive && !TrialOver(s1.tenant, s1.now)
    requires s1.tenant.sms < s1.tenant.smsTrialLimit
    ensures exists s' :: Reaches(s, s', w) && s'.tenant.sms == s1.tenant.smsTrialLimit - 1 + w
    decreases s1.tenant.smsTrialLimit - s1.tenant.sms
  {
    var last := s1.tenant.sms == s1.tenant.smsTrialLimit - 1;
    var sends := if last then w else 1;
    var step := Check(Reminder, sends);
    Extend(s, s1, peak, step);
    var checked := Next(s1, step);
    assert checked.jobs[..|checked.jobs| - 1] == s1.jobs;
    Spend(s, checked, sends, sends);
    SpentIs(checked, sends);
    OutstandingUpdate(checked.jobs, |s1.jobs|, 0);
    if !last {
      FillAndOvershoot(s, checked.(tenant := checked.tenant.(sms := checked.tenant.sms + 1),
                                   jobs := checked.jobs[|s1.jobs| := 0]), 1, w);
    }
  }

  /** For a live trial below its limit, some run with at most w sends outstanding at a time ends with exactly limit - 1
      + w counted: the counter fills up to one short of the limit, and then a single reminder job with w recipients
      starts. */
  lemma OvershootIsAttained(s: State, w: nat)
    requires s.jobs == [] && s.tenant.trialActive && !TrialOver(s.tenant, s.now) && w >= 1
    requires s.tenant.sms < s.tenant.smsTrialLimit
    ensures exists s' :: Reaches(s, s', w) && s'.tenant.sms == s.tenant.smsTrialLimit - 1 + w
  {
    assert IsRun([s], []) && [s][..0] == [] && Peak([s]) == 0;
    assert Reaches(s, s, 0);
    FillAndOvershoot(s, s, 0, w);
  }

  lemma CampaignStarts(s1: State)
    requires !s1.tenant.trialActive && s1.tenant.status == ACTIVE
    ensures Enabled(s1, Check(Campaign, 1))
    ensures Next(s1, Check(Campaign, 1)) == s1.(jobs := s1.jobs + [1])
    ensures Outstanding(s1.jobs + [1]) == Outstanding(s1.jobs) + 1
  {
    assert (s1.jobs + [1])[..|s1.jobs|] == s1.jobs;
  }

  lemma OneCampaignSend(s: State, s1: State, peak: nat) returns (s2: State)
    requires peak <= 1 && Reaches(s, s1, peak) && Outstanding(s1.jobs) == 0
    requires !s1.tenant.trialActive && s1.tenant.status == ACTIVE
    ensures Reaches(s, s2, 1) && s2.tenant == s1.tenant.(sms := s1.tenant.sms + 1) && Outstanding(s2.jobs) == 0
  {
    CampaignStarts(s1);
    var checked := s1.(jobs := s1.jobs + [1]);
    Extend(s, s1, peak, Check(Campaign, 1));
    Spend(s, checked, 1, 1);
    SpentIs(checked, 1);
    OutstandingUpdate(checked.jobs, |s1.jobs|, 0);
    s2 := Spent(checked, 1);
  }

  /** A paying tenant's campaigns count without bound, one send at a time. */
  lemma {:induction false} CampaignsAreUncapped(s: State, n: nat)
    requires s.jobs == [] && !s.tenant.trialActive && s.tenant.status == ACTIVE
    ensures exists s' :: Reaches(s, s', if n == 0 then 0 else 1) && s'.tenant == s.tenant.(sms := s.tenant.sms + n) &&
                         Outstanding(s'.jobs) == 0
  {
    if n == 0 {
      assert IsRun([s], []) && [s][..0] == [] && Peak([s]) == 0;
      assert Reaches(s, s, 0);
    } else {
      CampaignsAreUncapped(s, n - 1);
      var s1 :| Reaches(s, s1, if n == 1 then 0 else 1) && s1.tenant == s.tenant.(sms := s.tenant.sms + (n - 1)) &&
                Outstanding(s1.jobs) == 0;
      var _ := OneCampaignSend(s, s1, if n == 1 then 0 else 1);
    }
  }

  // ---------- The service ----------

  /** The counter of the feature is one higher, no other counter is, and nothing else about the row has changed. */
  ghost predicate OneMore(t: Tenant, t': Tenant, f: Feature) {
    && Terms(t') == Terms(t)
    && forall g :: Used(t', g) == Used(t, g) + if SameCounter(f, g) then 1 else 0
  }

  lemma CapIsKept(t: Tenant)
    ensures forall t' :: OneMore(t, t', Sms) ==> SmsCap(t') == SmsCap(t) && t'.sms == t.sms + 1
  {
    forall t' | OneMore(t, t', Sms) ensures SmsCap(t') == SmsCap(t) && t'.sms == t.sms + 1 {
      assert SmsCap(Terms(t')) == SmsCap(t') && SmsCap(Terms(t)) == SmsCap(t);
      assert Used(t', Sms) == t.sms + 1;
    }
  }

  /** `validateAndIncrement` run without interruption, on the row the database holds. */
  class UsageService {
    var tenant: Option<Tenant>

    constructor (tenant: Option<Tenant>)
      ensures this.tenant == tenant
    {
      this.tenant := tenant;
    }

    /** Returns None where the source throws; otherwise the remaining allowance after this use. A text message takes two
        steps of the meter: the check, and the count of the one send that the check let through. */
    method ValidateAndIncrement(f: Feature, now: int, counted: nat, rowLimit: int)
      returns (result: Option<Option<int>>)
      modifies this
      ensures result.Some? <==>
        old(tenant).Some? && UsageGate(old(tenant).value, f, now, counted, rowLimit).Allowed?
      ensures result.None? ==> tenant == old(tenant)
      ensures result.Some? ==> tenant.Some? && OneMore(old(tenant).value, tenant.value, f)
      ensures result.Some? && f == Sms ==> result.value == Some(SmsCap(tenant.value) - tenant.value.sms)
      ensures f == Sms && old(tenant).Some? ==>
        var checked := Next(State(old(tenant).value, now, []), Check(Api, 1));
        if result.None? then checked.jobs == []
        else checked.jobs == [1] && State(tenant.value, now, [0]) == Next(checked, Count(0))
    {
      if tenant.None? {
        return None;
      }
      var t := tenant.value;
      var access := SubscriptionAccess(t, f, now);
      if !access.Allowed? {
        return None;
      }
      var limit := FeatureLimits(t, f, counted, rowLimit);
      if !limit.Allowed? {
        return None;
      }
      if f == Sms {
        RemainingSms(t, now, counted, rowLimit);
        CapIsKept(t);
      }
      IncrementUsage(f);
      result := Some(if limit.remaining.Some? && limit.remaining.value != 0
                     then Some(limit.remaining.value - 1) else None);
    }

    /** For a text message this is the meter's count, whichever job it belongs to. */
    method IncrementUsage(f: Feature)
      requires tenant.Some?
      modifies this
      ensures tenant.Some? && OneMore(old(tenant).value, tenant.value, f)
      ensures f == Sms ==>
        forall s: State, j :: s.tenant == old(tenant).value && Enabled(s, Count(j)) ==>
          Next(s, Count(j)).tenant == tenant.value
    {
      var t := tenant.value;
      match f
      case Sms => tenant := Some(t.(sms := t.sms + 1));
      case Voice => tenant := Some(t.(voice := t.voice + 1));
      case WhatsApp => tenant := Some(t.(whatsapp := t.whatsapp + 1));
      case _ => tenant := Some(t.(ai := t.ai + 1));
    }

    /** The reset step of the meter, on whatever jobs are under way. */
    method ResetMonthlyUsage()
      modifies this
      ensures tenant.Some? <==> old(tenant).Some?
      ensures tenant.Some? ==>
        && Terms(tenant.value) == Terms(old(tenant).value)
        && forall s: State :: s.tenant == old(tenant).value ==> Next(s, MonthlyReset).tenant == tenant.value
    {
      if tenant.Some? {
        tenant := Some(tenant.value.(sms := 0, ai := 0));
      }
    }
  }
}
