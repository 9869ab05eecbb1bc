/** Several deliveries of one event handled at the same time.

    A handler looks its event up, records it, reads the tenant row and writes to it, and other handlers act in between.
    Clocks differ, so what the handlers leave is compared without its dates. */
module WebhookRaces {
  import opened Options
  import opened PlanGates
  import opened Billing
  import opened PaystackWebhook

  datatype Phase =
    | Arrived
    | Unseen                                     // looked the id up and did not find it
    | Routing                                    // past the table
    | Holding(write: Option<Write>, late: bool)  // read the row and decided; `late`: after another handler's write
    | Written(late: bool)
    | Skipped
    | Died

  datatype State = State(store: Store, phases: seq<Phase>)

  datatype Step =
    | Look(h: nat)
    | Insert(h: nat)     // a unique key violation is swallowed
    | TableDown(h: nat)  // so is any other error of the table
    | Read(h: nat, now: nat)
    | Commit(h: nat)
    | Die(h: nat)

  // ---------- Runs ----------

  predicate Enabled(s: State, step: Step) {
    step.h < |s.phases| &&
    match step
    case Look(h) => s.phases[h].Arrived?
    case Insert(h) => s.phases[h].Unseen?
    case TableDown(h) => s.phases[h].Arrived? || s.phases[h].Unseen?
    case Read(h, _) => s.phases[h].Routing?
    case Commit(h) => s.phases[h].Holding?
    case Die(h) => !s.phases[h].Written? && !s.phases[h].Skipped?
  }

  predicate SomeWritten(phases: seq<Phase>) { exists p :: p in phases && p.Written? }

  predicate SomeWrittenLate(phases: seq<Phase>) { Written(true) in phases }

  /** The row of the event's tenant. */
  function RowOf(cfg: Config, tenants: map<nat, Tenant>, d: Delivery): Option<Tenant> {
    var owner := Owner(cfg, tenants, EmailOf(d.event));
    if owner.Some? then Some(tenants[owner.value]) else None
  }

  function WithRow(cfg: Config, tenants: map<nat, Tenant>, d: Delivery, w: Option<Write>): map<nat, Tenant> {
    var owner := Owner(cfg, tenants, EmailOf(d.event));
    if owner.Some? then tenants[owner.value := ApplyOption(tenants[owner.value], w)] else tenants
  }

  function Decision(cfg: Config, row: Option<Tenant>, now: nat, e: Event): Option<Write> {
    if row.Some? then RowWrite(cfg, row.value, now, e) else None
  }

  function Next(cfg: Config, d: Delivery, s: State, step: Step): State
    requires Enabled(s, step)
  {
    match step
    case Look(h) => s.(phases := s.phases[h := if EventId(d) in s.store.processed then Skipped else Unseen])
    case Insert(h) => State(s.store.(processed := s.store.processed + {EventId(d)}), s.phases[h := Routing])
    case TableDown(h) => s.(phases := s.phases[h := Routing])
    case Read(h, now) =>
      var w := Decision(cfg, RowOf(cfg, s.store.tenants, d), now, d.event);
      s.(phases := s.phases[h := Holding(w, SomeWritten(s.phases))])
    case Commit(h) =>
      State(s.store.(tenants := WithRow(cfg, s.store.tenants, d, s.phases[h].write)),
            s.phases[h := Written(s.phases[h].late)])
    case Die(h) => s.(phases := s.phases[h := Died])
  }

  predicate Possible(cfg: Config, d: Delivery, s: State, run: seq<Step>)
    decreases |run|
  {
    run != [] ==> Enabled(s, run[0]) && Possible(cfg, d, Next(cfg, d, s, run[0]), run[1..])
  }

  function Exec(cfg: Config, d: Delivery, s: State, run: seq<Step>): State
    requires Possible(cfg, d, s, run)
    decreases |run|
  {
    if run == [] then s else Exec(cfg, d, Next(cfg, d, s, run[0]), run[1..])
  }

  function Start(store: Store, n: nat): State { State(store, seq(n, i => Arrived)) }

  /** A handler that is not through may die at any time, the table may fail it at both of its statements, and nothing
      keeps it from its next step. */
  lemma AlwaysPossible(s: State, h: nat, now: nat)
    requires h < |s.phases|
    ensures s.phases[h].Arrived? ==> Enabled(s, Look(h)) && Enabled(s, TableDown(h))
    ensures s.phases[h].Unseen? ==> Enabled(s, Insert(h)) && Enabled(s, TableDown(h))
    ensures s.phases[h].Routing? ==> Enabled(s, Read(h, now))
    ensures s.phases[h].Holding? ==> Enabled(s, Commit(h))
    ensures s.phases[h].Arrived? || s.phases[h].Unseen? || s.phases[h].Routing? || s.phases[h].Holding? ==>
      Enabled(s, Die(h))
  {
  }

  // ---------- Rows without their dates ----------

  function Dateless(t: Tenant): Tenant { t.(trialStart := 0, trialEnd := None, renewal := None) }

  function Undated(w: Option<Write>): Option<Write> {
    match w
    case Some(ActivateTrial(_, days, customer)) => Some(ActivateTrial(0, days, customer))
    case Some(ActivateSubscription(_, plan)) => Some(ActivateSubscription(0, plan))
    case Some(VerifyPayment(_)) => Some(VerifyPayment(0))
    case _ => w
  }

  /** The rows differ in dates at most. */
  predicate Alike(a: map<nat, Tenant>, b: map<nat, Tenant>) {
    a.Keys == b.Keys && forall id :: id in a ==> Dateless(a[id]) == Dateless(b[id])
  }

  lemma DatesDoNotMatter(t: Tenant, t': Tenant, w: Option<Write>, w': Option<Write>)
    requires Dateless(t) == Dateless(t') && Undated(w) == Undated(w')
    ensures Dateless(ApplyOption(t, w)) == Dateless(ApplyOption(t', w'))
  {
  }

  lemma DecisionIgnoresDates(cfg: Config, t: Tenant, t': Tenant, now: nat, now': nat, e: Event)
    requires Dateless(t) == Dateless(t')
    ensures Undated(RowWrite(cfg, t, now, e)) == Undated(RowWrite(cfg, t', now', e))
  {
    assert t.trialActive == Dateless(t).trialActive && t.status == Dateless(t).status;
    assert t.customer == Dateless(t).customer && t'.customer == Dateless(t').customer;
  }

  // ---------- One row ----------

  predicate StartsThenEnds(t: Tenant, e: Event) {
    e.ChargeSuccess? && e.planCode.Some? && !t.trialActive && t.status == TRIALING
  }

  /** Once the event's write has been made, neither a handler that decided before it nor one that decides after it
      changes the row, unless the event is the first charge of a trialing tenant, with a plan. */
  lemma RowSettles(cfg: Config, t: Tenant, now: nat, e: Event)
    requires !StartsThenEnds(t, e)
    ensures
      var once := ApplyOption(t, RowWrite(cfg, t, now, e));
      && Dateless(ApplyOption(once, RowWrite(cfg, t, now, e))) == Dateless(once)
      && Dateless(ApplyOption(once, RowWrite(cfg, once, now, e))) == Dateless(once)
  {
  }

  // ---------- The invariant ----------

  /** The decisions before and after the event has taken effect. */
  function EarlyWrite(cfg: Config, t: Tenant, d: Delivery): Option<Write> { Undated(RowWrite(cfg, t, 0, d.event)) }

  function LateWrite(cfg: Config, t: Tenant, d: Delivery): Option<Write> {
    Undated(RowWrite(cfg, ApplyOption(t, RowWrite(cfg, t, 0, d.event)), 0, d.event))
  }

  /** Nothing has been written yet that depends on another handler's write, or nothing such matters. */
  predicate Calm(t: Tenant, d: Delivery, phases: seq<Phase>) {
    !StartsThenEnds(t, d.event) || !SomeWrittenLate(phases)
  }

  ghost predicate PhaseInv(cfg: Config, t: Tenant, d: Delivery, p: Phase) {
    p.Holding? ==> Undated(p.write) == if p.late then LateWrite(cfg, t, d) else EarlyWrite(cfg, t, d)
  }

  /** The row of the event's owner, given what it was at the start. */
  ghost predicate RowInv(cfg: Config, t: Tenant, d: Delivery, row: Tenant, phases: seq<Phase>) {
    && (!SomeWritten(phases) ==> row == t && forall p :: p in phases && p.Holding? ==> !p.late)
    && (Calm(t, d, phases) && SomeWritten(phases) ==>
          Dateless(row) == Dateless(ApplyOption(t, RowWrite(cfg, t, 0, d.event))))
    && (Calm(t, d, phases) ==> forall p :: p in phases ==> PhaseInv(cfg, t, d, p))
  }

  lemma PhaseUpdate(phases: seq<Phase>, h: nat, p: Phase)
    requires h < |phases|
    ensures forall q :: q in phases[h := p] ==> q == p || q in phases
    ensures p in phases[h := p]
    ensures !phases[h].Written? ==> forall q :: q in phases && q.Written? ==> q in phases[h := p]
  {
    assert phases[h := p][h] == p;
    forall q | q in phases && q.Written? && !phases[h].Written? ensures q in phases[h := p] {
      var i :| 0 <= i < |phases| && phases[i] == q;
      assert phases[h := p][i] == q;
    }
  }

  lemma ReadKeeps(cfg: Config, t: Tenant, d: Delivery, row: Tenant, phases: seq<Phase>, h: nat, now: nat)
    requires RowInv(cfg, t, d, row, phases) && h < |phases| && phases[h].Routing?
    ensures
      var p := Holding(RowWrite(cfg, row, now, d.event), SomeWritten(phases));
      RowInv(cfg, t, d, row, phases[h := p])
  {
    var p := Holding(RowWrite(cfg, row, now, d.event), SomeWritten(phases));
    PhaseUpdate(phases, h, p);
    if Calm(t, d, phases) {
      var seen := if p.late then ApplyOption(t, RowWrite(cfg, t, 0, d.event)) else t;
      DecisionIgnoresDates(cfg, row, seen, now, 0, d.event);
    }
  }

  /** A commit while all is calm: the first one makes the event's write, and the others leave it at that. */
  lemma CommitSettles(cfg: Config, t: Tenant, d: Delivery, row: Tenant, p: Phase, written: bool)
    requires p.Holding? && PhaseInv(cfg, t, d, p)
    requires StartsThenEnds(t, d.event) ==> !p.late
    requires if written then Dateless(row) == Dateless(ApplyOption(t, RowWrite(cfg, t, 0, d.event)))
             else row == t && !p.late
    ensures Dateless(ApplyOption(row, p.write)) == Dateless(ApplyOption(t, RowWrite(cfg, t, 0, d.event)))
  {
    var first := RowWrite(cfg, t, 0, d.event);
    var once := ApplyOption(t, first);
    if !written {
      DatesDoNotMatter(row, t, p.write, first);
    } else {
      var w := if p.late then RowWrite(cfg, once, 0, d.event) else first;
      DatesDoNotMatter(row, once, p.write, w);
      if StartsThenEnds(t, d.event) {
        assert first.value.ActivateTrial?;
      } else {
        RowSettles(cfg, t, 0, d.event);
      }
    }
  }

  lemma CommitKeeps(cfg: Config, t: Tenant, d: Delivery, row: Tenant, phases: seq<Phase>, h: nat)
    requires RowInv(cfg, t, d, row, phases) && h < |phases| && phases[h].Holding?
    ensures RowInv(cfg, t, d, ApplyOption(row, phases[h].write), phases[h := Written(phases[h].late)])
  {
    var p, phases' := phases[h], phases[h := Written(phases[h].late)];
    PhaseUpdate(phases, h, Written(p.late));
    if Calm(t, d, phases') {
      assert Calm(t, d, phases);
      assert PhaseInv(cfg, t, d, p);
      CommitSettles(cfg, t, d, row, p, SomeWritten(phases));
    }
  }

  lemma OtherKeeps(cfg: Config, t: Tenant, d: Delivery, row: Tenant, phases: seq<Phase>, h: nat, p: Phase)
    requires RowInv(cfg, t, d, row, phases) && h < |phases| && !phases[h].Written?
    requires !p.Holding? && !p.Written?
    ensures RowInv(cfg, t, d, row, phases[h := p])
  {
    PhaseUpdate(phases, h, p);
  }

  /** The whole table: the owner's row as above, and every other row as it was. */
  ghost predicate Inv(cfg: Config, d: Delivery, start: map<nat, Tenant>, s: State) {
    && s.store.tenants.Keys == start.Keys
    && var owner := Owner(cfg, start, EmailOf(d.event));
       if owner.None? then s.store.tenants == start else
         && RowInv(cfg, start[owner.value], d, s.store.tenants[owner.value], s.phases)
         && forall id :: id in start && id != owner.value ==> s.store.tenants[id] == start[id]
  }

  lemma InvStep(cfg: Config, d: Delivery, start: map<nat, Tenant>, s: State, step: Step)
    requires Inv(cfg, d, start, s) && Enabled(s, step)
    ensures Inv(cfg, d, start, Next(cfg, d, s, step))
  {
    var owner := Owner(cfg, start, EmailOf(d.event));
    if owner.Some? {
      var t, row := start[owner.value], s.store.tenants[owner.value];
      match step
      case Read(h, now) => ReadKeeps(cfg, t, d, row, s.phases, h, now);
      case Commit(h) => CommitKeeps(cfg, t, d, row, s.phases, h);
      case _ => OtherKeeps(cfg, t, d, row, s.phases, step.h, Next(cfg, d, s, step).phases[step.h]);
    }
  }

  lemma {:induction false} InvRun(cfg: Config, d: Delivery, start: map<nat, Tenant>, s: State, run: seq<Step>)
    requires Inv(cfg, d, start, s) && Possible(cfg, d, s, run)
    ensures Inv(cfg, d, start, Exec(cfg, d, s, run))
    decreases |run|
  {
    if run != [] {
      InvStep(cfg, d, start, s, run[0]);
      InvRun(cfg, d, start, Next(cfg, d, s, run[0]), run[1..]);
    }
  }

  // ---------- Any number of handlers ----------

  lemma StartInv(cfg: Config, d: Delivery, store: Store, n: nat)
    ensures Inv(cfg, d, store.tenants, Start(store, n))
  {
    assert forall p :: p in Start(store, n).phases ==> p == Arrived;
  }

  /** The handlers left nothing, or what one of them alone would have left. */
  ghost predicate Harmless(cfg: Config, d: Delivery, start: map<nat, Tenant>, s: State) {
    if SomeWritten(s.phases) then Alike(s.store.tenants, Route(cfg, start, d)) else s.store.tenants == start
  }

  /** However any number of handlers of one event interleave, with the table up or down and some of them dying, they do
      what one of them does: always, if the event is not a first charge with a plan; and for such a charge as long as no
      handler that read the row after another's write has written. */
  lemma RaceIsOneDelivery(cfg: Config, d: Delivery, store: Store, n: nat, run: seq<Step>)
    requires d.failure == NoFailure && Possible(cfg, d, Start(store, n), run)
    ensures
      var s := Exec(cfg, d, Start(store, n), run);
      !FirstChargeWithPlan(cfg, store.tenants, d) || !SomeWrittenLate(s.phases) ==> Harmless(cfg, d, store.tenants, s)
  {
    StartInv(cfg, d, store, n);
    InvRun(cfg, d, store.tenants, Start(store, n), run);
    var owner := Owner(cfg, store.tenants, EmailOf(d.event));
    if owner.Some? {
      var t := store.tenants[owner.value];
      DecisionIgnoresDates(cfg, t, t, 0, d.now, d.event);
      DatesDoNotMatter(t, t, RowWrite(cfg, t, 0, d.event), RowWrite(cfg, t, d.now, d.event));
    }
  }

  // ---------- Two handlers of a first charge ----------

  predicate Late(p: Phase) { (p.Holding? && p.late) || p == Written(true) }

  /** A late handler has the other one behind it; its write ends the trial. */
  ghost predicate TwoInv(cfg: Config, d: Delivery, s: State) {
    && |s.phases| == 2
    && (Late(s.phases[0]) ==> s.phases[1] == Written(false))
    && (Late(s.phases[1]) ==> s.phases[0] == Written(false))
    && var row := RowOf(cfg, s.store.tenants, d);
       row.Some? && (SomeWrittenLate(s.phases) ==> row.value.status == ACTIVE)
  }

  lemma TwoInvStep(cfg: Config, d: Delivery, start: map<nat, Tenant>, s: State, step: Step)
    requires FirstChargeWithPlan(cfg, start, d) && Inv(cfg, d, start, s) && TwoInv(cfg, d, s) && Enabled(s, step)
    ensures TwoInv(cfg, d, Next(cfg, d, s, step))
  {
    var owner := Owner(cfg, start, EmailOf(d.event)).value;
    var s', h := Next(cfg, d, s, step), step.h;
    assert Owner(cfg, s.store.tenants, EmailOf(d.event)) == Some(owner);
    assert forall p :: p in s.phases <==> p == s.phases[0] || p == s.phases[1];
    assert forall p :: p in s'.phases <==> p == s'.phases[0] || p == s'.phases[1];
    if step.Commit? && s.phases[h].late {
      assert PhaseInv(cfg, start[owner], d, s.phases[h]);
      assert LateWrite(cfg, start[owner], d).value.ActivateSubscription?;
      assert s.phases[h].write.value.ActivateSubscription?;
    }
  }

  lemma {:induction false} TwoInvRun(cfg: Config, d: Delivery, start: map<nat, Tenant>, s: State, run: seq<Step>)
    requires FirstChargeWithPlan(cfg, start, d) && Possible(cfg, d, s, run)
    requires Inv(cfg, d, start, s) && TwoInv(cfg, d, s)
    ensures TwoInv(cfg, d, Exec(cfg, d, s, run)) && Inv(cfg, d, start, Exec(cfg, d, s, run))
    decreases |run|
  {
    if run != [] {
      InvStep(cfg, d, start, s, run[0]);
      TwoInvStep(cfg, d, start, s, run[0]);
      TwoInvRun(cfg, d, start, Next(cfg, d, s, run[0]), run[1..]);
    }
  }

  /** Two handlers of a first charge with a plan do what one does exactly when both read the row before either wrote to
      it. */
  lemma TwoHandlersAgreeIff(cfg: Config, d: Delivery, store: Store, run: seq<Step>)
    requires d.failure == NoFailure && FirstChargeWithPlan(cfg, store.tenants, d)
    requires Possible(cfg, d, Start(store, 2), run)
    ensures
      var s := Exec(cfg, d, Start(store, 2), run);
      Harmless(cfg, d, store.tenants, s) <==> !SomeWrittenLate(s.phases)
  {
    RaceIsOneDelivery(cfg, d, store, 2, run);
    StartInv(cfg, d, store, 2);
    TwoInvRun(cfg, d, store.tenants, Start(store, 2), run);
    var s, once := Exec(cfg, d, Start(store, 2), run), Route(cfg, store.tenants, d);
    if SomeWrittenLate(s.phases) {
      var owner := Owner(cfg, store.tenants, d.event.email).value;
      assert Owner(cfg, s.store.tenants, EmailOf(d.event)) == Some(owner);
      assert Written(true).Written? && SomeWritten(s.phases);
      assert Dateless(s.store.tenants[owner]).status == ACTIVE && Dateless(once[owner]).status == TRIALING;
    }
  }

  // ---------- When duplicates are harmless ----------

  predicate NoTableError(run: seq<Step>) { forall step :: step in run ==> !step.TableDown? }

  /** Reached without an error of the table. */
  ghost predicate Reaches(cfg: Config, d: Delivery, s: State, s': State) {
    exists run :: NoTableError(run) && Possible(cfg, d, s, run) && Exec(cfg, d, s, run) == s'
  }

  lemma {:induction false} ExecSnoc(cfg: Config, d: Delivery, s: State, run: seq<Step>, step: Step)
    requires Possible(cfg, d, s, run) && Enabled(Exec(cfg, d, s, run), step)
    ensures Possible(cfg, d, s, run + [step])
    ensures Exec(cfg, d, s, run + [step]) == Next(cfg, d, Exec(cfg, d, s, run), step)
    decreases |run|
  {
    if run == [] {
      assert run + [step] == [step] && [step][1..] == [];
    } else {
      assert (run + [step])[1..] == run[1..] + [step];
      ExecSnoc(cfg, d, Next(cfg, d, s, run[0]), run[1..], step);
    }
  }

  lemma ReachStep(cfg: Config, d: Delivery, s: State, s1: State, step: Step) returns (s2: State)
    requires Reaches(cfg, d, s, s1) && Enabled(s1, step) && !step.TableDown?
    ensures s2 == Next(cfg, d, s1, step) && Reaches(cfg, d, s, s2)
  {
    var run :| NoTableError(run) && Possible(cfg, d, s, run) && Exec(cfg, d, s, run) == s1;
    ExecSnoc(cfg, d, s, run, step);
    s2 := Next(cfg, d, s1, step);
    assert Exec(cfg, d, s, run + [step]) == s2;
  }

  /** Both handlers look before either records the event. */
  lemma BothPassTheTable(cfg: Config, d: Delivery, store: Store, n: nat) returns (s: State)
    requires n >= 2 && EventId(d) !in store.processed
    ensures Reaches(cfg, d, Start(store, n), s) && |s.phases| == n && s.store.tenants == store.tenants
    ensures s.phases[0] == s.phases[1] == Routing && forall i :: 2 <= i < n ==> s.phases[i] == Arrived
  {
    s := Start(store, n);
    assert Possible(cfg, d, s, []) && Exec(cfg, d, s, []) == s;
    s := ReachStep(cfg, d, Start(store, n), s, Look(0));
    s := ReachStep(cfg, d, Start(store, n), s, Look(1));
    s := ReachStep(cfg, d, Start(store, n), s, Insert(0));
    s := ReachStep(cfg, d, Start(store, n), s, Insert(1));
  }

  /** The first one is through with its write before the second one reads. */
  lemma OneAfterTheOther(cfg: Config, d: Delivery, store: Store, n: nat, now: nat) returns (s: State)
    requires n >= 2 && EventId(d) !in store.processed && FirstChargeWithPlan(cfg, store.tenants, d)
    ensures Reaches(cfg, d, Start(store, n), s) && SomeWritten(s.phases)
    ensures s.store.tenants.Keys == store.tenants.Keys
    ensures
      var owner := Owner(cfg, store.tenants, d.event.email).value;
      owner in s.store.tenants && s.store.tenants[owner].status == ACTIVE
  {
    s := BothPassTheTable(cfg, d, store, n);
    var owner := Owner(cfg, store.tenants, d.event.email).value;
    s := ReachStep(cfg, d, Start(store, n), s, Read(0, now));
    s := ReachStep(cfg, d, Start(store, n), s, Commit(0));
    assert s.store.tenants[owner].trialActive && s.phases[0].Written? && s.phases[1] == Routing;
    s := ReachStep(cfg, d, Start(store, n), s, Read(1, now));
    assert s.phases[1].write.value.ActivateSubscription?;
    s := ReachStep(cfg, d, Start(store, n), s, Commit(1));
    assert s.phases[1].Written?;
  }

  /** Concurrent duplicates of an event, two or more, are harmless in every interleaving exactly when the event is not
      the first charge, with a plan, of a tenant that is trialing without a running trial. */
  lemma RacesAreHarmlessIff(cfg: Config, d: Delivery, store: Store, n: nat)
    requires n >= 2 && d.failure == NoFailure && EventId(d) !in store.processed
    ensures (forall s :: Reaches(cfg, d, Start(store, n), s) ==> Harmless(cfg, d, store.tenants, s))
       <==> !FirstChargeWithPlan(cfg, store.tenants, d)
  {
    if FirstChargeWithPlan(cfg, store.tenants, d) {
      var s := OneAfterTheOther(cfg, d, store, n, d.now);
      var owner, once := Owner(cfg, store.tenants, d.event.email).value, Route(cfg, store.tenants, d);
      assert Dateless(s.store.tenants[owner]).status == ACTIVE && Dateless(once[owner]).status == TRIALING;
    } else {
      forall s | Reaches(cfg, d, Start(store, n), s) ensures Harmless(cfg, d, store.tenants, s) {
        var run :| NoTableError(run) && Possible(cfg, d, Start(store, n), run) &&
                   Exec(cfg, d, Start(store, n), run) == s;
        RaceIsOneDelivery(cfg, d, store, n, run);
      }
    }
  }

  // ---------- What the table stops ----------

  predicate Stopped(p: Phase) { p.Arrived? || p.Skipped? || p.Died? }

  predicate IsPast(p: Phase) { p.Routing? || p.Holding? || p.Written? }

  /** Whoever is past the table has left the event's id in it, and a handler that arrives once the id is there gets no
      further. */
  ghost predicate TableInv(d: Delivery, late: set<nat>, s: State) {
    && (forall p :: p in s.phases && IsPast(p) ==> EventId(d) in s.store.processed)
    && (late != {} ==> EventId(d) in s.store.processed)
    && forall h :: h in late && h < |s.phases| ==> Stopped(s.phases[h])
  }

  lemma TableStep(cfg: Config, d: Delivery, late: set<nat>, s: State, step: Step)
    requires TableInv(d, late, s) && Enabled(s, step) && !step.TableDown?
    ensures TableInv(d, late, Next(cfg, d, s, step))
  {
    var s' := Next(cfg, d, s, step);
    assert s.phases[step.h] in s.phases;
    PhaseUpdate(s.phases, step.h, s'.phases[step.h]);
  }

  lemma {:induction false} TableRun(cfg: Config, d: Delivery, late: set<nat>, s: State, run: seq<Step>)
    requires TableInv(d, late, s) && Possible(cfg, d, s, run) && NoTableError(run)
    ensures TableInv(d, late, Exec(cfg, d, s, run))
    decreases |run|
  {
    if run != [] {
      TableStep(cfg, d, late, s, run[0]);
      TableRun(cfg, d, late, Next(cfg, d, s, run[0]), run[1..]);
    }
  }

  /** While the table answers, the first handler past it closes it: in every run it then holds the event's id, and no
      handler that has not looked by then ever writes. */
  lemma TableStopsLatecomers(cfg: Config, d: Delivery, store: Store, n: nat, run: seq<Step>, rest: seq<Step>, h: nat)
    requires Possible(cfg, d, Start(store, n), run) && NoTableError(run)
    requires
      var s := Exec(cfg, d, Start(store, n), run);
      Possible(cfg, d, s, rest) && NoTableError(rest) && h < |s.phases| && s.phases[h] == Arrived
    requires exists p :: p in Exec(cfg, d, Start(store, n), run).phases && IsPast(p)
    ensures
      var s' := Exec(cfg, d, Exec(cfg, d, Start(store, n), run), rest);
      EventId(d) in s'.store.processed && (h < |s'.phases| ==> Stopped(s'.phases[h]))
  {
    assert forall p :: p in Start(store, n).phases ==> p == Arrived;
    TableRun(cfg, d, {}, Start(store, n), run);
    TableRun(cfg, d, {h}, Exec(cfg, d, Start(store, n), run), rest);
  }

  lemma {:induction false} SkippedRun(cfg: Config, d: Delivery, s: State, run: seq<Step>)
    requires EventId(d) in s.store.processed && NoTableError(run) && Possible(cfg, d, s, run)
    requires forall p :: p in s.phases ==> Stopped(p)
    ensures
      var s' := Exec(cfg, d, s, run);
      s'.store.tenants == s.store.tenants && forall p :: p in s'.phases ==> Stopped(p)
    decreases |run|
  {
    if run != [] {
      assert s.phases[run[0].h] in s.phases && run[0] in run;
      var next := Next(cfg, d, s, run[0]);
      assert Stopped(s.phases[run[0].h]) && Stopped(next.phases[run[0].h]);
      PhaseUpdate(s.phases, run[0].h, next.phases[run[0].h]);
      assert next.phases == s.phases[run[0].h := next.phases[run[0].h]];
      SkippedRun(cfg, d, Next(cfg, d, s, run[0]), run[1..]);
    }
  }

  /** An event that is in the table already is not processed again, by any number of handlers. */
  lemma RecordedIsSkipped(cfg: Config, d: Delivery, store: Store, n: nat, s: State)
    requires EventId(d) in store.processed && Reaches(cfg, d, Start(store, n), s)
    ensures s.store.tenants == store.tenants && !SomeWritten(s.phases)
  {
    var run :| NoTableError(run) && Possible(cfg, d, Start(store, n), run) && Exec(cfg, d, Start(store, n), run) == s;
    assert forall p :: p in Start(store, n).phases ==> p == Arrived;
    SkippedRun(cfg, d, Start(store, n), run);
  }
}
