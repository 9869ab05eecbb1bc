/** The INCR / EXPIRE counter that rate limiting and loop detection share.

    A call is two separate Redis commands, so calls of different replicas interleave between them, and a
    replica may die after the first. `State` is what Redis holds for one key, together with the calls that were
    answered 1 and still owe their EXPIRE. A run is any sequence of enabled steps. */
module FixedWindow {
  import opened Options
  import opened Arithmetic

  datatype Key = Absent | Live(count: nat, deadline: Option<int>)

  datatype State = State(now: int, key: Key, arming: set<nat>)

  datatype Config = Config(limit: int, window: nat)

  datatype Step =
    | Incr(call: nat)
    | Expire(call: nat)
    | Crash(call: nat)  // the replica is lost between its two commands
    | Tick(seconds: nat)
    | Reset             // DEL, the tracker's `reset`

  // ---------- Redis ----------

  /** The key as a command sees it: Redis hides a key once the clock is past its deadline. */
  function Seen(s: State): Key {
    match s.key
    case Live(_, Some(d)) => if s.now > d then Absent else s.key
    case _ => s.key
  }

  /** The reply to INCR. */
  function Reply(s: State): nat {
    match Seen(s)
    case Absent => 1
    case Live(n, _) => n + 1
  }

  /** INCR keeps the deadline of a key it finds, and creates a key without one otherwise. */
  function Incremented(s: State): Key {
    match Seen(s)
    case Absent => Live(1, None)
    case Live(n, d) => Live(n + 1, d)
  }

  function Armed(s: State, window: nat): Key {
    match Seen(s)
    case Absent => Absent
    case Live(n, _) => Live(n, Some(s.now + window))
  }

  // ---------- Runs ----------

  predicate Enabled(s: State, step: Step) {
    match step
    case Incr(c) => c !in s.arming
    case Expire(c) => c in s.arming
    case Crash(c) => c in s.arming
    case Tick(_) => true
    case Reset => true
  }

  function Next(cfg: Config, s: State, step: Step): State {
    match step
    case Incr(c) =>
      State(s.now, Incremented(s), if Reply(s) == 1 then s.arming + {c} else s.arming)
    case Expire(c) => State(s.now, Armed(s, cfg.window), s.arming - {c})
    case Crash(c) => s.(arming := s.arming - {c})
    case Tick(d) => s.(now := s.now + d)
    case Reset => s.(key := Absent)
  }

  predicate Admits(cfg: Config, s: State, step: Step) {
    step.Incr? && Reply(s) <= cfg.limit
  }

  function Exec(cfg: Config, s: State, run: seq<Step>): State {
    if run == [] then s else Next(cfg, Exec(cfg, s, run[..|run| - 1]), run[|run| - 1])
  }

  ghost predicate Possible(cfg: Config, s: State, run: seq<Step>) {
    run != [] ==>
      && Possible(cfg, s, run[..|run| - 1])
      && Enabled(Exec(cfg, s, run[..|run| - 1]), run[|run| - 1])
  }

  function Initial(now: int): State { State(now, Absent, {}) }

  /** The calls admitted in the closed interval [from, from + window]. */
  ghost function Admitted(cfg: Config, s: State, run: seq<Step>, from: int): nat {
    if run == [] then 0 else
      var before := Exec(cfg, s, run[..|run| - 1]);
      Admitted(cfg, s, run[..|run| - 1], from) +
      if Admits(cfg, before, run[|run| - 1]) && from <= before.now <= from + cfg.window then 1 else 0
  }

  /** The resets in the same interval. */
  ghost function Resets(cfg: Config, s: State, run: seq<Step>, from: int): nat {
    if run == [] then 0 else
      var before := Exec(cfg, s, run[..|run| - 1]);
      Resets(cfg, s, run[..|run| - 1], from) +
      if run[|run| - 1].Reset? && from <= before.now <= from + cfg.window then 1 else 0
  }

  /** The keys created in the same interval. */
  ghost function Births(cfg: Config, s: State, run: seq<Step>, from: int): nat {
    if run == [] then 0 else
      var before := Exec(cfg, s, run[..|run| - 1]);
      Births(cfg, s, run[..|run| - 1], from) +
      if run[|run| - 1].Incr? && Reply(before) == 1 && from <= before.now <= from + cfg.window then 1 else 0
  }

  /** When the latest key was created. */
  ghost function Born(cfg: Config, s: State, run: seq<Step>): int {
    if run == [] then s.now else
      var before := Exec(cfg, s, run[..|run| - 1]);
      if run[|run| - 1].Incr? && Reply(before) == 1 then before.now else Born(cfg, s, run[..|run| - 1])
  }

  /** Adding one step at the end. */
  lemma Snoc(cfg: Config, s: State, run: seq<Step>, step: Step, from: int)
    ensures
      var before := Exec(cfg, s, run);
      && Exec(cfg, s, run + [step]) == Next(cfg, before, step)
      && (Possible(cfg, s, run + [step]) <==> Possible(cfg, s, run) && Enabled(before, step))
      && Admitted(cfg, s, run + [step], from) == Admitted(cfg, s, run, from) +
           if Admits(cfg, before, step) && from <= before.now <= from + cfg.window then 1 else 0
  {
    assert (run + [step])[..|run + [step]| - 1] == run;
  }

  // ---------- The bound ----------

  /** How many more calls the key admits before it refuses. */
  function Room(cfg: Config, s: State): nat
    requires cfg.limit >= 1
  {
    match Seen(s)
    case Absent => 0
    case Live(n, _) => if n < cfg.limit then cfg.limit - n else 0
  }

  ghost predicate Bounded(cfg: Config, s: State, born: int, from: int, admitted: nat, births: nat, resets: nat)
    requires cfg.limit >= 1
  {
    && (s.key.Live? ==> s.key.count >= 1 && born <= s.now)
    && (s.key.Live? && s.key.deadline.Some? ==> s.key.deadline.value >= born + cfg.window)
    && (s.now < from ==> admitted == births == resets == 0)
    && (from <= s.now <= from + cfg.window ==>
          && admitted + Room(cfg, s) + 1 <= (births + 1) * cfg.limit
          && births <= resets + 1
          && (births >= 1 ==> born >= from && (Seen(s).Absent? ==> births <= resets)))
    && (from + cfg.window < s.now ==> admitted + 1 <= (births + 1) * cfg.limit && births <= resets + 1)
  }

  lemma BoundedStep(cfg: Config, s: State, step: Step, born: int, from: int,
                    admitted: nat, births: nat, resets: nat)
    requires cfg.limit >= 1 && Enabled(s, step)
    requires Bounded(cfg, s, born, from, admitted, births, resets)
    ensures
      var inside := from <= s.now <= from + cfg.window;
      var creates := step.Incr? && Reply(s) == 1;
      Bounded(cfg, Next(cfg, s, step), if creates then s.now else born, from,
              admitted + (if Admits(cfg, s, step) && inside then 1 else 0),
              births + (if creates && inside then 1 else 0),
              resets + (if step.Reset? && inside then 1 else 0))
  {
    assert (births + 2) * cfg.limit == (births + 1) * cfg.limit + cfg.limit;
    assert (births + 1) * cfg.limit >= cfg.limit;
  }

  lemma {:induction false} BoundedRun(cfg: Config, start: int, run: seq<Step>, from: int)
    requires cfg.limit >= 1 && Possible(cfg, Initial(start), run)
    ensures
      var s := Initial(start);
      Bounded(cfg, Exec(cfg, s, run), Born(cfg, s, run), from,
              Admitted(cfg, s, run, from), Births(cfg, s, run, from), Resets(cfg, s, run, from))
  {
    if run != [] {
      var s, init := Initial(start), run[..|run| - 1];
      BoundedRun(cfg, start, init, from);
      BoundedStep(cfg, Exec(cfg, s, init), run[|run| - 1], Born(cfg, s, init), from,
                  Admitted(cfg, s, init, from), Births(cfg, s, init, from), Resets(cfg, s, init, from));
    }
  }

  /** Whatever the interleaving, the losses and the delays, an interval as long as the window admits at most
      2 * limit - 1 calls, and each reset inside it makes room for at most `limit` more. */
  lemma AdmittedPerWindow(cfg: Config, start: int, run: seq<Step>, from: int)
    requires cfg.limit >= 1 && Possible(cfg, Initial(start), run)
    ensures Admitted(cfg, Initial(start), run, from)
         <= (Resets(cfg, Initial(start), run, from) + 2) * cfg.limit - 1
  {
    BoundedRun(cfg, start, run, from);
    var births, resets := Births(cfg, Initial(start), run, from), Resets(cfg, Initial(start), run, from);
    assert births <= resets + 1;
    assert (births + 1) * cfg.limit <= (resets + 2) * cfg.limit by {
      MulMonotone(births + 1, resets + 2, cfg.limit);
    }
  }

  lemma {:induction false} NoResetsCounted(cfg: Config, s: State, run: seq<Step>, from: int)
    requires Reset !in run
    ensures Resets(cfg, s, run, from) == 0
  {
    if run != [] {
      NoResetsCounted(cfg, s, run[..|run| - 1], from);
    }
  }

  /** Five executions an hour is what the tracker promises; nine is what it guarantees. */
  lemma TrackerPerHour(start: int, run: seq<Step>, from: int)
    requires Possible(Config(5, 3600), Initial(start), run)
    ensures
      var tracker, s := Config(5, 3600), Initial(start);
      && Admitted(tracker, s, run, from) <= 9 + 5 * Resets(tracker, s, run, from)
      && (Reset !in run ==> Admitted(tracker, s, run, from) <= 9)
  {
    var tracker := Config(5, 3600);
    AdmittedPerWindow(tracker, start, run, from);
    if Reset !in run {
      NoResetsCounted(tracker, Initial(start), run, from);
    }
  }

  /** A limit of zero or less admits nothing at all. */
  lemma {:induction false} ZeroLimitRefuses(cfg: Config, s: State, run: seq<Step>, from: int)
    requires cfg.limit <= 0
    ensures Admitted(cfg, s, run, from) == 0
  {
    if run != [] {
      ZeroLimitRefuses(cfg, s, run[..|run| - 1], from);
    }
  }

  // ---------- The bound is attained ----------

  function Calls(n: nat): seq<Step> { seq(n, _ => Incr(0)) }

  function Remaining(cfg: Config, s: State): nat {
    var count := if Seen(s).Absent? then 0 else Seen(s).count;
    if count < cfg.limit then cfg.limit - count else 0
  }

  /** `getStatus.remaining`: of any number of further calls on a live key, exactly that many are admitted. */
  lemma {:induction false} RemainingIsExact(cfg: Config, s: State, calls: nat, from: int)
    requires Seen(s).Live? && 0 !in s.arming && from <= s.now <= from + cfg.window
    requires Seen(s).count >= 1
    ensures
      var run := Calls(calls);
      && Possible(cfg, s, run)
      && Exec(cfg, s, run) == s.(key := Live(s.key.count + calls, s.key.deadline))
      && Admitted(cfg, s, run, from) == Min(calls, Remaining(cfg, s))
  {
    if calls > 0 {
      RemainingIsExact(cfg, s, calls - 1, from);
      assert Calls(calls)[..calls - 1] == Calls(calls - 1);
    }
  }

  lemma {:induction false} ExecConcat(cfg: Config, s: State, a: seq<Step>, b: seq<Step>, from: int)
    ensures Exec(cfg, s, a + b) == Exec(cfg, Exec(cfg, s, a), b)
    ensures Possible(cfg, s, a) && Possible(cfg, Exec(cfg, s, a), b) ==> Possible(cfg, s, a + b)
    ensures Admitted(cfg, s, a + b, from)
         == Admitted(cfg, s, a, from) + Admitted(cfg, Exec(cfg, s, a), b, from)
  {
    if b == [] {
      assert a + b == a;
    } else {
      ExecConcat(cfg, s, a, b[..|b| - 1], from);
      assert (a + b)[..|a + b| - 1] == a + b[..|b| - 1];
    }
  }

  /** The run that spends `limit` calls at the end of one key's life and `limit` at the start of the next. */
  function WorstRun(cfg: Config): seq<Step>
    requires cfg.limit >= 1
  {
    [Incr(0), Expire(0), Tick(cfg.window)] + Calls(cfg.limit - 1) +
    ([Tick(1), Incr(0), Expire(0)] + Calls(cfg.limit - 1))
  }

  lemma FirstKey(cfg: Config)
    requires cfg.limit >= 1 && cfg.window >= 1
    ensures
      var run := [Incr(0), Expire(0), Tick(cfg.window)];
      && Possible(cfg, Initial(0), run)
      && Exec(cfg, Initial(0), run) == State(cfg.window, Live(1, Some(cfg.window)), {})
      && Admitted(cfg, Initial(0), run, cfg.window) == 0
  {
    assert [] + [Incr(0)] == [Incr(0)] && [Incr(0)] + [Expire(0)] == [Incr(0), Expire(0)];
    assert [Incr(0), Expire(0)] + [Tick(cfg.window)] == [Incr(0), Expire(0), Tick(cfg.window)];
    Snoc(cfg, Initial(0), [], Incr(0), cfg.window);
    Snoc(cfg, Initial(0), [Incr(0)], Expire(0), cfg.window);
    Snoc(cfg, Initial(0), [Incr(0), Expire(0)], Tick(cfg.window), cfg.window);
  }

  lemma SecondKey(cfg: Config, s: State)
    requires cfg.limit >= 1 && cfg.window >= 1
    requires s.now == cfg.window && s.arming == {} && s.key.Live? && s.key.deadline == Some(cfg.window)
    ensures
      var run := [Tick(1), Incr(0), Expire(0)];
      && Possible(cfg, s, run)
      && Exec(cfg, s, run) == State(cfg.window + 1, Live(1, Some(2 * cfg.window + 1)), {})
      && Admitted(cfg, s, run, cfg.window) == 1
  {
    assert [] + [Tick(1)] == [Tick(1)] && [Tick(1)] + [Incr(0)] == [Tick(1), Incr(0)];
    assert [Tick(1), Incr(0)] + [Expire(0)] == [Tick(1), Incr(0), Expire(0)];
    Snoc(cfg, s, [], Tick(1), cfg.window);
    Snoc(cfg, s, [Tick(1)], Incr(0), cfg.window);
    Snoc(cfg, s, [Tick(1), Incr(0)], Expire(0), cfg.window);
  }

  lemma BoundIsAttained(cfg: Config)
    requires cfg.limit >= 1 && cfg.window >= 1
    ensures Possible(cfg, Initial(0), WorstRun(cfg))
    ensures Admitted(cfg, Initial(0), WorstRun(cfg), cfg.window) == 2 * cfg.limit - 1
    ensures Exec(cfg, Initial(0), WorstRun(cfg)).arming == {}
    ensures Exec(cfg, Initial(0), WorstRun(cfg)).now == cfg.window + 1
  {
    var w, from := cfg.window, cfg.window;
    var first, second := [Incr(0), Expire(0), Tick(w)], [Tick(1), Incr(0), Expire(0)];
    var calls := Calls(cfg.limit - 1);
    var s0 := Initial(0);
    var s1 := State(0, Live(1, None), {0});
    var s2 := State(0, Live(1, Some(w)), {});
    var s3 := s2.(now := w);
    FirstKey(cfg);
    RemainingIsExact(cfg, s3, cfg.limit - 1, from);
    var s4 := Exec(cfg, s3, calls);
    SecondKey(cfg, s4);
    var s5 := Exec(cfg, s4, second);
    RemainingIsExact(cfg, s5, cfg.limit - 1, from);
    ExecConcat(cfg, s0, first, calls, from);
    ExecConcat(cfg, s4, second, calls, from);
    ExecConcat(cfg, s0, first + calls, second + calls, from);
  }

  // ---------- A lost EXPIRE ----------

  /** A window that is never reset rolls, as far as its limit goes, exactly when that limit is one or less: no interval
      of its length then sees more than the limit, in no run. */
  lemma RollsIff(cfg: Config)
    requires cfg.window >= 1
    ensures (forall start, run, from :: Possible(cfg, Initial(start), run) && Reset !in run ==>
               Admitted(cfg, Initial(start), run, from) <= Max(cfg.limit, 0))
       <==> cfg.limit <= 1
  {
    if cfg.limit >= 2 {
      BoundIsAttained(cfg);
      assert Reset !in WorstRun(cfg);
    } else {
      forall start, run, from | Possible(cfg, Initial(start), run) && Reset !in run
        ensures Admitted(cfg, Initial(start), run, from) <= Max(cfg.limit, 0)
      {
        if cfg.limit <= 0 {
          ZeroLimitRefuses(cfg, Initial(start), run, from);
        } else {
          AdmittedPerWindow(cfg, start, run, from);
          NoResetsCounted(cfg, Initial(start), run, from);
        }
      }
    }
  }

  /** A key that refuses calls refuses them for good when it has no deadline and no call owes it one. */
  lemma {:induction false} StuckForGood(cfg: Config, s: State, run: seq<Step>)
    requires cfg.limit >= 1 && Seen(s).Live? && Seen(s).count >= cfg.limit
    requires s.key.deadline.None? && s.arming == {}
    requires Possible(cfg, s, run) && Reset !in run
    ensures
      var after := Exec(cfg, s, run);
      after.key.Live? && after.key.count >= cfg.limit && after.key.deadline.None? && after.arming == {}
  {
    if run != [] {
      StuckForGood(cfg, s, run[..|run| - 1]);
    }
  }

  /** Without a reset, a key that refuses calls can come to admit one again exactly when it has a deadline or some
      call still owes it one: losing the creator between INCR and EXPIRE is what locks a tenant out. */
  lemma RecoversIff(cfg: Config, s: State)
    requires cfg.limit >= 1 && Seen(s).Live? && Seen(s).count >= cfg.limit
    ensures (exists run, call ::
               Possible(cfg, s, run) && Reset !in run && call !in Exec(cfg, s, run).arming &&
               Admits(cfg, Exec(cfg, s, run), Incr(call)))
       <==> s.key.deadline.Some? || s.arming != {}
  {
    if s.arming != {} {
      var call :| call in s.arming;
      var run := [Expire(call), Tick(cfg.window + 1)];
      assert run[..1] == [Expire(call)] && run[..1][..0] == [];
      assert Possible(cfg, s, run) && Reset !in run;
      assert Admits(cfg, Exec(cfg, s, run), Incr(call));
    } else if s.key.deadline.Some? {
      var run := [Tick(s.key.deadline.value - s.now + 1)];
      assert run[..0] == [];
      assert Possible(cfg, s, run) && Reset !in run;
      assert Admits(cfg, Exec(cfg, s, run), Incr(0));
    } else {
      forall run, call | Possible(cfg, s, run) && Reset !in run
        ensures !Admits(cfg, Exec(cfg, s, run), Incr(call))
      {
        StuckForGood(cfg, s, run);
      }
    }
  }

  /** What makes that happen: the last call that owes a deadline to a full key is lost. From then on no run without a
      reset admits a call. */
  lemma LastCrashLocksOut(cfg: Config, s: State, lost: nat, run: seq<Step>, call: nat)
    requires cfg.limit >= 1 && Seen(s).Live? && Seen(s).count >= cfg.limit
    requires s.key.deadline.None? && s.arming == {lost}
    requires Possible(cfg, Next(cfg, s, Crash(lost)), run) && Reset !in run
    ensures !Admits(cfg, Exec(cfg, Next(cfg, s, Crash(lost)), run), Incr(call))
  {
    StuckForGood(cfg, Next(cfg, s, Crash(lost)), run);
  }

  /** Calls one after the other on a key that is not there: the first one also sets its deadline. */
  function FreshCalls(n: nat): seq<Step> { if n == 0 then [] else [Incr(0), Expire(0)] + Calls(n - 1) }

  /** A reset gives the whole limit back: of any number of calls that follow it, exactly the limit is admitted. */
  lemma ResetGivesLimitBack(cfg: Config, s: State, calls: nat, from: int)
    requires 0 !in s.arming && from <= s.now <= from + cfg.window
    ensures
      var after := Next(cfg, s, Reset);
      && Enabled(s, Reset) && Possible(cfg, after, FreshCalls(calls))
      && Exec(cfg, after, FreshCalls(calls)).arming == s.arming && Exec(cfg, after, FreshCalls(calls)).now == s.now
      && Admitted(cfg, after, FreshCalls(calls), from) == Min(calls, Max(cfg.limit, 0))
      && Remaining(cfg, after) == Max(cfg.limit, 0)
  {
    var after := Next(cfg, s, Reset);
    if calls > 0 {
      var first := [Incr(0), Expire(0)];
      var s1 := State(s.now, Live(1, None), s.arming + {0});
      var s2 := State(s.now, Live(1, Some(s.now + cfg.window)), s.arming);
      assert first[..1] == [Incr(0)] && [Incr(0)][..0] == [];
      assert Next(cfg, after, Incr(0)) == s1;
      assert s1.arming - {0} == s.arming;
      assert Next(cfg, s1, Expire(0)) == s2;
      assert Exec(cfg, after, [Incr(0)]) == s1 && Exec(cfg, after, first) == s2 && Possible(cfg, after, first);
      assert Admitted(cfg, after, [Incr(0)], from) == Min(1, Max(cfg.limit, 0)) by {
        assert Admitted(cfg, after, [], from) == 0;
      }
      assert Admitted(cfg, after, first, from) == Min(1, Max(cfg.limit, 0));
      RemainingIsExact(cfg, s2, calls - 1, from);
      ExecConcat(cfg, after, first, Calls(calls - 1), from);
    }
  }

  lemma {:induction false} ResetsConcat(cfg: Config, s: State, a: seq<Step>, b: seq<Step>, from: int)
    ensures Resets(cfg, s, a + b, from) == Resets(cfg, s, a, from) + Resets(cfg, Exec(cfg, s, a), b, from)
  {
    if b == [] {
      assert a + b == a;
    } else {
      ResetsConcat(cfg, s, a, b[..|b| - 1], from);
      ExecConcat(cfg, s, a, b[..|b| - 1], from);
      assert (a + b)[..|a + b| - 1] == a + b[..|b| - 1];
    }
  }

  lemma OneMoreReset(cfg: Config, s: State)
    requires cfg.limit >= 1 && cfg.window >= 1 && s.arming == {} && s.now == cfg.window + 1
    ensures
      var run := [Reset] + FreshCalls(cfg.limit);
      && Possible(cfg, s, run) && Admitted(cfg, s, run, cfg.window) == cfg.limit && Resets(cfg, s, run, cfg.window) == 1
      && Exec(cfg, s, run).arming == {} && Exec(cfg, s, run).now == s.now
  {
    var after := Next(cfg, s, Reset);
    assert [Reset][..0] == [] && Exec(cfg, s, [Reset]) == after;
    ResetGivesLimitBack(cfg, s, cfg.limit, cfg.window);
    ExecConcat(cfg, s, [Reset], FreshCalls(cfg.limit), cfg.window);
    ResetsConcat(cfg, s, [Reset], FreshCalls(cfg.limit), cfg.window);
    assert Reset !in FreshCalls(cfg.limit);
    NoResetsCounted(cfg, after, FreshCalls(cfg.limit), cfg.window);
    assert Possible(cfg, s, [Reset]) && Admitted(cfg, s, [Reset], cfg.window) == 0;
    assert Resets(cfg, s, [Reset], cfg.window) == 1;
  }

  /** The bound is exact with resets as well: for every number of them some run with that many inside the window admits
      (resets + 2) * limit - 1 calls. */
  lemma {:induction false} BoundIsAttainedWithResets(cfg: Config, resets: nat) returns (run: seq<Step>)
    requires cfg.limit >= 1 && cfg.window >= 1
    ensures Possible(cfg, Initial(0), run) && Resets(cfg, Initial(0), run, cfg.window) == resets
    ensures Admitted(cfg, Initial(0), run, cfg.window) == (resets + 2) * cfg.limit - 1
    ensures Exec(cfg, Initial(0), run).arming == {} && Exec(cfg, Initial(0), run).now == cfg.window + 1
  {
    if resets == 0 {
      run := WorstRun(cfg);
      BoundIsAttained(cfg);
      NoResetsCounted(cfg, Initial(0), run, cfg.window);
    } else {
      var init := BoundIsAttainedWithResets(cfg, resets - 1);
      var s := Exec(cfg, Initial(0), init);
      run := init + ([Reset] + FreshCalls(cfg.limit));
      OneMoreReset(cfg, s);
      ExecConcat(cfg, Initial(0), init, [Reset] + FreshCalls(cfg.limit), cfg.window);
      ResetsConcat(cfg, Initial(0), init, [Reset] + FreshCalls(cfg.limit), cfg.window);
      assert (resets + 2) * cfg.limit == (resets + 1) * cfg.limit + cfg.limit;
    }
  }

  // ---------- The services ----------

  /** The connection to Redis: each command is one atomic step on the shared key. */
  class Redis {
    var now: int
    var key: Key
    var arming: set<nat>

    ghost function View(): State
      reads this
    {
      State(now, key, arming)
    }

    constructor (start: int)
      ensures View() == Initial(start)
    {
      now, key, arming := start, Absent, {};
    }

    method Incr(call: nat) returns (count: nat)
      modifies this
      ensures View() == Next(Config(0, 0), old(View()), Step.Incr(call))
      ensures count == Reply(old(View()))
    {
      if key.Live? && key.deadline.Some? && now > key.deadline.value {
        key := Absent;
      }
      if key.Absent? {
        key, count := Live(1, None), 1;
      } else {
        key, count := Live(key.count + 1, key.deadline), key.count + 1;
      }
      if count == 1 {
        arming := arming + {call};
      }
    }

    method Expire(call: nat, window: nat)
      modifies this
      ensures View() == Next(Config(0, window), old(View()), Step.Expire(call))
    {
      if key.Live? && key.deadline.Some? && now > key.deadline.value {
        key := Absent;
      }
      if key.Live? {
        key := Live(key.count, Some(now + window));
      }
      arming := arming - {call};
    }

    method Del()
      modifies this
      ensures View() == Next(Config(0, 0), old(View()), Step.Reset)
    {
      key := Absent;
    }
  }

  /** `RateLimitService` and `AutomationExecutionTracker` differ in their constants and in `Reset` only. */
  class WindowCounter {
    const redis: Redis
    const cfg: Config

    constructor (redis: Redis, cfg: Config)
      ensures this.redis == redis && this.cfg == cfg
    {
      this.redis, this.cfg := redis, cfg;
    }

    /** One call that nobody interrupts: the steps it takes and the verdict it returns. */
    method Enforce(call: nat) returns (allowed: bool)
      requires call !in redis.arming
      modifies redis
      ensures allowed == Admits(cfg, old(redis.View()), Step.Incr(call))
      ensures
        var steps := if Reply(old(redis.View())) == 1 then [Step.Incr(call), Step.Expire(call)] else [Step.Incr(call)];
        Possible(cfg, old(redis.View()), steps) && redis.View() == Exec(cfg, old(redis.View()), steps)
    {
      ghost var s := redis.View();
      Snoc(cfg, s, [], Step.Incr(call), 0);
      Snoc(cfg, s, [Step.Incr(call)], Step.Expire(call), 0);
      assert [] + [Step.Incr(call)] == [Step.Incr(call)];
      var count := redis.Incr(call);
      if count == 1 {
        redis.Expire(call, cfg.window);
      }
      allowed := count <= cfg.limit;
    }

    method GetRemaining() returns (remaining: nat)
      ensures remaining == Remaining(cfg, redis.View())
    {
      var count := 0;
      if redis.key.Live? && !(redis.key.deadline.Some? && redis.now > redis.key.deadline.value) {
        count := redis.key.count;
      }
      remaining := if count < cfg.limit then cfg.limit - count else 0;
    }

    method ResetKey()
      modifies redis
      ensures redis.View() == Next(cfg, old(redis.View()), Step.Reset)
    {
      redis.Del();
    }
  }
}
