/** A fired trigger fans out into one delayed job for each action; the jobs count themselves on the execution row. */
module Workflow {
  import opened Decimals

  datatype Action = Action(id: nat, delayMinutes: nat)

  datatype Job = Job(jobId: string, execution: string, action: nat, delay: nat, isLast: bool)

  // ---------- Fan-out ----------

  function DelaySum(actions: seq<Action>): nat {
    if actions == [] then 0 else DelaySum(actions[..|actions| - 1]) + actions[|actions| - 1].delayMinutes
  }

  function JobId(execution: string, i: nat): string { "wf_" + execution + "_step_" + Decimal(i) }

  /** Job ids differ between the steps of an execution, and between executions, whose ids have the same length. */
  lemma JobIdsDiffer(e: string, i: nat, e': string, i': nat)
    requires |e| == |e'|
    ensures JobId(e, i) == JobId(e', i') ==> e == e' && i == i'
  {
    var a, b := JobId(e, i), JobId(e', i');
    if a == b {
      assert a[3..3 + |e|] == e && b[3..3 + |e|] == e';
      assert a[3 + |e| + 6..] == Decimal(i) && b[3 + |e| + 6..] == Decimal(i');
      DecimalRoundTrip(i);
      DecimalRoundTrip(i');
    }
  }

  lemma {:induction false} DelaysGrow(actions: seq<Action>, k: nat, m: nat)
    requires k <= m <= |actions|
    ensures DelaySum(actions[..k]) <= DelaySum(actions[..m])
    decreases m
  {
    if k < m {
      DelaysGrow(actions, k, m - 1);
      assert actions[..m][..m - 1] == actions[..m - 1];
    }
  }

  /** The loop over the actions of one workflow: step i waits for the delays of all steps up to its own, exactly one job
      is marked last, and no two jobs share an id. */
  method QueueActions(execution: string, actions: seq<Action>) returns (jobs: seq<Job>)
    ensures |jobs| == |actions|
    ensures forall i :: 0 <= i < |jobs| ==> jobs[i].delay == DelaySum(actions[..i + 1]) * 60 * 1000
    ensures forall i :: 0 <= i < |jobs| ==>
      jobs[i].action == actions[i].id && jobs[i].execution == execution && jobs[i].jobId == JobId(execution, i)
    ensures forall i :: 0 <= i < |jobs| ==> (jobs[i].isLast <==> i == |actions| - 1)
    ensures forall i, j :: 0 <= i < j < |jobs| ==> jobs[i].delay <= jobs[j].delay && jobs[i].jobId != jobs[j].jobId
  {
    jobs := [];
    var cumulativeDelay := 0;
    var i := 0;
    while i < |actions|
      invariant i <= |actions| && |jobs| == i && cumulativeDelay == DelaySum(actions[..i]) * 60 * 1000
      invariant forall k :: 0 <= k < i ==>
        jobs[k] == Job(JobId(execution, k), execution, actions[k].id, DelaySum(actions[..k + 1]) * 60 * 1000,
                       k == |actions| - 1)
    {
      assert actions[..i + 1][..i] == actions[..i];
      cumulativeDelay := cumulativeDelay + actions[i].delayMinutes * 60 * 1000;
      jobs := jobs + [Job(JobId(execution, i), execution, actions[i].id, cumulativeDelay, i == |actions| - 1)];
      i := i + 1;
    }
    forall k, m | 0 <= k < m < |jobs| ensures jobs[k].delay <= jobs[m].delay && jobs[k].jobId != jobs[m].jobId {
      JobIdsDiffer(execution, k, execution, m);
      DelaysGrow(actions, k + 1, m + 1);
    }
  }

  // ---------- Processing ----------

  datatype Status = RUNNING | COMPLETED | FAILED

  /** `lost` counts the attempts that incremented a counter and did not finish, so that their job runs again. */
  datatype Execution = Execution(status: Status, run: nat, skipped: nat, finished: set<nat>, lost: nat)

  datatype Outcome =
    | Skipped      // the action is gone, or a condition fails
    | Ran
    | Failed       // executing the action throws
    | SkippedLost(marked: bool)  // as above, and the attempt dies before the queue hears of it; `marked`: it got as
    | RanLost(marked: bool)      // far as marking the execution, if its step is the last

  datatype Attempt = Attempt(step: nat, outcome: Outcome)

  const START := Execution(RUNNING, 0, 0, {}, 0)

  predicate Finishes(a: Attempt) { a.outcome == Skipped || a.outcome == Ran }

  /** The attempt reaches `markExecutionComplete`. */
  predicate Marks(n: nat, a: Attempt) {
    a.step == n - 1 && match a.outcome
      case Skipped => true
      case Ran => true
      case Failed => false
      case SkippedLost(marked) => marked
      case RanLost(marked) => marked
  }

  /** One attempt of the job of a step, of n steps. */
  function Process(n: nat, e: Execution, a: Attempt): Execution {
    var status := if Marks(n, a) then COMPLETED else e.status;
    match a.outcome
    case Skipped => e.(skipped := e.skipped + 1, finished := e.finished + {a.step}, status := status)
    case Ran => e.(run := e.run + 1, finished := e.finished + {a.step}, status := status)
    case Failed => e.(status := FAILED)
    case SkippedLost(_) => e.(skipped := e.skipped + 1, lost := e.lost + 1, status := status)
    case RanLost(_) => e.(run := e.run + 1, lost := e.lost + 1, status := status)
  }

  function ProcessAll(n: nat, attempts: seq<Attempt>): Execution {
    if attempts == [] then START else Process(n, ProcessAll(n, attempts[..|attempts| - 1]), attempts[|attempts| - 1])
  }

  /** The queue runs a job again until it finishes, in any order between the steps. */
  ghost predicate Possible(n: nat, attempts: seq<Attempt>) {
    attempts != [] ==>
      && Possible(n, attempts[..|attempts| - 1])
      && attempts[|attempts| - 1].step < n
      && attempts[|attempts| - 1].step !in ProcessAll(n, attempts[..|attempts| - 1]).finished
  }

  lemma CountStep(n: nat, e: Execution, a: Attempt)
    requires a.step < n && a.step !in e.finished
    ensures
      var e' := Process(n, e, a);
      && e'.run + e'.skipped - |e'.finished| - e'.lost == e.run + e.skipped - |e.finished| - e.lost
      && e'.finished <= e.finished + {a.step}
  {
  }

  lemma {:induction false} BoundedSet(n: nat, s: set<nat>)
    requires forall i :: i in s ==> i < n
    ensures |s| <= n && (|s| == n <==> forall i: nat :: i < n ==> i in s)
  {
    if n > 0 {
      var rest := s - {n - 1};
      BoundedSet(n - 1, rest);
      assert forall i: nat :: i < n - 1 ==> (i in s <==> i in rest);
      assert |s| == |rest| + if n - 1 in s then 1 else 0;
    }
  }

  /** In any order and under any retries the two counters add up to the finished jobs, plus one for each lost attempt,
      and never exceed the number of steps otherwise. */
  lemma {:induction false} CountersAddUp(n: nat, attempts: seq<Attempt>)
    requires Possible(n, attempts)
    ensures
      var e := ProcessAll(n, attempts);
      && e.run + e.skipped == |e.finished| + e.lost
      && (forall i :: i in e.finished ==> i < n)
      && |e.finished| <= n
  {
    if attempts != [] {
      var last := |attempts| - 1;
      CountersAddUp(n, attempts[..last]);
      CountStep(n, ProcessAll(n, attempts[..last]), attempts[last]);
    }
    BoundedSet(n, ProcessAll(n, attempts).finished);
  }

  predicate CountsAsRun(a: Attempt) { a.outcome == Ran || a.outcome.RanLost? }

  predicate CountsAsSkipped(a: Attempt) { a.outcome == Skipped || a.outcome.SkippedLost? }

  function RunBy(attempts: seq<Attempt>): set<nat> { set k | 0 <= k < |attempts| && CountsAsRun(attempts[k]) }

  function SkippedBy(attempts: seq<Attempt>): set<nat> { set k | 0 <= k < |attempts| && CountsAsSkipped(attempts[k]) }

  lemma RunBySnoc(attempts: seq<Attempt>, a: Attempt)
    ensures |RunBy(attempts + [a])| == |RunBy(attempts)| + if CountsAsRun(a) then 1 else 0
  {
    var n := |attempts|;
    assert RunBy(attempts + [a]) == RunBy(attempts) + (if CountsAsRun(a) then {n} else {});
  }

  lemma SkippedBySnoc(attempts: seq<Attempt>, a: Attempt)
    ensures |SkippedBy(attempts + [a])| == |SkippedBy(attempts)| + if CountsAsSkipped(a) then 1 else 0
  {
    var n := |attempts|;
    assert SkippedBy(attempts + [a]) == SkippedBy(attempts) + (if CountsAsSkipped(a) then {n} else {});
  }

  /** Each counter by itself: `run` counts the attempts whose action was executed, `skipped` those that passed it over,
      and failed attempts count as neither. */
  lemma {:induction false} CountersByOutcome(n: nat, attempts: seq<Attempt>)
    ensures ProcessAll(n, attempts).run == |RunBy(attempts)| && ProcessAll(n, attempts).skipped == |SkippedBy(attempts)|
  {
    if attempts != [] {
      var init, last := attempts[..|attempts| - 1], attempts[|attempts| - 1];
      CountersByOutcome(n, init);
      assert attempts == init + [last];
      RunBySnoc(init, last);
      SkippedBySnoc(init, last);
    }
  }

  /** The finished steps are those with an attempt that finished. */
  lemma {:induction false} FinishedIff(n: nat, attempts: seq<Attempt>, step: nat)
    ensures step in ProcessAll(n, attempts).finished
       <==> exists k :: 0 <= k < |attempts| && attempts[k].step == step && Finishes(attempts[k])
  {
    if attempts != [] {
      var last := |attempts| - 1;
      FinishedIff(n, attempts[..last], step);
      assert forall k :: 0 <= k < last ==> attempts[..last][k] == attempts[k];
    }
  }

  /** The status is what the latest failure or the last step wrote: COMPLETED means that an attempt of the last step got
      to its end and no attempt has failed since, whatever the other steps did. */
  lemma {:induction false} CompletedMeans(n: nat, attempts: seq<Attempt>)
    requires Possible(n, attempts)
    ensures ProcessAll(n, attempts).status == COMPLETED
       <==> exists k :: 0 <= k < |attempts| && Marks(n, attempts[k]) &&
                        forall m :: k < m < |attempts| ==> attempts[m].outcome != Failed
    ensures ProcessAll(n, attempts).status == RUNNING
       <==> forall k :: 0 <= k < |attempts| ==>
              attempts[k].outcome != Failed && !Marks(n, attempts[k])
  {
    if attempts != [] {
      var last := |attempts| - 1;
      CompletedMeans(n, attempts[..last]);
      assert forall k :: 0 <= k < last ==> attempts[..last][k] == attempts[k];
    }
  }

  predicate Clean(attempts: seq<Attempt>) { forall a :: a in attempts ==> Finishes(a) }

  lemma {:induction false} CleanFinish(n: nat, attempts: seq<Attempt>)
    requires n > 0 && Clean(attempts)
    ensures
      var e := ProcessAll(n, attempts);
      e.lost == 0 && e.status != FAILED && (e.status == COMPLETED <==> n - 1 in e.finished)
  {
    if attempts != [] {
      assert attempts[|attempts| - 1] in attempts;
      CleanFinish(n, attempts[..|attempts| - 1]);
    }
  }

  /** Without failures and losses: COMPLETED goes with the last step alone, so the execution is marked COMPLETED before
      its time exactly when some other step is still outstanding by then. */
  lemma {:induction false} CompletedEarlyIff(n: nat, attempts: seq<Attempt>)
    requires n > 0 && Possible(n, attempts) && Clean(attempts)
    ensures
      var e := ProcessAll(n, attempts);
      && (e.status == COMPLETED <==> n - 1 in e.finished)
      && ((e.status == COMPLETED && e.run + e.skipped < n) <==>
          (n - 1 in e.finished && exists i: nat :: i < n && i !in e.finished))
  {
    CountersAddUp(n, attempts);
    CleanFinish(n, attempts);
    BoundedSet(n, ProcessAll(n, attempts).finished);
  }

  /** The delays let steps finish in order when each is done before the next one is due: then COMPLETED is set exactly
      when the counters reach the number of steps. */
  lemma {:induction false} InOrderCompletes(n: nat, attempts: seq<Attempt>)
    requires n > 0 && |attempts| <= n && Clean(attempts)
    requires forall k :: 0 <= k < |attempts| ==> attempts[k].step == k
    ensures Possible(n, attempts)
    ensures
      var e := ProcessAll(n, attempts);
      && (forall i: nat :: i in e.finished <==> i < |attempts|)
      && e.run + e.skipped == |attempts|
      && (e.status == COMPLETED <==> e.run + e.skipped == n)
  {
    if attempts != [] {
      assert attempts[|attempts| - 1] in attempts;
      InOrderCompletes(n, attempts[..|attempts| - 1]);
    }
    CleanFinish(n, attempts);
  }

  // ---------- The processor ----------

  class Processor {
    const steps: nat
    var status: Status
    var run: nat
    var skipped: nat
    ghost var finished: set<nat>

    ghost function View(): Execution
      reads this
    {
      Execution(status, run, skipped, finished, 0)
    }

    constructor (steps: nat)
      ensures this.steps == steps && View() == START
    {
      this.steps, status, run, skipped, finished := steps, RUNNING, 0, 0, {};
    }

    /** All conditions must pass; evaluation stops at the first that does not. */
    method EvaluateConditions(passed: seq<bool>) returns (met: bool, evaluated: nat)
      ensures met <==> forall p :: p in passed ==> p
      ensures evaluated <= |passed| && (forall k :: 0 <= k < evaluated - 1 ==> passed[k])
      ensures if met then evaluated == |passed| else evaluated > 0 && !passed[evaluated - 1]
    {
      evaluated := 0;
      while evaluated < |passed|
        invariant evaluated <= |passed| && forall k :: 0 <= k < evaluated ==> passed[k]
      {
        evaluated := evaluated + 1;
        if !passed[evaluated - 1] {
          assert passed[evaluated - 1] in passed;
          return false, evaluated;
        }
      }
      met := true;
    }

    /** One attempt: `found` says whether the action row is there, `succeeds` whether executing it throws. */
    method ProcessJob(step: nat, found: bool, passed: seq<bool>, succeeds: bool) returns (threw: bool)
      modifies this
      ensures
        var outcome := if !found || exists p :: p in passed && !p then Skipped else if succeeds then Ran else Failed;
        View() == Process(steps, old(View()), Attempt(step, outcome)) && threw == (outcome == Failed)
    {
      var isLast := step as int == steps - 1;
      var met, _ := EvaluateConditions(passed);
      if !found || !met {
        skipped, finished := skipped + 1, finished + {step};
        if isLast {
          status := COMPLETED;
        }
        return false;
      }
      if !succeeds {
        status := FAILED;
        return true;
      }
      run, finished := run + 1, finished + {step};
      if isLast {
        status := COMPLETED;
      }
      return false;
    }
  }
}
