/** The writers of a reminder's status.

    Besides the worker these are the cancellations of the scheduler and of an RSVP reply, the delivery callback and the
    handler of exhausted retries. All but the RSVP reply write without looking at what they overwrite. */
module ReminderStatus {
  import opened ReminderJob

  /** An attempt that read PENDING, up to its last update; `Failing`: the retries are used up, and the failed handler is
      to run. */
  datatype Flight = Working | Failing | Ended

  /** `logged`: a message of the reminder is in the log, so that a delivery callback finds it. `cancelling`: the
      scheduler has read the reminder as PENDING and is about to cancel it. */
  datatype State = State(status: Status, flights: seq<Flight>, logged: bool, cancelling: nat)

  datatype Step =
    | Start                                         // an attempt reads the row
    | Log(flight: nat)                              // a send succeeded and is in the log
    | Settle(flight: nat, final: Status, last: bool)  // the last update; `last`: it throws, and no retry is left
    | Cut(flight: nat, last: bool)
    | Exhaust(flight: nat)
    | FindPending
    | Cancel
    | CancelFails                                   // removing the job from the queue throws
    | ReplyCancels                                  // `updateMany` on PENDING rows only
    | Delivered

  // ---------- Runs ----------

  predicate Enabled(s: State, step: Step) {
    match step
    case Start => true
    case Log(k) => k < |s.flights| && s.flights[k] == Working
    case Settle(k, final, last) =>
      && k < |s.flights| && s.flights[k] == Working && final in {SENT, FAILED, CANCELLED}
      && (last ==> final == FAILED)
    case Cut(k, _) => k < |s.flights| && s.flights[k] == Working
    case Exhaust(k) => k < |s.flights| && s.flights[k] == Failing
    case FindPending => true
    case Cancel => s.cancelling > 0
    case CancelFails => s.cancelling > 0
    case ReplyCancels => true
    case Delivered => s.logged
  }

  function Next(s: State, step: Step): State
    requires Enabled(s, step)
  {
    match step
    case Start => if s.status == PENDING then s.(flights := s.flights + [Working]) else s
    case Log(_) => s.(logged := true)
    case Settle(k, final, last) => s.(status := final, flights := s.flights[k := if last then Failing else Ended])
    case Cut(k, last) => s.(flights := s.flights[k := if last then Failing else Ended])
    case Exhaust(k) => s.(status := FAILED, flights := s.flights[k := Ended])
    case FindPending => if s.status == PENDING then s.(cancelling := s.cancelling + 1) else s
    case Cancel => s.(status := CANCELLED, cancelling := s.cancelling - 1)
    case CancelFails => s.(cancelling := s.cancelling - 1)
    case ReplyCancels => if s.status == PENDING then s.(status := CANCELLED) else s
    case Delivered => s.(status := DELIVERED)
  }

  ghost predicate Possible(s: State, run: seq<Step>)
    decreases |run|, 0
  {
    run != [] ==>
      && Possible(s, run[..|run| - 1])
      && Enabled(Exec(s, run[..|run| - 1]), run[|run| - 1])
  }

  ghost function Exec(s: State, run: seq<Step>): State
    requires Possible(s, run)
    decreases |run|, 1
  {
    if run == [] then s else Next(Exec(s, run[..|run| - 1]), run[|run| - 1])
  }

  ghost predicate Reaches(s: State, s': State) { exists run :: Possible(s, run) && Exec(s, run) == s' }

  lemma ReachOne(s: State, step: Step)
    requires Enabled(s, step)
    ensures Reaches(s, Next(s, step))
  {
    var run := [step];
    assert run[..|run| - 1] == [];
    assert Possible(s, []) && Exec(s, []) == s;
    assert Possible(s, run) && Exec(s, run) == Next(s, step);
  }

  // ---------- Once settled ----------

  /** A reminder that has left PENDING never returns to it, and no further attempt works on it. */
  lemma {:induction false} NeverPendingAgain(s: State, run: seq<Step>)
    requires Possible(s, run) && s.status != PENDING
    ensures Exec(s, run).status != PENDING && |Exec(s, run).flights| == |s.flights|
  {
    if run != [] {
      NeverPendingAgain(s, run[..|run| - 1]);
    }
  }

  /** Who can change a settled status, and to what: an attempt that read the row before, the failed handler, the
      scheduler and a delivery callback; never a reply, and never an attempt that starts now. */
  lemma OverwrittenBy(s: State, step: Step)
    requires Enabled(s, step) && s.status != PENDING && Next(s, step).status != s.status
    ensures
      match step
      case Settle(k, final, _) => s.flights[k] == Working && Next(s, step).status == final
      case Exhaust(k) => s.flights[k] == Failing && Next(s, step).status == FAILED
      case Cancel => Next(s, step).status == CANCELLED
      case Delivered => s.logged && Next(s, step).status == DELIVERED
      case _ => false
  {
  }

  /** A reply cancels exactly the reminders that are pending. */
  lemma ReplyCancelsIff(s: State)
    ensures Next(s, ReplyCancels) == s.(status := CANCELLED) <==> s.status in {PENDING, CANCELLED}
    ensures s.status != PENDING ==> Next(s, ReplyCancels) == s
  {
  }

  // ---------- What can come of a reminder ----------

  lemma ReachThen(s: State, s1: State, step: Step) returns (s2: State)
    requires Reaches(s, s1) && Enabled(s1, step)
    ensures s2 == Next(s1, step) && Reaches(s, s2)
  {
    var run :| Possible(s, run) && Exec(s, run) == s1;
    assert (run + [step])[..|run|] == run;
    s2 := Next(s1, step);
    assert Possible(s, run + [step]) && Exec(s, run + [step]) == s2;
  }

  /** What each step does to the attempts: only a pending row gets one; it ends at its last update or its cut, and
      leaves the failed handler to run exactly when that was an error without a retry; and nothing else touches it. */
  lemma FlightsAfter(s: State, step: Step)
    requires Enabled(s, step)
    ensures
      var s' := Next(s, step);
      match step
      case Start => s'.flights == s.flights + (if s.status == PENDING then [Working] else [])
      case Settle(k, _, last) => s'.flights == s.flights[k := s'.flights[k]] && (s'.flights[k] == Failing <==> last) &&
        s'.flights[k] != Working
      case Cut(k, last) => s'.flights == s.flights[k := s'.flights[k]] && (s'.flights[k] == Failing <==> last) &&
        s'.flights[k] != Working && s'.status == s.status
      case Exhaust(k) => s'.flights == s.flights[k := Ended]
      case _ => s'.flights == s.flights
    ensures Next(s, step).logged <==> s.logged || step.Log?
    ensures Next(s, step).cancelling == s.cancelling
      + (if step.FindPending? && s.status == PENDING then 1 else 0)
      - (if step.Cancel? || step.CancelFails? then 1 else 0)
  {
  }

  /** A pending reminder can still come to every other status. */
  lemma PendingCanBecome(s: State, final: Status)
    requires s.status == PENDING && final != PENDING
    ensures exists s' :: Reaches(s, s') && s'.status == final
  {
    var k := |s.flights|;
    ReachOne(s, Start);
    var s1 := Next(s, Start);
    assert s1.flights[k] == Working;
    var s2 := ReachThen(s, s1, Log(k));
    var s3 := ReachThen(s, s2, Settle(k, if final == DELIVERED then SENT else final, false));
    if final == DELIVERED {
      var s4 := ReachThen(s, s3, Delivered);
    }
  }

  /** So it can by its failed handler, when the last attempt is cut. */
  lemma LastCutFails(s: State)
    requires s.status == PENDING
    ensures exists s' :: Reaches(s, s') && s'.status == FAILED && s'.flights == s.flights + [Ended]
  {
    var k := |s.flights|;
    ReachOne(s, Start);
    var s1 := Next(s, Start);
    assert s1.flights[k] == Working;
    var s2 := ReachThen(s, s1, Step.Cut(k, true));
    var s3 := ReachThen(s, s2, Exhaust(k));
    assert s3.flights == s.flights + [Ended];
  }

  /** The scheduler, too, writes on what it read: a reminder that is sent meanwhile is marked cancelled. */
  lemma StaleCancellationHidesSend(s: State)
    requires s.status == PENDING
    ensures exists s' :: Reaches(s, s') && s'.status == CANCELLED && s'.logged && s'.cancelling == s.cancelling
  {
    var k := |s.flights|;
    ReachOne(s, FindPending);
    var s1 := Next(s, FindPending);
    var s2 := ReachThen(s, s1, Start);
    assert s2.flights[k] == Working;
    var s3 := ReachThen(s, s2, Log(k));
    var s4 := ReachThen(s, s3, Settle(k, SENT, false));
    var s5 := ReachThen(s, s4, Cancel);
  }

  // ---------- Cancelled for good ----------

  /** Somebody may still write another status: an attempt that read the row before, the failed handler, or a delivery
      callback. */
  predicate Open(s: State) { s.logged || exists f :: f in s.flights && f != Ended }

  ghost predicate StaysCancelled(s: State) { forall s' :: Reaches(s, s') ==> s'.status == CANCELLED }

  lemma ClosedStep(s: State, step: Step)
    requires Enabled(s, step) && s.status == CANCELLED && !Open(s)
    ensures Next(s, step).status == CANCELLED && !Open(Next(s, step))
  {
    assert forall k :: 0 <= k < |s.flights| ==> s.flights[k] in s.flights && s.flights[k] == Ended;
  }

  lemma {:induction false} ClosedRun(s: State, run: seq<Step>)
    requires Possible(s, run) && s.status == CANCELLED && !Open(s)
    ensures Exec(s, run).status == CANCELLED && !Open(Exec(s, run))
  {
    if run != [] {
      ClosedRun(s, run[..|run| - 1]);
      ClosedStep(Exec(s, run[..|run| - 1]), run[|run| - 1]);
    }
  }

  /** A cancelled reminder stays cancelled, whatever starts from now on, exactly when none of its messages is in the log
      and no attempt that read it as PENDING is still at work or has its failed handler to come: the worker overwrites a
      cancellation that came after its read, and a delivery callback overwrites any. */
  lemma CancelledIsFinalIff(s: State)
    requires s.status == CANCELLED
    ensures StaysCancelled(s) <==> !Open(s)
  {
    if s.logged {
      ReachOne(s, Delivered);
    } else if f :| f in s.flights && f != Ended {
      var k :| 0 <= k < |s.flights| && s.flights[k] == f;
      var step := if f == Working then Settle(k, SENT, false) else Exhaust(k);
      ReachOne(s, step);
      assert Next(s, step).status != CANCELLED;
    } else {
      forall s' | Reaches(s, s') ensures s'.status == CANCELLED {
        var run :| Possible(s, run) && Exec(s, run) == s';
        ClosedRun(s, run);
      }
    }
  }
}
