/** The response interceptor that refreshes an expired session once for all requests that fail with 401.

    The browser runs one callback at a time, so each callback is a step; responses, the refresh call and the callbacks
    of settled promises arrive in any order. */
module TokenRefresh {
  import opened Arithmetic

  datatype Phase =
    | InFlight             // waiting for a response
    | Leading              // waiting for the refresh it started
    | Queued               // waiting in failedQueue
    | Released             // resolved by the queue, not yet sent again
    | Settled(ok: bool)

  /** `waits` and `wakes` count how often the request entered the queue and how often its promise was settled. */
  datatype Request = Request(phase: Phase, auth: bool, retry: bool, waits: nat, wakes: nat)

  datatype State = State(isRefreshing: bool, failedQueue: seq<nat>, requests: seq<Request>, refreshes: nat)

  datatype Response = Ok | Unauthorized | OtherError

  datatype Step =
    | Issue(auth: bool)
    | Respond(id: nat, response: Response)
    | RefreshDone(id: nat, ok: bool)
    | Resume(id: nat)

  predicate Enabled(s: State, step: Step) {
    match step
    case Issue(_) => true
    case Respond(id, _) => id < |s.requests| && s.requests[id].phase == InFlight
    case RefreshDone(id, _) => id < |s.requests| && s.requests[id].phase == Leading
    case Resume(id) => id < |s.requests| && s.requests[id].phase == Released
  }

  /** What processQueue does to one waiter. */
  function Woken(r: Request, ok: bool): Request {
    r.(phase := if ok then Released else Settled(false), wakes := r.wakes + 1)
  }

  function Wake(s: State, ok: bool): seq<Request> {
    seq(|s.requests|, i requires 0 <= i < |s.requests| =>
      if i in s.failedQueue then Woken(s.requests[i], ok) else s.requests[i])
  }

  function Next(s: State, step: Step): State
    requires Enabled(s, step)
  {
    match step
    case Issue(auth) => s.(requests := s.requests + [Request(InFlight, auth, false, 0, 0)])
    case Respond(id, response) =>
      var r := s.requests[id];
      if response == Ok then s.(requests := s.requests[id := r.(phase := Settled(true))])
      else if r.auth || response == OtherError || r.retry then
        s.(requests := s.requests[id := r.(phase := Settled(false))])
      else if s.isRefreshing then
        s.(requests := s.requests[id := r.(phase := Queued, waits := r.waits + 1)], failedQueue := s.failedQueue + [id])
      else
        s.(requests := s.requests[id := r.(phase := Leading, retry := true)], isRefreshing := true,
           refreshes := s.refreshes + 1)
    case RefreshDone(id, ok) =>
      var woken := Wake(s, ok);
      State(false, [], woken[id := woken[id].(phase := if ok then InFlight else Settled(false))], s.refreshes)
    case Resume(id) => s.(requests := s.requests[id := s.requests[id].(phase := InFlight)])
  }

  ghost predicate Possible(s: State, run: seq<Step>)
    decreases |run|
  {
    run != [] ==> Enabled(s, run[0]) && Possible(Next(s, run[0]), run[1..])
  }

  function Exec(s: State, run: seq<Step>): State
    requires Possible(s, run)
    decreases |run|
  {
    if run == [] then s else Exec(Next(s, run[0]), run[1..])
  }

  const START := State(false, [], [], 0)

  // ---------- What each callback decides ----------

  /** A refused request takes part in refreshing: it is refused with 401, is not an authentication call, and has not led
      a refresh before. */
  predicate WantsRefresh(r: Request, response: Response) { response == Unauthorized && !r.auth && !r.retry }

  /** A response starts a refresh exactly when its request wants one and none is under way; it waits for one exactly
      when one is; every other error rejects the request at once, and success settles it. */
  lemma RefreshStartsIff(s: State, id: nat, response: Response)
    requires Enabled(s, Respond(id, response))
    ensures
      var s', r := Next(s, Respond(id, response)), s.requests[id];
      var r', wants := s'.requests[id], WantsRefresh(r, response);
      && s'.refreshes == s.refreshes + (if wants && !s.isRefreshing then 1 else 0)
      && (s'.isRefreshing <==> s.isRefreshing || wants)
      && (r'.phase == Leading <==> wants && !s.isRefreshing)
      && (r'.phase == Queued <==> wants && s.isRefreshing)
      && s'.failedQueue == s.failedQueue + (if wants && s.isRefreshing then [id] else [])
      && (r'.phase == Settled(true) <==> response == Ok)
      && (r'.phase == Settled(false) <==> response != Ok && !wants)
      && (r'.retry <==> r.retry || r'.phase == Leading) && r'.auth == r.auth
      && |s'.requests| == |s.requests|
      && forall j :: 0 <= j < |s.requests| && j != id ==> s'.requests[j] == s.requests[j]
  {
  }

  /** The end of a refresh reaches its leader and every waiter, and nobody else: after a success they are sent again,
      after a failure they are rejected. */
  lemma RefreshEnds(s: State, id: nat, ok: bool)
    requires Enabled(s, RefreshDone(id, ok)) && id !in s.failedQueue
    ensures
      var s' := Next(s, RefreshDone(id, ok));
      && !s'.isRefreshing && s'.failedQueue == [] && s'.refreshes == s.refreshes && |s'.requests| == |s.requests|
      && (forall i :: 0 <= i < |s.requests| ==>
            if i == id then s'.requests[i] == s.requests[i].(phase := if ok then InFlight else Settled(false))
            else if i in s.failedQueue then
              && s'.requests[i].phase == (if ok then Released else Settled(false))
              && s'.requests[i].retry == s.requests[i].retry && s'.requests[i].auth == s.requests[i].auth
            else s'.requests[i] == s.requests[i])
  {
  }

  /** A released waiter is sent again as it was first sent, so it may lead a refresh of its own. */
  lemma ReleasedMayLead(s: State, id: nat)
    requires Enabled(s, Resume(id)) && !s.requests[id].auth && !s.requests[id].retry && !s.isRefreshing
    ensures
      var again := Next(s, Resume(id));
      && Enabled(again, Respond(id, Unauthorized))
      && Next(again, Respond(id, Unauthorized)).requests[id].phase == Leading
  {
  }

  // ---------- Sums over the requests ----------

  function Total(rs: seq<Request>, f: Request -> nat): nat {
    if rs == [] then 0 else Total(rs[..|rs| - 1], f) + f(rs[|rs| - 1])
  }

  lemma {:induction false} TotalUpdate(rs: seq<Request>, f: Request -> nat, i: nat, r: Request)
    requires i < |rs|
    ensures Total(rs[i := r], f) == Total(rs, f) - f(rs[i]) + f(r)
  {
    var n := |rs| - 1;
    if i < n {
      TotalUpdate(rs[..n], f, i, r);
      assert rs[i := r][..n] == rs[..n][i := r];
    } else {
      assert rs[i := r][..n] == rs[..n];
    }
  }

  lemma {:induction false} TotalMonotone(rs: seq<Request>, rs': seq<Request>, f: Request -> nat)
    requires |rs| == |rs'| && forall i :: 0 <= i < |rs| ==> f(rs'[i]) <= f(rs[i])
    ensures Total(rs', f) <= Total(rs, f)
  {
    if rs != [] {
      TotalMonotone(rs[..|rs| - 1], rs'[..|rs| - 1], f);
    }
  }

  lemma {:induction false} TotalAtMost(rs: seq<Request>, f: Request -> nat, k: nat)
    requires forall r :: f(r) <= k
    ensures Total(rs, f) <= k * |rs|
  {
    if rs != [] {
      TotalAtMost(rs[..|rs| - 1], f, k);
    }
  }

  function Marked(r: Request): nat { if r.retry then 1 else 0 }

  function Open(r: Request): nat { if !r.retry && !r.phase.Settled? then 1 else 0 }

  function Rank(r: Request): nat {
    match r.phase
    case Released => 3
    case InFlight => 2
    case Queued => 1
    case _ => 0
  }

  // ---------- The invariant ----------

  predicate Distinct(q: seq<nat>) { forall i, j :: 0 <= i < j < |q| ==> q[i] != q[j] }

  predicate Leads(rs: seq<Request>, i: int) { 0 <= i < |rs| && rs[i].phase == Leading }

  /** At most one leader, present exactly while refreshing; the queue holds the waiting requests, once each. */
  ghost predicate QueueInv(s: State) {
    var rs := s.requests;
    && (forall i, j :: Leads(rs, i) && Leads(rs, j) ==> i == j)
    && (s.isRefreshing <==> exists i :: Leads(rs, i))
    && (!s.isRefreshing ==> s.failedQueue == [])
    && Distinct(s.failedQueue)
    && (forall i :: i in s.failedQueue <==> 0 <= i < |rs| && rs[i].phase == Queued)
  }

  predicate RequestInv(r: Request) {
    && (r.phase == Leading ==> r.retry)
    && (r.phase == Queued || r.phase == Released ==> !r.retry)
    && (r.retry || r.waits > 0 ==> !r.auth)
    && r.waits == r.wakes + if r.phase == Queued then 1 else 0
  }

  ghost predicate RequestsInv(s: State) {
    forall i :: 0 <= i < |s.requests| ==> RequestInv(s.requests[i])
  }

  ghost predicate Inv(s: State) {
    && QueueInv(s)
    && RequestsInv(s)
    && s.refreshes == Total(s.requests, Marked)
  }

  lemma QueueInvRespond(s: State, id: nat, response: Response)
    requires QueueInv(s) && Enabled(s, Respond(id, response))
    ensures QueueInv(Next(s, Respond(id, response)))
  {
    var s' := Next(s, Respond(id, response));
    assert forall i :: i != id ==> (Leads(s.requests, i) <==> Leads(s'.requests, i));
    assert id !in s.failedQueue;
    if s.isRefreshing {
      var leader :| Leads(s.requests, leader);
      assert Leads(s'.requests, leader);
    } else if s'.isRefreshing {
      assert Leads(s'.requests, id);
    }
  }

  lemma QueueInvRefreshDone(s: State, id: nat, ok: bool)
    requires QueueInv(s) && Enabled(s, RefreshDone(id, ok))
    ensures QueueInv(Next(s, RefreshDone(id, ok)))
  {
    var rs, s' := s.requests, Next(s, RefreshDone(id, ok));
    assert Leads(rs, id);
    forall i | 0 <= i < |rs| ensures s'.requests[i].phase != Leading && s'.requests[i].phase != Queued {
      assert i != id ==> !Leads(rs, i);
    }
  }

  lemma QueueInvOther(s: State, step: Step)
    requires QueueInv(s) && Enabled(s, step) && (step.Issue? || step.Resume?)
    ensures QueueInv(Next(s, step))
  {
    var rs, rs' := s.requests, Next(s, step).requests;
    assert forall i :: Leads(rs, i) <==> Leads(rs', i);
    assert forall i :: (0 <= i < |rs| && rs[i].phase == Queued) <==> (0 <= i < |rs'| && rs'[i].phase == Queued);
  }

  lemma RequestsInvStep(s: State, step: Step)
    requires QueueInv(s) && RequestsInv(s) && Enabled(s, step)
    ensures RequestsInv(Next(s, step))
  {
    var rs, rs' := s.requests, Next(s, step).requests;
    forall i | 0 <= i < |rs'| ensures RequestInv(rs'[i]) {
      if i < |rs| {
        assert RequestInv(rs[i]);
        assert i in s.failedQueue <==> rs[i].phase == Queued;
      }
    }
  }

  lemma MarkedIssue(s: State, auth: bool)
    ensures Total(Next(s, Issue(auth)).requests, Marked) == Total(s.requests, Marked)
  {
    assert Next(s, Issue(auth)).requests[..|s.requests|] == s.requests;
  }

  lemma MarkedResume(s: State, id: nat)
    requires Enabled(s, Resume(id))
    ensures Total(Next(s, Resume(id)).requests, Marked) == Total(s.requests, Marked)
  {
    TotalUpdate(s.requests, Marked, id, Next(s, Resume(id)).requests[id]);
  }

  lemma MarkedRespond(s: State, id: nat, response: Response)
    requires Enabled(s, Respond(id, response))
    ensures
      var s' := Next(s, Respond(id, response));
      Total(s'.requests, Marked) - Total(s.requests, Marked) == s'.refreshes - s.refreshes
  {
    TotalUpdate(s.requests, Marked, id, Next(s, Respond(id, response)).requests[id]);
  }

  lemma MarkedRefreshDone(s: State, id: nat, ok: bool)
    requires Enabled(s, RefreshDone(id, ok))
    ensures Total(Next(s, RefreshDone(id, ok)).requests, Marked) == Total(s.requests, Marked)
  {
    TotalMonotone(s.requests, Next(s, RefreshDone(id, ok)).requests, Marked);
    TotalMonotone(Next(s, RefreshDone(id, ok)).requests, s.requests, Marked);
  }

  /** Each refresh marks one request, and nothing else does. */
  lemma MarkedStep(s: State, step: Step)
    requires Enabled(s, step)
    ensures Total(Next(s, step).requests, Marked) - Total(s.requests, Marked) == Next(s, step).refreshes - s.refreshes
  {
    match step {
      case Issue(auth) => MarkedIssue(s, auth);
      case Respond(id, response) => MarkedRespond(s, id, response);
      case RefreshDone(id, ok) => MarkedRefreshDone(s, id, ok);
      case Resume(id) => MarkedResume(s, id);
    }
  }

  lemma InvStep(s: State, step: Step)
    requires Inv(s) && Enabled(s, step)
    ensures Inv(Next(s, step))
  {
    assert QueueInv(Next(s, step)) by {
      match step {
        case Respond(id, response) => QueueInvRespond(s, id, response);
        case RefreshDone(id, ok) => QueueInvRefreshDone(s, id, ok);
        case _ => QueueInvOther(s, step);
      }
    }
    RequestsInvStep(s, step);
    MarkedStep(s, step);
  }

  lemma {:induction false} InvRun(s: State, run: seq<Step>)
    requires Inv(s) && Possible(s, run)
    ensures Inv(Exec(s, run))
    decreases |run|
  {
    if run != [] {
      InvStep(s, run[0]);
      InvRun(Next(s, run[0]), run[1..]);
    }
  }

  /** From a fresh page on: one refresh at a time, no waiter without one, each waiter settled once for each time it
      waited, and no more refreshes than requests. */
  lemma SingleFlight(run: seq<Step>)
    requires Possible(START, run)
    ensures
      var s := Exec(START, run);
      && (forall i, j :: Leads(s.requests, i) && Leads(s.requests, j) ==> i == j)
      && (!s.isRefreshing ==>
            s.failedQueue == [] && forall i :: 0 <= i < |s.requests| ==> s.requests[i].phase != Queued)
      && (forall i :: 0 <= i < |s.requests| ==>
            s.requests[i].waits == s.requests[i].wakes + if i in s.failedQueue then 1 else 0)
      && s.refreshes <= |s.requests|
  {
    InvRun(START, run);
    TotalAtMost(Exec(START, run).requests, Marked, 1);
  }

  // ---------- Every request settles ----------

  /** Requests that may still start a refresh count double, a refresh in flight counts once. */
  function Weight(s: State): nat {
    2 * Total(s.requests, Open) + if s.isRefreshing then 1 else 0
  }

  function Measure(s: State): nat {
    Weight(s) * (3 * |s.requests| + 1) + Total(s.requests, Rank)
  }

  lemma Lexicographic(a: nat, a': nat, b: nat, b': nat, k: nat)
    requires b' < k
    requires a' < a || (a' == a && b' < b)
    ensures a' * k + b' < a * k + b
  {
    if a' < a {
      MulMonotone(a' + 1, a, k);
      assert (a' + 1) * k == a' * k + k;
    }
  }

  lemma WeightAfterRefresh(s: State, id: nat, ok: bool)
    requires Inv(s) && Enabled(s, RefreshDone(id, ok))
    ensures Weight(Next(s, RefreshDone(id, ok))) < Weight(s)
  {
    var rs, rs' := s.requests, Next(s, RefreshDone(id, ok)).requests;
    assert Leads(rs, id);
    assert forall i :: 0 <= i < |rs| ==> RequestInv(rs[i]);
    TotalMonotone(rs, rs', Open);
  }

  lemma WeightOtherwise(s: State, step: Step)
    requires Inv(s) && Enabled(s, step) && (step.Respond? || step.Resume?)
    ensures
      var s' := Next(s, step);
      Weight(s') < Weight(s) || (Weight(s') == Weight(s) && Total(s'.requests, Rank) < Total(s.requests, Rank))
  {
    var rs, rs', id := s.requests, Next(s, step).requests, step.id;
    TotalUpdate(rs, Open, id, rs'[id]);
    TotalUpdate(rs, Rank, id, rs'[id]);
    assert RequestInv(rs[id]);
  }

  lemma MeasureFollows(s: State, s': State)
    requires |s'.requests| == |s.requests|
    requires || Weight(s') < Weight(s)
             || (Weight(s') == Weight(s) && Total(s'.requests, Rank) < Total(s.requests, Rank))
    ensures Measure(s') < Measure(s)
  {
    TotalAtMost(s'.requests, Rank, 3);
    Lexicographic(Weight(s), Weight(s'), Total(s.requests, Rank), Total(s'.requests, Rank), 3 * |s.requests| + 1);
  }

  lemma MeasureStep(s: State, step: Step)
    requires Inv(s) && Enabled(s, step) && !step.Issue?
    ensures Measure(Next(s, step)) < Measure(s)
  {
    if step.RefreshDone? {
      WeightAfterRefresh(s, step.id, step.ok);
    } else {
      WeightOtherwise(s, step);
    }
    MeasureFollows(s, Next(s, step));
  }

  lemma MeasureIsQuadratic(s: State)
    ensures
      var n := |s.requests|;
      Measure(s) <= (2 * n + 1) * (3 * n + 1) + 3 * n
  {
    TotalAtMost(s.requests, Open, 1);
    TotalAtMost(s.requests, Rank, 3);
    MulMonotone(Weight(s), 2 * |s.requests| + 1, 3 * |s.requests| + 1);
  }

  /** Once no new request is issued, no run is longer than the measure of the state it starts in, and that is at most
      quadratic in the number of requests. */
  lemma {:induction false} RunsEnd(s: State, run: seq<Step>)
    requires Inv(s) && Possible(s, run) && forall step :: step in run ==> !step.Issue?
    ensures |run| <= Measure(s)
    decreases |run|
  {
    if run != [] {
      InvStep(s, run[0]);
      MeasureStep(s, run[0]);
      RunsEnd(Next(s, run[0]), run[1..]);
    }
  }

  /** As long as some request is open, an answer from the network or a pending callback can move the page on; so a run
      that can go no further has settled every request. */
  lemma NoDeadlock(s: State)
    requires Inv(s)
    ensures (forall step :: Enabled(s, step) ==> step.Issue?)
       <==> forall i :: 0 <= i < |s.requests| ==> s.requests[i].phase.Settled?
  {
    var rs := s.requests;
    if i :| 0 <= i < |rs| && !rs[i].phase.Settled? {
      match rs[i].phase
      case InFlight => assert Enabled(s, Respond(i, Ok));
      case Leading => assert Enabled(s, RefreshDone(i, true));
      case Released => assert Enabled(s, Resume(i));
      case Queued =>
        assert i in s.failedQueue;
        var leader :| Leads(rs, leader);
        assert Enabled(s, RefreshDone(leader, true));
    }
  }

  // ---------- The bound on refreshes is attained ----------

  lemma {:induction false} ExecConcat(s: State, a: seq<Step>, b: seq<Step>)
    requires Possible(s, a) && Possible(Exec(s, a), b)
    ensures Possible(s, a + b) && Exec(s, a + b) == Exec(Exec(s, a), b)
    decreases |a|
  {
    if a == [] {
      assert a + b == b;
    } else {
      ExecConcat(Next(s, a[0]), a[1..], b);
      assert (a + b)[1..] == a[1..] + b;
    }
  }

  /** A request that is refused, refreshed, sent again and answered. */
  function Round(id: nat): seq<Step> {
    [Issue(false), Respond(id, Unauthorized), RefreshDone(id, true), Respond(id, Ok)]
  }

  lemma Single(s: State, step: Step, s': State)
    requires Enabled(s, step) && Next(s, step) == s'
    ensures Possible(s, [step]) && Exec(s, [step]) == s'
  {
    assert [step][1..] == [];
  }

  lemma Two(s: State, first: Step, s': State, second: Step, s'': State)
    requires Enabled(s, first) && Next(s, first) == s' && Enabled(s', second) && Next(s', second) == s''
    ensures Possible(s, [first] + [second]) && Exec(s, [first] + [second]) == s''
  {
    Single(s, first, s');
    Single(s', second, s'');
    ExecConcat(s, [first], [second]);
  }

  lemma LeadsRefresh(s: State) returns (s2: State)
    requires !s.isRefreshing && s.failedQueue == []
    ensures s2 == State(true, [], s.requests + [Request(Leading, false, true, 0, 0)], s.refreshes + 1)
    ensures
      var run := [Issue(false)] + [Respond(|s.requests|, Unauthorized)];
      Possible(s, run) && Exec(s, run) == s2
  {
    var id, rs := |s.requests|, s.requests;
    var s1 := s.(requests := rs + [Request(InFlight, false, false, 0, 0)]);
    s2 := State(true, [], rs + [Request(Leading, false, true, 0, 0)], s.refreshes + 1);
    assert Next(s1, Respond(id, Unauthorized)).requests == s2.requests;
    Two(s, Issue(false), s1, Respond(id, Unauthorized), s2);
  }

  lemma FinishesRefresh(s2: State, rs: seq<Request>)
    requires s2 == State(true, [], rs + [Request(Leading, false, true, 0, 0)], s2.refreshes)
    ensures
      var run := [RefreshDone(|rs|, true)] + [Respond(|rs|, Ok)];
      && Possible(s2, run)
      && Exec(s2, run) == State(false, [], rs + [Request(Settled(true), false, true, 0, 0)], s2.refreshes)
  {
    var id := |rs|;
    var s3 := State(false, [], rs + [Request(InFlight, false, true, 0, 0)], s2.refreshes);
    var s4 := State(false, [], rs + [Request(Settled(true), false, true, 0, 0)], s2.refreshes);
    assert Next(s2, RefreshDone(id, true)).requests == s3.requests;
    assert Next(s3, Respond(id, Ok)).requests == s4.requests;
    Two(s2, RefreshDone(id, true), s3, Respond(id, Ok), s4);
  }

  lemma OneRound(s: State)
    requires !s.isRefreshing && s.failedQueue == []
    ensures
      var run := Round(|s.requests|);
      Possible(s, run) &&
      Exec(s, run) == State(false, [], s.requests + [Request(Settled(true), false, true, 0, 0)], s.refreshes + 1)
  {
    var s2 := LeadsRefresh(s);
    FinishesRefresh(s2, s.requests);
    var id := |s.requests|;
    ExecConcat(s, [Issue(false)] + [Respond(id, Unauthorized)], [RefreshDone(id, true)] + [Respond(id, Ok)]);
    assert Round(id) == [Issue(false)] + [Respond(id, Unauthorized)] + ([RefreshDone(id, true)] + [Respond(id, Ok)]);
  }

  /** Sharing only happens while a refresh is in flight: n requests can cause n refreshes. */
  lemma {:induction false} RefreshPerRequest(n: nat) returns (run: seq<Step>)
    ensures Possible(START, run)
    ensures
      var s := Exec(START, run);
      |s.requests| == n && s.refreshes == n && !s.isRefreshing && s.failedQueue == []
  {
    if n == 0 {
      run := [];
    } else {
      var init := RefreshPerRequest(n - 1);
      OneRound(Exec(START, init));
      ExecConcat(START, init, Round(n - 1));
      run := init + Round(n - 1);
    }
  }

  // ---------- The interceptor ----------

  class Api {
    var isRefreshing: bool
    var failedQueue: seq<nat>
    var requests: seq<Request>
    var refreshes: nat

    ghost function View(): State
      reads this
    {
      State(isRefreshing, failedQueue, requests, refreshes)
    }

    constructor ()
      ensures View() == START
    {
      isRefreshing, failedQueue, requests, refreshes := false, [], [], 0;
    }

    /** Settles every queued promise and empties the queue. */
    method ProcessQueue(ok: bool)
      requires Inv(View())
      modifies this`failedQueue, this`requests
      ensures requests == Wake(old(View()), ok) && failedQueue == []
    {
      ghost var before := requests;
      var i := 0;
      while i < |failedQueue|
        invariant 0 <= i <= |failedQueue| && failedQueue == old(failedQueue) && |requests| == |before|
        invariant forall k :: 0 <= k < |before| ==>
          requests[k] == if k in failedQueue[..i] then Woken(before[k], ok) else before[k]
      {
        var id := failedQueue[i];
        assert id in failedQueue;
        assert id !in failedQueue[..i];
        requests := requests[id := Woken(requests[id], ok)];
        assert failedQueue[..i + 1] == failedQueue[..i] + [id];
        i := i + 1;
      }
      assert failedQueue[..i] == failedQueue;
      failedQueue := [];
    }

    method OnResponse(id: nat, response: Response)
      requires Inv(View()) && Enabled(View(), Respond(id, response))
      modifies this
      ensures View() == Next(old(View()), Respond(id, response)) && Inv(View())
    {
      InvStep(View(), Respond(id, response));
      var r := requests[id];
      if response == Ok {
        requests := requests[id := r.(phase := Settled(true))];
      } else if r.auth {
        requests := requests[id := r.(phase := Settled(false))];
      } else if response == Unauthorized && !r.retry {
        if isRefreshing {
          failedQueue := failedQueue + [id];
          requests := requests[id := r.(phase := Queued, waits := r.waits + 1)];
        } else {
          isRefreshing := true;
          refreshes := refreshes + 1;
          requests := requests[id := r.(phase := Leading, retry := true)];
        }
      } else {
        requests := requests[id := r.(phase := Settled(false))];
      }
    }

    method OnRefreshDone(id: nat, ok: bool)
      requires Inv(View()) && Enabled(View(), RefreshDone(id, ok))
      modifies this
      ensures View() == Next(old(View()), RefreshDone(id, ok)) && Inv(View())
    {
      InvStep(View(), RefreshDone(id, ok));
      ProcessQueue(ok);
      requests := requests[id := requests[id].(phase := if ok then InFlight else Settled(false))];
      isRefreshing := false;
    }
  }
}
