/** Overlapping operations on one review. Each reads the row, does its work, and writes without looking again. */
module ReviewRaces {
  import opened Options
  import opened GoogleReviews

  datatype Request = WriteSuggestion | SaveDraft(draft: string) | Publish | Dismiss

  /** `seen` is the row that the operation read; `posted`: Google has accepted its reply. */
  datatype Flight = Open(request: Request, seen: Review, posted: bool) | Done

  /** `approvals` counts the approvals that passed their check. */
  datatype State = State(review: Review, flights: seq<Flight>, approvals: nat)

  datatype Step =
    | Begin(request: Request)          // read the row and check it
    | Post(flight: nat)
    | Finish(flight: nat, text: string)  // the update; `text` is what the model wrote
    | GiveUp(flight: nat)

  // ---------- Runs ----------

  predicate MayBegin(r: Review, request: Request) {
    r.status != APPROVED && (request == Publish ==> HasText(r.draft))
  }

  predicate IsOpen(s: State, k: nat) { k < |s.flights| && s.flights[k].Open? }

  predicate Enabled(s: State, step: Step) {
    match step
    case Begin(_) => true
    case Post(k) => IsOpen(s, k) && s.flights[k].request == Publish && !s.flights[k].posted
    case Finish(k, _) => IsOpen(s, k) && (s.flights[k].request == Publish ==> s.flights[k].posted)
    case GiveUp(k) => IsOpen(s, k)
  }

  function Update(r: Review, f: Flight, text: string): Review
    requires f.Open?
  {
    match f.request
    case WriteSuggestion => r.(suggestion := Some(text), draft := Some(text), status := SUGGESTED)
    case SaveDraft(draft) =>
      var suggested := f.seen.suggestion.Some? && f.seen.suggestion.value != "";
      r.(draft := Some(draft), status := if suggested then SUGGESTED else PENDING)
    case Publish => r.(status := APPROVED)
    case Dismiss => r.(status := SKIPPED)
  }

  function Next(s: State, step: Step): State
    requires Enabled(s, step)
  {
    match step
    case Begin(request) =>
      if MayBegin(s.review, request) then
        s.(flights := s.flights + [Open(request, s.review, false)],
           approvals := s.approvals + if request == Publish then 1 else 0)
      else s.(flights := s.flights + [Done])
    case Post(k) =>
      s.(review := s.review.(posts := s.review.posts + 1), flights := s.flights[k := s.flights[k].(posted := true)])
    case Finish(k, text) => s.(review := Update(s.review, s.flights[k], text), flights := s.flights[k := Done])
    case GiveUp(k) => s.(flights := s.flights[k := Done])
  }

  ghost predicate Possible(s: State, run: seq<Step>)
    decreases |run|, 0
  {
    run != [] ==>
      && Possible(s, run[..|run| - 1])
      && Enabled(Exec(s, run[..|run| - 1]), run[|run| - 1])
  }

  ghost function Exec(s: State, run: seq<Step>): State
    requires Possible(s, run)
    decreases |run|, 1
  {
    if run == [] then s else Next(Exec(s, run[..|run| - 1]), run[|run| - 1])
  }

  ghost predicate Reaches(s: State, s': State) { exists run :: Possible(s, run) && Exec(s, run) == s' }

  lemma ReachStep(s: State, s1: State, step: Step) returns (s2: State)
    requires Reaches(s, s1) && Enabled(s1, step)
    ensures s2 == Next(s1, step) && Reaches(s, s2)
  {
    var run :| Possible(s, run) && Exec(s, run) == s1;
    s2 := Next(s1, step);
    assert (run + [step])[..|run|] == run;
    assert Possible(s, run + [step]) && Exec(s, run + [step]) == s2;
  }

  // ---------- Suggestions ----------

  predicate SuggestionInv(s: State) {
    && (s.review.status == SUGGESTED ==> s.review.suggestion.Some?)
    && forall k :: 0 <= k < |s.flights| && s.flights[k].Open? && s.flights[k].seen.suggestion.Some? ==>
         s.review.suggestion.Some?
  }

  lemma SuggestionStep(s: State, step: Step)
    requires SuggestionInv(s) && Enabled(s, step)
    ensures SuggestionInv(Next(s, step))
  {
    var s' := Next(s, step);
    assert s.review.suggestion.Some? ==> s'.review.suggestion.Some?;
    forall k | 0 <= k < |s'.flights| && s'.flights[k].Open? && s'.flights[k].seen.suggestion.Some?
      ensures s'.review.suggestion.Some?
    {
      assert k < |s.flights| ==> s.flights[k].Open? && s.flights[k].seen == s'.flights[k].seen;
    }
  }

  /** A suggested reply has a suggestion in every interleaving, although drafts are saved under the status that was
      read. */
  lemma {:induction false} SuggestedHasSuggestion(s: State, run: seq<Step>)
    requires SuggestionInv(s) && Possible(s, run)
    ensures SuggestionInv(Exec(s, run))
  {
    if run != [] {
      SuggestedHasSuggestion(s, run[..|run| - 1]);
      SuggestionStep(Exec(s, run[..|run| - 1]), run[|run| - 1]);
    }
  }

  // ---------- Approval ----------

  /** The operations under way on an approved review that will still change it: all but those that approve it once
      more. */
  predicate Reopening(f: Flight) { f.Open? && f.request != Publish }

  /** Those that can lead to another post: these, and the approvals that have not posted yet. */
  predicate Reposting(f: Flight) { f.Open? && !(f.request == Publish && f.posted) }

  ghost predicate StaysApproved(s: State) { forall s' :: Reaches(s, s') ==> s'.review.status == APPROVED }

  ghost predicate PostedNoMore(s: State) { forall s' :: Reaches(s, s') ==> s'.review.posts == s.review.posts }

  lemma QuietStep(s: State, step: Step)
    requires Enabled(s, step) && s.review.status == APPROVED && forall f :: f in s.flights ==> !Reopening(f)
    ensures
      var s' := Next(s, step);
      && s'.review.status == APPROVED && (forall f :: f in s'.flights ==> !Reopening(f))
      && ((forall f :: f in s.flights ==> !Reposting(f)) ==>
            s'.review == s.review && forall f :: f in s'.flights ==> !Reposting(f))
  {
    var s' := Next(s, step);
    if !step.Begin? {
      assert s.flights[step.flight] in s.flights;
      assert forall f :: f in s'.flights ==> f == s'.flights[step.flight] || f in s.flights;
    }
  }

  lemma {:induction false} QuietRun(s: State, run: seq<Step>)
    requires Possible(s, run) && s.review.status == APPROVED && forall f :: f in s.flights ==> !Reopening(f)
    ensures
      var s' := Exec(s, run);
      && s'.review.status == APPROVED && (forall f :: f in s'.flights ==> !Reopening(f))
      && ((forall f :: f in s.flights ==> !Reposting(f)) ==>
            s'.review == s.review && forall f :: f in s'.flights ==> !Reposting(f))
  {
    if run != [] {
      QuietRun(s, run[..|run| - 1]);
      QuietStep(Exec(s, run[..|run| - 1]), run[|run| - 1]);
    }
  }

  lemma ReachSelf(s: State)
    ensures Reaches(s, s)
  {
    assert Possible(s, []) && Exec(s, []) == s;
  }

  /** An approved review stays approved, whatever begins from now on, exactly when no suggestion, draft or dismissal
      that read it before its approval is still under way. */
  lemma ApprovedIsFinalIff(s: State)
    requires s.review.status == APPROVED
    ensures StaysApproved(s) <==> forall f :: f in s.flights ==> !Reopening(f)
  {
    if f :| f in s.flights && Reopening(f) {
      var k :| 0 <= k < |s.flights| && s.flights[k] == f;
      ReachSelf(s);
      var s' := ReachStep(s, s, Finish(k, ""));
      assert s'.review.status != APPROVED;
    } else {
      forall s' | Reaches(s, s') ensures s'.review.status == APPROVED {
        var run :| Possible(s, run) && Exec(s, run) == s';
        QuietRun(s, run);
      }
    }
  }

  /** A reopened review can be drafted, approved and posted again. */
  lemma ReopenedIsPostedAgain(s: State, k: nat) returns (s': State)
    requires IsOpen(s, k) && Reopening(s.flights[k])
    ensures Reaches(s, s') && s'.review.posts == s.review.posts + 1
  {
    ReachSelf(s);
    var n := |s.flights|;
    s' := ReachStep(s, s, Finish(k, ""));
    s' := ReachStep(s, s', Begin(SaveDraft("x")));
    assert s'.flights[n].Open?;
    s' := ReachStep(s, s', Finish(n, ""));
    assert s'.review.draft == Some("x") && !IsSpace("x"[0]);
    s' := ReachStep(s, s', Begin(Publish));
    assert s'.flights[n + 1].Open?;
    s' := ReachStep(s, s', Post(n + 1));
  }

  /** An approved review is never posted again exactly when every operation still under way on it is an approval whose
      reply Google has accepted. */
  lemma PostedNoMoreIff(s: State)
    requires s.review.status == APPROVED
    ensures PostedNoMore(s) <==> forall f :: f in s.flights ==> !Reposting(f)
  {
    if f :| f in s.flights && Reposting(f) {
      var k :| 0 <= k < |s.flights| && s.flights[k] == f;
      if Reopening(f) {
        var s' := ReopenedIsPostedAgain(s, k);
        assert s'.review.posts != s.review.posts;
      } else {
        ReachSelf(s);
        var s' := ReachStep(s, s, Post(k));
        assert s'.review.posts != s.review.posts;
      }
    } else {
      assert forall f :: f in s.flights ==> Reopening(f) ==> Reposting(f);
      forall s' | Reaches(s, s') ensures s'.review.posts == s.review.posts {
        var run :| Possible(s, run) && Exec(s, run) == s';
        QuietRun(s, run);
      }
    }
  }

  // ---------- How often a review is posted ----------

  predicate AboutToPost(f: Flight) { f.Open? && f.request == Publish && !f.posted }

  /** The approvals that passed their check and have not posted yet. */
  function Waiting(flights: seq<Flight>): nat {
    if flights == [] then 0 else
      Waiting(flights[..|flights| - 1]) + if AboutToPost(flights[|flights| - 1]) then 1 else 0
  }

  lemma {:induction false} WaitingUpdate(flights: seq<Flight>, k: nat, f: Flight)
    requires k < |flights|
    ensures Waiting(flights[k := f])
         == Waiting(flights) - (if AboutToPost(flights[k]) then 1 else 0) + (if AboutToPost(f) then 1 else 0)
  {
    var n := |flights| - 1;
    if k < n {
      WaitingUpdate(flights[..n], k, f);
      assert flights[k := f][..n] == flights[..n][k := f];
    } else {
      assert flights[k := f][..n] == flights[..n];
    }
  }

  lemma ApprovalsStep(s: State, step: Step)
    requires Enabled(s, step)
    ensures Next(s, step).approvals
         == s.approvals + if step == Begin(Publish) && MayBegin(s.review, Publish) then 1 else 0
  {
  }

  lemma WaitingSnoc(flights: seq<Flight>, f: Flight)
    ensures Waiting(flights + [f]) == Waiting(flights) + if AboutToPost(f) then 1 else 0
  {
    assert (flights + [f])[..|flights|] == flights;
  }

  lemma PostsStep(s: State, step: Step)
    requires Enabled(s, step)
    ensures
      var s' := Next(s, step);
      s'.review.posts + Waiting(s'.flights) - s'.approvals <= s.review.posts + Waiting(s.flights) - s.approvals
  {
    match step
    case Begin(request) =>
      WaitingSnoc(s.flights, if MayBegin(s.review, request) then Open(request, s.review, false) else Done);
    case Post(k) => WaitingUpdate(s.flights, k, s.flights[k].(posted := true));
    case Finish(k, _) => WaitingUpdate(s.flights, k, Done);
    case GiveUp(k) => WaitingUpdate(s.flights, k, Done);
  }

  /** In no interleaving is a review posted more often than approvals passed their check. */
  lemma {:induction false} PostsAreApproved(s: State, run: seq<Step>)
    requires Possible(s, run) && s.flights == []
    ensures
      var s' := Exec(s, run);
      s'.review.posts - s.review.posts + Waiting(s'.flights) <= s'.approvals - s.approvals
  {
    if run != [] {
      PostsAreApproved(s, run[..|run| - 1]);
      PostsStep(Exec(s, run[..|run| - 1]), run[|run| - 1]);
    }
  }

  /** And each of them may post: n approvals that all read the review before the first one is through can post it m
      times, for any m up to n. */
  lemma {:induction false} EveryApprovalMayPost(s: State, n: nat, m: nat) returns (s': State)
    requires s.flights == [] && MayBegin(s.review, Publish) && m <= n
    ensures Reaches(s, s') && s'.approvals == s.approvals + n && |s'.flights| == n
    ensures s'.review == s.review.(posts := s.review.posts + m)
    ensures forall k :: 0 <= k < n ==> s'.flights[k].Open? && s'.flights[k].request == Publish
    ensures forall k :: m <= k < n ==> !s'.flights[k].posted
    decreases m, n
  {
    if n == 0 {
      s' := s;
      ReachSelf(s);
    } else if m == 0 {
      s' := EveryApprovalMayPost(s, n - 1, 0);
      s' := ReachStep(s, s', Begin(Publish));
    } else {
      s' := EveryApprovalMayPost(s, n, m - 1);
      s' := ReachStep(s, s', Post(m - 1));
    }
  }

  // ---------- Alone ----------

  function AsOp(id: string, request: Request, text: string): Op {
    match request
    case WriteSuggestion => Generate(id, Some(text))
    case SaveDraft(draft) => UpdateDraft(id, draft)
    case Publish => Approve(id, true, true)
    case Dismiss => Skip(id)
  }

  /** An operation that nothing overlaps does what the sequential model says it does. */
  lemma AloneIsSequential(t: Table, id: string, s: State, request: Request, text: string)
    requires id in t && s.review == t[id]
    ensures
      var k, began := |s.flights|, Next(s, Begin(request));
      if !MayBegin(s.review, request) then began.review == Apply(t, AsOp(id, request, text))[id]
      else
        && IsOpen(began, k)
        && var ready := if request == Publish then Next(began, Post(k)) else began;
           && Enabled(ready, Finish(k, text))
           && Next(ready, Finish(k, text)).review == Apply(t, AsOp(id, request, text))[id]
  {
  }
}
