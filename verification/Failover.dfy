/** Escalation of a failed message along a chain of channels.

    The next channel is found from the failed channel's first index in the chain, so the walk is a function of the
    channel alone, and what happens on a chain with a repeated channel depends on where the repetition lies. */
module Failover {
  import opened Options
  import opened PlanGates

  datatype Channel = SMS | WHATSAPP | VOICE | EMAIL

  datatype Trigger = Failed | Undelivered | Unread

  datatype Strategy = Strategy(chain: seq<Channel>, onFailed: bool, onUndelivered: bool, onUnread: bool)

  /** `rule` is the reminder rule's strategy if it is active, `byDefault` the tenant's active default strategy, the
      legacy fields come from the tenant's settings. */
  datatype Settings = Settings(
    rule: Option<Strategy>,
    byDefault: Option<Strategy>,
    legacyEnabled: bool,
    legacyChain: Option<seq<Channel>>)

  const DEFAULT_CHAIN := [SMS, WHATSAPP, VOICE]

  predicate TriggerAllowed(s: Strategy, t: Trigger) {
    match t
    case Failed => s.onFailed
    case Undelivered => s.onUndelivered
    case Unread => s.onUnread
  }

  /** The chain to walk, or None where failover is disabled or the strategy does not fall back on this trigger. */
  function ResolveChain(s: Settings, t: Trigger): Option<seq<Channel>> {
    if s.rule.Some? then
      if TriggerAllowed(s.rule.value, t) then Some(s.rule.value.chain) else None
    else if s.byDefault.Some? then
      if TriggerAllowed(s.byDefault.value, t) then Some(s.byDefault.value.chain) else None
    else if !s.legacyEnabled then None
    else if s.legacyChain.Some? then Some(s.legacyChain.value) else Some(DEFAULT_CHAIN)
  }

  /** The status webhook passes no trigger, so the service assumes `Failed`. Undelivered messages are treated as their
      own setting says exactly when the strategy in force has the same setting for both, or there is no strategy. */
  lemma WebhookHonoursUndeliveredIff(s: Settings)
    ensures ResolveChain(s, Failed) == ResolveChain(s, Undelivered)
       <==> (if s.rule.Some? then s.rule.value.onFailed == s.rule.value.onUndelivered
             else s.byDefault.Some? ==> s.byDefault.value.onFailed == s.byDefault.value.onUndelivered)
  {
  }

  predicate SameOrders(a: Settings, b: Settings) { a.rule == b.rule && (a.rule.None? ==> a.byDefault == b.byDefault) }

  /** Who decides: an active strategy of the rule, or else the tenant's default one, alone, by its flag for the trigger
      and with its own chain; only without either do the legacy settings count, where failover is on unless it is
      switched off and a missing chain means texts, then WhatsApp, then calls. */
  lemma ChainComesFrom(s: Settings, t: Trigger)
    ensures
      var strategy := if s.rule.Some? then s.rule else s.byDefault;
      if strategy.Some? then
        && (t == Failed ==> (ResolveChain(s, t).Some? <==> strategy.value.onFailed))
        && (t == Undelivered ==> (ResolveChain(s, t).Some? <==> strategy.value.onUndelivered))
        && (t == Unread ==> (ResolveChain(s, t).Some? <==> strategy.value.onUnread))
        && (ResolveChain(s, t).Some? ==> ResolveChain(s, t).value == strategy.value.chain)
        && forall other :: SameOrders(s, other) ==> ResolveChain(other, t) == ResolveChain(s, t)
      else
        && (ResolveChain(s, t).Some? <==> s.legacyEnabled)
        && (ResolveChain(s, t).Some? ==>
              ResolveChain(s, t).value == if s.legacyChain.Some? then s.legacyChain.value else [SMS, WHATSAPP, VOICE])
  {
  }

  // ---------- One escalation ----------

  /** `indexOf`. */
  function First(chain: seq<Channel>, c: Channel): (i: Option<nat>)
    ensures i.Some? ==> i.value < |chain| && chain[i.value] == c
    ensures forall j :: 0 <= j < (if i.Some? then i.value else |chain|) ==> chain[j] != c
  {
    if chain == [] then None
    else if chain[0] == c then Some(0)
    else
      match First(chain[1..], c)
      case None => None
      case Some(i) => Some(i + 1)
  }

  function Fallback(chain: seq<Channel>, failed: Channel): Option<Channel> {
    match First(chain, failed)
    case None => None
    case Some(i) => if i + 1 < |chain| then Some(chain[i + 1]) else None
  }

  // ---------- Whole cascades on an arbitrary chain ----------

  /** The channels of n escalations in a row, if there are that many. */
  function Cascade(chain: seq<Channel>, from: Channel, n: nat): Option<seq<Channel>> {
    if n == 0 then Some([from]) else
      match Cascade(chain, from, n - 1)
      case None => None
      case Some(walk) =>
        match Fallback(chain, walk[|walk| - 1])
        case None => None
        case Some(c) => Some(walk + [c])
  }

  predicate Novel(chain: seq<Channel>, j: nat)
    requires j < |chain|
  {
    chain[j] !in chain[..j]
  }

  /** From position i on, the chain names no channel that it named before. */
  predicate FreshFrom(chain: seq<Channel>, i: nat) {
    forall j :: i < j < |chain| ==> Novel(chain, j)
  }

  predicate NoRepeat(chain: seq<Channel>) {
    forall j, k :: 0 <= j < k < |chain| ==> chain[j] != chain[k]
  }

  lemma FirstIs(chain: seq<Channel>, i: nat)
    requires i < |chain| && Novel(chain, i)
    ensures First(chain, chain[i]) == Some(i)
  {
    assert forall j :: 0 <= j < i ==> chain[j] == chain[..i][j];
  }

  lemma FirstIsEarlier(chain: seq<Channel>, j: nat)
    requires j < |chain| && !Novel(chain, j)
    ensures First(chain, chain[j]).Some? && First(chain, chain[j]).value < j
  {
    var k :| 0 <= k < j && chain[..j][k] == chain[j];
    assert chain[k] == chain[j];
  }

  /** The stretch of the chain from i to i + n, if it is that long. */
  function Stretch(chain: seq<Channel>, i: nat, n: nat): Option<seq<Channel>> {
    if i + n < |chain| then Some(chain[i..i + n + 1]) else None
  }

  lemma StretchGrows(chain: seq<Channel>, i: nat, n: nat)
    requires i + n < |chain|
    ensures Stretch(chain, i, n).value[n] == chain[i + n]
    ensures i + n + 1 < |chain| ==> Stretch(chain, i, n + 1) == Some(Stretch(chain, i, n).value + [chain[i + n + 1]])
  {
    assert i + n + 1 < |chain| ==> chain[i..i + n + 2] == chain[i..i + n + 1] + [chain[i + n + 1]];
  }

  lemma FallbackNext(chain: seq<Channel>, p: nat)
    requires p < |chain| && Novel(chain, p)
    ensures Fallback(chain, chain[p]) == if p + 1 < |chain| then Some(chain[p + 1]) else None
  {
    FirstIs(chain, p);
  }

  lemma CascadeGrows(chain: seq<Channel>, from: Channel, i: nat, n: nat)
    requires i + n < |chain| ==> Novel(chain, i + n)
    requires Cascade(chain, from, n) == Stretch(chain, i, n)
    ensures Cascade(chain, from, n + 1) == Stretch(chain, i, n + 1)
  {
    var p := i + n;
    if p < |chain| {
      FallbackNext(chain, p);
      StretchGrows(chain, i, n);
    }
  }

  /** Where no channel is repeated further on, the cascade is the rest of the chain, and it stops at its end. */
  lemma {:induction false} CascadeFollowsChain(chain: seq<Channel>, i: nat, n: nat)
    requires i < |chain| && Novel(chain, i) && FreshFrom(chain, i)
    ensures Cascade(chain, chain[i], n) == Stretch(chain, i, n)
  {
    if n > 0 {
      CascadeFollowsChain(chain, i, n - 1);
      CascadeGrows(chain, chain[i], i, n - 1);
    } else {
      assert chain[i..i + 1] == [chain[i]];
    }
  }

  lemma FirstIsNotLater(chain: seq<Channel>, k: nat)
    requires k < |chain|
    ensures First(chain, chain[k]).Some? && First(chain, chain[k]).value <= k
  {
  }

  lemma StaysBefore(chain: seq<Channel>, last: Channel, j: nat)
    requires j < |chain| && !Novel(chain, j)
    requires First(chain, last).Some? && First(chain, last).value < j
    ensures Fallback(chain, last).Some?
    ensures First(chain, Fallback(chain, last).value).Some? && First(chain, Fallback(chain, last).value).value < j
  {
    var i := First(chain, last).value;
    if i + 1 == j {
      FirstIsEarlier(chain, j);
    } else {
      FirstIsNotLater(chain, i + 1);
    }
  }

  /** Where the channel at j was named before, no cascade that starts before j gets past j, so none ever ends. */
  lemma {:induction false} CascadeNeverPasses(chain: seq<Channel>, from: Channel, j: nat, n: nat)
    requires j < |chain| && !Novel(chain, j)
    requires First(chain, from).Some? && First(chain, from).value < j
    ensures
      var walk := Cascade(chain, from, n);
      walk.Some? && |walk.value| == n + 1 &&
      First(chain, walk.value[n]).Some? && First(chain, walk.value[n]).value < j
  {
    if n > 0 {
      CascadeNeverPasses(chain, from, j, n - 1);
      StaysBefore(chain, Cascade(chain, from, n - 1).value[n - 1], j);
    }
  }

  /** The cascade from a channel ends exactly when the chain repeats no earlier channel beyond that channel's first
      place; otherwise there are escalations without end. */
  lemma CascadeEndsIff(chain: seq<Channel>, from: Channel)
    requires from in chain
    ensures (exists n :: Cascade(chain, from, n).None?) <==> FreshFrom(chain, First(chain, from).value)
  {
    var i := First(chain, from).value;
    if FreshFrom(chain, i) {
      CascadeFollowsChain(chain, i, |chain|);
      assert Cascade(chain, from, |chain|).None?;
    } else {
      var j :| i < j < |chain| && !Novel(chain, j);
      forall n: nat ensures Cascade(chain, from, n).Some? {
        CascadeNeverPasses(chain, from, j, n);
      }
    }
  }

  // ---------- Callbacks in any order ----------

  /** The messages one reminder caused, in the order they were sent, and which of them a failure was reported for. */
  datatype State = State(sent: seq<Channel>, reported: set<nat>)

  datatype Account = Account(plan: Plan, settings: Settings)

  /** A failure callback for message m: it escalates to the next channel; the plan may not include a voice call, and the
      provider may refuse, which leaves no message behind. */
  function Escalate(t: Account, s: State, m: nat, accepted: bool): State
    requires m < |s.sent|
  {
    var s' := s.(reported := s.reported + {m});
    match ResolveChain(t.settings, Failed)
    case None => s'
    case Some(chain) =>
      match Fallback(chain, s.sent[m])
      case None => s'
      case Some(c) =>
        if c == VOICE && t.plan == SmsPlan then s'
        else if accepted then s'.(sent := s.sent + [c]) else s'
  }

  datatype Callback = Callback(message: nat, accepted: bool)

  /** A run of callbacks, each for a message that was sent and has not been reported yet. */
  ghost predicate OncePerMessage(t: Account, s: State, run: seq<Callback>)
    decreases |run|
  {
    run != [] ==>
      && run[0].message < |s.sent| && run[0].message !in s.reported
      && OncePerMessage(t, Escalate(t, s, run[0].message, run[0].accepted), run[1..])
  }

  function ExecAll(t: Account, s: State, run: seq<Callback>): State
    requires OncePerMessage(t, s, run)
    decreases |run|
  {
    if run == [] then s else ExecAll(t, Escalate(t, s, run[0].message, run[0].accepted), run[1..])
  }

  /** Each message but the last one was reported, and the messages lie at rising places of the chain. */
  ghost predicate Climbs(chain: seq<Channel>, s: State) {
    && s.sent != []
    && (forall m :: 0 <= m < |s.sent| - 1 ==> m in s.reported)
    && (forall m :: 0 <= m < |s.sent| ==> s.sent[m] in chain)
    && (forall m, k :: 0 <= m < k < |s.sent| ==> First(chain, s.sent[m]).value < First(chain, s.sent[k]).value)
  }

  lemma {:induction false} ClimbsRun(t: Account, chain: seq<Channel>, s: State, run: seq<Callback>)
    requires ResolveChain(t.settings, Failed) == Some(chain) && NoRepeat(chain)
    requires Climbs(chain, s) && OncePerMessage(t, s, run)
    ensures Climbs(chain, ExecAll(t, s, run))
    decreases |run|
  {
    if run != [] {
      var m := run[0].message;
      assert m == |s.sent| - 1;
      var s' := Escalate(t, s, m, run[0].accepted);
      if s'.sent != s.sent {
        var i := First(chain, s.sent[m]).value;
        assert chain[i + 1] !in chain[..i + 1];
        FirstIs(chain, i + 1);
      }
      ClimbsRun(t, chain, s', run[1..]);
    }
  }

  lemma {:induction false} RisingIsShort(chain: seq<Channel>, sent: seq<Channel>, k: nat)
    requires k < |sent| && forall m :: 0 <= m < |sent| ==> sent[m] in chain
    requires forall m, n :: 0 <= m < n < |sent| ==> First(chain, sent[m]).value < First(chain, sent[n]).value
    ensures First(chain, sent[k]).value >= First(chain, sent[0]).value + k
  {
    if k > 0 {
      RisingIsShort(chain, sent, k - 1);
    }
  }

  lemma {:induction false} SentGrows(t: Account, s: State, run: seq<Callback>)
    requires OncePerMessage(t, s, run)
    ensures s.sent <= ExecAll(t, s, run).sent
    decreases |run|
  {
    if run != [] {
      SentGrows(t, Escalate(t, s, run[0].message, run[0].accepted), run[1..]);
    }
  }

  /** With one failure report per message and a chain without repetition, a reminder uses no channel twice and escalates
      at most as often as the chain has places after its first channel, whatever providers and plan do. */
  lemma CascadeIsBounded(t: Account, chain: seq<Channel>, primary: Channel, run: seq<Callback>)
    requires ResolveChain(t.settings, Failed) == Some(chain) && NoRepeat(chain) && primary in chain
    requires OncePerMessage(t, State([primary], {}), run)
    ensures
      var sent := ExecAll(t, State([primary], {}), run).sent;
      && NoRepeat(sent)
      && |sent| <= |chain| - First(chain, primary).value
      && [primary] <= sent
  {
    SentGrows(t, State([primary], {}), run);
    ClimbsRun(t, chain, State([primary], {}), run);
    var sent := ExecAll(t, State([primary], {}), run).sent;
    RisingIsShort(chain, sent, |sent| - 1);
  }

  /** A failure on this channel leads to another send attempt: the chain resolves, it goes on behind the channel, and
      the plan includes what comes next. */
  predicate Escalates(t: Account, failed: Channel) {
    var chain := ResolveChain(t.settings, Failed);
    chain.Some? &&
    var next := Fallback(chain.value, failed);
    next.Some? && !(next.value == VOICE && t.plan == SmsPlan)
  }

  /** All messages but the last were reported, and they are the chain from place i on. */
  ghost predicate Follows(chain: seq<Channel>, i: nat, s: State) {
    i <= |chain| && s.sent != [] && s.sent <= chain[i..] && forall m :: 0 <= m < |s.sent| - 1 ==> m in s.reported
  }

  lemma {:induction false} FollowsRun(t: Account, chain: seq<Channel>, i: nat, s: State, run: seq<Callback>)
    requires ResolveChain(t.settings, Failed) == Some(chain) && NoRepeat(chain)
    requires Follows(chain, i, s) && OncePerMessage(t, s, run)
    ensures Follows(chain, i, ExecAll(t, s, run))
    decreases |run|
  {
    if run != [] {
      var m := run[0].message;
      var p := i + m;
      assert m == |s.sent| - 1 && s.sent[m] == chain[i..][m] == chain[p];
      FallbackNext(chain, p);
      FollowsRun(t, chain, i, Escalate(t, s, m, run[0].accepted), run[1..]);
    }
  }

  /** With a chain without repetition and one report for each message no channel is skipped: the messages of a reminder
      are the chain from its first channel on, as far as it got. */
  lemma CascadeSkipsNothing(t: Account, chain: seq<Channel>, primary: Channel, run: seq<Callback>)
    requires ResolveChain(t.settings, Failed) == Some(chain) && NoRepeat(chain) && primary in chain
    requires OncePerMessage(t, State([primary], {}), run)
    ensures ExecAll(t, State([primary], {}), run).sent <= chain[First(chain, primary).value..]
  {
    FollowsRun(t, chain, First(chain, primary).value, State([primary], {}), run);
  }

  /** With the default settings a text that fails is followed by at most a WhatsApp message and then a call. */
  lemma DefaultCascade(t: Account, run: seq<Callback>)
    requires t.settings == Settings(None, None, true, None) && OncePerMessage(t, State([SMS], {}), run)
    ensures ExecAll(t, State([SMS], {}), run).sent <= [SMS, WHATSAPP, VOICE]
  {
    var chain := [SMS, WHATSAPP, VOICE];
    assert First(chain, SMS) == Some(0);
    CascadeSkipsNothing(t, chain, SMS, run);
  }

  /** The providers repeat callbacks (undelivered, then failed): a second report of one message sends the next channel a
      second time exactly where the first report escalates, and otherwise sends nothing. */
  lemma SecondReportSendsAgain(t: Account, s: State, m: nat)
    requires m < |s.sent|
    ensures
      var once := Escalate(t, s, m, true);
      var twice := Escalate(t, once, m, true);
      if Escalates(t, s.sent[m]) then
        var c := Fallback(ResolveChain(t.settings, Failed).value, s.sent[m]).value;
        once.sent == s.sent + [c] && twice.sent == s.sent + [c] + [c]
      else twice.sent == s.sent
  {
  }

  // ---------- The service ----------

  datatype LogEntry = LogEntry(fromChannel: Channel, toChannel: Channel, success: bool)

  class FailoverService {
    const tenant: Account
    var sent: seq<Channel>
    var reported: set<nat>
    var log: seq<LogEntry>

    ghost function View(): State
      reads this
    {
      State(sent, reported)
    }

    constructor (tenant: Account, primary: Channel)
      ensures this.tenant == tenant && View() == State([primary], {}) && log == []
    {
      this.tenant, sent, reported, log := tenant, [primary], {}, [];
    }

    /** `triggerFallbackChannel`, called with the message that failed; the provider's verdict is given. */
    method TriggerFallbackChannel(m: nat, accepted: bool) returns (triggered: Option<Channel>)
      requires m < |sent|
      modifies this
      ensures View() == Escalate(tenant, old(View()), m, accepted)
      ensures triggered == if Escalates(tenant, old(sent)[m])
                           then Fallback(ResolveChain(tenant.settings, Failed).value, old(sent)[m]) else None
      ensures sent == if triggered.Some? && accepted then old(sent) + [triggered.value] else old(sent)
      ensures log == old(log) +
        match ResolveChain(tenant.settings, Failed)
        case None => []
        case Some(chain) =>
          match Fallback(chain, old(sent)[m])
          case None => []
          case Some(c) => [LogEntry(old(sent)[m], c, triggered.Some? && accepted)]
    {
      reported := reported + {m};
      var failed := sent[m];
      var chain := ResolveChain(tenant.settings, Failed);
      if chain.None? {
        return None;
      }
      var current := First(chain.value, failed);
      if current.None? || current.value >= |chain.value| - 1 {
        return None;
      }
      var next := chain.value[current.value + 1];
      if next == VOICE && tenant.plan == SmsPlan {
        log := log + [LogEntry(failed, next, false)];
        return None;
      }
      if accepted {
        sent := sent + [next];
      }
      log := log + [LogEntry(failed, next, accepted)];
      triggered := Some(next);
    }
  }
}
