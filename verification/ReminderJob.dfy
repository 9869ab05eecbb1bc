/** One reminder row under any number of attempts of its queue job.

    An attempt may be cut at any point between two of its effects: the process dies, or the database throws. `budget` is
    how many effects (a send, a counter increment, a log row, a status write) the attempt gets to make. */
module ReminderJob {
  import opened Options
  import opened Rsvps

  datatype Status = PENDING | SENT | DELIVERED | FAILED | CANCELLED

  datatype Contact = Contact(id: nat, phone: Option<string>, email: Option<string>, unsubscribed: bool)

  datatype Participant = Participant(contact: Contact, rsvp: Rsvp)

  /** Whom a reminder row is about: an appointment's customer, or an event's participants, of which a row that names a
      contact means only that one. `remindNonResponders` is None for an event without an automation row. */
  datatype Source =
    | Customer(customer: Contact)
    | Event(only: Option<nat>, participants: seq<Participant>, remindNonResponders: Option<bool>)
    | Nobody

  datatype Recipient = Recipient(id: nat, address: Option<string>)

  /** `sends` lists the recipients of the successful sends, `counted` the usage increments, `rows` the message log. */
  datatype State = State(status: Status, sends: seq<nat>, counted: nat, rows: seq<nat>)

  /** What an attempt finds: the plan gate's answer, the rows, the recipients whose send succeeds, and its budget. */
  datatype Attempt = Attempt(eligible: bool, source: Source, reachable: set<nat>, budget: nat)

  // ---------- The recipients ----------

  function AddressOf(c: Contact): Recipient {
    Recipient(c.id, if c.phone.Some? then c.phone else c.email)
  }

  function Targets(only: Option<nat>, ps: seq<Participant>): seq<Participant> {
    if ps == [] then [] else
      (if only.None? || ps[0].contact.id == only.value then [ps[0]] else []) + Targets(only, ps[1..])
  }

  predicate Chasing(ts: seq<Participant>) {
    exists t :: t in ts && t.rsvp != Confirmed && t.rsvp != Declined
  }

  predicate Reachable(p: Participant) { p.rsvp != Declined && !p.contact.unsubscribed }

  function Eligible(ts: seq<Participant>): seq<Recipient> {
    if ts == [] then [] else (if Reachable(ts[0]) then [AddressOf(ts[0].contact)] else []) + Eligible(ts[1..])
  }

  /** Empty where the job cancels the reminder: nobody eligible, or non-responders are not to be chased. */
  function Select(source: Source): seq<Recipient> {
    match source
    case Customer(c) => if c.unsubscribed then [] else [AddressOf(c)]
    case Event(only, ps, remind) =>
      var ts := Targets(only, ps);
      if remind == Some(false) && Chasing(ts) then [] else Eligible(ts)
    case Nobody => []
  }

  /** The participant table holds a contact once. */
  predicate DistinctContacts(source: Source) {
    source.Event? ==>
      forall i, j :: 0 <= i < j < |source.participants| ==>
        source.participants[i].contact.id != source.participants[j].contact.id
  }

  lemma {:induction false} TargetsAreParticipants(only: Option<nat>, ps: seq<Participant>)
    ensures forall t :: t in Targets(only, ps) <==> t in ps && (only.None? || t.contact.id == only.value)
  {
    if ps != [] {
      TargetsAreParticipants(only, ps[1..]);
      assert forall p :: p in ps <==> p == ps[0] || p in ps[1..];
    }
  }

  lemma {:induction false} EligibleAreReachable(ts: seq<Participant>)
    ensures forall r :: r in Eligible(ts) <==> exists t :: t in ts && Reachable(t) && r == AddressOf(t.contact)
  {
    if ts != [] {
      EligibleAreReachable(ts[1..]);
      assert forall t :: t in ts <==> t == ts[0] || t in ts[1..];
    }
  }

  predicate DistinctIds(rs: seq<Recipient>) { forall i, j :: 0 <= i < j < |rs| ==> rs[i].id != rs[j].id }

  lemma {:induction false} TargetsStayDistinct(only: Option<nat>, ps: seq<Participant>)
    requires forall i, j :: 0 <= i < j < |ps| ==> ps[i].contact.id != ps[j].contact.id
    ensures DistinctIds(Eligible(Targets(only, ps)))
  {
    if ps != [] {
      TargetsStayDistinct(only, ps[1..]);
      TargetsAreParticipants(only, ps[1..]);
      EligibleAreReachable(Targets(only, ps[1..]));
      var rest := Eligible(Targets(only, ps[1..]));
      forall r | r in rest ensures r.id != ps[0].contact.id {
        var t :| t in Targets(only, ps[1..]) && Reachable(t) && r == AddressOf(t.contact);
        assert t in ps[1..];
      }
      if only.None? || ps[0].contact.id == only.value {
        assert ([ps[0]] + Targets(only, ps[1..]))[1..] == Targets(only, ps[1..]);
      } else {
        assert [] + Targets(only, ps[1..]) == Targets(only, ps[1..]);
      }
    }
  }

  lemma SelectIsDistinct(source: Source)
    requires DistinctContacts(source)
    ensures DistinctIds(Select(source))
  {
    if source.Event? {
      TargetsStayDistinct(source.only, source.participants);
    }
  }

  /** Whoever is selected has not declined, has not unsubscribed, and is the named contact if there is one. */
  lemma SelectedAreWilling(source: Source, r: Recipient)
    requires r in Select(source)
    ensures source.Customer? ==> r == AddressOf(source.customer) && !source.customer.unsubscribed
    ensures source.Event? ==>
      && (source.only.Some? ==> r.id == source.only.value)
      && exists p :: p in source.participants && p.contact.id == r.id && Reachable(p)
  {
    if source.Event? {
      TargetsAreParticipants(source.only, source.participants);
      EligibleAreReachable(Targets(source.only, source.participants));
    }
  }

  /** At the phone, or else at the email, if there is one. */
  predicate ReachedAt(c: Contact, r: Recipient) {
    && r.id == c.id && (c.phone.Some? ==> r.address == c.phone)
    && (c.phone.None? ==> r.address == c.email)
  }

  /** The participants that a reminder is for. */
  predicate Meant(only: Option<nat>, p: Participant) { only.None? || p.contact.id == only.value }

  /** Exactly who is selected for an event: nobody, if non-responders are not to be reminded and somebody the reminder
      is for has not answered yes or no; otherwise everybody it is for who has not declined or unsubscribed, at the
      phone, or else the email. */
  lemma SelectedIff(only: Option<nat>, ps: seq<Participant>, remind: Option<bool>, r: Recipient)
    ensures r in Select(Event(only, ps, remind)) <==>
      && !(remind == Some(false) && exists p :: p in ps && Meant(only, p) && p.rsvp in {Invited, Undecided})
      && exists p :: p in ps && Meant(only, p) && p.rsvp != Declined && !p.contact.unsubscribed &&
                     ReachedAt(p.contact, r)
  {
    TargetsAreParticipants(only, ps);
    EligibleAreReachable(Targets(only, ps));
    var ts := Targets(only, ps);
    assert Chasing(ts) <==> exists p :: p in ps && Meant(only, p) && p.rsvp in {Invited, Undecided};
    if p :| p in ps && Meant(only, p) && p.rsvp != Declined && !p.contact.unsubscribed && ReachedAt(p.contact, r) {
      assert p in ts && Reachable(p) && r == AddressOf(p.contact);
    }
  }

  /** An appointment's reminder goes to its customer, unless unsubscribed; a row of neither kind goes to nobody. */
  lemma CustomerSelectedIff(c: Contact, r: Recipient)
    ensures r in Select(Customer(c)) <==>
      !c.unsubscribed && ReachedAt(c, r)
    ensures Select(Nobody) == []
  {
  }

  // ---------- The send loop ----------

  datatype Loop = Loop(sends: seq<nat>, counted: nat, rows: seq<nat>, left: nat, cut: bool)

  /** The loop over the recipients, from the first one, with `left` effects to go. */
  function Send(rs: seq<Recipient>, reachable: set<nat>, left: nat): Loop
    decreases |rs|
  {
    if rs == [] then Loop([], 0, [], left, false)
    else if rs[0].address.None? then Send(rs[1..], reachable, left)
    else if left == 0 then Loop([], 0, [], 0, true)
    else if rs[0].id !in reachable then Send(rs[1..], reachable, left - 1)
    else if left == 1 then Loop([rs[0].id], 0, [], 0, true)
    else if left == 2 then Loop([rs[0].id], 1, [], 0, true)
    else
      var l := Send(rs[1..], reachable, left - 3);
      Loop([rs[0].id] + l.sends, 1 + l.counted, [rs[0].id] + l.rows, l.left, l.cut)
  }

  // ---------- One attempt ----------

  datatype Ending = Returned | Threw | Cut

  function Run(s: State, a: Attempt): (State, Ending) {
    if s.status != PENDING then (s, Returned)
    else if !a.eligible || Select(a.source) == [] then
      if a.budget == 0 then (s, Cut) else (s.(status := CANCELLED), Returned)
    else
      var l := Send(Select(a.source), a.reachable, a.budget);
      var s' := State(PENDING, s.sends + l.sends, s.counted + l.counted, s.rows + l.rows);
      if l.cut || l.left == 0 then (s', Cut)
      else if l.sends == [] then (s'.(status := FAILED), Threw)
      else (s'.(status := SENT), Returned)
  }

  function RunAll(s: State, attempts: seq<Attempt>): State {
    if attempts == [] then s else Run(RunAll(s, attempts[..|attempts| - 1]), attempts[|attempts| - 1]).0
  }

  /** The attempts that were cut. */
  function Cuts(s: State, attempts: seq<Attempt>): nat {
    if attempts == [] then 0 else
      var before := attempts[..|attempts| - 1];
      Cuts(s, before) + if Run(RunAll(s, before), attempts[|attempts| - 1]).1 == Cut then 1 else 0
  }

  const FRESH := State(PENDING, [], 0, [])

  predicate Sound(attempts: seq<Attempt>) {
    forall a :: a in attempts ==> DistinctContacts(a.source)
  }

  // ---------- At most once ----------

  function Count(ids: seq<nat>, id: nat): nat {
    if ids == [] then 0 else (if ids[0] == id then 1 else 0) + Count(ids[1..], id)
  }

  lemma {:induction false} CountConcat(a: seq<nat>, b: seq<nat>, id: nat)
    ensures Count(a + b, id) == Count(a, id) + Count(b, id)
  {
    if a == [] {
      assert a + b == b;
    } else {
      assert (a + b)[1..] == a[1..] + b;
      CountConcat(a[1..], b, id);
    }
  }

  lemma {:induction false} CountIn(ids: seq<nat>, id: nat)
    ensures Count(ids, id) > 0 <==> id in ids
  {
    if ids != [] {
      CountIn(ids[1..], id);
      assert ids == [ids[0]] + ids[1..];
    }
  }

  lemma {:induction false} SendLoop(rs: seq<Recipient>, reachable: set<nat>, left: nat)
    requires DistinctIds(rs)
    ensures
      var l := Send(rs, reachable, left);
      && (forall id :: id in l.sends ==> id in reachable && exists r :: r in rs && r.id == id && r.address.Some?)
      && (forall id :: Count(l.sends, id) <= 1)
      && l.rows <= l.sends && |l.rows| <= l.counted <= |l.sends| <= |l.rows| + 1
      && (!l.cut ==> |l.rows| == |l.sends|)
      && (l.cut ==> l.left == 0)
    decreases |rs|
  {
    if rs != [] {
      assert forall r :: r in rs[1..] ==> r in rs && r.id != rs[0].id;
      var next := if rs[0].address.None? then left
                  else if rs[0].id in reachable && left >= 3 then left - 3 else if left >= 1 then left - 1 else 0;
      SendLoop(rs[1..], reachable, next);
      var rest := Send(rs[1..], reachable, next).sends;
      forall id ensures Count([rs[0].id] + rest, id) <= 1 {
        CountIn(rest, rs[0].id);
        CountConcat([rs[0].id], rest, id);
      }
    }
  }

  /** An uncut loop sends to exactly the recipients that have an address and can be reached. */
  lemma {:induction false} UncutLoopReachesAll(rs: seq<Recipient>, reachable: set<nat>, left: nat)
    requires !Send(rs, reachable, left).cut
    ensures forall r :: r in rs && r.address.Some? && r.id in reachable ==> r.id in Send(rs, reachable, left).sends
    decreases |rs|
  {
    if rs != [] {
      var next := if rs[0].address.None? then left else if rs[0].id in reachable then left - 3 else left - 1;
      UncutLoopReachesAll(rs[1..], reachable, next);
      assert forall r :: r in rs ==> r == rs[0] || r in rs[1..];
    }
  }

  lemma RunStep(s: State, a: Attempt)
    requires DistinctContacts(a.source)
    ensures
      var (s', ending) := Run(s, a);
      && (s.status != PENDING ==> s' == s)
      && (ending != Cut ==> s'.status != PENDING)
      && (ending == Cut ==> s.status == PENDING && s'.status == PENDING)
      && s.sends <= s'.sends
      && (forall id :: Count(s'.sends, id) <= Count(s.sends, id) + 1)
      && s.counted - |s.rows| <= s'.counted - |s'.rows|
      && |s.sends| - s.counted <= |s'.sends| - s'.counted
      && |s'.sends| - |s'.rows| <= |s.sends| - |s.rows| + (if ending == Cut then 1 else 0)
      && (s.status == PENDING && ending != Cut ==> (s'.status == SENT <==> |s'.sends| > |s.sends|))
  {
    if s.status == PENDING {
      SelectIsDistinct(a.source);
      SendLoop(Select(a.source), a.reachable, a.budget);
      var l := Send(Select(a.source), a.reachable, a.budget);
      forall id ensures Count(s.sends + l.sends, id) == Count(s.sends, id) + Count(l.sends, id) {
        CountConcat(s.sends, l.sends, id);
      }
    }
  }

  /** Over any number of attempts a recipient is sent to at most once, plus once for each attempt that was cut; log
      rows, increments and sends drift apart by at most one for each cut; and while the row is pending every attempt was
      cut. */
  lemma {:induction false} AttemptsInvariant(attempts: seq<Attempt>, id: nat)
    requires Sound(attempts)
    ensures
      var s, cuts := RunAll(FRESH, attempts), Cuts(FRESH, attempts);
      && Count(s.sends, id) <= cuts + (if s.status == PENDING then 0 else 1)
      && |s.rows| <= s.counted <= |s.sends| <= |s.rows| + cuts
      && cuts <= |attempts| && (s.status == PENDING <==> cuts == |attempts|)
  {
    if attempts != [] {
      var init, last := attempts[..|attempts| - 1], attempts[|attempts| - 1];
      AttemptsInvariant(init, id);
      RunStep(RunAll(FRESH, init), last);
    }
  }

  /** An attempt that was not cut settles the row, and the later ones change nothing. */
  lemma {:induction false} SettledByFirst(attempts: seq<Attempt>)
    requires attempts != [] && Sound(attempts) && Cuts(FRESH, attempts) == 0
    ensures RunAll(FRESH, attempts) == Run(FRESH, attempts[0]).0
  {
    var init := attempts[..|attempts| - 1];
    if init == [] {
      assert RunAll(FRESH, init) == FRESH;
    } else {
      SettledByFirst(init);
      AttemptsInvariant(init, 0);
    }
  }

  /** Without cuts: each recipient at most once, as many rows and increments as sends, and SENT for exactly the
      reminders that reached somebody. */
  lemma UncutJob(attempts: seq<Attempt>, id: nat)
    requires Sound(attempts) && Cuts(FRESH, attempts) == 0
    ensures
      var s := RunAll(FRESH, attempts);
      && Count(s.sends, id) <= 1
      && |s.rows| == s.counted == |s.sends|
      && (s.status == SENT <==> s.sends != [])
      && (attempts != [] ==> s.status != PENDING && s == Run(FRESH, attempts[0]).0)
  {
    AttemptsInvariant(attempts, id);
    if attempts != [] {
      SettledByFirst(attempts);
      RunStep(FRESH, attempts[0]);
    }
  }

  // ---------- Exactly when somebody is sent to ----------

  /** The effects that the loop makes for these recipients. */
  function Cost(rs: seq<Recipient>, reachable: set<nat>): nat {
    if rs == [] then 0 else
      (if rs[0].address.None? then 0 else if rs[0].id in reachable then 3 else 1) + Cost(rs[1..], reachable)
  }

  /** The loop sends to exactly the recipients that have an address, can be reached, and are come to before the cut. */
  lemma {:induction false} SendsExactly(rs: seq<Recipient>, reachable: set<nat>, left: nat, i: nat)
    requires DistinctIds(rs) && i < |rs|
    ensures rs[i].id in Send(rs, reachable, left).sends
       <==> rs[i].address.Some? && rs[i].id in reachable && Cost(rs[..i], reachable) < left
    decreases |rs|
  {
    var next := if rs[0].address.None? then left else if rs[0].id in reachable then left - 3 else left - 1;
    if i == 0 {
      assert rs[..0] == [];
      if next >= 0 {
        SendLoop(rs[1..], reachable, next);
        assert forall r :: r in rs[1..] ==> r.id != rs[0].id;
      }
    } else {
      assert rs[..i][0] == rs[0] && rs[..i][1..] == rs[1..][..i - 1];
      if next >= 0 {
        SendsExactly(rs[1..], reachable, next, i - 1);
      }
    }
  }

  lemma {:induction false} CutExactly(rs: seq<Recipient>, reachable: set<nat>, left: nat)
    ensures
      var l := Send(rs, reachable, left);
      l.cut || l.left == 0 <==> left <= Cost(rs, reachable)
    decreases |rs|
  {
    if rs != [] {
      var next := if rs[0].address.None? then left else if rs[0].id in reachable then left - 3 else left - 1;
      if next >= 0 {
        CutExactly(rs[1..], reachable, next);
      }
    }
  }

  /** What the attempt needs to get to its last update, that one included. */
  function Needed(a: Attempt): nat {
    1 + if a.eligible then Cost(Select(a.source), a.reachable) else 0
  }

  predicate Settles(a: Attempt) { a.budget >= Needed(a) }

  predicate DeliversAt(a: Attempt, id: nat, i: nat)
    requires i < |Select(a.source)|
  {
    var rs := Select(a.source);
    rs[i].id == id && rs[i].address.Some? && id in a.reachable && Cost(rs[..i], a.reachable) < a.budget
  }

  /** If it finds the row pending, the attempt comes to this contact and the send succeeds. */
  ghost predicate Delivers(a: Attempt, id: nat) {
    a.eligible && exists i :: 0 <= i < |Select(a.source)| && DeliversAt(a, id, i)
  }

  lemma AttemptExactly(s: State, a: Attempt, id: nat)
    requires DistinctContacts(a.source) && s.status == PENDING
    ensures Count(Run(s, a).0.sends, id) == Count(s.sends, id) + if Delivers(a, id) then 1 else 0
    ensures Run(s, a).0.status == PENDING <==> !Settles(a)
  {
    var rs, l := Select(a.source), Send(Select(a.source), a.reachable, a.budget);
    CutExactly(rs, a.reachable, a.budget);
    if a.eligible && rs != [] {
      SelectIsDistinct(a.source);
      SendLoop(rs, a.reachable, a.budget);
      CountConcat(s.sends, l.sends, id);
      CountIn(l.sends, id);
      assert id in l.sends <==> Delivers(a, id) by {
        forall i | 0 <= i < |rs| ensures rs[i].id in l.sends <==> DeliversAt(a, rs[i].id, i) {
          SendsExactly(rs, a.reachable, a.budget, i);
        }
      }
    }
  }

  /** What an attempt that gets to its last update leaves: SENT if some send succeeded, CANCELLED if the plan refused or
      nobody was selected, and FAILED, with an error, if everybody it came to was refused. */
  lemma EndingMeans(s: State, a: Attempt)
    requires s.status == PENDING && DistinctContacts(a.source) && Settles(a)
    ensures
      var (s', ending) := Run(s, a);
      && (s'.status == CANCELLED <==> !a.eligible || Select(a.source) == [])
      && (s'.status == SENT <==> exists id :: Delivers(a, id))
      && (s'.status == FAILED <==> a.eligible && Select(a.source) != [] && !exists id :: Delivers(a, id))
      && ending == (if s'.status == FAILED then Threw else Returned)
  {
    RunStep(s, a);
    AttemptExactly(s, a, 0);
    var sends, sends' := s.sends, Run(s, a).0.sends;
    if |sends'| > |sends| {
      var id := sends'[|sends|];
      AttemptExactly(s, a, id);
      assert sends' == sends + sends'[|sends|..];
      CountConcat(sends, sends'[|sends|..], id);
      CountIn(sends'[|sends|..], id);
      assert Delivers(a, id);
    } else {
      assert sends' == sends;
      forall id ensures !Delivers(a, id) {
        AttemptExactly(s, a, id);
      }
      assert a.eligible && Select(a.source) != [] ==> Send(Select(a.source), a.reachable, a.budget).sends == [];
    }
  }

  /** None of the first k attempts got to its last update. */
  predicate PendingAt(attempts: seq<Attempt>, k: nat)
    requires k <= |attempts|
  {
    forall j :: 0 <= j < k ==> !Settles(attempts[j])
  }

  /** Attempt k finds the row pending and sends to the contact. */
  ghost predicate SendsTo(attempts: seq<Attempt>, k: nat, id: nat)
    requires k < |attempts|
  {
    PendingAt(attempts, k) && Delivers(attempts[k], id)
  }

  /** Which of the first n attempts do. */
  ghost function Sending(attempts: seq<Attempt>, n: nat, id: nat): set<nat>
    requires n <= |attempts|
  {
    if n == 0 then {} else Sending(attempts, n - 1, id) + if SendsTo(attempts, n - 1, id) then {n - 1} else {}
  }

  lemma {:induction false} SendingIs(attempts: seq<Attempt>, n: nat, id: nat, k: nat)
    requires n <= |attempts|
    ensures k in Sending(attempts, n, id) <==> k < n && SendsTo(attempts, k, id)
  {
    if n > 0 {
      SendingIs(attempts, n - 1, id, k);
    }
  }

  lemma {:induction false} PendingExactly(attempts: seq<Attempt>, n: nat)
    requires Sound(attempts) && n <= |attempts|
    ensures RunAll(FRESH, attempts[..n]).status == PENDING <==> PendingAt(attempts, n)
  {
    if n > 0 {
      PendingExactly(attempts, n - 1);
      assert attempts[..n][..n - 1] == attempts[..n - 1];
      if PendingAt(attempts, n - 1) {
        AttemptExactly(RunAll(FRESH, attempts[..n - 1]), attempts[n - 1], 0);
      }
    }
  }

  lemma OneMoreSending(attempts: seq<Attempt>, k: nat, id: nat)
    requires k < |attempts|
    ensures |Sending(attempts, k + 1, id)| == |Sending(attempts, k, id)| + if SendsTo(attempts, k, id) then 1 else 0
  {
    SendingIs(attempts, k, id, k);
  }

  lemma RunAllSnoc(attempts: seq<Attempt>, a: Attempt)
    ensures RunAll(FRESH, attempts + [a]) == Run(RunAll(FRESH, attempts), a).0
    ensures Cuts(FRESH, attempts + [a])
         == Cuts(FRESH, attempts) + if Run(RunAll(FRESH, attempts), a).1 == Cut then 1 else 0
  {
    assert (attempts + [a])[..|attempts|] == attempts;
  }

  lemma OneMoreSend(attempts: seq<Attempt>, k: nat, id: nat)
    requires Sound(attempts) && k < |attempts|
    ensures Count(RunAll(FRESH, attempts[..k + 1]).sends, id)
         == Count(RunAll(FRESH, attempts[..k]).sends, id) + if SendsTo(attempts, k, id) then 1 else 0
  {
    PendingExactly(attempts, k);
    assert attempts[..k + 1] == attempts[..k] + [attempts[k]];
    RunAllSnoc(attempts[..k], attempts[k]);
    if PendingAt(attempts, k) {
      AttemptExactly(RunAll(FRESH, attempts[..k]), attempts[k], id);
    }
  }

  /** A contact is sent to exactly as often as there are attempts that find the row pending and come to it. */
  lemma {:induction false} SendsAreCounted(attempts: seq<Attempt>, n: nat, id: nat)
    requires Sound(attempts) && n <= |attempts|
    ensures Count(RunAll(FRESH, attempts[..n]).sends, id) == |Sending(attempts, n, id)|
  {
    if n > 0 {
      SendsAreCounted(attempts, n - 1, id);
      OneMoreSending(attempts, n - 1, id);
      OneMoreSend(attempts, n - 1, id);
    }
  }

  lemma SubsetSize(a: set<nat>, b: set<nat>)
    requires a <= b
    ensures |a| <= |b|
  {
    assert b == a + (b - a);
  }

  lemma AtMostOneElement(s: set<nat>)
    ensures |s| <= 1 <==> forall j, k :: j in s && k in s ==> j == k
  {
    if j, k :| j in s && k in s && j != k {
      SubsetSize({j, k}, s);
    } else if s != {} {
      var k :| k in s;
      assert s == {k};
    }
  }

  /** At most once exactly when no two attempts are of that kind; so a cut before the contact's turn does no harm. */
  lemma AtMostOnceIff(attempts: seq<Attempt>, id: nat)
    requires Sound(attempts)
    ensures Count(RunAll(FRESH, attempts).sends, id) <= 1
       <==> forall j, k :: 0 <= j < k < |attempts| ==> !(SendsTo(attempts, j, id) && SendsTo(attempts, k, id))
  {
    var n := |attempts|;
    assert attempts[..n] == attempts;
    SendsAreCounted(attempts, n, id);
    AtMostOneElement(Sending(attempts, n, id));
    forall k: nat ensures k in Sending(attempts, n, id) <==> k < n && SendsTo(attempts, k, id) {
      SendingIs(attempts, n, id, k);
    }
  }

  lemma CuttingSend(s: State, a: Attempt, id: nat)
    requires DistinctContacts(a.source) && s.status == PENDING && Delivers(a, id) && !Settles(a)
    ensures Count(Run(s, a).0.sends, id) == Count(s.sends, id) + 1
    ensures Run(s, a).0.status == PENDING && Run(s, a).1 == Cut
  {
    AttemptExactly(s, a, id);
    RunStep(s, a);
  }

  function Repeat(a: Attempt, n: nat): seq<Attempt> { if n == 0 then [] else Repeat(a, n - 1) + [a] }

  lemma {:induction false} RepeatedCuts(cut: Attempt, id: nat, n: nat)
    requires DistinctContacts(cut.source) && Delivers(cut, id) && !Settles(cut)
    ensures
      var s := RunAll(FRESH, Repeat(cut, n));
      s.status == PENDING && Count(s.sends, id) == Cuts(FRESH, Repeat(cut, n)) == n
    ensures Sound(Repeat(cut, n))
  {
    if n > 0 {
      RepeatedCuts(cut, id, n - 1);
      RunAllSnoc(Repeat(cut, n - 1), cut);
      CuttingSend(RunAll(FRESH, Repeat(cut, n - 1)), cut, id);
    }
  }

  lemma SettlingSend(s: State, a: Attempt, id: nat)
    requires DistinctContacts(a.source) && s.status == PENDING && Delivers(a, id) && Settles(a)
    ensures Count(Run(s, a).0.sends, id) == Count(s.sends, id) + 1
    ensures Run(s, a).0.status == SENT && Run(s, a).1 != Cut
  {
    AttemptExactly(s, a, id);
    RunStep(s, a);
    assert |Run(s, a).0.sends| == |s.sends| ==> Run(s, a).0.sends == s.sends;
  }

  lemma {:induction false} RepeatIs(a: Attempt, n: nat)
    ensures |Repeat(a, n)| == n && forall b :: b in Repeat(a, n) ==> b == a
  {
    if n > 0 {
      RepeatIs(a, n - 1);
    }
  }

  lemma {:induction false} CostOfPrefix(rs: seq<Recipient>, reachable: set<nat>, i: nat)
    requires i < |rs| && rs[i].address.Some? && rs[i].id in reachable
    ensures Cost(rs[..i], reachable) + 3 <= Cost(rs, reachable)
  {
    if i > 0 {
      CostOfPrefix(rs[1..], reachable, i - 1);
      assert rs[..i][0] == rs[0] && rs[..i][1..] == rs[1..][..i - 1];
    }
  }

  /** The bound is attained for every number of cuts: whatever attempt reaches a contact and settles, any number of
      attempts that find the same rows and are cut right after that contact's send may come before it, and each sends
      once more. */
  lemma CutsSendAgain(rest: Attempt, id: nat, n: nat) returns (attempts: seq<Attempt>)
    requires DistinctContacts(rest.source) && Delivers(rest, id) && Settles(rest)
    ensures Sound(attempts) && |attempts| == n + 1 && Cuts(FRESH, attempts) == n
    ensures forall a :: a in attempts ==> a == rest.(budget := a.budget)
    ensures Count(RunAll(FRESH, attempts).sends, id) == n + 1 && RunAll(FRESH, attempts).status == SENT
  {
    var rs := Select(rest.source);
    var i :| 0 <= i < |rs| && DeliversAt(rest, id, i);
    var cut := rest.(budget := Cost(rs[..i], rest.reachable) + 1);
    assert DeliversAt(cut, id, i);
    CostOfPrefix(rs, rest.reachable, i);
    RepeatedCuts(cut, id, n);
    RepeatIs(cut, n);
    attempts := Repeat(cut, n) + [rest];
    assert attempts[..n] == Repeat(cut, n);
    SettlingSend(RunAll(FRESH, Repeat(cut, n)), rest, id);
  }

  /** A cut after a successful send is what makes a second send to the same person possible: the row is still
      pending. */
  lemma CutSendsTwice(c: Contact, rest: Attempt)
    requires !c.unsubscribed && c.phone.Some? && rest.eligible && rest.source == Customer(c)
    requires c.id in rest.reachable && rest.budget >= 4
    ensures
      var cut := rest.(budget := 1);
      && Run(FRESH, cut).1 == Cut
      && RunAll(FRESH, [cut, rest]) == State(SENT, [c.id, c.id], 1, [c.id])
  {
    var cut := rest.(budget := 1);
    var once := State(PENDING, [c.id], 0, []);
    assert Select(rest.source)[1..] == [];
    assert Send(Select(rest.source), rest.reachable, rest.budget) == Loop([c.id], 1, [c.id], rest.budget - 3, false);
    assert FRESH.rows + [] == [] && [] + [c.id] == [c.id] && [c.id] + [c.id] == [c.id, c.id];
    assert Run(FRESH, cut) == (once, Cut);
    assert Run(once, rest) == (State(SENT, [c.id, c.id], 1, [c.id]), Returned);
    assert [cut, rest][..1] == [cut] && [cut][..0] == [];
    assert RunAll(FRESH, [cut]) == once;
  }

  // ---------- Retries and the dead-letter queue ----------

  /** How attempt k of a job ends. */
  function EndingOf(attempts: seq<Attempt>, k: nat): Ending
    requires k < |attempts|
  {
    Run(RunAll(FRESH, attempts[..k]), attempts[k]).1
  }

  /** The queue retries an attempt that did not return, `max` attempts in all; the failed handler moves the job to the
      dead-letter queue and triggers failover after the last one. */
  ghost predicate DeadLettered(attempts: seq<Attempt>, max: nat) {
    |attempts| == max && forall k :: 0 <= k < max ==> EndingOf(attempts, k) != Returned
  }

  /** A failed send stores FAILED before it throws, so the next attempt returns at once. The dead-letter queue, and with
      it failover, is reached exactly when every attempt but the last one was cut: with more than one attempt
      configured, failing sends alone never lead there. */
  lemma DeadLetteredIff(attempts: seq<Attempt>, max: nat)
    requires max >= 1 && |attempts| == max && Sound(attempts)
    ensures DeadLettered(attempts, max)
       <==> (forall k :: 0 <= k < max - 1 ==> EndingOf(attempts, k) == Cut) && EndingOf(attempts, max - 1) != Returned
  {
    if DeadLettered(attempts, max) {
      forall k | 0 <= k < max - 1 ensures EndingOf(attempts, k) == Cut {
        assert attempts[..k + 1][..k] == attempts[..k];
        assert RunAll(FRESH, attempts[..k + 1]) == Run(RunAll(FRESH, attempts[..k]), attempts[k]).0;
        assert EndingOf(attempts, k + 1) != Returned;
      }
    }
  }

  // ---------- Willing recipients ----------

  /** The contact was to be reminded, as the attempt saw the rows: the customer, or a participant the reminder is for,
      who has not declined and not unsubscribed. */
  ghost predicate Willing(source: Source, id: nat) {
    match source
    case Customer(c) => c.id == id && !c.unsubscribed
    case Event(only, ps, _) =>
      (only.Some? ==> id == only.value) && exists p :: p in ps && p.contact.id == id && Reachable(p)
    case Nobody => false
  }

  lemma SendsAreWilling(s: State, a: Attempt)
    requires DistinctContacts(a.source)
    ensures
      var s' := Run(s, a).0;
      && s.sends <= s'.sends
      && forall id :: id in s'.sends[|s.sends|..] ==> id in a.reachable && Willing(a.source, id)
  {
    SelectIsDistinct(a.source);
    SendLoop(Select(a.source), a.reachable, a.budget);
    var l, s' := Send(Select(a.source), a.reachable, a.budget), Run(s, a).0;
    assert s'.sends[|s.sends|..] == [] || s'.sends[|s.sends|..] == l.sends;
    forall id | id in l.sends ensures id in a.reachable && Willing(a.source, id) {
      var r :| r in Select(a.source) && r.id == id && r.address.Some?;
      SelectedAreWilling(a.source, r);
    }
  }

  /** Over a whole job, cut or not, every send went to somebody who was willing in the attempt that sent. */
  lemma EverySendWasWilling(attempts: seq<Attempt>, k: nat)
    requires Sound(attempts) && k < |attempts|
    ensures
      var before, after := RunAll(FRESH, attempts[..k]).sends, RunAll(FRESH, attempts[..k + 1]).sends;
      && before <= after
      && forall id :: id in after[|before|..] ==> id in attempts[k].reachable && Willing(attempts[k].source, id)
  {
    assert attempts[..k + 1][..k] == attempts[..k];
    SendsAreWilling(RunAll(FRESH, attempts[..k]), attempts[k]);
  }

  // ---------- All the reminders of an event ----------

  predicate Names(source: Source, contact: nat, invited: set<nat>) {
    source.Event? && source.only == Some(contact) && forall p :: p in source.participants ==> p.contact.id in invited
  }

  predicate JobFor(job: seq<Attempt>, contact: nat, invited: set<nat>) {
    Sound(job) && forall a :: a in job ==> Names(a.source, contact, invited)
  }

  /** The jobs of one event, each with its own attempts, which may see different states of the participant table. */
  ghost predicate EventJobs(named: seq<nat>, jobs: seq<seq<Attempt>>, invited: set<nat>) {
    && |jobs| == |named|
    && (forall i, j :: 0 <= i < j < |named| ==> named[i] != named[j])
    && forall i :: 0 <= i < |jobs| ==> JobFor(jobs[i], named[i], invited)
  }

  function TotalSends(jobs: seq<seq<Attempt>>): nat {
    if jobs == [] then 0 else TotalSends(jobs[..|jobs| - 1]) + |RunAll(FRESH, jobs[|jobs| - 1]).sends|
  }

  function TotalCuts(jobs: seq<seq<Attempt>>): nat {
    if jobs == [] then 0 else TotalCuts(jobs[..|jobs| - 1]) + Cuts(FRESH, jobs[|jobs| - 1])
  }

  lemma {:induction false} AllSame(ids: seq<nat>, id: nat)
    requires forall i :: 0 <= i < |ids| ==> ids[i] == id
    ensures Count(ids, id) == |ids|
  {
    if ids != [] {
      AllSame(ids[1..], id);
    }
  }

  lemma {:induction false} SendsAreNamed(attempts: seq<Attempt>, contact: nat, invited: set<nat>)
    requires JobFor(attempts, contact, invited)
    ensures forall id :: id in RunAll(FRESH, attempts).sends ==> id == contact && contact in invited
  {
    if attempts != [] {
      var init, a := attempts[..|attempts| - 1], attempts[|attempts| - 1];
      assert a in attempts;
      SendsAreNamed(init, contact, invited);
      var before, after := RunAll(FRESH, init).sends, RunAll(FRESH, attempts).sends;
      SendsAreWilling(RunAll(FRESH, init), a);
      assert after == before + after[|before|..];
    }
  }

  /** A reminder that names a contact sends to nobody else, and at most once plus once for each attempt that was cut. */
  lemma OneNamedSend(attempts: seq<Attempt>, contact: nat, invited: set<nat>)
    requires JobFor(attempts, contact, invited)
    ensures |RunAll(FRESH, attempts).sends| <= if contact in invited then 1 + Cuts(FRESH, attempts) else 0
  {
    var sends := RunAll(FRESH, attempts).sends;
    SendsAreNamed(attempts, contact, invited);
    forall i | 0 <= i < |sends| ensures sends[i] == contact && contact in invited {
      assert sends[i] in sends;
    }
    AllSame(sends, contact);
    AttemptsInvariant(attempts, contact);
    assert sends != [] ==> sends[0] in sends;
  }

  lemma FewerJobs(named: seq<nat>, jobs: seq<seq<Attempt>>, invited: set<nat>)
    requires EventJobs(named, jobs, invited) && jobs != []
    ensures
      var n := |jobs| - 1;
      EventJobs(named[..n], jobs[..n], invited) && JobFor(jobs[n], named[n], invited) && named[n] !in named[..n]
  {
  }

  function Among(named: seq<nat>, invited: set<nat>): set<nat> { set c | c in named && c in invited }

  lemma OneMoreName(named: seq<nat>, c: nat, invited: set<nat>)
    requires c !in named
    ensures |Among(named + [c], invited)| == |Among(named, invited)| + (if c in invited then 1 else 0)
  {
    assert Among(named + [c], invited) == Among(named, invited) + (if c in invited then {c} else {});
  }

  lemma {:induction false} SendsAmongNamed(named: seq<nat>, jobs: seq<seq<Attempt>>, invited: set<nat>)
    requires EventJobs(named, jobs, invited)
    ensures TotalSends(jobs) <= |Among(named, invited)| + TotalCuts(jobs)
  {
    if jobs != [] {
      var n := |jobs| - 1;
      FewerJobs(named, jobs, invited);
      SendsAmongNamed(named[..n], jobs[..n], invited);
      OneNamedSend(jobs[n], named[n], invited);
      OneMoreName(named[..n], named[n], invited);
      assert named[..n] + [named[n]] == named;
    }
  }

  /** One reminder for each contact: all jobs together send at most as many messages as the event has participants, plus
      one for each attempt that was cut. */
  lemma EventSendsBound(named: seq<nat>, jobs: seq<seq<Attempt>>, invited: set<nat>)
    requires EventJobs(named, jobs, invited)
    ensures TotalSends(jobs) <= |Among(named, invited)| + TotalCuts(jobs)
    ensures |Among(named, invited)| <= |invited|
  {
    SendsAmongNamed(named, jobs, invited);
    SubsetSize(Among(named, invited), invited);
  }

  lemma {:induction false} EveryoneIsTarget(ps: seq<Participant>)
    ensures Targets(None, ps) == ps
  {
    if ps != [] {
      EveryoneIsTarget(ps[1..]);
    }
  }

  lemma {:induction false} EveryoneIsEligible(ps: seq<Participant>)
    requires forall p :: p in ps ==> Reachable(p)
    ensures |Eligible(ps)| == |ps|
  {
    if ps != [] {
      assert ps[0] in ps;
      EveryoneIsEligible(ps[1..]);
    }
  }

  lemma {:induction false} AllAreSent(rs: seq<Recipient>, reachable: set<nat>, left: nat)
    requires forall r :: r in rs ==> r.address.Some? && r.id in reachable
    requires left > 3 * |rs|
    ensures var l := Send(rs, reachable, left); |l.sends| == |rs| && !l.cut && l.left > 0
  {
    if rs != [] {
      assert rs[0] in rs;
      AllAreSent(rs[1..], reachable, left - 3);
    }
  }

  lemma EveryoneIsSent(ps: seq<Participant>, reachable: set<nat>, left: nat)
    requires forall p :: p in ps ==> Reachable(p) && p.contact.phone.Some? && p.contact.id in reachable
    requires left > 3 * |ps|
    ensures
      var l := Send(Eligible(Targets(None, ps)), reachable, left);
      Targets(None, ps) == ps && |l.sends| == |ps| && !l.cut && l.left > 0
  {
    EveryoneIsTarget(ps);
    EveryoneIsEligible(ps);
    forall r | r in Eligible(ps) ensures r.address.Some? && r.id in reachable {
      EligibleAreReachable(ps);
    }
    AllAreSent(Eligible(ps), reachable, left);
  }

  /** Rows that name no contact fan out: each of them sends to every willing participant. */
  lemma RowsWithoutContactFanOut(ps: seq<Participant>, reachable: set<nat>, budget: nat)
    requires ps != [] && budget > 3 * |ps|
    requires forall p :: p in ps ==> Reachable(p) && p.contact.phone.Some? && p.contact.id in reachable
    ensures |Run(FRESH, Attempt(true, Event(None, ps, None), reachable, budget)).0.sends| == |ps|
  {
    EveryoneIsSent(ps, reachable, budget);
  }

  // ---------- The worker ----------

  class Worker {
    var status: Status
    var sends: seq<nat>
    var counted: nat
    var rows: seq<nat>

    ghost function View(): State
      reads this
    {
      State(status, sends, counted, rows)
    }

    constructor ()
      ensures View() == FRESH
    {
      status, sends, counted, rows := PENDING, [], 0, [];
    }

    method FindTargets(only: Option<nat>, ps: seq<Participant>) returns (targets: seq<Participant>)
      ensures targets == Targets(only, ps)
    {
      targets := [];
      var i := 0;
      while i < |ps|
        invariant i <= |ps| && targets + Targets(only, ps[i..]) == Targets(only, ps)
      {
        assert ps[i..][1..] == ps[i + 1..];
        if only.None? || ps[i].contact.id == only.value {
          targets := targets + [ps[i]];
        }
        i := i + 1;
      }
    }

    method KeepEligible(targets: seq<Participant>) returns (recipients: seq<Recipient>)
      ensures recipients == Eligible(targets)
    {
      recipients := [];
      var i := 0;
      while i < |targets|
        invariant i <= |targets| && recipients + Eligible(targets[i..]) == Eligible(targets)
      {
        assert targets[i..][1..] == targets[i + 1..];
        var p := targets[i];
        if p.rsvp != Declined && !p.contact.unsubscribed {
          recipients := recipients + [AddressOf(p.contact)];
        }
        i := i + 1;
      }
    }

    /** Builds the recipient list of an event reminder. */
    method SelectParticipants(only: Option<nat>, ps: seq<Participant>, remind: Option<bool>)
      returns (recipients: seq<Recipient>)
      ensures recipients == Select(Event(only, ps, remind))
    {
      var targets := FindTargets(only, ps);
      if remind == Some(false) && exists t :: t in targets && t.rsvp != Confirmed && t.rsvp != Declined {
        return [];
      }
      recipients := KeepEligible(targets);
    }

    /** The loop over the recipients; stops early when the budget is spent. */
    method SendToAll(recipients: seq<Recipient>, reachable: set<nat>, budget: nat)
      returns (someSuccess: bool, left: nat, cut: bool)
      modifies this`sends, this`counted, this`rows
      ensures
        var l := Send(recipients, reachable, budget);
        && sends == old(sends) + l.sends && counted == old(counted) + l.counted && rows == old(rows) + l.rows
        && someSuccess == (l.sends != []) && left == l.left && cut == l.cut
    {
      someSuccess, left, cut := false, budget, false;
      var i := 0;
      while i < |recipients|
        invariant i <= |recipients| && !cut
        invariant
          var done, rest := Send(recipients, reachable, budget), Send(recipients[i..], reachable, left);
          && sends + rest.sends == old(sends) + done.sends && counted + rest.counted == old(counted) + done.counted
          && rows + rest.rows == old(rows) + done.rows
          && (someSuccess || rest.sends != []) == (done.sends != []) && rest.left == done.left && rest.cut == done.cut
      {
        var r := recipients[i];
        assert recipients[i..][0] == r && recipients[i..][1..] == recipients[i + 1..];
        i := i + 1;
        if r.address.None? {
          continue;
        }
        if left == 0 {
          cut := true;
          return;
        }
        left := left - 1;
        if r.id !in reachable {
          continue;
        }
        someSuccess := true;
        sends := sends + [r.id];
        if left == 0 {
          cut := true;
          return;
        }
        left, counted := left - 1, counted + 1;
        if left == 0 {
          cut := true;
          return;
        }
        left, rows := left - 1, rows + [r.id];
      }
    }

    /** One attempt of the job. */
    method Process(a: Attempt) returns (ending: Ending)
      modifies this
      ensures (View(), ending) == Run(old(View()), a)
    {
      if status != PENDING {
        return Returned;
      }
      var recipients := [];
      if a.eligible {
        match a.source
        case Customer(c) =>
          if !c.unsubscribed {
            recipients := [AddressOf(c)];
          }
        case Event(only, ps, remind) => recipients := SelectParticipants(only, ps, remind);
        case Nobody =>
      }
      if recipients == [] {
        if a.budget == 0 {
          return Cut;
        }
        status := CANCELLED;
        return Returned;
      }
      var someSuccess, left, cut := SendToAll(recipients, a.reachable, a.budget);
      if cut || left == 0 {
        return Cut;
      }
      if !someSuccess {
        status := FAILED;
        return Threw;
      }
      status := SENT;
      return Returned;
    }
  }
}
