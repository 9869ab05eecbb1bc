/** Badge scans at the door of one event: read the participant, then update the row where it has not arrived yet. Any
    number of scanners do this at once, while invitations are repeated, badges are asked for and replies come in. */
module CheckIn {
  import opened Options
  import opened Rsvps

  datatype Arrival = Arrival(at: int, scannedBy: string)

  datatype Participant = Participant(token: Option<string>, hasPhone: bool, rsvp: Rsvp, arrival: Option<Arrival>)

  /** One request of a scanner: between two of its statements, with its answer, or dead. */
  datatype Scan =
    | Holding(id: nat)      // read a participant who had not arrived
    | Claimed(id: nat)      // the conditional update matched the row
    | Greeted(id: nat)      // the thank-you is sent, if there is a phone
    | Admitted(id: nat)
    | Fallen(id: nat, claimed: bool, greeted: bool)  // died after a read, an update, or a thank-you
    | LostRace(id: nat)     // the conditional update matched no row
    | TurnedAway(id: nat)   // had arrived at the read
    | UnknownBadge

  /** One request for a badge: it read a participant without a token and is about to store one, or it has answered. */
  datatype BadgeRequest = Pending(id: nat) | Handed(id: nat, token: string)

  datatype State = State(
    participants: map<nat, Participant>,
    scans: seq<Scan>,
    thanked: seq<nat>,
    badges: seq<BadgeRequest>)

  datatype Step =
    | Read(token: string)
    | Claim(scan: nat, now: int, user: string)
    | Greet(scan: nat)
    | Reply(scan: nat)
    | Fall(scan: nat)
    | Invite(id: nat, hasPhone: bool, token: string)
    | AskBadge(id: nat)
    | StoreToken(request: nat, token: string)
    | Respond(id: nat, reply: Rsvp)

  // ---------- Steps ----------

  /** Tokens are unique in the table, so at most one participant carries this one. */
  ghost predicate Carries(ps: map<nat, Participant>, id: nat, token: string) {
    id in ps && ps[id].token == Some(token)
  }

  ghost predicate UniqueTokens(ps: map<nat, Participant>) {
    forall i, j, token :: Carries(ps, i, token) && Carries(ps, j, token) ==> i == j
  }

  ghost predicate Enabled(s: State, step: Step) {
    match step
    case Read(_) => true
    case Claim(k, _, _) => k < |s.scans| && s.scans[k].Holding? && s.scans[k].id in s.participants
    case Greet(k) => k < |s.scans| && s.scans[k].Claimed? && s.scans[k].id in s.participants
    case Reply(k) => k < |s.scans| && s.scans[k].Greeted?
    case Fall(k) => k < |s.scans| && (s.scans[k].Holding? || s.scans[k].Claimed? || s.scans[k].Greeted?)
    case Invite(id, _, token) => id in s.participants || forall i :: !Carries(s.participants, i, token)
    case AskBadge(id) => id in s.participants
    case StoreToken(k, token) => k < |s.badges| && s.badges[k].Pending? && s.badges[k].id in s.participants &&
      forall i :: Carries(s.participants, i, token) ==> i == s.badges[k].id
    case Respond(_, reply) => reply != Invited
  }

  ghost function Look(ps: map<nat, Participant>, token: string): Scan {
    if exists id :: Carries(ps, id, token) then
      var id :| Carries(ps, id, token);
      if ps[id].arrival.Some? then TurnedAway(id) else Holding(id)
    else UnknownBadge
  }

  lemma LookFinds(ps: map<nat, Participant>, id: nat, token: string)
    requires UniqueTokens(ps) && Carries(ps, id, token)
    ensures Look(ps, token) == if ps[id].arrival.Some? then TurnedAway(id) else Holding(id)
  {
    var other :| Carries(ps, other, token) &&
      Look(ps, token) == if ps[other].arrival.Some? then TurnedAway(other) else Holding(other);
    assert other == id;
  }

  ghost function Next(s: State, step: Step): State
    requires Enabled(s, step)
  {
    match step
    case Read(token) => s.(scans := s.scans + [Look(s.participants, token)])
    case Claim(k, now, user) =>
      var id := s.scans[k].id;
      var p := s.participants[id];
      if p.arrival.Some? then s.(scans := s.scans[k := LostRace(id)])
      else s.(participants := s.participants[id := p.(arrival := Some(Arrival(now, user)), rsvp := Confirmed)],
              scans := s.scans[k := Claimed(id)])
    case Greet(k) =>
      var id := s.scans[k].id;
      s.(scans := s.scans[k := Greeted(id)],
         thanked := if s.participants[id].hasPhone then s.thanked + [id] else s.thanked)
    case Reply(k) => s.(scans := s.scans[k := Admitted(s.scans[k].id)])
    case Fall(k) =>
      var scan := s.scans[k];
      s.(scans := s.scans[k := Fallen(scan.id, !scan.Holding?, scan.Greeted?)])
    case Invite(id, hasPhone, token) =>
      if id in s.participants then s
      else s.(participants := s.participants[id := Participant(Some(token), hasPhone, Invited, None)])
    case AskBadge(id) =>
      var token := s.participants[id].token;
      s.(badges := s.badges + [if token.Some? then Handed(id, token.value) else Pending(id)])
    case StoreToken(k, token) =>
      var id := s.badges[k].id;
      s.(participants := s.participants[id := s.participants[id].(token := Some(token))],
         badges := s.badges[k := Handed(id, token)])
    case Respond(id, reply) =>
      if id in s.participants then s.(participants := s.participants[id := s.participants[id].(rsvp := reply)]) else s
  }

  ghost predicate Possible(s: State, run: seq<Step>)
    decreases |run|
  {
    run != [] ==> Enabled(s, run[0]) && Possible(Next(s, run[0]), run[1..])
  }

  ghost function Exec(s: State, run: seq<Step>): State
    requires Possible(s, run)
    decreases |run|
  {
    if run == [] then s else Exec(Next(s, run[0]), run[1..])
  }

  // ---------- Counting ----------

  /** The scan's update matched the row of somebody. */
  predicate HasClaimed(scan: Scan) {
    scan.Claimed? || scan.Greeted? || scan.Admitted? || (scan.Fallen? && scan.claimed)
  }

  predicate HasGreeted(scan: Scan) { scan.Greeted? || scan.Admitted? || (scan.Fallen? && scan.claimed && scan.greeted) }

  /** The scans whose update matched a participant's row. */
  function Wins(scans: seq<Scan>, id: nat): nat {
    if scans == [] then 0 else
      var last := scans[|scans| - 1];
      Wins(scans[..|scans| - 1], id) + if HasClaimed(last) && last.id == id then 1 else 0
  }

  /** Those that got as far as the thank-you. */
  function Greetings(scans: seq<Scan>, id: nat): nat {
    if scans == [] then 0 else
      var last := scans[|scans| - 1];
      Greetings(scans[..|scans| - 1], id) + if HasGreeted(last) && last.id == id then 1 else 0
  }

  /** Those that answered with success. */
  function Successes(scans: seq<Scan>, id: nat): nat {
    if scans == [] then 0 else
      Successes(scans[..|scans| - 1], id) + if scans[|scans| - 1] == Admitted(id) then 1 else 0
  }

  function AllWins(scans: seq<Scan>): nat {
    if scans == [] then 0 else
      AllWins(scans[..|scans| - 1]) + if HasClaimed(scans[|scans| - 1]) then 1 else 0
  }

  function Thanks(thanked: seq<nat>, id: nat): nat {
    if thanked == [] then 0 else
      Thanks(thanked[..|thanked| - 1], id) + if thanked[|thanked| - 1] == id then 1 else 0
  }

  lemma {:induction false} WinsUpdate(scans: seq<Scan>, k: nat, scan: Scan, id: nat)
    requires k < |scans|
    ensures Wins(scans[k := scan], id) == Wins(scans, id)
      - (if HasClaimed(scans[k]) && scans[k].id == id then 1 else 0)
      + (if HasClaimed(scan) && scan.id == id then 1 else 0)
    ensures AllWins(scans[k := scan]) == AllWins(scans)
      - (if HasClaimed(scans[k]) then 1 else 0) + (if HasClaimed(scan) then 1 else 0)
  {
    var n := |scans| - 1;
    if k < n {
      WinsUpdate(scans[..n], k, scan, id);
      assert scans[k := scan][..n] == scans[..n][k := scan];
    } else {
      assert scans[k := scan][..n] == scans[..n];
    }
  }

  lemma {:induction false} GreetingsUpdate(scans: seq<Scan>, k: nat, scan: Scan, id: nat)
    requires k < |scans|
    ensures Greetings(scans[k := scan], id) == Greetings(scans, id)
      - (if HasGreeted(scans[k]) && scans[k].id == id then 1 else 0)
      + (if HasGreeted(scan) && scan.id == id then 1 else 0)
  {
    var n := |scans| - 1;
    if k < n {
      GreetingsUpdate(scans[..n], k, scan, id);
      assert scans[k := scan][..n] == scans[..n][k := scan];
    } else {
      assert scans[k := scan][..n] == scans[..n];
    }
  }

  function ArrivedIds(ps: map<nat, Participant>): set<nat> { set id | id in ps && ps[id].arrival.Some? }

  // ---------- The invariant ----------

  predicate ScanInv(ps: map<nat, Participant>, scan: Scan) {
    match scan
    case Holding(id) => id in ps
    case Fallen(id, claimed, _) => if claimed then id in ArrivedIds(ps) else id in ps
    case TurnedAway(id) => id in ArrivedIds(ps)
    case LostRace(id) => id in ArrivedIds(ps)
    case Claimed(id) => id in ArrivedIds(ps)
    case Greeted(id) => id in ArrivedIds(ps)
    case Admitted(id) => id in ArrivedIds(ps)
    case UnknownBadge => true
  }

  ghost predicate Inv(s: State) {
    && UniqueTokens(s.participants)
    && (forall id :: Wins(s.scans, id) == if id in ArrivedIds(s.participants) then 1 else 0)
    && (forall id :: Thanks(s.thanked, id) ==
          if id in s.participants && s.participants[id].hasPhone then Greetings(s.scans, id) else 0)
    && (forall id :: Greetings(s.scans, id) > 0 ==> id in s.participants)
    && AllWins(s.scans) == |ArrivedIds(s.participants)|
    && (forall k :: 0 <= k < |s.scans| ==> ScanInv(s.participants, s.scans[k]))
  }

  /** A scan that only moves on: no claim and no thank-you. */
  lemma InvMoved(s: State, k: nat, scan: Scan)
    requires Inv(s) && k < |s.scans| && ScanInv(s.participants, scan)
    requires HasClaimed(scan) == HasClaimed(s.scans[k]) && HasGreeted(scan) == HasGreeted(s.scans[k])
    requires HasClaimed(scan) ==> scan.id == s.scans[k].id
    ensures Inv(s.(scans := s.scans[k := scan]))
  {
    forall id ensures Wins(s.scans[k := scan], id) == Wins(s.scans, id)
                   && Greetings(s.scans[k := scan], id) == Greetings(s.scans, id) {
      WinsUpdate(s.scans, k, scan, id);
      GreetingsUpdate(s.scans, k, scan, id);
    }
    WinsUpdate(s.scans, k, scan, 0);
    assert forall j :: 0 <= j < |s.scans| ==> s.scans[k := scan][j] == s.scans[j] || s.scans[k := scan][j] == scan;
  }

  lemma GreetCounts(s: State, k: nat)
    requires Enabled(s, Greet(k))
    ensures
      var s', id := Next(s, Greet(k)), s.scans[k].id;
      && (forall i :: Wins(s'.scans, i) == Wins(s.scans, i))
      && AllWins(s'.scans) == AllWins(s.scans)
      && (forall i :: Greetings(s'.scans, i) == Greetings(s.scans, i) + if i == id then 1 else 0)
      && (forall i :: Thanks(s'.thanked, i) ==
            Thanks(s.thanked, i) + if i == id && s.participants[id].hasPhone then 1 else 0)
  {
    var s', id := Next(s, Greet(k)), s.scans[k].id;
    forall i ensures Wins(s'.scans, i) == Wins(s.scans, i)
                  && Greetings(s'.scans, i) == Greetings(s.scans, i) + if i == id then 1 else 0 {
      WinsUpdate(s.scans, k, Greeted(id), i);
      GreetingsUpdate(s.scans, k, Greeted(id), i);
    }
    WinsUpdate(s.scans, k, Greeted(id), id);
    if s.participants[id].hasPhone {
      assert s'.thanked[..|s.thanked|] == s.thanked;
    }
  }

  lemma InvGreet(s: State, k: nat)
    requires Inv(s) && Enabled(s, Greet(k))
    ensures Inv(Next(s, Greet(k)))
  {
    var s', id := Next(s, Greet(k)), s.scans[k].id;
    GreetCounts(s, k);
    assert forall j :: 0 <= j < |s'.scans| ==> s'.scans[j] == s.scans[j] || s'.scans[j] == Greeted(id);
  }

  /** The first claim on a participant: one more win and one more arrival. */
  lemma WonCounts(s: State, k: nat, now: int, user: string)
    requires Inv(s) && Enabled(s, Claim(k, now, user)) && s.participants[s.scans[k].id].arrival.None?
    ensures
      var s', id := Next(s, Claim(k, now, user)), s.scans[k].id;
      && ArrivedIds(s'.participants) == ArrivedIds(s.participants) + {id}
      && (forall i :: Wins(s'.scans, i) == Wins(s.scans, i) + if i == id then 1 else 0)
      && AllWins(s'.scans) == AllWins(s.scans) + 1
      && (forall i :: Greetings(s'.scans, i) == Greetings(s.scans, i))
  {
    var s', id := Next(s, Claim(k, now, user)), s.scans[k].id;
    forall i ensures Wins(s'.scans, i) == Wins(s.scans, i) + (if i == id then 1 else 0)
                  && Greetings(s'.scans, i) == Greetings(s.scans, i) {
      WinsUpdate(s.scans, k, Claimed(id), i);
      GreetingsUpdate(s.scans, k, Claimed(id), i);
    }
    WinsUpdate(s.scans, k, Claimed(id), id);
  }

  lemma InvWon(s: State, k: nat, now: int, user: string)
    requires Inv(s) && Enabled(s, Claim(k, now, user)) && s.participants[s.scans[k].id].arrival.None?
    ensures Inv(Next(s, Claim(k, now, user)))
  {
    var s', id := Next(s, Claim(k, now, user)), s.scans[k].id;
    WonCounts(s, k, now, user);
    assert UniqueTokens(s'.participants) by {
      assert forall i, token :: Carries(s'.participants, i, token) ==> Carries(s.participants, i, token);
    }
    forall j | 0 <= j < |s'.scans| ensures ScanInv(s'.participants, s'.scans[j]) {
      assert j != k ==> ScanInv(s.participants, s.scans[j]);
    }
  }

  lemma InvRead(s: State, token: string)
    requires Inv(s)
    ensures Inv(Next(s, Read(token)))
  {
    var s' := Next(s, Read(token));
    assert s'.scans[..|s.scans|] == s.scans;
  }

  predicate IsScanStep(step: Step) { step.Read? || step.Claim? || step.Greet? || step.Reply? || step.Fall? }

  lemma TokensStayUnique(s: State, step: Step)
    requires UniqueTokens(s.participants) && Enabled(s, step) && !IsScanStep(step)
    ensures UniqueTokens(Next(s, step).participants)
  {
    var changed := if step.Invite? && step.id !in s.participants then Some(step.token)
                   else if step.StoreToken? then Some(step.token) else None;
    var at := if step.Invite? then step.id else if step.StoreToken? then s.badges[step.request].id else 0;
    assert forall i, token :: Carries(Next(s, step).participants, i, token) ==>
      (Carries(s.participants, i, token) && (step.StoreToken? ==> i != at)) || (Some(token) == changed && i == at);
  }

  /** The invariant does not look at answers and tokens, apart from their being unique, and new rows have not
      arrived. */
  lemma InvFrame(s: State, s': State)
    requires Inv(s) && s'.scans == s.scans && s'.thanked == s.thanked && UniqueTokens(s'.participants)
    requires forall id :: id in s.participants ==>
      && id in s'.participants
      && s'.participants[id].arrival == s.participants[id].arrival
      && s'.participants[id].hasPhone == s.participants[id].hasPhone
    requires forall id :: id in s'.participants && id !in s.participants ==> s'.participants[id].arrival.None?
    ensures Inv(s')
  {
    assert ArrivedIds(s'.participants) == ArrivedIds(s.participants);
    assert forall k :: 0 <= k < |s.scans| ==> ScanInv(s.participants, s.scans[k]);
  }

  lemma InvOther(s: State, step: Step)
    requires Inv(s) && Enabled(s, step) && !IsScanStep(step)
    ensures Inv(Next(s, step))
  {
    var s' := Next(s, step);
    TokensStayUnique(s, step);
    InvFrame(s, s');
  }

  lemma {:induction false} InvRun(s: State, run: seq<Step>)
    requires Inv(s) && Possible(s, run)
    ensures Inv(Exec(s, run))
    decreases |run|
  {
    if run != [] {
      match run[0] {
        case Read(token) => InvRead(s, token);
        case Claim(k, now, user) =>
          if s.participants[s.scans[k].id].arrival.Some? {
            InvMoved(s, k, LostRace(s.scans[k].id));
          } else {
            InvWon(s, k, now, user);
          }
        case Greet(k) => InvGreet(s, k);
        case Reply(k) => InvMoved(s, k, Admitted(s.scans[k].id));
        case Fall(k) => InvMoved(s, k, Fallen(s.scans[k].id, !s.scans[k].Holding?, s.scans[k].Greeted?));
        case _ => InvOther(s, run[0]);
      }
      InvRun(Next(s, run[0]), run[1..]);
    }
  }

  /** Before the doors open: some are invited, with tokens or, from the days before badges, without one. */
  ghost predicate DoorsClosed(s: State) {
    && UniqueTokens(s.participants) && (forall id :: id in s.participants ==> s.participants[id].arrival.None?)
    && s.scans == [] && s.thanked == [] && s.badges == []
  }

  /** A scan that found the participant arrived, or made it so. */
  predicate Met(scan: Scan, id: nat) {
    (HasClaimed(scan) && scan.id == id) || scan == LostRace(id) || scan == TurnedAway(id)
  }

  lemma {:induction false} WinHasScan(scans: seq<Scan>, id: nat)
    ensures Wins(scans, id) > 0 <==> exists k :: 0 <= k < |scans| && HasClaimed(scans[k]) && scans[k].id == id
    ensures Greetings(scans, id) <= Wins(scans, id)
    ensures Greetings(scans, id) == Wins(scans, id)
       <==> forall k :: 0 <= k < |scans| && HasClaimed(scans[k]) && scans[k].id == id ==> HasGreeted(scans[k])
    ensures Successes(scans, id) <= Greetings(scans, id)
    ensures Successes(scans, id) == Wins(scans, id)
       <==> forall k :: 0 <= k < |scans| && HasClaimed(scans[k]) && scans[k].id == id ==> scans[k].Admitted?
  {
    if scans != [] {
      var n := |scans| - 1;
      WinHasScan(scans[..n], id);
      assert forall k :: 0 <= k < n ==> scans[..n][k] == scans[k];
    }
  }

  /** However scans, deaths of scanners, repeated invitations, badge requests and replies interleave: the update of at
      most one scan matches a participant's row, and one does as soon as any scan finds the participant arrived; the
      arrived figure is the number of such scans; and successes and thank-yous are never more. */
  lemma AdmittedOnce(start: State, run: seq<Step>, id: nat)
    requires DoorsClosed(start) && Possible(start, run)
    ensures
      var s := Exec(start, run);
      && Successes(s.scans, id) <= Greetings(s.scans, id) <= Wins(s.scans, id) <= 1
      && (Wins(s.scans, id) == 1 <==> exists k :: 0 <= k < |s.scans| && Met(s.scans[k], id))
      && |ArrivedIds(s.participants)| == AllWins(s.scans)
      && Thanks(s.thanked, id) ==
           if id in s.participants && s.participants[id].hasPhone then Greetings(s.scans, id) else 0
  {
    assert ArrivedIds(start.participants) == {};
    InvRun(start, run);
    var s := Exec(start, run);
    WinHasScan(s.scans, id);
    if Wins(s.scans, id) == 1 {
      var k :| 0 <= k < |s.scans| && HasClaimed(s.scans[k]) && s.scans[k].id == id;
      assert Met(s.scans[k], id);
    }
    if k :| 0 <= k < |s.scans| && Met(s.scans[k], id) {
      assert ScanInv(s.participants, s.scans[k]);
    }
  }

  /** The scan that made the arrival has not thanked yet and never will, or not yet. */
  predicate Unthanked(scan: Scan, id: nat) { HasClaimed(scan) && scan.id == id && !HasGreeted(scan) }

  /** It has not answered. */
  predicate Unanswered(scan: Scan, id: nat) { HasClaimed(scan) && scan.id == id && !scan.Admitted? }

  /** An arrived guest with a phone is thanked exactly once unless the scan that recorded the arrival died, or is,
      between its update and the thank-you; and it counts as a success unless that scan died, or is, before its
      answer. */
  lemma ThankedOnceIff(start: State, run: seq<Step>, id: nat)
    requires DoorsClosed(start) && Possible(start, run)
    requires id in Exec(start, run).participants && Exec(start, run).participants[id].arrival.Some?
    ensures
      var s := Exec(start, run);
      && (s.participants[id].hasPhone ==>
            (Thanks(s.thanked, id) == 1 <==> forall k :: 0 <= k < |s.scans| ==> !Unthanked(s.scans[k], id)))
      && (Successes(s.scans, id) == 1 <==> forall k :: 0 <= k < |s.scans| ==> !Unanswered(s.scans[k], id))
  {
    assert ArrivedIds(start.participants) == {};
    InvRun(start, run);
    var s := Exec(start, run);
    assert id in ArrivedIds(s.participants);
    WinHasScan(s.scans, id);
    assert (forall k :: 0 <= k < |s.scans| ==> !Unthanked(s.scans[k], id)) <==>
      (forall k :: 0 <= k < |s.scans| && HasClaimed(s.scans[k]) && s.scans[k].id == id ==> HasGreeted(s.scans[k]));
    assert (forall k :: 0 <= k < |s.scans| ==> !Unanswered(s.scans[k], id)) <==>
      (forall k :: 0 <= k < |s.scans| && HasClaimed(s.scans[k]) && s.scans[k].id == id ==> s.scans[k].Admitted?);
  }

  /** A recorded arrival, its time and its scanner, is never changed. */
  lemma {:induction false} ArrivalIsFinal(s: State, run: seq<Step>, id: nat)
    requires Possible(s, run) && id in s.participants
    ensures id in Exec(s, run).participants
    ensures s.participants[id].arrival.Some? ==> Exec(s, run).participants[id].arrival == s.participants[id].arrival
    decreases |run|
  {
    if run != [] {
      ArrivalIsFinal(Next(s, run[0]), run[1..], id);
    }
  }

  /** The answer on record after a step is the reply, if the step is the participant's reply; Confirmed, if it is the
      update that records the arrival; and the one before in every other case. */
  lemma AnswerAfter(s: State, step: Step, id: nat)
    requires Enabled(s, step) && id in s.participants
    ensures
      var p, p' := s.participants[id], Next(s, step).participants[id];
      && (step.Respond? && step.id == id ==> p'.rsvp == step.reply)
      && (!(step.Respond? && step.id == id) ==>
            p'.rsvp == if p.arrival.None? && p'.arrival.Some? then Confirmed else p.rsvp)
      && (p.arrival.None? && p'.arrival.Some? <==>
            step.Claim? && s.scans[step.scan].id == id && p.arrival.None?)
      && (p.arrival.None? && p'.arrival.Some? ==> p'.arrival == Some(Arrival(step.now, step.user)))
      && p'.hasPhone == p.hasPhone
  {
  }

  /** At any time anybody may scan, everybody who is invited may be invited again or ask for the badge, and every reply
      but a new invitation may come in; a new guest needs a token that nobody carries. */
  lemma AlwaysPossible(s: State, token: string, id: nat, hasPhone: bool)
    ensures Enabled(s, Read(token))
    ensures id in s.participants ==> Enabled(s, Invite(id, hasPhone, token)) && Enabled(s, AskBadge(id))
    ensures id !in s.participants && (forall i :: !Carries(s.participants, i, token)) ==>
      && Enabled(s, Invite(id, hasPhone, token))
      && Next(s, Invite(id, hasPhone, token)).participants[id] == Participant(Some(token), hasPhone, Invited, None)
    ensures forall reply :: reply in {Confirmed, Declined, Undecided} ==> Enabled(s, Respond(id, reply))
  {
  }

  // ---------- Tokens ----------

  /** A badge request that found no token has not stored its own yet. */
  predicate TokenAwaited(s: State, id: nat) { Pending(id) in s.badges }

  ghost predicate KeepsToken(s: State, run: seq<Step>, id: nat)
    requires id in s.participants
  {
    Possible(s, run) ==>
      id in Exec(s, run).participants && Exec(s, run).participants[id].token == s.participants[id].token
  }

  lemma {:induction false} TokenStays(s: State, run: seq<Step>, id: nat)
    requires Possible(s, run) && id in s.participants && s.participants[id].token.Some? && !TokenAwaited(s, id)
    ensures id in Exec(s, run).participants && Exec(s, run).participants[id].token == s.participants[id].token
    decreases |run|
  {
    if run != [] {
      var s' := Next(s, run[0]);
      assert !TokenAwaited(s', id) by {
        assert forall b :: b in s'.badges ==> b in s.badges || b.Handed? || (run[0].AskBadge? && b == Pending(run[0].id)
                                                                          && s.participants[b.id].token.None?);
      }
      TokenStays(s', run[1..], id);
    }
  }

  /** Tokens do not run out. */
  lemma {:induction false} FreshToken(ps: map<nat, Participant>) returns (token: string)
    ensures forall i :: i in ps && ps[i].token.Some? ==> |ps[i].token.value| < |token|
    decreases |ps|
  {
    if ps == map[] {
      token := "";
    } else {
      var i :| i in ps;
      var rest := map j | j in ps && j != i :: ps[j];
      assert rest.Keys == ps.Keys - {i} && |rest.Keys| == |rest| && |ps.Keys| == |ps|;
      var shorter := FreshToken(rest);
      token := shorter + "t" + (if ps[i].token.Some? then ps[i].token.value else "");
      forall j | j in ps && ps[j].token.Some? ensures |ps[j].token.value| < |token| {
        assert j != i ==> j in rest && rest[j] == ps[j];
      }
    }
  }

  /** A badge that was handed out scans for good exactly when no request that found the participant without a token is
      still on its way: such a request replaces the token without looking again. */
  lemma TokenIsFinalIff(s: State, id: nat)
    requires id in s.participants && s.participants[id].token.Some?
    ensures (forall run :: KeepsToken(s, run, id)) <==> !TokenAwaited(s, id)
  {
    if TokenAwaited(s, id) {
      var k :| 0 <= k < |s.badges| && s.badges[k] == Pending(id);
      var token := FreshToken(s.participants);
      var step := StoreToken(k, token);
      var run := [step];
      assert run[1..] == [] && Possible(Next(s, step), []);
      assert Possible(s, run) && Exec(s, run) == Next(s, step);
      assert Exec(s, run).participants[id].token == Some(token) != s.participants[id].token;
      assert !KeepsToken(s, run, id);
    } else {
      forall run ensures KeepsToken(s, run, id) {
        if Possible(s, run) {
          TokenStays(s, run, id);
        }
      }
    }
  }

  // ---------- The statistics ----------

  function WithRsvp(ps: map<nat, Participant>, r: Rsvp): set<nat> { set id | id in ps && ps[id].rsvp == r }

  /** The four answers split the participants: their figures add up to the total. */
  lemma AnswersAddUp(ps: map<nat, Participant>)
    ensures |WithRsvp(ps, Confirmed)| + |WithRsvp(ps, Undecided)| + |WithRsvp(ps, Declined)| + |WithRsvp(ps, Invited)|
         == |ps|
  {
    var a, b, c, d := WithRsvp(ps, Confirmed), WithRsvp(ps, Undecided), WithRsvp(ps, Declined), WithRsvp(ps, Invited);
    assert ps.Keys == a + b + c + d;
    assert |a + b| == |a| + |b| && |a + b + c| == |a + b| + |c| && |a + b + c + d| == |a + b + c| + |d|;
  }

  // ---------- The service ----------

  datatype Answer = Welcome(id: nat) | AlreadyCheckedIn | InvalidBadge | NoToken

  class EventService {
    var participants: map<nat, Participant>
    ghost var scans: seq<Scan>
    var thanked: seq<nat>
    ghost var badges: seq<BadgeRequest>

    ghost function View(): State
      reads this
    {
      State(participants, scans, thanked, badges)
    }

    constructor ()
      ensures DoorsClosed(View()) && participants == map[]
    {
      participants, scans, thanked, badges := map[], [], [], [];
    }

    /** The first statement of a scan. */
    method FindByToken(token: string) returns (found: Option<nat>)
      requires UniqueTokens(participants)
      modifies this`scans
      ensures Enabled(old(View()), Read(token)) && View() == Next(old(View()), Read(token))
      ensures
        match Look(participants, token)
        case UnknownBadge => found.None?
        case scan => found == Some(scan.id)
    {
      var todo := participants.Keys;
      while todo != {}
        invariant todo <= participants.Keys && View() == old(View())
        invariant forall id :: Carries(participants, id, token) ==> id in todo
        decreases todo
      {
        var id :| id in todo;
        todo := todo - {id};
        if participants[id].token == Some(token) {
          LookFinds(participants, id, token);
          scans := scans + [Look(participants, token)];
          return Some(id);
        }
      }
      scans := scans + [Look(participants, token)];
      return None;
    }

    /** The conditional update: the rows changed, 0 or 1. The scan holds the participant since its read. */
    method ClaimArrival(id: nat, now: int, user: string, ghost k: nat) returns (count: nat)
      requires k < |scans| && scans[k] == Holding(id) && id in participants
      modifies this
      ensures View() == Next(old(View()), Claim(k, now, user))
      ensures count == if old(participants)[id].arrival.None? then 1 else 0
    {
      var p := participants[id];
      if p.arrival.Some? {
        scans := scans[k := LostRace(id)];
        return 0;
      }
      participants := participants[id := p.(arrival := Some(Arrival(now, user)), rsvp := Confirmed)];
      scans := scans[k := Claimed(id)];
      return 1;
    }

    /** The thank-you, whose failure is swallowed. */
    method ThankGuest(id: nat, ghost k: nat)
      requires k < |scans| && scans[k] == Claimed(id) && id in participants
      modifies this`thanked, this`scans
      ensures View() == Next(old(View()), Greet(k))
    {
      if participants[id].hasPhone {
        thanked := thanked + [id];
      }
      scans := scans[k := Greeted(id)];
    }

    /** One scan from start to end with nobody in between, so that its claim finds the row as it was read. `token` is
        trimmed. */
    method ProcessArrival(token: string, now: int, user: string) returns (answer: Answer)
      requires UniqueTokens(participants)
      modifies this
      ensures token == "" <==> answer.NoToken?
      ensures answer.InvalidBadge? <==> token != "" && forall id :: !Carries(old(participants), id, token)
      ensures answer.AlreadyCheckedIn? <==>
        && token != ""
        && exists id :: Carries(old(participants), id, token) && old(participants)[id].arrival.Some?
      ensures answer.Welcome? ==>
        && Carries(old(participants), answer.id, token)
        && participants == old(participants)[answer.id :=
             old(participants)[answer.id].(arrival := Some(Arrival(now, user)), rsvp := Confirmed)]
        && thanked == old(thanked) + if old(participants)[answer.id].hasPhone then [answer.id] else []
      ensures !answer.Welcome? ==> participants == old(participants) && thanked == old(thanked)
    {
      if token == "" {
        return NoToken;
      }
      var found := FindByToken(token);
      if found.None? {
        return InvalidBadge;
      }
      var id := found.value;
      if participants[id].arrival.Some? {
        return AlreadyCheckedIn;
      }
      var count := ClaimArrival(id, now, user, |scans| - 1);
      ThankGuest(id, |scans| - 1);
      scans := scans[|scans| - 1 := Admitted(id)];
      return Welcome(id);
    }

    /** `generateQrCode` with nobody in between: the token that is handed out is the participant's, stored first if
        there was none. `minted` is what the generator returns. */
    method GenerateQrCode(id: nat, minted: string) returns (token: Option<string>)
      requires forall i :: Carries(participants, i, minted) ==> i == id
      modifies this`participants, this`badges
      ensures token.None? <==> id !in old(participants)
      ensures token.None? ==> View() == old(View())
      ensures token.Some? ==>
        var asked := Next(old(View()), AskBadge(id));
        && View() == (if old(participants)[id].token.Some? then asked
                      else Next(asked, StoreToken(|old(badges)|, minted)))
        && participants[id].token == token && Handed(id, token.value) in badges
    {
      if id !in participants {
        return None;
      }
      token := participants[id].token;
      if token.None? {
        token := Some(minted);
        badges := badges + [Handed(id, minted)];
        participants := participants[id := participants[id].(token := token)];
      } else {
        badges := badges + [Handed(id, token.value)];
      }
    }

    /** The invitation loop: unknown contacts are skipped, contacts already invited keep their row and token. */
    method InviteAll(contacts: seq<nat>, known: map<nat, bool>, mint: nat -> string)
      returns (invited: nat, skipped: nat)
      modifies this`participants
      ensures invited + skipped == |contacts|
      ensures participants.Keys == old(participants).Keys + set c | c in contacts && c in known
      ensures forall id :: id in participants ==>
        participants[id] == if id in old(participants) then old(participants)[id]
                            else Participant(Some(mint(id)), known[id], Invited, None)
    {
      invited, skipped := 0, 0;
      ghost var before := participants;
      var i := 0;
      while i < |contacts|
        invariant i <= |contacts| && invited + skipped == i
        invariant participants.Keys == before.Keys + set c | c in contacts[..i] && c in known
        invariant forall id :: id in participants ==>
          participants[id] == if id in before then before[id] else Participant(Some(mint(id)), known[id], Invited, None)
      {
        var c := contacts[i];
        assert contacts[..i + 1] == contacts[..i] + [c];
        if c !in known {
          skipped := skipped + 1;
        } else {
          if c !in participants {
            participants := participants[c := Participant(Some(mint(c)), known[c], Invited, None)];
          }
          invited := invited + 1;
        }
        i := i + 1;
      }
      assert contacts[..i] == contacts;
    }
  }
}
