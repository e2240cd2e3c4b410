/**
  Whole runs of the signalling store: garbage collection and sweeping are never
  visible to a caller, and the session quota holds over time.
 */
module SignalRuns {
  import opened Wrappers
  import opened SignalStore

  datatype Call =
    | Create(id: SessionId, device: DeviceId, offer: string, credential: string)
    | Submit(id: SessionId, answer: AnswerStatus)
    | Peek(id: SessionId)
    | Cleanup
    | Issue(ticket: Ticket, device: DeviceId)
    | Redeem(ticket: Ticket, device: DeviceId)

  /** A call together with the clock it reads. */
  datatype Timed = Timed(now: int, call: Call)

  datatype Reply = Created(ok: bool) | Submitted(ok: bool) | Peeked(answer: Option<Option<AnswerStatus>>)
                 | Redeemed(ok: bool) | Silent

  datatype State = State(sessions: Sessions, tickets: Tickets)

  const EMPTY := State(map[], map[])

  /** What the store answers; both stores below answer from their own contents. */
  function Answer(s: State, t: Timed): Reply {
    match t.call
    case Create(id, device, offer, credential) => Created(CanCreate(s.sessions, device, t.now))
    case Submit(id, answer) => Submitted(CanSubmit(s.sessions, id, t.now))
    case Peek(id) => Peeked(PeekResult(s.sessions, id, t.now))
    case Cleanup => Silent
    case Issue(_, _) => Silent
    case Redeem(ticket, device) => Redeemed(Redeems(s.tickets, ticket, device, t.now))
  }

  /** One call on the real store. */
  function Step(s: State, t: Timed): State {
    match t.call
    case Create(id, device, offer, credential) =>
      s.(sessions := AfterCreate(s.sessions, id, device, offer, credential, t.now))
    case Submit(id, answer) => s.(sessions := AfterSubmit(s.sessions, id, answer, t.now))
    case Peek(id) => s
    case Cleanup => s.(sessions := AfterCleanup(s.sessions, t.now))
    case Issue(ticket, device) => s.(tickets := AfterIssue(s.tickets, ticket, device, t.now))
    case Redeem(ticket, device) => s.(tickets := AfterRedeem(s.tickets, ticket))
  }

  /** The same call on a store that forgets nothing: no collection, no sweep, no removal on access. */
  function KeepStep(s: State, t: Timed): State {
    match t.call
    case Create(id, device, offer, credential) =>
      if CanCreate(s.sessions, device, t.now)
      then s.(sessions := s.sessions[id := Session(device, offer, credential, None, t.now)]) else s
    case Submit(id, answer) =>
      if CanSubmit(s.sessions, id, t.now)
      then s.(sessions := s.sessions[id := s.sessions[id].(answer := Some(answer))]) else s
    case Peek(id) => s
    case Cleanup => s
    case Issue(ticket, device) =>
      s.(tickets := s.tickets[ticket := TicketEntry(device, t.now + SSE_TICKET_TTL)])
    case Redeem(ticket, device) => s.(tickets := s.tickets - {ticket})
  }

  function After(run: seq<Timed>): State {
    if run == [] then EMPTY else Step(After(run[..|run|-1]), run[|run|-1])
  }

  function KeepAfter(run: seq<Timed>): State {
    if run == [] then EMPTY else KeepStep(KeepAfter(run[..|run|-1]), run[|run|-1])
  }

  predicate OnSessions(call: Call) {
    call.Create? || call.Submit? || call.Peek? || call.Cleanup?
  }

  /**
    The calls on sessions read the clock under the lock, so they come in its order. The calls on
    tickets read it before they take theirs; nothing is assumed of them here.
   */
  ghost predicate SessionsOrdered(run: seq<Timed>) {
    forall i, j :: 0 <= i < j < |run| && OnSessions(run[i].call) && OnSessions(run[j].call) ==> run[i].now <= run[j].now
  }

  /** The clock is past every reading of a call on sessions. */
  ghost predicate NoLaterSession(run: seq<Timed>, now: int) {
    forall i :: 0 <= i < |run| && OnSessions(run[i].call) ==> run[i].now <= now
  }

  // ----- expiry and collection are unobservable -----

  ghost predicate SessionsCollected(c: Sessions, k: Sessions, now: int) {
    && (forall id :: id in c ==> id in k && c[id] == k[id])
    && (forall id :: id in k && id !in c ==> Expired(k[id], now))
  }

  lemma {:induction false} SameActive(c: Sessions, k: Sessions, device: DeviceId, now: int)
    requires SessionsCollected(c, k, now)
    ensures Active(c, device, now) == Active(k, device, now)
  {
  }

  /** `c` is `k` without some sessions that are already dead at time `now`: no call on sessions can tell. */
  lemma {:induction false} AnswersAlike(c: State, k: State, now: int, t: Timed)
    requires SessionsCollected(c.sessions, k.sessions, now) && now <= t.now && OnSessions(t.call)
    ensures Answer(c, t) == Answer(k, t)
  {
    if t.call.Create? {
      SameActive(c.sessions, k.sessions, t.call.device, t.now);
    }
  }

  lemma {:induction false} SessionsStayCollected(c: State, k: State, now: int, t: Timed)
    requires SessionsCollected(c.sessions, k.sessions, now) && (OnSessions(t.call) ==> now <= t.now)
    ensures SessionsCollected(Step(c, t).sessions, KeepStep(k, t).sessions, if OnSessions(t.call) then t.now else now)
  {
    if t.call.Create? {
      SameActive(c.sessions, k.sessions, t.call.device, t.now);
    }
  }

  lemma {:induction false} RunsStayCollected(run: seq<Timed>, now: int)
    requires SessionsOrdered(run) && NoLaterSession(run, now)
    ensures SessionsCollected(After(run).sessions, KeepAfter(run).sessions, now)
  {
    if run != [] {
      var init, last := run[..|run|-1], run[|run|-1];
      var before := if OnSessions(last.call) then last.now else now;
      assert NoLaterSession(init, before);
      RunsStayCollected(init, before);
      SessionsStayCollected(After(init), KeepAfter(init), before, last);
    }
  }

  /**
    Wherever clean-ups happen or are skipped, and whatever the clocks of the ticket calls between, every
    reply on sessions is the reply of the store that never forgets.
   */
  lemma {:induction false} LazyExpiryUnobservable(run: seq<Timed>, i: nat)
    requires SessionsOrdered(run) && i < |run| && OnSessions(run[i].call)
    ensures Answer(After(run[..i]), run[i]) == Answer(KeepAfter(run[..i]), run[i])
  {
    RunsStayCollected(run[..i], run[i].now);
    AnswersAlike(After(run[..i]), KeepAfter(run[..i]), run[i].now, run[i]);
  }

  // ----- tickets, without assuming any order of clocks -----
  // issue_ticket and redeem_ticket read their clock before they take the lock, so two
  // calls can reach the map in the opposite order of their clocks.

  /** Some issue_ticket after the last issue of `ticket` ran with a clock at or past `expiresAt`. */
  ghost predicate SweptSince(run: seq<Timed>, ticket: Ticket, expiresAt: int) {
    if run == [] then false
    else
      var last := run[|run|-1];
      if last.call.Issue? then
        last.call.ticket != ticket && (last.now >= expiresAt || SweptSince(run[..|run|-1], ticket, expiresAt))
      else SweptSince(run[..|run|-1], ticket, expiresAt)
  }

  lemma {:induction false} SweptTicketsExactly(run: seq<Timed>, t: Ticket)
    ensures t in After(run).tickets <==>
            t in KeepAfter(run).tickets && !SweptSince(run, t, KeepAfter(run).tickets[t].expiresAt)
    ensures t in After(run).tickets ==> After(run).tickets[t] == KeepAfter(run).tickets[t]
  {
    if run != [] {
      SweptTicketsExactly(run[..|run|-1], t);
    }
  }

  /**
    For any clocks at all: a redemption succeeds exactly when it would on the store that never
    sweeps and no later issue has swept the ticket meanwhile.
   */
  lemma {:induction false} RedemptionExactly(run: seq<Timed>, i: nat)
    requires i < |run| && run[i].call.Redeem?
    ensures var t := run[i].call.ticket; var kept := KeepAfter(run[..i]);
            Answer(After(run[..i]), run[i]) == Answer(kept, run[i]) <==>
            !(Answer(kept, run[i]).ok && SweptSince(run[..i], t, kept.tickets[t].expiresAt))
  {
    SweptTicketsExactly(run[..i], run[i].call.ticket);
  }

  /** Some issue_ticket in the run had a clock at or past `at`. */
  ghost predicate IssuedPast(run: seq<Timed>, at: int) {
    exists k :: 0 <= k < |run| && run[k].call.Issue? && run[k].now >= at
  }

  lemma {:induction false} SweptByAnIssue(run: seq<Timed>, t: Ticket, expiresAt: int)
    requires SweptSince(run, t, expiresAt)
    ensures IssuedPast(run, expiresAt)
  {
    var last := run[|run|-1];
    if last.call.Issue? && last.now >= expiresAt {
    } else {
      SweptByAnIssue(run[..|run|-1], t, expiresAt);
      var k :| 0 <= k < |run| - 1 && run[..|run|-1][k].call.Issue? && run[..|run|-1][k].now >= expiresAt;
      assert run[k].call.Issue? && run[k].now >= expiresAt;
    }
  }

  /** In particular the sweep is invisible to a redemption that no earlier issue is ahead of in its clock. */
  lemma {:induction false} LazySweepUnobservable(run: seq<Timed>, i: nat)
    requires i < |run| && run[i].call.Redeem? && !IssuedPast(run[..i], run[i].now + 1)
    ensures Answer(After(run[..i]), run[i]) == Answer(KeepAfter(run[..i]), run[i])
  {
    var kept := KeepAfter(run[..i]);
    RedemptionExactly(run, i);
    if Answer(kept, run[i]).ok && SweptSince(run[..i], run[i].call.ticket, kept.tickets[run[i].call.ticket].expiresAt) {
      SweptByAnIssue(run[..i], run[i].call.ticket, kept.tickets[run[i].call.ticket].expiresAt);
      assert false;
    }
  }

  /** Out of clock order the sweep does show: a ticket still valid for the redeeming call is refused. */
  lemma {:induction false} SweepVisibleOutOfOrder() returns (run: seq<Timed>)
    ensures |run| == 3 && run[2].call.Redeem? && run[1].call.Issue? && run[2].now < run[1].now
    ensures Answer(KeepAfter(run[..2]), run[2]) == Redeemed(true)
    ensures Answer(After(run[..2]), run[2]) == Redeemed(false)
  {
    run := [Timed(0, Issue(1, 7)), Timed(60_000, Issue(2, 7)), Timed(59_999, Redeem(1, 7))];
    assert run[..2][..1] == [run[0]];
    assert run[..2][..1][..0] == [];
    assert KeepAfter([run[0]]).tickets == map[1 := TicketEntry(7, 60_000)];
    assert After([run[0]]).tickets == map[1 := TicketEntry(7, 60_000)];
  }

  lemma {:induction false} TicketWasIssued(run: seq<Timed>, t: Ticket)
    requires t in After(run).tickets
    ensures exists k :: 0 <= k < |run| && run[k].call.Issue? && run[k].call.ticket == t
  {
    var last := run[|run|-1];
    if last.call.Issue? && last.call.ticket == t {
    } else {
      var init := run[..|run|-1];
      TicketWasIssued(init, t);
      var k :| 0 <= k < |init| && init[k].call.Issue? && init[k].call.ticket == t;
      assert run[k] == init[k];
    }
  }

  lemma {:induction false} GoneTicketStaysGone(run: seq<Timed>, t: Ticket, i: nat, j: nat)
    requires i <= j <= |run| && t !in After(run[..i]).tickets
    requires forall k :: i <= k < j ==> !(run[k].call.Issue? && run[k].call.ticket == t)
    ensures t !in After(run[..j]).tickets
  {
    if i < j {
      GoneTicketStaysGone(run, t, i, j - 1);
      assert run[..j][..j-1] == run[..j-1];
    }
  }

  /** A ticket issued at most once is redeemed at most once, whatever the clocks say. */
  lemma {:induction false} TicketRedeemedOnce(run: seq<Timed>, i: nat, j: nat)
    requires i < j < |run|
    requires run[i].call.Redeem? && run[j].call.Redeem? && run[i].call.ticket == run[j].call.ticket
    requires forall k, l :: 0 <= k < l < |run| && run[k].call.Issue? && run[l].call.Issue? ==>
               run[k].call.ticket != run[l].call.ticket
    requires Answer(After(run[..i]), run[i]).ok
    ensures !Answer(After(run[..j]), run[j]).ok
  {
    var t := run[i].call.ticket;
    TicketWasIssued(run[..i], t);
    assert run[..i+1][..i] == run[..i];
    GoneTicketStaysGone(run, t, i + 1, j);
  }

  // ----- tickets, from the calls of the run alone -----

  /** The call takes the ticket away from whoever it was issued to: issued anew, redeemed by anyone, or swept. */
  predicate TakesTicket(t: Timed, ticket: Ticket, expiresAt: int) {
    match t.call
    case Issue(other, _) => other == ticket || t.now >= expiresAt
    case Redeem(other, _) => other == ticket
    case _ => false
  }

  /** Call j issued the ticket, and no call since took it away. */
  ghost predicate StandsSince(run: seq<Timed>, ticket: Ticket, j: nat) {
    && j < |run| && run[j].call.Issue? && run[j].call.ticket == ticket
    && forall k :: j < k < |run| ==> !TakesTicket(run[k], ticket, run[j].now + 60_000)
  }

  lemma {:induction false} StandsBefore(run: seq<Timed>, ticket: Ticket, j: nat)
    requires run != [] && j < |run| - 1
    ensures StandsSince(run, ticket, j) <==>
            StandsSince(run[..|run|-1], ticket, j) && !TakesTicket(run[|run|-1], ticket, run[j].now + 60_000)
  {
    var init := run[..|run|-1];
    assert forall k :: 0 <= k < |init| ==> init[k] == run[k];
  }

  lemma {:induction false} StandingEntry(run: seq<Timed>, ticket: Ticket, j: nat)
    requires StandsSince(run, ticket, j)
    ensures ticket in After(run).tickets
    ensures After(run).tickets[ticket] == TicketEntry(run[j].call.device, run[j].now + 60_000)
  {
    if j < |run| - 1 {
      StandsBefore(run, ticket, j);
      StandingEntry(run[..|run|-1], ticket, j);
    }
  }

  /** A ticket in the store comes from an issue that stands. */
  lemma {:induction false} EntryStands(run: seq<Timed>, ticket: Ticket) returns (j: nat)
    requires ticket in After(run).tickets
    ensures StandsSince(run, ticket, j)
  {
    var init, last := run[..|run|-1], run[|run|-1];
    if last.call.Issue? && last.call.ticket == ticket {
      j := |init|;
    } else {
      j := EntryStands(init, ticket);
      StandingEntry(init, ticket, j);
      StandsBefore(run, ticket, j);
    }
  }

  /** The issue of this ticket, to this device, that call i could redeem. */
  ghost predicate Redeemable(run: seq<Timed>, i: nat, j: nat)
    requires i < |run| && run[i].call.Redeem?
  {
    && StandsSince(run[..i], run[i].call.ticket, j)
    && run[j].call.device == run[i].call.device && run[i].now < run[j].now + 60_000
  }

  /**
    A redemption succeeds exactly if the ticket was issued to that very device, less than sixty seconds before
    by its clock, and no call since issued it anew, redeemed it, or ran an issue at or past its expiry.
   */
  lemma {:induction false} RedeemedExactly(run: seq<Timed>, i: nat)
    requires i < |run| && run[i].call.Redeem?
    ensures Answer(After(run[..i]), run[i]).ok <==> exists j: nat :: Redeemable(run, i, j)
  {
    var init, ticket := run[..i], run[i].call.ticket;
    assert forall k :: 0 <= k < i ==> init[k] == run[k];
    if Answer(After(init), run[i]).ok {
      var j := EntryStands(init, ticket);
      StandingEntry(init, ticket, j);
      assert Redeemable(run, i, j);
    }
    if j: nat :| Redeemable(run, i, j) {
      StandingEntry(init, ticket, j);
    }
  }

  // ----- the quota over whole runs -----

  datatype Success = Success(id: SessionId, at: int)

  /** The successful create_session calls for one device, in order. */
  function Successes(run: seq<Timed>, device: DeviceId): seq<Success> {
    if run == [] then []
    else
      var init := run[..|run|-1];
      var last := run[|run|-1];
      if last.call.Create? && last.call.device == device && Answer(After(init), last).ok
      then Successes(init, device) + [Success(last.call.id, last.now)]
      else Successes(init, device)
  }

  /** The session id each step draws, if any. */
  function Drawn(run: seq<Timed>): seq<Option<SessionId>> {
    if run == [] then []
    else
      var call := run[|run|-1].call;
      Drawn(run[..|run|-1]) + [if call.Create? then Some(call.id) else None]
  }

  /** Drawn session ids never repeat. */
  ghost predicate FreshIds(run: seq<Timed>) {
    NeverRepeat(Drawn(run))
  }

  lemma {:induction false} LastDrawn(run: seq<Timed>)
    requires run != []
    ensures var init, last := run[..|run|-1], run[|run|-1];
            && (FreshIds(run) ==> FreshIds(init) && (last.call.Create? ==> last.call.id !in IdSet(Drawn(init))))
            && IdSet(Drawn(run)) == IdSet(Drawn(init)) + (if last.call.Create? then {last.call.id} else {})
  {
    assert Drawn(run)[..|Drawn(run)|-1] == Drawn(run[..|run|-1]);
    LastIsNew(Drawn(run));
  }

  lemma {:induction false} SuccessesDistinct(run: seq<Timed>, device: DeviceId)
    requires FreshIds(run)
    ensures forall i :: 0 <= i < |Successes(run, device)| ==> Successes(run, device)[i].id in IdSet(Drawn(run))
    ensures forall i, j :: 0 <= i < j < |Successes(run, device)| ==>
              Successes(run, device)[i].id != Successes(run, device)[j].id
  {
    if run != [] {
      var init, last := run[..|run|-1], run[|run|-1];
      LastDrawn(run);
      SuccessesDistinct(init, device);
    }
  }

  /** The successes are in clock order, and every one not yet expired is still in the store. */
  ghost predicate Tracked(done: seq<Success>, sessions: Sessions, device: DeviceId, now: int) {
    && (forall i :: 0 <= i < |done| ==> done[i].at <= now)
    && (forall i, j :: 0 <= i < j < |done| ==> done[i].at <= done[j].at)
    && (forall i :: 0 <= i < |done| && now - done[i].at < SIGNAL_SESSION_TTL ==>
          done[i].id in Active(sessions, device, now) && sessions[done[i].id].createdAt == done[i].at)
  }

  lemma {:induction false} TrackedThroughStep(done: seq<Success>, s: State, device: DeviceId, t: Timed, before: int)
    requires Tracked(done, s.sessions, device, before) && before <= t.now && OnSessions(t.call)
    requires t.call.Create? ==> forall i :: 0 <= i < |done| ==> done[i].id != t.call.id
    ensures Tracked(done, Step(s, t).sessions, device, t.now)
  {
  }

  /** Time passes, and perhaps one more success that the store now holds. */
  lemma {:induction false} TrackedLater(done: seq<Success>, sessions: Sessions, device: DeviceId, at: int, now: int,
                                        more: seq<Success>)
    requires Tracked(done, sessions, device, at) && at <= now && |more| <= 1
    requires forall x :: x in more ==>
               && x.at == at && x.id in sessions
               && sessions[x.id].device == device && sessions[x.id].createdAt == at
    ensures Tracked(done + more, sessions, device, now)
  {
  }

  lemma {:induction false} SuccessesTracked(run: seq<Timed>, device: DeviceId, now: int)
    requires SessionsOrdered(run) && FreshIds(run) && NoLaterSession(run, now)
    ensures Tracked(Successes(run, device), After(run).sessions, device, now)
  {
    if run != [] {
      LastDrawn(run);
    }
    if run != [] && !OnSessions(run[|run|-1].call) {
      SuccessesTracked(run[..|run|-1], device, now);
    } else if run != [] {
      var init, last := run[..|run|-1], run[|run|-1];
      SuccessesTracked(init, device, last.now);
      SuccessesDistinct(init, device);
      TrackedThroughStep(Successes(init, device), After(init), device, last, last.now);
      var more := Successes(run, device)[|Successes(init, device)|..];
      TrackedLater(Successes(init, device), After(run).sessions, device, last.now, now, more);
      assert Successes(run, device) == Successes(init, device) + more;
    }
  }

  /** The ids of a stretch of distinct successes form a set of that size. */
  lemma {:induction false} DistinctIds(done: seq<Success>, ids: set<SessionId>)
    requires forall i, j :: 0 <= i < j < |done| ==> done[i].id != done[j].id
    requires forall i :: 0 <= i < |done| ==> done[i].id in ids
    ensures |done| <= |ids|
  {
    if done != [] {
      var last := done[|done|-1].id;
      DistinctIds(done[..|done|-1], ids - {last});
    }
  }

  /** Any eleven successful creations for one device span at least the session lifetime. */
  lemma {:induction false} ElevenCreationsSpanTheTtl(run: seq<Timed>, device: DeviceId, i: nat, j: nat)
    requires SessionsOrdered(run) && FreshIds(run)
    requires i + MAX_SESSIONS_PER_DEVICE <= j < |Successes(run, device)|
    ensures Successes(run, device)[j].at - Successes(run, device)[i].at >= SIGNAL_SESSION_TTL
  {
    var init, last := run[..|run|-1], run[|run|-1];
    var before := Successes(init, device);
    LastDrawn(run);
    if j < |before| {
      ElevenCreationsSpanTheTtl(init, device, i, j);
    } else {
      assert NoLaterSession(init, last.now);
      SuccessesTracked(init, device, last.now);
      SuccessesDistinct(init, device);
      if last.now - before[i].at < SIGNAL_SESSION_TTL {
        DistinctIds(before[i..], Active(After(init).sessions, device, last.now));
      }
    }
  }

  lemma {:induction false} QuotaStep(s: State, t: Timed, device: DeviceId, now: int)
    requires OnSessions(t.call) && t.now <= now
    requires |Active(s.sessions, device, t.now)| <= MAX_SESSIONS_PER_DEVICE
    ensures |Active(Step(s, t).sessions, device, now)| <= MAX_SESSIONS_PER_DEVICE
  {
    var was, active := Active(s.sessions, device, t.now), Active(Step(s, t).sessions, device, now);
    if t.call.Create? && CanCreate(s.sessions, t.call.device, t.now) && t.call.device == device {
      assert active <= was + {t.call.id};
      SubsetSize(active, was + {t.call.id});
    } else {
      assert active <= was;
      SubsetSize(active, was);
    }
  }

  /** At every moment a device has at most ten unexpired sessions; no freshness is needed. */
  lemma {:induction false} QuotaAlwaysHolds(run: seq<Timed>, device: DeviceId, now: int)
    requires SessionsOrdered(run) && NoLaterSession(run, now)
    ensures |Active(After(run).sessions, device, now)| <= MAX_SESSIONS_PER_DEVICE
  {
    if run != [] && !OnSessions(run[|run|-1].call) {
      QuotaAlwaysHolds(run[..|run|-1], device, now);
    } else if run != [] {
      var init, last := run[..|run|-1], run[|run|-1];
      QuotaAlwaysHolds(init, device, last.now);
      QuotaStep(After(init), last, device, now);
    }
  }

  // ----- exactly which creations succeed -----

  /** How many of the successes are less than sixty seconds old. */
  function Recent(done: seq<Success>, now: int): nat {
    if done == [] then 0
    else Recent(done[..|done|-1], now) + (if now - done[|done|-1].at < 60_000 then 1 else 0)
  }

  function RecentIds(done: seq<Success>, now: int): set<SessionId> {
    set i | 0 <= i < |done| && now - done[i].at < 60_000 :: done[i].id
  }

  lemma {:induction false} RecentIdsCount(done: seq<Success>, now: int)
    requires forall i, j :: 0 <= i < j < |done| ==> done[i].id != done[j].id
    ensures |RecentIds(done, now)| == Recent(done, now)
  {
    if done != [] {
      var init, last := done[..|done|-1], done[|done|-1];
      RecentIdsCount(init, now);
      assert forall i :: 0 <= i < |init| ==> init[i] == done[i];
      assert RecentIds(done, now) == RecentIds(init, now) + (if now - last.at < 60_000 then {last.id} else {});
    }
  }

  /** Every session in the store is one of the successes of its device. */
  lemma {:induction false} StoredWereCreated(run: seq<Timed>, device: DeviceId, id: SessionId)
    requires id in After(run).sessions && After(run).sessions[id].device == device
    ensures exists k :: 0 <= k < |Successes(run, device)| &&
              Successes(run, device)[k] == Success(id, After(run).sessions[id].createdAt)
  {
    var init, last := run[..|run|-1], run[|run|-1];
    var before := Successes(init, device);
    if last.call.Create? && last.call.id == id && CanCreate(After(init).sessions, last.call.device, last.now) {
      assert Successes(run, device)[|before|] == Success(id, last.now);
    } else {
      StoredWereCreated(init, device, id);
      var k :| 0 <= k < |before| && before[k] == Success(id, After(init).sessions[id].createdAt);
      assert Successes(run, device)[k] == before[k];
    }
  }

  lemma {:induction false} ActiveAreRecent(run: seq<Timed>, device: DeviceId, now: int)
    requires SessionsOrdered(run) && FreshIds(run) && NoLaterSession(run, now)
    ensures Active(After(run).sessions, device, now) == RecentIds(Successes(run, device), now)
  {
    var done := Successes(run, device);
    SuccessesTracked(run, device, now);
    forall id | id in Active(After(run).sessions, device, now)
      ensures id in RecentIds(done, now)
    {
      StoredWereCreated(run, device, id);
      var k :| 0 <= k < |done| && done[k] == Success(id, After(run).sessions[id].createdAt);
    }
  }

  lemma {:induction false} FreshPrefix(run: seq<Timed>, n: nat)
    requires FreshIds(run) && n <= |run|
    ensures FreshIds(run[..n])
    decreases |run|
  {
    if n < |run| {
      LastDrawn(run);
      FreshPrefix(run[..|run|-1], n);
      assert run[..|run|-1][..n] == run[..n];
    } else {
      assert run[..n] == run;
    }
  }

  /** A creation succeeds exactly if fewer than ten creations for the device succeeded in the sixty seconds before. */
  lemma {:induction false} CreatedExactly(run: seq<Timed>, i: nat)
    requires SessionsOrdered(run) && FreshIds(run) && i < |run| && run[i].call.Create?
    ensures Answer(After(run[..i]), run[i]).ok <==>
            Recent(Successes(run[..i], run[i].call.device), run[i].now) < 10
  {
    var init := run[..i];
    FreshPrefix(run, i);
    ActiveAreRecent(init, run[i].call.device, run[i].now);
    SuccessesDistinct(init, run[i].call.device);
    RecentIdsCount(Successes(init, run[i].call.device), run[i].now);
  }

  function OfDevice(sessions: Sessions, device: DeviceId): set<SessionId> {
    set id | id in sessions && sessions[id].device == device
  }

  /** What a clean-up leaves: sessions younger than sixty seconds, at most ten of a device, and all of those. */
  lemma {:induction false} CleanupLeavesTheYoung(run: seq<Timed>, now: int, device: DeviceId)
    requires SessionsOrdered(run) && NoLaterSession(run, now)
    ensures var was, left := After(run).sessions, After(run + [Timed(now, Cleanup)]).sessions;
            && (forall id :: id in left <==> id in was && now - was[id].createdAt < 60_000)
            && (forall id :: id in left ==> left[id] == was[id])
            && |OfDevice(left, device)| <= 10
  {
    var left := After(run + [Timed(now, Cleanup)]).sessions;
    assert (run + [Timed(now, Cleanup)])[..|run|] == run;
    QuotaAlwaysHolds(run, device, now);
    assert OfDevice(left, device) == Active(After(run).sessions, device, now);
  }
}
