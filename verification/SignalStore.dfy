/**
  The signalling store of the pairing server: offer sessions with a time to live,
  one-shot event-stream tickets and per-device offer subscriptions.
  Times are milliseconds; every operation is one lock-held section.
  The functions specify the operations; the class is the store itself.
 */
module SignalStore {
  import opened Wrappers

  type DeviceId = nat
  type SessionId = nat
  type Ticket = nat
  type SubId = nat

  const SIGNAL_SESSION_TTL := 60_000
  const SSE_TICKET_TTL := 60_000
  const MAX_SESSIONS_PER_DEVICE := 10
  const OFFER_CHANNEL_CAPACITY := 16

  datatype AnswerStatus = Accepted(sdp: string) | Rejected(reason: string)

  datatype Session = Session(device: DeviceId, offer: string, credential: string,
                             answer: Option<AnswerStatus>, createdAt: int)

  datatype TicketEntry = TicketEntry(device: DeviceId, expiresAt: int)

  datatype OfferEvent = OfferEvent(session: SessionId, credential: string, sdp: string)

  type Sessions = map<SessionId, Session>
  type Tickets = map<Ticket, TicketEntry>

  predicate Expired(s: Session, now: int) {
    now - s.createdAt >= SIGNAL_SESSION_TTL
  }

  predicate TicketExpired(e: TicketEntry, now: int) {
    now >= e.expiresAt
  }

  /** The sessions of `device` that still count against its quota. */
  function Active(sessions: Sessions, device: DeviceId, now: int): set<SessionId> {
    set id | id in sessions && sessions[id].device == device && !Expired(sessions[id], now)
  }

  predicate CanCreate(sessions: Sessions, device: DeviceId, now: int) {
    |Active(sessions, device, now)| < MAX_SESSIONS_PER_DEVICE
  }

  function AfterCreate(sessions: Sessions, id: SessionId, device: DeviceId, offer: string,
                       credential: string, now: int): Sessions
  {
    if CanCreate(sessions, device, now)
    then sessions[id := Session(device, offer, credential, None, now)]
    else sessions
  }

  predicate CanSubmit(sessions: Sessions, id: SessionId, now: int) {
    id in sessions && !Expired(sessions[id], now)
  }

  function AfterSubmit(sessions: Sessions, id: SessionId, answer: AnswerStatus, now: int): Sessions {
    if id !in sessions then sessions
    else if Expired(sessions[id], now) then sessions - {id}
    else sessions[id := sessions[id].(answer := Some(answer))]
  }

  /** None: not found or expired. Some(a): found, with its answer if there is one yet. */
  function PeekResult(sessions: Sessions, id: SessionId, now: int): Option<Option<AnswerStatus>> {
    if id in sessions && !Expired(sessions[id], now) then Some(sessions[id].answer) else None
  }

  function AfterCleanup(sessions: Sessions, now: int): Sessions {
    map id | id in sessions && !Expired(sessions[id], now) :: sessions[id]
  }

  function AfterIssue(tickets: Tickets, ticket: Ticket, device: DeviceId, now: int): Tickets {
    (map t | t in tickets && !TicketExpired(tickets[t], now) :: tickets[t])
    [ticket := TicketEntry(device, now + SSE_TICKET_TTL)]
  }

  predicate Redeems(tickets: Tickets, ticket: Ticket, device: DeviceId, now: int) {
    ticket in tickets && !TicketExpired(tickets[ticket], now) && tickets[ticket].device == device
  }

  function AfterRedeem(tickets: Tickets, ticket: Ticket): Tickets {
    tickets - {ticket}
  }

  /** The ids drawn along a run, with None for a step that draws none, never repeat. */
  ghost predicate NeverRepeat(drawn: seq<Option<SessionId>>) {
    forall i, j :: 0 <= i < j < |drawn| && drawn[i].Some? ==> drawn[i] != drawn[j]
  }

  function IdSet(drawn: seq<Option<SessionId>>): set<SessionId> {
    set k | 0 <= k < |drawn| && drawn[k].Some? :: drawn[k].value
  }

  /** What is known of the last of them. */
  lemma LastIsNew(drawn: seq<Option<SessionId>>)
    requires drawn != []
    ensures var init, last := drawn[..|drawn|-1], drawn[|drawn|-1];
            && (NeverRepeat(drawn) ==> NeverRepeat(init) && (last.Some? ==> last.value !in IdSet(init)))
            && IdSet(drawn) == IdSet(init) + (if last.Some? then {last.value} else {})
  {
    var init := drawn[..|drawn|-1];
    assert forall k :: 0 <= k < |init| ==> init[k] == drawn[k];
  }

  /** The store. `queues` holds the undelivered offers of every subscription channel. */
  class Store {
    var sessions: Sessions
    var tickets: Tickets
    var offers: map<DeviceId, SubId>
    var queues: map<SubId, seq<OfferEvent>>
    var nextSubId: SubId

    constructor ()
      ensures sessions == map[] && tickets == map[] && offers == map[] && queues == map[]
      ensures nextSubId == 1
    {
      sessions, tickets, offers, queues := map[], map[], map[], map[];
      nextSubId := 1;
    }

    /** `drawn` is the id drawn for the new session; None is TooManySessions. */
    method CreateSession(drawn: SessionId, device: DeviceId, offer: string, credential: string, now: int)
      returns (r: Option<SessionId>)
      modifies this`sessions
      ensures r == if old(CanCreate(sessions, device, now)) then Some(drawn) else None
      ensures sessions == AfterCreate(old(sessions), drawn, device, offer, credential, now)
    {
      var active := |Active(sessions, device, now)|;
      if active >= MAX_SESSIONS_PER_DEVICE {
        return None;
      }
      sessions := sessions[drawn := Session(device, offer, credential, None, now)];
      return Some(drawn);
    }

    method SubmitAnswer(id: SessionId, answer: AnswerStatus, now: int) returns (ok: bool)
      modifies this`sessions
      ensures ok == old(CanSubmit(sessions, id, now))
      ensures sessions == AfterSubmit(old(sessions), id, answer, now)
    {
      if id !in sessions {
        return false;
      }
      if Expired(sessions[id], now) {
        sessions := sessions - {id};
        return false;
      }
      sessions := sessions[id := sessions[id].(answer := Some(answer))];
      return true;
    }

    method PeekAnswer(id: SessionId, now: int) returns (r: Option<Option<AnswerStatus>>)
      ensures r == PeekResult(sessions, id, now)
    {
      if id !in sessions {
        return None;
      }
      if Expired(sessions[id], now) {
        return None;
      }
      return Some(sessions[id].answer);
    }

    method CleanupExpiredSessions(now: int) returns (removed: nat)
      modifies this`sessions
      ensures sessions == AfterCleanup(old(sessions), now)
      ensures removed == |old(sessions)| - |sessions|
    {
      var before := |sessions|;
      ghost var was := sessions;
      sessions := map id | id in sessions && !Expired(sessions[id], now) :: sessions[id];
      assert sessions.Keys <= was.Keys;
      SubsetSize(sessions.Keys, was.Keys);
      removed := before - |sessions|;
    }

    method IssueTicket(drawn: Ticket, device: DeviceId, now: int)
      modifies this`tickets
      ensures tickets == AfterIssue(old(tickets), drawn, device, now)
    {
      tickets := map t | t in tickets && !TicketExpired(tickets[t], now) :: tickets[t];
      tickets := tickets[drawn := TicketEntry(device, now + SSE_TICKET_TTL)];
    }

    method RedeemTicket(ticket: Ticket, device: DeviceId, now: int) returns (ok: bool)
      modifies this`tickets
      ensures ok == old(Redeems(tickets, ticket, device, now))
      ensures tickets == AfterRedeem(old(tickets), ticket)
    {
      if ticket !in tickets {
        ok := false;
        assert tickets - {ticket} == tickets;
      } else {
        var entry := tickets[ticket];
        tickets := tickets - {ticket};
        ok := !TicketExpired(entry, now) && entry.device == device;
      }
    }

    /** Takes the next id, then replaces whatever subscription the device had. */
    method SubscribeOffers(device: DeviceId) returns (id: SubId)
      modifies this`offers, this`queues, this`nextSubId
      ensures id == old(nextSubId) && nextSubId == id + 1
      ensures offers == old(offers)[device := id]
      ensures queues == old(queues)[id := []]
    {
      id := nextSubId;
      nextSubId := nextSubId + 1;
      queues := queues[id := []];
      offers := offers[device := id];
    }

    /** False when nobody listens or the channel of the listener is full. */
    method PushOffer(id: SessionId, s: Session) returns (pushed: bool)
      requires forall d :: d in offers ==> offers[d] in queues
      modifies this`queues
      ensures pushed == (s.device in offers && |old(queues)[offers[s.device]]| < OFFER_CHANNEL_CAPACITY)
      ensures queues == if pushed
                        then old(queues)[offers[s.device] :=
                               old(queues)[offers[s.device]] + [OfferEvent(id, s.credential, s.offer)]]
                        else old(queues)
    {
      if s.device !in offers {
        return false;
      }
      var sub := offers[s.device];
      if |queues[sub]| >= OFFER_CHANNEL_CAPACITY {
        return false;
      }
      queues := queues[sub := queues[sub] + [OfferEvent(id, s.credential, s.offer)]];
      return true;
    }

    /** Compare-and-delete: only the subscription that is still registered removes the entry. */
    method UnsubscribeOffers(device: DeviceId, id: SubId)
      modifies this`offers
      ensures device in old(offers) && old(offers)[device] == id ==> offers == old(offers) - {device}
      ensures !(device in old(offers) && old(offers)[device] == id) ==> offers == old(offers)
    {
      if device in offers && offers[device] == id {
        offers := offers - {device};
      }
    }
  }
}
