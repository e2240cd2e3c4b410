/**
  Offer subscriptions under interleaving. Each event-stream task takes an id from the global
  counter, later inserts itself for its device, receives offers, and at its end runs the
  compare-and-delete. Every line of that life is a separate atomic step, and any number of
  tasks, of the same device or not, run side by side. A task is named by the id it drew.
 */
module Subscriptions {
  import opened Wrappers
  import opened SignalStore

  datatype Phase = Allocated | Subscribed | Exited

  datatype Task = Task(device: DeviceId, phase: Phase)

  datatype State = State(next: SubId, tasks: map<SubId, Task>, offers: map<DeviceId, SubId>,
                         queues: map<SubId, seq<OfferEvent>>)

  const INITIAL := State(1, map[], map[], map[])

  datatype Event =
    | Allocate(device: DeviceId)
    | Insert(sub: SubId)
    | Push(device: DeviceId, offer: OfferEvent)
    | Receive(sub: SubId)
    | Unsubscribe(sub: SubId)

  predicate InPhase(s: State, sub: SubId, phase: Phase) {
    sub in s.tasks && s.tasks[sub].phase == phase
  }

  /** What push_offer reports for `device`. */
  predicate Accepts(s: State, device: DeviceId) {
    device in s.offers && s.offers[device] in s.queues && |s.queues[s.offers[device]]| < OFFER_CHANNEL_CAPACITY
  }

  predicate CanReceive(s: State, sub: SubId) {
    InPhase(s, sub, Subscribed) && sub in s.queues && s.queues[sub] != []
  }

  /** One atomic step; a step whose task is not at that point of its life does nothing. */
  function Step(s: State, e: Event): State {
    match e
    case Allocate(d) => s.(next := s.next + 1, tasks := s.tasks[s.next := Task(d, Allocated)])
    case Insert(sub) =>
      if !InPhase(s, sub, Allocated) then s
      else
        var d := s.tasks[sub].device;
        s.(tasks := s.tasks[sub := Task(d, Subscribed)], offers := s.offers[d := sub], queues := s.queues[sub := []])
    case Push(d, offer) =>
      if Accepts(s, d)
      then s.(queues := s.queues[s.offers[d] := s.queues[s.offers[d]] + [offer]]) else s
    case Receive(sub) =>
      if CanReceive(s, sub) then s.(queues := s.queues[sub := s.queues[sub][1..]]) else s
    case Unsubscribe(sub) =>
      if !InPhase(s, sub, Subscribed) then s
      else
        var d := s.tasks[sub].device;
        s.(tasks := s.tasks[sub := Task(d, Exited)],
           offers := if d in s.offers && s.offers[d] == sub then s.offers - {d} else s.offers)
  }

  function After(run: seq<Event>): State {
    if run == [] then INITIAL else Step(After(run[..|run|-1]), run[|run|-1])
  }

  /** The subscription of `device` that was inserted last, if any ever was. */
  function LastInserted(run: seq<Event>, device: DeviceId): Option<SubId> {
    if run == [] then None
    else
      var init, e := run[..|run|-1], run[|run|-1];
      if e.Insert? && InPhase(After(init), e.sub, Allocated) && After(init).tasks[e.sub].device == device
      then Some(e.sub) else LastInserted(init, device)
  }

  /** Whether the holder of `sub` has run its unsubscribe. */
  predicate HasUnsubscribed(run: seq<Event>, sub: SubId) {
    run != [] &&
    (HasUnsubscribed(run[..|run|-1], sub) ||
     (run[|run|-1] == Unsubscribe(sub) && InPhase(After(run[..|run|-1]), sub, Subscribed)))
  }

  ghost predicate Consistent(s: State) {
    && (forall sub :: sub in s.tasks ==> sub < s.next)
    && (forall sub :: sub in s.queues <==> sub in s.tasks && !s.tasks[sub].phase.Allocated?)
    && (forall d :: d in s.offers ==> InPhase(s, s.offers[d], Subscribed) && s.tasks[s.offers[d]].device == d)
  }

  lemma StepConsistent(s: State, e: Event)
    requires Consistent(s)
    ensures Consistent(Step(s, e))
  {
  }

  lemma {:induction false} RunsConsistent(run: seq<Event>)
    ensures Consistent(After(run))
  {
    if run != [] {
      RunsConsistent(run[..|run|-1]);
      StepConsistent(After(run[..|run|-1]), run[|run|-1]);
    }
  }

  /** The history agrees with the phases in the state. */
  lemma {:induction false} HistoryAgreesWithTasks(run: seq<Event>, device: DeviceId, sub: SubId)
    ensures var s := After(run);
            && (LastInserted(run, device) == Some(sub) ==>
                  sub in s.tasks && s.tasks[sub].device == device && !s.tasks[sub].phase.Allocated?)
            && (HasUnsubscribed(run, sub) <==> InPhase(s, sub, Exited))
  {
    if run != [] {
      HistoryAgreesWithTasks(run[..|run|-1], device, sub);
      RunsConsistent(run[..|run|-1]);
    }
  }

  /**
    A device's entry is the subscription inserted last, exactly while that subscription has
    not unsubscribed.
   */
  lemma {:induction false} EntryIsLastLiveSubscription(run: seq<Event>, device: DeviceId)
    ensures var last := LastInserted(run, device); var offers := After(run).offers;
            && (device in offers <==> last.Some? && !HasUnsubscribed(run, last.value))
            && (device in offers ==> offers[device] == last.value)
  {
    if run != [] {
      var init, e := run[..|run|-1], run[|run|-1];
      EntryIsLastLiveSubscription(init, device);
      RunsConsistent(init);
      if e.Insert? {
        HistoryAgreesWithTasks(init, device, e.sub);
      }
      var last := LastInserted(init, device);
      if last.Some? {
        HistoryAgreesWithTasks(init, device, last.value);
      }
    }
  }

  /** No two devices ever share a subscription id. */
  lemma EntriesDistinct(run: seq<Event>, d: DeviceId, e: DeviceId)
    requires d in After(run).offers && e in After(run).offers && d != e
    ensures After(run).offers[d] != After(run).offers[e]
  {
    RunsConsistent(run);
  }

  /** A task that was replaced leaves the table alone when it exits, however late. */
  lemma StaleUnsubscribeHarmless(run: seq<Event>, sub: SubId)
    requires sub in After(run).tasks && LastInserted(run, After(run).tasks[sub].device) != Some(sub)
    ensures Step(After(run), Unsubscribe(sub)).offers == After(run).offers
  {
    EntryIsLastLiveSubscription(run, After(run).tasks[sub].device);
  }

  /** The offers accepted for `sub`, and those its task has received. */
  function AcceptedFor(run: seq<Event>, sub: SubId): seq<OfferEvent> {
    if run == [] then []
    else
      var init, e := run[..|run|-1], run[|run|-1];
      if e.Push? && Accepts(After(init), e.device) && After(init).offers[e.device] == sub
      then AcceptedFor(init, sub) + [e.offer] else AcceptedFor(init, sub)
  }

  function ReceivedBy(run: seq<Event>, sub: SubId): seq<OfferEvent> {
    if run == [] then []
    else
      var init, e := run[..|run|-1], run[|run|-1];
      if e == Receive(sub) && CanReceive(After(init), sub)
      then ReceivedBy(init, sub) + [After(init).queues[sub][0]] else ReceivedBy(init, sub)
  }

  function Buffered(s: State, sub: SubId): seq<OfferEvent> {
    if sub in s.queues then s.queues[sub] else []
  }

  /** What one step adds to the buffer of `sub`, or takes from its front. */
  lemma StepMovesOffers(s: State, e: Event, sub: SubId)
    requires Consistent(s)
    ensures var r := Step(s, e);
            && (e.Push? && Accepts(s, e.device) && s.offers[e.device] == sub ==>
                  sub in s.queues && Buffered(r, sub) == Buffered(s, sub) + [e.offer])
            && (e == Receive(sub) && CanReceive(s, sub) ==>
                  sub in s.queues && [s.queues[sub][0]] + Buffered(r, sub) == Buffered(s, sub))
            && (!(e.Push? && Accepts(s, e.device) && s.offers[e.device] == sub) &&
                !(e == Receive(sub) && CanReceive(s, sub)) ==>
                  Buffered(r, sub) == Buffered(s, sub))
            && (sub in s.queues ==> sub in r.queues)
            && (|Buffered(s, sub)| <= OFFER_CHANNEL_CAPACITY ==> |Buffered(r, sub)| <= OFFER_CHANNEL_CAPACITY)
  {
  }

  /**
    Accepted offers reach the holder of that subscription in order and once:
    accepted = received ++ still buffered, with at most sixteen buffered.
   */
  lemma {:induction false} OffersConserved(run: seq<Event>, sub: SubId)
    ensures AcceptedFor(run, sub) == ReceivedBy(run, sub) + Buffered(After(run), sub)
    ensures |Buffered(After(run), sub)| <= OFFER_CHANNEL_CAPACITY
    ensures sub !in After(run).queues ==> AcceptedFor(run, sub) == []
  {
    if run != [] {
      OffersConserved(run[..|run|-1], sub);
      RunsConsistent(run[..|run|-1]);
      StepMovesOffers(After(run[..|run|-1]), run[|run|-1], sub);
    }
  }

  /**
    An offer is taken exactly while the device's last subscription is live and has fewer than sixteen
    unreceived.
   */
  lemma {:induction false} PushAcceptedExactly(run: seq<Event>, device: DeviceId)
    ensures var last := LastInserted(run, device);
            Accepts(After(run), device) <==>
            && last.Some? && !HasUnsubscribed(run, last.value)
            && |AcceptedFor(run, last.value)| - |ReceivedBy(run, last.value)| < 16
  {
    EntryIsLastLiveSubscription(run, device);
    RunsConsistent(run);
    if LastInserted(run, device).Some? {
      OffersConserved(run, LastInserted(run, device).value);
    }
  }

  /** A subscriber that has not exited receives exactly while something it was sent is unreceived. */
  lemma {:induction false} ReceivesExactly(run: seq<Event>, sub: SubId)
    ensures CanReceive(After(run), sub) <==>
            InPhase(After(run), sub, Subscribed) && |ReceivedBy(run, sub)| < |AcceptedFor(run, sub)|
  {
    RunsConsistent(run);
    OffersConserved(run, sub);
  }

  /** A new subscriber replaces whoever listened for its device, gets the next offer and leaves when it exits. */
  lemma {:induction false} NewSubscriberListens(s: State, device: DeviceId, offer: OfferEvent)
    requires Consistent(s)
    ensures var sub := s.next; var t := Step(Step(s, Allocate(device)), Insert(sub));
            && t.offers == s.offers[device := sub] && t.next == sub + 1
            && var u := Step(t, Push(device, offer));
               && u.queues[sub] == [offer] && CanReceive(u, sub)
               && Step(u, Receive(sub)).queues[sub] == []
               && Step(u, Unsubscribe(sub)).offers == s.offers - {device}
  {
    var sub := s.next;
    var t := Step(Step(s, Allocate(device)), Insert(sub));
    var u := Step(t, Push(device, offer));
    assert u.queues[sub] == [] + [offer];
    assert s.offers[device := sub] - {device} == s.offers - {device};
  }
}
