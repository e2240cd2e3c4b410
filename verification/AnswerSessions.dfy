/**
  The desktop's answer sessions. A session is wired (its callbacks installed), then inserted
  into the registry, and lives until its peer connection fails, its grace period runs out
  or the service stops. Its registration key starts as the session id and becomes the
  phone's own id once the phone says hello.

  Each callback of a data channel is one step. Everything else goes lock by lock: a session is taken
  out of the registry, its key read, its client unregistered and its connection closed in four
  steps, and a refused insertion and the closing of its connection are two. After a peer connection
  is closed only the close callback of its channel may still fire.
 */
module AnswerSessions {
  import opened Wrappers

  type Key = string

  /**
    Removed: out of the registry. Unregistering: its key is read. Closing: its client is unregistered,
    or its insertion was refused, and its connection is still to be closed. `timed`: this is the work of the
    very grace timer that the entry held, which the removal aborted; such work may be cut at any later
    await, and the session is then Abandoned.
   */
  datatype Phase =
    | Wired
    | Live
    | Removed(timed: bool)
    | Unregistering(key: Key, timed: bool)
    | Closing(timed: bool)
    | Abandoned
    | Shut

  /**
    `grace`: the registry entry holds a pending grace timer. `detached`: how many grace timers are
    pending that were started while there was no entry to hold them, so that nothing can cancel them.
    `registered`: the session registered its key and has not withdrawn it.
   */
  datatype Peer = Peer(regId: Key, phase: Phase, grace: bool, detached: nat, registered: bool)

  datatype State = State(peers: map<Key, Peer>, clients: set<Key>, closed: bool, maxConnections: nat)

  datatype Event =
    | Wire(session: Key)
    | Insert(session: Key)
    | Open(session: Key)
    | Hello(session: Key, client: Key)
    | ChannelClosed(session: Key)
    | Failed(session: Key)
    | Disconnected(session: Key)
    | Reconnected(session: Key)
    | GraceExpires(session: Key)
    | DetachedGraceExpires(session: Key)
    | Stop
    | Drain
    | ReadKey(session: Key)
    | Unregister(session: Key)
    | ClosePc(session: Key)
    | Cut(session: Key)

  /** The connection of the session is not closed. */
  predicate IsOpen(s: State, id: Key) {
    id in s.peers && !s.peers[id].phase.Shut?
  }

  predicate IsLive(s: State, id: Key) {
    id in s.peers && s.peers[id].phase.Live?
  }

  predicate Timed(phase: Phase) {
    (phase.Removed? || phase.Unregistering? || phase.Closing?) && phase.timed
  }

  /** ConnectionManager.register: refused when full, unless the key is already there. */
  function Registered(clients: set<Key>, max: nat, key: Key): set<Key> {
    if |clients| >= max && key !in clients then clients else clients + {key}
  }

  function WithPeer(s: State, id: Key, p: Peer): State {
    s.(peers := s.peers[id := p])
  }

  /** Out of the registry; whatever timer the entry held is aborted. */
  function Leave(p: Peer, timed: bool): Peer {
    p.(phase := Removed(timed), grace := false)
  }

  function AfterOpen(s: State, id: Key): State
    requires id in s.peers
  {
    var p := s.peers[id];
    var clients := Registered(s.clients, s.maxConnections, p.regId);
    WithPeer(s, id, p.(registered := p.regId in clients)).(clients := clients)
  }

  function AfterHello(s: State, id: Key, client: Key): State
    requires id in s.peers
  {
    var p := s.peers[id];
    var clients := Registered(s.clients - {p.regId}, s.maxConnections, client);
    if p.regId == client then s
    else WithPeer(s, id, p.(regId := client, registered := client in clients)).(clients := clients)
  }

  function AfterDisconnected(p: Peer): Peer {
    if p.phase.Live? then p.(grace := true) else p.(detached := p.detached + 1)
  }

  function AfterDetachedGrace(p: Peer): Peer
    requires p.detached > 0
  {
    var q := p.(detached := p.detached - 1);
    if q.phase.Live? then Leave(q, false) else q
  }

  /** The key read earlier is unregistered, which need not be the current one any more. */
  function AfterUnregister(s: State, id: Key): State
    requires id in s.peers && s.peers[id].phase.Unregistering?
  {
    var p := s.peers[id];
    var key := p.phase.key;
    WithPeer(s, id, p.(phase := Closing(p.phase.timed), registered := p.registered && key != p.regId))
    .(clients := s.clients - {key})
  }

  function AfterDrain(s: State): State {
    s.(peers := map id | id in s.peers :: if s.peers[id].phase.Live? then Leave(s.peers[id], false) else s.peers[id])
  }

  function PeerStep(s: State, e: Event): State
    requires !e.Stop? && !e.Drain? && e.session in s.peers
  {
    var p := s.peers[e.session];
    match e
    case Insert(id) =>
      if p.phase.Wired? then WithPeer(s, id, p.(phase := if s.closed then Closing(false) else Live)) else s
    case Open(id) => if IsOpen(s, id) then AfterOpen(s, id) else s
    case Hello(id, client) => if IsOpen(s, id) then AfterHello(s, id, client) else s
    case ChannelClosed(id) => WithPeer(s, id, p.(registered := false)).(clients := s.clients - {p.regId})
    case Failed(id) => if p.phase.Live? then WithPeer(s, id, Leave(p, false)) else s
    case Disconnected(id) => if IsOpen(s, id) then WithPeer(s, id, AfterDisconnected(p)) else s
    case Reconnected(id) => if p.phase.Live? then WithPeer(s, id, p.(grace := false)) else s
    case GraceExpires(id) => if p.phase.Live? && p.grace then WithPeer(s, id, Leave(p, true)) else s
    case DetachedGraceExpires(id) => if p.detached > 0 then WithPeer(s, id, AfterDetachedGrace(p)) else s
    case ReadKey(id) =>
      if p.phase.Removed? then WithPeer(s, id, p.(phase := Unregistering(p.regId, p.phase.timed))) else s
    case Unregister(id) => if p.phase.Unregistering? then AfterUnregister(s, id) else s
    case ClosePc(id) => if p.phase.Closing? then WithPeer(s, id, p.(phase := Shut)) else s
    case Cut(id) => if Timed(p.phase) then WithPeer(s, id, p.(phase := Abandoned)) else s
    case _ => s
  }

  /** A step of a session that is not at that point of its life does nothing. */
  function Step(s: State, e: Event): State {
    match e
    case Wire(id) => if id in s.peers then s else WithPeer(s, id, Peer(id, Wired, false, 0, false))
    case Stop => s.(closed := true)
    case Drain => if s.closed then AfterDrain(s) else s
    case _ => if e.session in s.peers then PeerStep(s, e) else s
  }

  function Initial(max: nat): State {
    State(map[], {}, false, max)
  }

  function StepAll(s: State, events: seq<Event>): State {
    if events == [] then s else Step(StepAll(s, events[..|events|-1]), events[|events|-1])
  }

  function After(max: nat, run: seq<Event>): State {
    StepAll(Initial(max), run)
  }

  lemma StepLast(s: State, events: seq<Event>, e: Event)
    ensures StepAll(s, events + [e]) == Step(StepAll(s, events), e)
  {
    assert (events + [e])[..|events|] == events;
  }

  lemma StepPrefix(s: State, events: seq<Event>, n: nat)
    requires n < |events|
    ensures StepAll(s, events[..n+1]) == Step(StepAll(s, events[..n]), events[n])
  {
    assert events[..n+1] == events[..n] + [events[n]];
    StepLast(s, events[..n], events[n]);
  }

  lemma {:induction false} StepConcat(s: State, a: seq<Event>, b: seq<Event>)
    ensures StepAll(s, a + b) == StepAll(StepAll(s, a), b)
  {
    if b == [] {
      assert a + b == a;
    } else {
      assert (a + b)[..|a+b|-1] == a + b[..|b|-1];
      StepConcat(s, a, b[..|b|-1]);
    }
  }

  /** A step leaves every session but its own as it is; only the draining touches them all. */
  lemma OthersUntouched(s: State, e: Event, id: Key)
    requires !e.Drain? && (e.Stop? || e.session != id)
    ensures id in Step(s, e).peers <==> id in s.peers
    ensures id in s.peers ==> Step(s, e).peers[id] == s.peers[id]
  {
  }

  // ----- ghost clients -----

  /** `key` is the current registration key of some session whose connection is not closed. */
  ghost predicate Backed(s: State, key: Key) {
    exists id :: IsOpen(s, id) && s.peers[id].regId == key
  }

  ghost predicate NoGhosts(s: State) {
    forall key :: key in s.clients ==> Backed(s, key)
  }

  /** Some other open session uses the same key. */
  ghost predicate SharedKey(s: State, id: Key) {
    id in s.peers && exists other :: other != id && IsOpen(s, other) && s.peers[other].regId == s.peers[id].regId
  }

  /** A connection is closed although its key is registered, and no other session shares the key. */
  ghost predicate LeavesGhost(s: State, e: Event) {
    && e.ClosePc? && e.session in s.peers && s.peers[e.session].phase.Closing?
    && s.peers[e.session].regId in s.clients && !SharedKey(s, e.session)
  }

  /** A step other than a closing keeps every key backed, or takes the client with it. */
  lemma BackingKept(s: State, e: Event, key: Key)
    requires Backed(s, key) && !e.ClosePc? && key in Step(s, e).clients
    ensures Backed(Step(s, e), key)
  {
    var id :| IsOpen(s, id) && s.peers[id].regId == key;
    if !e.Drain? && (e.Stop? || e.session != id) {
      OthersUntouched(s, e, id);
    }
    assert IsOpen(Step(s, e), id);
  }

  lemma ClosingKeeps(s: State, id: Key, key: Key)
    requires Backed(s, key) && key in s.clients && !LeavesGhost(s, ClosePc(id))
    ensures Backed(Step(s, ClosePc(id)), key)
  {
    var r := Step(s, ClosePc(id));
    var owner :| IsOpen(s, owner) && s.peers[owner].regId == key;
    if owner == id && s.peers[id].phase.Closing? {
      var other :| other != id && IsOpen(s, other) && s.peers[other].regId == key;
      assert IsOpen(r, other);
    } else {
      assert IsOpen(r, owner);
    }
  }

  /** The client a step adds is the current key of the step's own session. */
  lemma NewClientBacked(s: State, e: Event, key: Key)
    requires key !in s.clients && key in Step(s, e).clients
    ensures (e.Open? || e.Hello?) && IsOpen(s, e.session)
    ensures IsOpen(Step(s, e), e.session) && Step(s, e).peers[e.session].regId == key
  {
  }

  /**
    A step from a ghost-free state leaves a ghost client exactly when it closes a connection whose
    key is registered and shared with no other session.
   */
  lemma GhostStepExactly(s: State, e: Event)
    requires NoGhosts(s)
    ensures NoGhosts(Step(s, e)) <==> !LeavesGhost(s, e)
  {
    var r := Step(s, e);
    if LeavesGhost(s, e) {
      assert s.peers[e.session].regId in r.clients && !Backed(r, s.peers[e.session].regId);
    } else {
      forall key | key in r.clients
        ensures Backed(r, key)
      {
        if key !in s.clients {
          NewClientBacked(s, e, key);
        } else if e.ClosePc? {
          ClosingKeeps(s, e.session, key);
        } else {
          BackingKept(s, e, key);
        }
      }
    }
  }

  /** No step of the run closes a connection whose key is registered and shared with none. */
  ghost predicate NeverLeavesGhost(max: nat, run: seq<Event>) {
    forall i :: 0 <= i < |run| ==> !LeavesGhost(After(max, run[..i]), run[i])
  }

  lemma {:induction false} NoLeavingNoGhost(max: nat, run: seq<Event>, n: nat)
    requires NeverLeavesGhost(max, run) && n <= |run|
    ensures NoGhosts(After(max, run[..n]))
  {
    if n > 0 {
      NoLeavingNoGhost(max, run, n - 1);
      StepPrefix(Initial(max), run, n - 1);
      GhostStepExactly(After(max, run[..n-1]), run[n-1]);
    }
  }

  lemma {:induction false} LeavingLeavesGhost(max: nat, run: seq<Event>, i: nat)
    requires i < |run| && LeavesGhost(After(max, run[..i]), run[i])
    ensures !NoGhosts(After(max, run[..i])) || !NoGhosts(After(max, run[..i+1]))
  {
    if NoGhosts(After(max, run[..i])) {
      StepPrefix(Initial(max), run, i);
      GhostStepExactly(After(max, run[..i]), run[i]);
    }
  }

  /**
    No ghost clients, exactly: at every point of a run each client id is the current key of a session whose
    connection is not closed, through any mix of early and late opens, re-keys, failures, grace expiries and
    closes, if and only if no step closes a connection whose key is registered and shared with no other.
   */
  lemma {:induction false} EveryClientOwned(max: nat, run: seq<Event>)
    ensures (forall n :: 0 <= n <= |run| ==> NoGhosts(After(max, run[..n]))) <==> NeverLeavesGhost(max, run)
  {
    if NeverLeavesGhost(max, run) {
      forall n | 0 <= n <= |run|
        ensures NoGhosts(After(max, run[..n]))
      {
        NoLeavingNoGhost(max, run, n);
      }
    } else {
      var i :| 0 <= i < |run| && LeavesGhost(After(max, run[..i]), run[i]);
      LeavingLeavesGhost(max, run, i);
    }
  }

  // ----- capacity and shutdown -----

  lemma RegisteredFits(clients: set<Key>, max: nat, key: Key)
    requires |clients| <= max
    ensures |Registered(clients, max, key)| <= max
  {
  }

  lemma HelloFits(s: State, id: Key, client: Key)
    requires |s.clients| <= s.maxConnections && id in s.peers
    ensures |AfterHello(s, id, client).clients| <= s.maxConnections
  {
    var fewer := s.clients - {s.peers[id].regId};
    SubsetSize(fewer, s.clients);
    RegisteredFits(fewer, s.maxConnections, client);
  }

  lemma CapacityStep(s: State, e: Event)
    requires |s.clients| <= s.maxConnections
    ensures |Step(s, e).clients| <= s.maxConnections && Step(s, e).maxConnections == s.maxConnections
  {
    if !e.Stop? && !e.Drain? && e.session in s.peers {
      var p := s.peers[e.session];
      match e
      case Open(id) => RegisteredFits(s.clients, s.maxConnections, p.regId);
      case Hello(id, client) => HelloFits(s, id, client);
      case ChannelClosed(_) => SubsetSize(s.clients - {p.regId}, s.clients);
      case Unregister(_) =>
        if p.phase.Unregistering? {
          SubsetSize(s.clients - {p.phase.key}, s.clients);
        }
      case _ =>
    }
  }

  lemma {:induction false} RunsKeepCapacity(max: nat, run: seq<Event>)
    ensures |After(max, run).clients| <= max && After(max, run).maxConnections == max
  {
    if run != [] {
      RunsKeepCapacity(max, run[..|run|-1]);
      CapacityStep(After(max, run[..|run|-1]), run[|run|-1]);
    }
  }

  /** A channel that opens gets its client exactly if it has it already or there is room for one more. */
  lemma OpenRegistersExactly(s: State, id: Key)
    requires IsOpen(s, id)
    ensures var r := Step(s, Open(id)); var key := s.peers[id].regId;
            && (key in r.clients <==> key in s.clients || |s.clients| < s.maxConnections)
            && (r.peers[id].registered <==> key in r.clients)
            && s.clients <= r.clients <= s.clients + {key}
  {
  }

  /** Sessions that are wired, inserted and opened one after another. */
  function Arrivals(ids: seq<Key>): seq<Event> {
    if ids == [] then []
    else
      var id := ids[|ids|-1];
      Arrivals(ids[..|ids|-1]) + [Wire(id)] + [Insert(id)] + [Open(id)]
  }

  function First(ids: seq<Key>, n: nat): set<Key> {
    set i | 0 <= i < |ids| && i < n :: ids[i]
  }

  lemma {:induction false} FirstCount(ids: seq<Key>, n: nat)
    requires forall i, j :: 0 <= i < j < |ids| ==> ids[i] != ids[j]
    ensures |First(ids, n)| == if |ids| < n then |ids| else n
  {
    if ids != [] {
      var init, last := ids[..|ids|-1], ids[|ids|-1];
      FirstCount(init, n);
      assert forall i :: 0 <= i < |init| ==> init[i] == ids[i];
      assert First(ids, n) == First(init, n) + (if |init| < n then {last} else {});
    }
  }

  lemma {:induction false} ArrivalStep(s: State, id: Key)
    requires id !in s.peers && !s.closed
    ensures var r := Step(Step(Step(s, Wire(id)), Insert(id)), Open(id));
            && r.clients == Registered(s.clients, s.maxConnections, id)
            && r.peers.Keys == s.peers.Keys + {id} && !r.closed && r.maxConnections == s.maxConnections
            && id in r.peers && r.peers[id].phase.Live? && r.peers[id].regId == id
  {
  }

  function Ids(ids: seq<Key>): set<Key> {
    set i | 0 <= i < |ids| :: ids[i]
  }

  lemma IdsGrow(ids: seq<Key>)
    requires ids != [] && forall i, j :: 0 <= i < j < |ids| ==> ids[i] != ids[j]
    ensures ids[|ids|-1] !in Ids(ids[..|ids|-1])
    ensures Ids(ids) == Ids(ids[..|ids|-1]) + {ids[|ids|-1]}
  {
    assert forall i :: 0 <= i < |ids| - 1 ==> ids[..|ids|-1][i] == ids[i];
  }

  lemma FirstGrow(ids: seq<Key>, max: nat)
    requires ids != []
    ensures First(ids, max) ==
            First(ids[..|ids|-1], max) + (if |ids| - 1 < max then {ids[|ids|-1]} else {})
    ensures First(ids, max) <= Ids(ids)
  {
    assert forall i :: 0 <= i < |ids| - 1 ==> ids[..|ids|-1][i] == ids[i];
  }

  lemma RegisteredFirst(ids: seq<Key>, max: nat)
    requires ids != [] && forall i, j :: 0 <= i < j < |ids| ==> ids[i] != ids[j]
    ensures Registered(First(ids[..|ids|-1], max), max, ids[|ids|-1]) == First(ids, max)
  {
    var init := ids[..|ids|-1];
    FirstCount(init, max);
    FirstGrow(ids, max);
    IdsGrow(ids);
    if init != [] {
      FirstGrow(init, max);
    }
  }

  lemma ArrivalsStep(max: nat, ids: seq<Key>)
    requires ids != []
    ensures var init, id := ids[..|ids|-1], ids[|ids|-1];
            After(max, Arrivals(ids)) ==
            Step(Step(Step(After(max, Arrivals(init)), Wire(id)), Insert(id)), Open(id))
  {
    var run, id := Arrivals(ids[..|ids|-1]), ids[|ids|-1];
    StepLast(Initial(max), run, Wire(id));
    StepLast(Initial(max), run + [Wire(id)], Insert(id));
    StepLast(Initial(max), run + [Wire(id)] + [Insert(id)], Open(id));
  }

  /** The service takes as many phones as it is configured for, and the first ones to come. */
  lemma {:induction false} FirstComeFirstServed(max: nat, ids: seq<Key>)
    requires forall i, j :: 0 <= i < j < |ids| ==> ids[i] != ids[j]
    ensures var s := After(max, Arrivals(ids));
            s.clients == First(ids, max) && !s.closed && s.maxConnections == max && s.peers.Keys == Ids(ids)
  {
    if ids != [] {
      var init, id := ids[..|ids|-1], ids[|ids|-1];
      FirstComeFirstServed(max, init);
      IdsGrow(ids);
      RegisteredFirst(ids, max);
      ArrivalsStep(max, ids);
      ArrivalStep(After(max, Arrivals(init)), id);
    }
  }

  /** No session is in the registry. */
  ghost predicate RegistryEmpty(s: State) {
    forall id :: id in s.peers ==> !s.peers[id].phase.Live?
  }

  lemma NoneInserted(s: State, e: Event)
    requires s.closed
    ensures Step(s, e).closed && forall id :: IsLive(Step(s, e), id) ==> IsLive(s, id)
  {
    forall id | IsLive(Step(s, e), id)
      ensures IsLive(s, id)
    {
      if !e.Drain? && (e.Stop? || e.session != id) {
        OthersUntouched(s, e, id);
      }
    }
  }

  /** Once closed, always closed, and no insertion succeeds: who is in the registry was in it before. */
  lemma {:induction false} ClosedForGood(s: State, more: seq<Event>)
    requires s.closed
    ensures StepAll(s, more).closed
    ensures forall id :: IsLive(StepAll(s, more), id) ==> IsLive(s, id)
  {
    if more != [] {
      ClosedForGood(s, more[..|more|-1]);
      NoneInserted(StepAll(s, more[..|more|-1]), more[|more|-1]);
    }
  }

  /** From the draining on the registry is empty. */
  lemma {:induction false} DrainedForGood(max: nat, run: seq<Event>, i: nat)
    requires i < |run| && After(max, run[..i]).closed && run[i].Drain?
    ensures After(max, run).closed && RegistryEmpty(After(max, run))
  {
    StepPrefix(Initial(max), run, i);
    StepConcat(Initial(max), run[..i+1], run[i+1..]);
    assert run == run[..i+1] + run[i+1..];
    ClosedForGood(After(max, run[..i+1]), run[i+1..]);
    forall id | id in After(max, run).peers
      ensures !After(max, run).peers[id].phase.Live?
    {
      assert !IsLive(After(max, run[..i+1]), id);
      assert !IsLive(After(max, run), id);
    }
  }

  /** Neither in the registry nor closed: still to be refused, being closed, or abandoned by its timer. */
  predicate Lingers(s: State, id: Key) {
    IsOpen(s, id) && !s.peers[id].phase.Live?
  }

  /**
    After the shutdown has drained the registry, the clients of a run without ghosts are those of sessions
    that linger outside it; when all connections are closed there is none.
   */
  lemma {:induction false} NoClientAfterShutdown(max: nat, run: seq<Event>, i: nat)
    requires NeverLeavesGhost(max, run)
    requires i < |run| && After(max, run[..i]).closed && run[i].Drain?
    ensures var s := After(max, run);
            && (forall key :: key in s.clients ==> exists id :: Lingers(s, id) && s.peers[id].regId == key)
            && ((forall id :: id in s.peers ==> s.peers[id].phase.Shut?) ==> s.clients == {})
  {
    var s := After(max, run);
    assert run[..|run|] == run;
    NoLeavingNoGhost(max, run, |run|);
    DrainedForGood(max, run, i);
    forall key | key in s.clients
      ensures exists id :: Lingers(s, id) && s.peers[id].regId == key
    {
      assert Backed(s, key);
      var id :| IsOpen(s, id) && s.peers[id].regId == key;
      assert Lingers(s, id);
    }
  }

  // ----- when channels open and say hello only while their session is in the registry -----

  /** A channel opens or says hello before its session's insertion or after its removal. */
  predicate OutsideCallback(s: State, e: Event) {
    (e.Open? || e.Hello?) && IsOpen(s, e.session) && !IsLive(s, e.session)
  }

  /** In the registry, or out of it with the client still to be unregistered, or abandoned. */
  predicate InService(s: State, id: Key) {
    && id in s.peers
    && var p := s.peers[id];
       p.phase.Live? || p.phase.Removed? || p.phase.Abandoned? || (p.phase.Unregistering? && p.phase.key == p.regId)
  }

  ghost predicate Owned(s: State, key: Key) {
    exists id :: InService(s, id) && s.peers[id].regId == key
  }

  ghost predicate OwnedClients(s: State) {
    forall key :: key in s.clients ==> Owned(s, key)
  }

  /** A session stays in service under its key, or its client is gone. */
  lemma StaysInService(s: State, e: Event, id: Key)
    requires InService(s, id) && !OutsideCallback(s, e)
    requires s.peers[id].regId in Step(s, e).clients
    ensures InService(Step(s, e), id) && Step(s, e).peers[id].regId == s.peers[id].regId
  {
    if !e.Drain? && (e.Stop? || e.session != id) {
      OthersUntouched(s, e, id);
    }
  }

  lemma NewClientInService(s: State, e: Event, key: Key)
    requires !OutsideCallback(s, e) && key !in s.clients && key in Step(s, e).clients
    ensures !e.Stop? && !e.Drain? && InService(Step(s, e), e.session) && Step(s, e).peers[e.session].regId == key
  {
    NewClientBacked(s, e, key);
  }

  lemma OwnedStep(s: State, e: Event)
    requires OwnedClients(s) && !OutsideCallback(s, e)
    ensures OwnedClients(Step(s, e))
  {
    forall key | key in Step(s, e).clients
      ensures Owned(Step(s, e), key)
    {
      if key in s.clients {
        var id :| InService(s, id) && s.peers[id].regId == key;
        StaysInService(s, e, id);
      } else {
        NewClientInService(s, e, key);
      }
    }
  }

  lemma OwnedAreBacked(s: State)
    requires OwnedClients(s)
    ensures NoGhosts(s)
  {
    forall key | key in s.clients
      ensures Backed(s, key)
    {
      var id :| InService(s, id) && s.peers[id].regId == key;
      assert IsOpen(s, id);
    }
  }

  ghost predicate NeverOutside(max: nat, run: seq<Event>) {
    forall i :: 0 <= i < |run| ==> !OutsideCallback(After(max, run[..i]), run[i])
  }

  /**
    In such a run the session behind a client is in service. So there are no ghosts, and no client is left
    once every session is unregistered, whether or not its connection is closed yet.
   */
  lemma {:induction false} ClientsInService(max: nat, run: seq<Event>, n: nat)
    requires NeverOutside(max, run) && n <= |run|
    ensures var s := After(max, run[..n]);
            && OwnedClients(s) && NoGhosts(s)
            && ((forall id :: id in s.peers ==> s.peers[id].phase.Closing? || s.peers[id].phase.Shut?) ==>
                  s.clients == {})
  {
    if n > 0 {
      ClientsInService(max, run, n - 1);
      StepPrefix(Initial(max), run, n - 1);
      OwnedStep(After(max, run[..n-1]), run[n-1]);
    }
    OwnedAreBacked(After(max, run[..n]));
  }
}
