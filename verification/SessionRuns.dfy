/**
  Runs of the answer sessions that show what the exact conditions exclude: clients without a session,
  sessions without a client, and sessions that a timer or a failure treats otherwise than meant.
 */
module SessionRuns {
  import opened AnswerSessions
  import opened SessionLifetimes

  // ----- runs that go wrong -----

  lemma FourSteps(s: State, a: Event, b: Event, c: Event, d: Event)
    ensures StepAll(s, [a, b, c, d]) == Step(Step(Step(Step(s, a), b), c), d)
  {
    assert [] + [a] == [a] && [a] + [b] == [a, b] && [a, b] + [c] == [a, b, c] && [a, b, c] + [d] == [a, b, c, d];
    StepLast(s, [], a);
    StepLast(s, [a], b);
    StepLast(s, [a, b], c);
    StepLast(s, [a, b, c], d);
  }

  const FRESH := Peer("s", Wired, false, 0, false)

  /** The only session of a stopped service, in some phase, under some key. */
  function OnlySession(p: Peer, clients: set<Key>): State {
    State(map["s" := p], clients, true, 5)
  }

  /**
    A shutdown is over and its only session is closed, but `key` is still a client, until the channel
    reports its close.
   */
  ghost predicate EndsInGhost(run: seq<Event>, key: Key) {
    var r := After(5, run);
    && r.closed && r.peers.Keys == {"s"} && r.peers["s"].phase.Shut? && r.clients == {key} && !NoGhosts(r)
    && Step(r, ChannelClosed("s")).clients == {}
  }

  lemma {:induction false} ClosesToGhost(run: seq<Event>, p: Peer)
    requires After(5, run) == OnlySession(p, {p.regId}) && p.phase.Closing?
    ensures EndsInGhost(run + [ClosePc("s")], p.regId)
  {
    StepLast(Initial(5), run, ClosePc("s"));
    var r := After(5, run + [ClosePc("s")]);
    assert r == OnlySession(p.(phase := Shut), {p.regId});
    assert !Backed(r, p.regId);
  }

  /** A session that closes although its channel has opened. */
  const OPENED := FRESH.(phase := Closing(false), registered := true)

  /** The channel opens between wiring and insertion, and the service stops before the insertion. */
  lemma {:induction false} GhostByEarlyOpen() returns (run: seq<Event>)
    ensures run == [Wire("s"), Open("s"), Stop, Insert("s")] + [ClosePc("s")] && EndsInGhost(run, "s")
  {
    var w, o, t, i := Wire("s"), Open("s"), Stop, Insert("s");
    FourSteps(Initial(5), w, o, t, i);
    assert Step(Initial(5), w) == State(map["s" := FRESH], {}, false, 5);
    assert Step(Step(Initial(5), w), o) == State(map["s" := FRESH.(registered := true)], {"s"}, false, 5);
    assert After(5, [w, o, t, i]) == OnlySession(OPENED, {"s"});
    ClosesToGhost([w, o, t, i], OPENED);
    run := [w, o, t, i] + [ClosePc("s")];
  }

  /** The channel opens between the refusal and the closing of the connection. */
  lemma {:induction false} GhostAfterRefusal() returns (run: seq<Event>)
    ensures run == [Stop, Wire("s"), Insert("s"), Open("s")] + [ClosePc("s")] && EndsInGhost(run, "s")
  {
    var t, w, i, o := Stop, Wire("s"), Insert("s"), Open("s");
    FourSteps(Initial(5), t, w, i, o);
    assert Step(Step(Initial(5), t), w) == OnlySession(FRESH, {});
    assert Step(OnlySession(FRESH, {}), i) == OnlySession(FRESH.(phase := Closing(false)), {});
    assert Step(OnlySession(FRESH.(phase := Closing(false)), {}), o) == OnlySession(OPENED, {"s"});
    ClosesToGhost([t, w, i, o], OPENED);
    run := [t, w, i, o] + [ClosePc("s")];
  }

  /** A session in the registry, drained by the stopping service, with its key read. */
  lemma {:induction false} DrainOne() returns (run: seq<Event>)
    ensures run == [Wire("s"), Insert("s"), Stop, Drain] + [ReadKey("s")]
    ensures After(5, run) == OnlySession(FRESH.(phase := Unregistering("s", false)), {})
  {
    var w, i, t, d := Wire("s"), Insert("s"), Stop, Drain;
    run := [w, i, t, d] + [ReadKey("s")];
    FourSteps(Initial(5), w, i, t, d);
    assert Step(Initial(5), w) == State(map["s" := FRESH], {}, false, 5);
    assert Step(Step(Initial(5), w), i) == State(map["s" := FRESH.(phase := Live)], {}, false, 5);
    assert Step(Step(Step(Initial(5), w), i), t) == OnlySession(FRESH.(phase := Live), {});
    assert After(5, [w, i, t, d]) == OnlySession(FRESH.(phase := Removed(false)), {});
    StepLast(Initial(5), [w, i, t, d], ReadKey("s"));
  }

  /** The channel opens between the shutdown's unregistering and its closing of the connection. */
  lemma {:induction false} GhostAfterUnregister() returns (run: seq<Event>)
    ensures run == [Wire("s"), Insert("s"), Stop, Drain] + [ReadKey("s")] + [Unregister("s")] + [Open("s")] +
                   [ClosePc("s")]
    ensures EndsInGhost(run, "s")
  {
    var start := DrainOne();
    var u, o := Unregister("s"), Open("s");
    StepLast(Initial(5), start, u);
    StepLast(Initial(5), start + [u], o);
    assert After(5, start + [u]) == OnlySession(FRESH.(phase := Closing(false)), {});
    assert After(5, start + [u] + [o]) == OnlySession(OPENED, {"s"});
    ClosesToGhost(start + [u] + [o], OPENED);
    run := start + [u] + [o] + [ClosePc("s")];
  }

  /** The phone says hello between the shutdown's reading of the key and its unregistering of that key. */
  lemma {:induction false} GhostByLateHello() returns (run: seq<Event>)
    ensures run == [Wire("s"), Insert("s"), Stop, Drain] + [ReadKey("s")] + [Hello("s", "phone")] + [Unregister("s")] +
                   [ClosePc("s")]
    ensures EndsInGhost(run, "phone")
  {
    var start := DrainOne();
    var h, u := Hello("s", "phone"), Unregister("s");
    var p := FRESH.(regId := "phone", phase := Unregistering("s", false), registered := true);
    StepLast(Initial(5), start, h);
    StepLast(Initial(5), start + [h], u);
    assert After(5, start + [h]) == OnlySession(p, {"phone"});
    assert After(5, start + [h] + [u]) == OnlySession(p.(phase := Closing(false)), {"phone"});
    ClosesToGhost(start + [h] + [u], p.(phase := Closing(false)));
    run := start + [h] + [u] + [ClosePc("s")];
  }

  /** A session in use loses its connection for so long that its timer removes it. */
  lemma {:induction false} GraceRunsOut() returns (run: seq<Event>)
    ensures run == [Wire("s"), Insert("s"), Open("s"), Disconnected("s")] + [GraceExpires("s")]
    ensures After(5, run) == State(map["s" := FRESH.(phase := Removed(true), registered := true)], {"s"}, false, 5)
  {
    var w, i, o, d := Wire("s"), Insert("s"), Open("s"), Disconnected("s");
    run := [w, i, o, d] + [GraceExpires("s")];
    FourSteps(Initial(5), w, i, o, d);
    var live := FRESH.(phase := Live);
    assert Step(Initial(5), w) == State(map["s" := FRESH], {}, false, 5);
    assert Step(State(map["s" := FRESH], {}, false, 5), i) == State(map["s" := live], {}, false, 5);
    assert Step(State(map["s" := live], {}, false, 5), o) ==
           State(map["s" := live.(registered := true)], {"s"}, false, 5);
    assert After(5, [w, i, o, d]) == State(map["s" := live.(registered := true, grace := true)], {"s"}, false, 5);
    StepLast(Initial(5), [w, i, o, d], GraceExpires("s"));
  }

  /** The removal aborts the very timer it is the work of; when that is cut, the client is never unregistered. */
  lemma {:induction false} CutTimerKeepsClient() returns (run: seq<Event>)
    ensures run == [Wire("s"), Insert("s"), Open("s"), Disconnected("s")] + [GraceExpires("s")] +
                   [Cut("s")] + [Stop] + [Drain]
    ensures After(5, run) == OnlySession(FRESH.(phase := Abandoned, registered := true), {"s"})
  {
    var start := GraceRunsOut();
    StepLast(Initial(5), start, Cut("s"));
    StepLast(Initial(5), start + [Cut("s")], Stop);
    StepLast(Initial(5), start + [Cut("s")] + [Stop], Drain);
    var p := FRESH.(phase := Abandoned, registered := true);
    assert After(5, start + [Cut("s")]) == State(map["s" := p], {"s"}, false, 5);
    assert AfterDrain(OnlySession(p, {"s"})) == OnlySession(p, {"s"});
    run := start + [Cut("s")] + [Stop] + [Drain];
  }

  /** A connection lost before the insertion starts a timer that removes the session although it came back. */
  lemma {:induction false} DetachedTimerShutsReconnected() returns (run: seq<Event>)
    ensures run == [Wire("s"), Disconnected("s"), Insert("s"), Reconnected("s")] + [DetachedGraceExpires("s")]
    ensures IsLive(After(5, run[..4]), "s") && !After(5, run[..4]).peers["s"].grace
    ensures "s" in After(5, run).peers && After(5, run).peers["s"].phase == Removed(false)
  {
    var w, d, i, r := Wire("s"), Disconnected("s"), Insert("s"), Reconnected("s");
    run := [w, d, i, r] + [DetachedGraceExpires("s")];
    assert run[..4] == [w, d, i, r];
    FourSteps(Initial(5), w, d, i, r);
    StepLast(Initial(5), run[..4], DetachedGraceExpires("s"));
    assert Step(Initial(5), w) == State(map["s" := FRESH], {}, false, 5);
    assert Step(Step(Initial(5), w), d) == State(map["s" := FRESH.(detached := 1)], {}, false, 5);
    assert After(5, run[..4]) == State(map["s" := FRESH.(phase := Live, detached := 1)], {}, false, 5);
  }

  /**
    A failure between wiring and insertion is forgotten: the session is inserted all the same, and as no
    further report will come for its connection, nothing but a shutdown removes it.
   */
  lemma {:induction false} EarlyFailureForgotten(max: nat, before: seq<Event>, more: seq<Event>, id: Key)
    requires id in After(max, before).peers && After(max, before).peers[id] == Peer(id, Wired, false, 0, false)
    requires !After(max, before).closed && Quiet(more, id)
    ensures IsLive(After(max, before + [Failed(id)] + [Insert(id)] + more), id)
  {
    StepLast(Initial(max), before, Failed(id));
    StepLast(Initial(max), before + [Failed(id)], Insert(id));
    StepConcat(Initial(max), before + [Failed(id)] + [Insert(id)], more);
    UntimedStaysLive(After(max, before + [Failed(id)] + [Insert(id)]), more, id);
  }

  /** The steps by which a session joins and its phone says who it is. */
  function Joins(id: Key): seq<Event> {
    [Wire(id), Insert(id), Open(id), Hello(id, "phone")]
  }

  /** A session of the phone, once it has joined. */
  const JOINED := Peer("phone", Live, false, 0, true)

  lemma {:induction false} JoinsAs(s: State, id: Key)
    requires id !in s.peers && !s.closed && |s.clients| + 2 <= s.maxConnections && id != "phone" && id !in s.clients
    ensures StepAll(s, Joins(id)) == WithPeer(s, id, JOINED).(clients := s.clients + {"phone"})
  {
    FourSteps(s, Wire(id), Insert(id), Open(id), Hello(id, "phone"));
    var p := Peer(id, Live, false, 0, false);
    var inserted := Step(Step(s, Wire(id)), Insert(id));
    assert inserted == WithPeer(s, id, p);
    var after := Step(inserted, Open(id));
    assert after == WithPeer(s, id, p.(registered := true)).(clients := s.clients + {id});
    assert s.clients + {id} - {id} == s.clients;
  }

  lemma {:induction false} BothJoin()
    ensures After(5, Joins("a") + Joins("b")) == State(map["a" := JOINED, "b" := JOINED], {"phone"}, false, 5)
  {
    StepConcat(Initial(5), Joins("a"), Joins("b"));
    JoinsAs(Initial(5), "a");
    JoinsAs(State(map["a" := JOINED], {"phone"}, false, 5), "b");
  }

  /** Two sessions of one phone share a client, and the first to end takes it from the other. */
  lemma {:induction false} SharedClientVanishes() returns (run: seq<Event>)
    ensures run == Joins("a") + Joins("b") + [Failed("a")] + [ReadKey("a")] + [Unregister("a")]
    ensures var r := After(5, run);
            && IsLive(r, "b") && r.peers["b"].registered && r.peers["b"].regId == "phone" && r.clients == {}
  {
    var start := Joins("a") + Joins("b");
    run := start + [Failed("a")] + [ReadKey("a")] + [Unregister("a")];
    BothJoin();
    StepLast(Initial(5), start, Failed("a"));
    StepLast(Initial(5), start + [Failed("a")], ReadKey("a"));
    StepLast(Initial(5), start + [Failed("a")] + [ReadKey("a")], Unregister("a"));
  }
}
