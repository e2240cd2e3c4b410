/**
  What a session may count on: that its client stays registered, that it stays in the registry, and that
  coming back saves it from its grace timer, each with the exact condition.
 */
module SessionLifetimes {
  import opened AnswerSessions

  // ----- who takes a client from whom -----

  /** Every session that registered and has not withdrawn still has its client. */
  ghost predicate AllKept(s: State) {
    forall id :: IsOpen(s, id) && s.peers[id].registered ==> s.peers[id].regId in s.clients
  }

  /** The step's session gives up a key that is also the key of `other`. */
  predicate TakesFrom(s: State, e: Event, other: Key)
    requires other in s.peers
  {
    && !e.Stop? && !e.Drain? && e.session in s.peers && e.session != other
    && var p := s.peers[e.session];
       var key := s.peers[other].regId;
       match e
       case Unregister(_) => p.phase.Unregistering? && p.phase.key == key
       case ChannelClosed(_) => p.regId == key
       case Hello(id, client) => IsOpen(s, id) && p.regId == key && client != key
       case _ => false
  }

  /** The step takes away the client of another session that is registered. */
  ghost predicate Robs(s: State, e: Event) {
    exists other :: IsOpen(s, other) && s.peers[other].registered && TakesFrom(s, e, other)
  }

  /** A session's own steps leave it registered exactly while its client is there. */
  lemma OwnClientKept(s: State, e: Event)
    requires AllKept(s) && !e.Stop? && !e.Drain? && IsOpen(Step(s, e), e.session)
    requires Step(s, e).peers[e.session].registered
    ensures Step(s, e).peers[e.session].regId in Step(s, e).clients
  {
    if e.session in s.peers {
      assert IsOpen(s, e.session);
    }
  }

  /** Another session's client goes exactly if the step takes it. */
  lemma TakenExactly(s: State, e: Event, other: Key)
    requires IsOpen(s, other) && s.peers[other].regId in s.clients && !e.Stop? && !e.Drain? && e.session != other
    ensures s.peers[other].regId in Step(s, e).clients <==> !TakesFrom(s, e, other)
  {
  }

  lemma OtherClientKept(s: State, e: Event, other: Key)
    requires IsOpen(s, other) && s.peers[other].regId in s.clients && (e.Stop? || e.Drain? || e.session != other)
    ensures IsOpen(Step(s, e), other) && Step(s, e).peers[other].regId == s.peers[other].regId
    ensures Step(s, e).peers[other].registered == s.peers[other].registered
    ensures s.peers[other].regId in Step(s, e).clients <==> !TakesFrom(s, e, other)
  {
    if !e.Drain? {
      OthersUntouched(s, e, other);
    }
    if !e.Stop? && !e.Drain? {
      TakenExactly(s, e, other);
    }
  }

  /** A session that becomes another's neighbour was there before. */
  lemma OthersWereThere(s: State, e: Event, other: Key)
    requires IsOpen(Step(s, e), other) && (e.Stop? || e.Drain? || e.session != other)
    ensures IsOpen(s, other) && Step(s, e).peers[other].registered == s.peers[other].registered
  {
    if !e.Drain? {
      OthersUntouched(s, e, other);
    }
  }

  lemma KeptStepExactly(s: State, e: Event)
    requires AllKept(s)
    ensures AllKept(Step(s, e)) <==> !Robs(s, e)
  {
    var r := Step(s, e);
    if Robs(s, e) {
      var other :| IsOpen(s, other) && s.peers[other].registered && TakesFrom(s, e, other);
      OtherClientKept(s, e, other);
    } else {
      forall id | IsOpen(r, id) && r.peers[id].registered
        ensures r.peers[id].regId in r.clients
      {
        if !e.Stop? && !e.Drain? && e.session == id {
          OwnClientKept(s, e);
        } else {
          OthersWereThere(s, e, id);
          OtherClientKept(s, e, id);
        }
      }
    }
  }

  ghost predicate NeverRobs(max: nat, run: seq<Event>) {
    forall i :: 0 <= i < |run| ==> !Robs(After(max, run[..i]), run[i])
  }

  lemma {:induction false} NeverRobbedKept(max: nat, run: seq<Event>, n: nat)
    requires NeverRobs(max, run) && n <= |run|
    ensures AllKept(After(max, run[..n]))
  {
    if n > 0 {
      NeverRobbedKept(max, run, n - 1);
      StepPrefix(Initial(max), run, n - 1);
      KeptStepExactly(After(max, run[..n-1]), run[n-1]);
    }
  }

  lemma {:induction false} RobbedNotKept(max: nat, run: seq<Event>, i: nat)
    requires i < |run| && Robs(After(max, run[..i]), run[i])
    ensures !AllKept(After(max, run[..i])) || !AllKept(After(max, run[..i+1]))
  {
    if AllKept(After(max, run[..i])) {
      StepPrefix(Initial(max), run, i);
      KeptStepExactly(After(max, run[..i]), run[i]);
    }
  }

  /**
    The converse of ghost-freedom, exactly: at every point of a run each session that registered and has not
    withdrawn has its client, if and only if no session ever gives up a key that another one is registered by.
   */
  lemma {:induction false} EverySessionRegistered(max: nat, run: seq<Event>)
    ensures (forall n :: 0 <= n <= |run| ==> AllKept(After(max, run[..n]))) <==> NeverRobs(max, run)
  {
    if NeverRobs(max, run) {
      forall n | 0 <= n <= |run|
        ensures AllKept(After(max, run[..n]))
      {
        NeverRobbedKept(max, run, n);
      }
    } else {
      var i :| 0 <= i < |run| && Robs(After(max, run[..i]), run[i]);
      RobbedNotKept(max, run, i);
    }
  }

  predicate IsAbandoned(s: State, id: Key) {
    id in s.peers && s.peers[id].phase.Abandoned?
  }

  /** The session's own channel closes, or its phone says hello under another key. */
  predicate Withdraws(s: State, e: Event, id: Key)
    requires id in s.peers
  {
    e == ChannelClosed(id) || (e.Hello? && e.session == id && e.client != s.peers[id].regId)
  }

  /**
    A session whose removal was cut short is never finished, and its client goes exactly by the session's own
    withdrawal or because another session gives up the key.
   */
  lemma AbandonedKeepsClient(s: State, e: Event, id: Key)
    requires IsAbandoned(s, id) && s.peers[id].regId in s.clients
    ensures IsAbandoned(Step(s, e), id)
    ensures s.peers[id].regId in Step(s, e).clients <==> !Withdraws(s, e, id) && !TakesFrom(s, e, id)
  {
    if e.Stop? || e.Drain? || e.session != id {
      OtherClientKept(s, e, id);
      if !e.Drain? {
        OthersUntouched(s, e, id);
      }
    }
  }

  /** The work of the entry's own timer can be cut at each of its awaits, and no other work at any. */
  lemma CutExactly(s: State, id: Key)
    requires IsOpen(s, id) && !IsAbandoned(s, id)
    ensures var phase := s.peers[id].phase;
            IsAbandoned(Step(s, Cut(id)), id) <==>
            phase == Removed(true) || phase == Closing(true) || (phase.Unregistering? && phase.timed)
  {
  }

  /** On its way out, but not by the timer that its entry held: by failure, draining or a detached timer. */
  predicate LeavingUntimed(s: State, id: Key) {
    id in s.peers &&
    match s.peers[id].phase
    case Removed(timed) => !timed
    case Unregistering(_, timed) => !timed
    case Closing(timed) => !timed
    case Shut => true
    case _ => false
  }

  lemma UntimedStep(s: State, e: Event, id: Key)
    requires LeavingUntimed(s, id)
    ensures LeavingUntimed(Step(s, e), id)
  {
    if !e.Drain? && (e.Stop? || e.session != id) {
      OthersUntouched(s, e, id);
    }
  }

  /** Such a removal is never cut short, whatever happens: three more steps of it close the connection. */
  lemma {:induction false} UntimedRemovalFinishes(s: State, more: seq<Event>, id: Key)
    requires LeavingUntimed(s, id)
    ensures LeavingUntimed(StepAll(s, more), id)
    ensures var r := StepAll(s, more);
            var t := Step(Step(Step(r, ReadKey(id)), Unregister(id)), ClosePc(id));
            id in t.peers && t.peers[id].phase.Shut?
  {
    if more != [] {
      UntimedRemovalFinishes(s, more[..|more|-1], id);
      UntimedStep(StepAll(s, more[..|more|-1]), more[|more|-1], id);
    }
  }

  // ----- leaving the registry -----

  /** What takes a session out of the registry: its failure, the draining, or a timer that is pending. */
  predicate Ends(s: State, e: Event, id: Key) {
    match e
    case Failed(session) => session == id
    case Drain => s.closed
    case GraceExpires(session) => session == id && id in s.peers && s.peers[id].grace
    case DetachedGraceExpires(session) => session == id && id in s.peers && s.peers[id].detached > 0
    case _ => false
  }

  lemma LeavesExactly(s: State, e: Event, id: Key)
    requires IsLive(s, id)
    ensures IsLive(Step(s, e), id) <==> !Ends(s, e, id)
    ensures Ends(s, e, id) ==>
              IsOpen(Step(s, e), id) && Step(s, e).peers[id].phase.Removed? && Step(s, e).clients == s.clients
  {
  }

  ghost predicate NeverEnds(s: State, more: seq<Event>, id: Key) {
    forall i :: 0 <= i < |more| ==> !Ends(StepAll(s, more[..i]), more[i], id)
  }

  lemma {:induction false} NeverEndedLive(s: State, more: seq<Event>, id: Key, n: nat)
    requires IsLive(s, id) && NeverEnds(s, more, id) && n <= |more|
    ensures IsLive(StepAll(s, more[..n]), id)
  {
    if n > 0 {
      NeverEndedLive(s, more, id, n - 1);
      StepPrefix(s, more, n - 1);
      LeavesExactly(StepAll(s, more[..n-1]), more[n-1], id);
    }
  }

  lemma {:induction false} EndedNotLive(s: State, more: seq<Event>, id: Key, i: nat)
    requires i < |more| && Ends(StepAll(s, more[..i]), more[i], id)
    ensures !IsLive(StepAll(s, more[..i]), id) || !IsLive(StepAll(s, more[..i+1]), id)
  {
    if IsLive(StepAll(s, more[..i]), id) {
      StepPrefix(s, more, i);
      LeavesExactly(StepAll(s, more[..i]), more[i], id);
    }
  }

  /** A session stays in the registry throughout exactly if none of these happens to it. */
  lemma {:induction false} StaysLiveExactly(s: State, more: seq<Event>, id: Key)
    requires IsLive(s, id)
    ensures (forall n :: 0 <= n <= |more| ==> IsLive(StepAll(s, more[..n]), id)) <==> NeverEnds(s, more, id)
  {
    if NeverEnds(s, more, id) {
      forall n | 0 <= n <= |more|
        ensures IsLive(StepAll(s, more[..n]), id)
      {
        NeverEndedLive(s, more, id, n);
      }
    } else {
      var i :| 0 <= i < |more| && Ends(StepAll(s, more[..i]), more[i], id);
      EndedNotLive(s, more, id, i);
    }
  }

  /** A connection lost again and again. */
  function Losses(id: Key, n: nat): seq<Event> {
    if n == 0 then [] else Losses(id, n - 1) + [Disconnected(id)]
  }

  lemma {:induction false} LossStep(s: State, id: Key, p: Peer)
    requires p.phase.Wired?
    ensures Step(WithPeer(s, id, p), Disconnected(id)) == WithPeer(s, id, p.(detached := p.detached + 1))
  {
    assert s.peers[id := p][id := p.(detached := p.detached + 1)] == s.peers[id := p.(detached := p.detached + 1)];
  }

  /** Before the insertion every loss starts a timer of its own. */
  lemma {:induction false} EveryEarlyLossCounts(s: State, id: Key, n: nat)
    requires id in s.peers && s.peers[id].phase.Wired?
    ensures StepAll(s, Losses(id, n)) == WithPeer(s, id, s.peers[id].(detached := s.peers[id].detached + n))
  {
    if n > 0 {
      EveryEarlyLossCounts(s, id, n - 1);
      StepLast(s, Losses(id, n - 1), Disconnected(id));
      LossStep(s, id, s.peers[id].(detached := s.peers[id].detached + (n - 1)));
    } else {
      assert s.peers[id := s.peers[id]] == s.peers;
    }
  }

  /** No new loss of connection for the session, no failure, no draining; anything else, in any order. */
  predicate Quiet(events: seq<Event>, id: Key) {
    forall i :: 0 <= i < |events| ==> events[i] != Disconnected(id) && events[i] != Failed(id) && events[i] != Drain
  }

  /** In the registry, and no timer of the session is pending. */
  predicate Untimed(s: State, id: Key) {
    IsLive(s, id) && !s.peers[id].grace && s.peers[id].detached == 0
  }

  lemma StaysUntimed(s: State, e: Event, id: Key)
    requires Untimed(s, id) && e != Disconnected(id) && e != Failed(id) && e != Drain
    ensures Untimed(Step(s, e), id)
  {
    LeavesExactly(s, e, id);
  }

  lemma {:induction false} NoTimerAppears(s: State, more: seq<Event>, id: Key, n: nat)
    requires Untimed(s, id) && Quiet(more, id) && n <= |more|
    ensures Untimed(StepAll(s, more[..n]), id)
  {
    if n > 0 {
      NoTimerAppears(s, more, id, n - 1);
      StepPrefix(s, more, n - 1);
      StaysUntimed(StepAll(s, more[..n-1]), more[n-1], id);
    }
  }

  lemma {:induction false} UntimedStaysLive(s: State, more: seq<Event>, id: Key)
    requires Untimed(s, id) && Quiet(more, id)
    ensures IsLive(StepAll(s, more), id)
  {
    NoTimerAppears(s, more, id, |more|);
    assert more[..|more|] == more;
  }

  /**
    Coming back within the grace period saves a session from every timer, whatever else happens
    meanwhile, exactly when none of its timers was started before its insertion.
   */
  lemma {:induction false} GraceCancelledExactly(s: State, id: Key)
    requires IsLive(s, id)
    ensures (forall more :: Quiet(more, id) ==> IsLive(StepAll(Step(s, Reconnected(id)), more), id)) <==>
            s.peers[id].detached == 0
  {
    var back := Step(s, Reconnected(id));
    if s.peers[id].detached == 0 {
      forall more | Quiet(more, id)
        ensures IsLive(StepAll(back, more), id)
      {
        UntimedStaysLive(back, more, id);
      }
    } else {
      var expiry := [DetachedGraceExpires(id)];
      assert expiry[..0] == [];
      assert Quiet(expiry, id) && StepAll(back, expiry) == Step(back, expiry[0]);
    }
  }
}
