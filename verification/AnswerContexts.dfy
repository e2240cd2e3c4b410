/**
  The desktop's answer context: the registry and the clients as the callbacks and the shutdown change
  them in place, each operation against the steps that specify it.
 */
module AnswerContexts {
  import opened AnswerSessions

  /** What close_session and close_all do with a session once it is out of the registry, undisturbed. */
  function Finished(s: State, id: Key): State {
    Step(Step(Step(s, ReadKey(id)), Unregister(id)), ClosePc(id))
  }

  lemma FinishedEffect(s: State, id: Key)
    requires id in s.peers && s.peers[id].phase == Removed(false)
    ensures Finished(s, id) ==
            WithPeer(s, id, s.peers[id].(phase := Shut, registered := false))
            .(clients := s.clients - {s.peers[id].regId})
  {
    var p := s.peers[id];
    assert Step(s, ReadKey(id)) == WithPeer(s, id, p.(phase := Unregistering(p.regId, false)));
  }

  function Closed(p: Peer): Peer {
    p.(phase := Shut, grace := false, registered := false)
  }

  lemma HelloEffect(s: State, id: Key, client: Key)
    requires IsOpen(s, id) && s.peers[id].regId != client
    ensures var clients := Registered(s.clients - {s.peers[id].regId}, s.maxConnections, client);
            Step(s, Hello(id, client)) ==
            State(s.peers[id := s.peers[id].(regId := client, registered := client in clients)], clients,
                  s.closed, s.maxConnections)
  {
  }

  function LiveIn(peers: map<Key, Peer>): set<Key> {
    set id | id in peers && peers[id].phase.Live?
  }

  function KeysOf(peers: map<Key, Peer>, ids: set<Key>): set<Key> {
    set id | id in ids && id in peers :: peers[id].regId
  }

  lemma OneMoreKey(peers: map<Key, Peer>, ids: set<Key>, id: Key)
    requires id in peers
    ensures KeysOf(peers, ids + {id}) == KeysOf(peers, ids) + {peers[id].regId}
  {
  }

  class AnswerContext {
    var peers: map<Key, Peer>
    var clients: set<Key>
    var closed: bool
    const maxConnections: nat

    function Current(): State
      reads this
    {
      State(peers, clients, closed, maxConnections)
    }

    constructor (maxConnections: nat)
      ensures Current() == Initial(maxConnections)
    {
      peers, clients, closed := map[], {}, false;
      this.maxConnections := maxConnections;
    }

    method Register(key: Key) returns (ok: bool)
      modifies this`clients
      ensures clients == Registered(old(clients), maxConnections, key)
      ensures ok == (key in clients)
    {
      if |clients| >= maxConnections && key !in clients {
        return false;
      }
      clients := clients + {key};
      return true;
    }

    method UnregisterClient(key: Key)
      modifies this`clients
      ensures clients == old(clients) - {key}
    {
      clients := clients - {key};
    }

    /** Callbacks first, then the registry; a closed registry refuses and the connection is closed. */
    method WireSession(id: Key) returns (ok: bool)
      requires id !in peers
      modifies this
      ensures ok == !closed
      ensures Current() == Step(Step(Step(old(Current()), Wire(id)), Insert(id)), ClosePc(id))
    {
      peers := peers[id := Peer(id, Wired, false, 0, false)];
      if closed {
        peers := peers[id := peers[id].(phase := Shut)];
        return false;
      }
      peers := peers[id := peers[id].(phase := Live)];
      return true;
    }

    method OnOpen(id: Key) returns (ok: bool)
      requires IsOpen(Current(), id)
      modifies this
      ensures Current() == Step(old(Current()), Open(id))
    {
      ok := Register(peers[id].regId);
      peers := peers[id := peers[id].(registered := ok)];
    }

    /** The client moves from one key to the other, as far as there is room. */
    method MoveClient(key: Key, client: Key) returns (ok: bool)
      modifies this`clients
      ensures clients == Registered(old(clients) - {key}, maxConnections, client) && ok == (client in clients)
    {
      UnregisterClient(key);
      ok := Register(client);
    }

    method HandleHello(id: Key, client: Key)
      requires IsOpen(Current(), id)
      modifies this
      ensures Current() == Step(old(Current()), Hello(id, client))
    {
      var p := peers[id];
      if p.regId != client {
        HelloEffect(Current(), id, client);
        peers := peers[id := p.(regId := client)];
        var ok := MoveClient(p.regId, client);
        peers := peers[id := p.(regId := client, registered := ok)];
      }
    }

    method OnChannelClosed(id: Key)
      requires id in peers
      modifies this
      ensures Current() == Step(old(Current()), ChannelClosed(id))
    {
      UnregisterClient(peers[id].regId);
      peers := peers[id := peers[id].(registered := false)];
    }

    /** Nothing if the registry does not hold the session; else everything, when no one comes in between. */
    method CloseSession(id: Key)
      modifies this
      ensures !old(IsLive(Current(), id)) ==> Current() == old(Current())
      ensures old(IsLive(Current(), id)) ==> Current() == Finished(Step(old(Current()), Failed(id)), id)
    {
      if id in peers && peers[id].phase.Live? {
        ghost var removed := Step(Current(), Failed(id));
        FinishedEffect(removed, id);
        var key := peers[id].regId;
        peers := peers[id := peers[id].(phase := Removed(false), grace := false)];
        UnregisterClient(key);
        peers := peers[id := peers[id].(phase := Shut, registered := false)];
      }
    }

    /** Shutdown: refuse newcomers, empty the registry, then unregister and close one by one. */
    method CloseAll()
      modifies this
      ensures closed && peers.Keys == old(peers).Keys
      ensures clients == old(clients) - KeysOf(old(peers), LiveIn(old(peers)))
      ensures forall id :: id in peers ==>
                peers[id] == if old(peers)[id].phase.Live? then Closed(old(peers)[id]) else old(peers)[id]
    {
      closed := true;
      ghost var was, had := peers, clients;
      var rest := LiveIn(peers);
      ghost var done: set<Key> := {};
      peers := AfterDrain(Current()).peers;
      while rest != {}
        invariant rest + done == LiveIn(was) && rest !! done && closed && peers.Keys == was.Keys
        invariant forall id :: id in was ==>
                    peers[id] == if id in rest then Leave(was[id], false)
                                 else if id in done then Closed(was[id])
                                 else was[id]
        invariant clients == had - KeysOf(was, done)
        decreases rest
      {
        var id :| id in rest;
        OneMoreKey(was, done, id);
        UnregisterClient(peers[id].regId);
        peers := peers[id := Closed(peers[id])];
        rest := rest - {id};
        done := done + {id};
      }
    }
  }
}
