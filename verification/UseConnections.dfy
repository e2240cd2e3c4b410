/**
  The connection manager as the phone runs it: callbacks that update the sessions in place.
  Each callback is proved against the function that specifies it, and keeps the wiring and the liveness of
  every session; the helpers of a callback work in between.
 */
module UseConnections {
  import opened Wrappers
  import opened ConnectionMachine
  import opened Connections

  /** What every callback keeps. */
  ghost predicate Sound(h: Hook) {
    Wired(h) && NeverStuck(h)
  }

  lemma StepKeepsSound(h: Hook, e: Event)
    requires Sound(h)
    ensures Sound(Step(h, e))
  {
    StepEvolves(h, e);
    StepNeverStuck(h, e);
  }

  lemma SignalKeepsSound(h: Hook, t: TransportId, signal: Signal)
    requires Sound(h)
    ensures Sound(OnSignal(h, t, signal))
  {
    SignalEvolves(h, t, signal);
    SignalNeverStuck(h, t, signal);
  }

  lemma TimerKeepsSound(h: Hook, id: DeviceId)
    requires Sound(h)
    ensures Sound(TimerFires(h, id))
  {
    RetryEvolves(h, id);
    TimerNeverStuck(h, id);
  }

  class Manager {
    var sessions: map<DeviceId, Session>
    var listeners: map<TransportId, DeviceId>
    var next: TransportId
    var tokens: map<DeviceId, string>
    var codes: map<DeviceId, string>
    ghost var fed: seq<Fed>

    ghost function Current(): Hook
      reads this
    {
      Hook(sessions, listeners, next, tokens, codes, fed)
    }

    ghost predicate Valid()
      reads this
    {
      Sound(Current())
    }

    constructor (tokens: map<DeviceId, string>, codes: map<DeviceId, string>)
      ensures Valid() && Current() == Initial(tokens, codes)
    {
      sessions, listeners, next := map[], map[], 0;
      this.tokens, this.codes := tokens, codes;
      fed := [];
    }

    method Dispatch(id: DeviceId, event: ConnectionEvent) returns (state: ConnectionState)
      modifies this
      ensures Current() == Connections.Dispatch(old(Current()), id, event)
      ensures state == if id in sessions then sessions[id].state else Idle
    {
      if id !in sessions {
        return Idle;
      }
      state := Reduce(sessions[id].state, event);
      sessions := sessions[id := sessions[id].(state := state)];
      if Failure(event) {
        fed := fed + [Fed(id, event)];
      }
    }

    method CloseTransport(id: DeviceId)
      modifies this
      ensures Current() == Connections.CloseTransport(old(Current()), id)
    {
      if id in sessions && sessions[id].transport.Some? {
        listeners := listeners - {sessions[id].transport.value};
        sessions := sessions[id := sessions[id].(transport := None)];
      }
    }

    method OpenTransport(id: DeviceId, auth: Auth)
      modifies this
      ensures Current() == Connections.OpenTransport(old(Current()), id, auth)
    {
      if id !in sessions {
        return;
      }
      CloseTransport(id);
      var _ := Dispatch(id, CONNECT);
      sessions := sessions[id := sessions[id].(transport := Some(next))];
      sessions := sessions[id := sessions[id].(lastAuth := Some(auth))];
      listeners := listeners[next := id];
      next := next + 1;
    }

    method ScheduleRetry(id: DeviceId, retries: nat)
      modifies this
      ensures Current() == old(Current()).(sessions :=
                if id in old(sessions)
                then old(sessions)[id := old(sessions)[id].(retryTimer := Some(NextReconnectDelay(retries)))]
                else old(sessions))
    {
      if id in sessions {
        sessions := sessions[id := sessions[id].(retryTimer := None)];
        sessions := sessions[id := sessions[id].(retryTimer := Some(NextReconnectDelay(retries)))];
      }
    }

    method FailAndDetach(id: DeviceId, reason: OfflineReason)
      modifies this
      ensures Current() == Connections.FailAndDetach(old(Current()), id, reason)
    {
      var n := Dispatch(id, FAIL(reason));
      if n.Reconnecting? {
        ScheduleRetry(id, n.retries);
      }
      CloseTransport(id);
    }

    method TriggerAuthFallback(id: DeviceId)
      modifies this
      ensures Current() == Connections.TriggerAuthFallback(old(Current()), id)
    {
      if id in sessions && sessions[id].lastAuth.Some? && sessions[id].lastAuth.value.Token? {
        var code := Stored(codes, id);
        if code.Some? {
          var auth := Code(code.value);
          sessions := sessions[id := sessions[id].(lastAuth := Some(auth))];
          var _ := Dispatch(id, CONNECT);
          OpenTransport(id, auth);
          return;
        }
      }
      FailAndDetach(id, AuthFailed);
    }

    method OnError(id: DeviceId, code: Option<string>)
      modifies this
      ensures Current() == Connections.OnError(old(Current()), id, code)
    {
      if code.None? || code.value == "" {
        return;
      }
      if code.value in AUTH_CODES {
        TriggerAuthFallback(id);
        return;
      }
      var reason := FailReason(code.value);
      if reason.Some? {
        FailAndDetach(id, reason.value);
      }
    }

    method OnOpened(id: DeviceId)
      requires id in sessions
      modifies this
      ensures Current() == Connections.Dispatch(NotSending(old(Current()), id), id, OPEN)
    {
      sessions := sessions[id := sessions[id].(sending := false)];
      var _ := Dispatch(id, OPEN);
    }

    method OnClosed(id: DeviceId)
      requires id in sessions
      modifies this
      ensures Current() == Connections.OnClosed(old(Current()), id)
    {
      sessions := sessions[id := sessions[id].(sending := false)];
      if !sessions[id].state.Idle? {
        var n := Dispatch(id, CLOSE);
        if n.Reconnecting? {
          ScheduleRetry(id, n.retries);
        }
      }
    }

    /** The listeners of a transport, behind their common guard. */
    method OnSignal(t: TransportId, signal: Signal)
      requires Valid()
      modifies this
      ensures Valid() && Current() == Connections.OnSignal(old(Current()), t, signal)
    {
      SignalKeepsSound(Current(), t, signal);
      if t !in listeners || listeners[t] !in sessions || sessions[listeners[t]].transport != Some(t) {
        return;
      }
      var id := listeners[t];
      match signal
      case Opened => OnOpened(id);
      case Ack =>
        sessions := sessions[id := sessions[id].(sending := false)];
      case TokenIssued(token) =>
        tokens := tokens[id := token];
        sessions := sessions[id := sessions[id].(lastAuth := Some(Token(token)))];
      case ErrorMessage(code) =>
        if code in AUTH_CODES {
          TriggerAuthFallback(id);
        }
      case Closed => OnClosed(id);
      case Error(code) => OnError(id, code);
    }

    /** A fresh session in place of whatever there was, and its first transport. */
    method StartSession(id: DeviceId)
      modifies this
      ensures var closed := Connections.CloseTransport(old(Current()), id);
              Current() ==
              match StoredAuth(closed.tokens, closed.codes, id)
              case None => closed.(sessions := closed.sessions[id := NEW_SESSION.(state := Offline(AuthFailed))])
              case Some(auth) =>
                Connections.OpenTransport(closed.(sessions := closed.sessions[id := NEW_SESSION]), id, auth)
    {
      CloseTransport(id);
      sessions := sessions[id := NEW_SESSION];
      var auth := StoredAuth(tokens, codes, id);
      if auth.None? {
        sessions := sessions[id := sessions[id].(state := Offline(AuthFailed))];
        return;
      }
      OpenTransport(id, auth.value);
    }

    method ConnectDevice(id: DeviceId)
      requires Valid()
      modifies this
      ensures Valid() && Current() == Connections.ConnectDevice(old(Current()), id)
    {
      StepKeepsSound(Current(), Connect(id));
      if id in sessions && (sessions[id].state.Connecting? || sessions[id].state.Connected?) {
        return;
      }
      StartSession(id);
    }

    method DisconnectDevice(id: DeviceId)
      requires Valid()
      modifies this
      ensures Valid() && Current() == Connections.DisconnectDevice(old(Current()), id)
    {
      StepKeepsSound(Current(), Disconnect(id));
      if id in sessions {
        sessions := sessions - {id};
        tokens := tokens - {id};
        codes := codes - {id};
      }
    }

    method RetryDevice(id: DeviceId)
      requires Valid()
      modifies this
      ensures Valid() && Current() == Connections.RetryDevice(old(Current()), id)
    {
      StepKeepsSound(Current(), Retry(id));
      if id !in sessions {
        return;
      }
      sessions := sessions[id := sessions[id].(retryTimer := None)];
      var _ := Dispatch(id, CONNECT);
      var auth := sessions[id].lastAuth;
      if auth.None? {
        auth := StoredAuth(tokens, codes, id);
      }
      if auth.Some? {
        OpenTransport(id, auth.value);
      } else {
        var _ := Dispatch(id, FAIL(AuthFailed));
      }
    }

    /** A session removed meanwhile, or without a credential, is left alone. */
    method TimerFires(id: DeviceId)
      requires Valid()
      modifies this
      ensures Valid() && Current() == Connections.TimerFires(old(Current()), id)
    {
      TimerKeepsSound(Current(), id);
      if id in sessions && sessions[id].retryTimer.Some? {
        sessions := sessions[id := sessions[id].(retryTimer := None)];
        if sessions[id].lastAuth.Some? {
          OpenTransport(id, sessions[id].lastAuth.value);
        }
      }
    }

    /** `open` is the state of the channel, `sent` what the transport's own send returns. */
    method SendToDevice(id: DeviceId, open: bool, sent: bool) returns (ok: bool)
      requires Valid()
      modifies this
      ensures Valid() && Current() == Send(old(Current()), id, open)
      ensures ok == (sent && old(CanSend(Current(), id, open)))
    {
      if id !in sessions || sessions[id].transport.None? || !open || !sessions[id].state.Connected? ||
        sessions[id].sending {
        return false;
      }
      sessions := sessions[id := sessions[id].(sending := true)];
      return sent;
    }
  }
}
