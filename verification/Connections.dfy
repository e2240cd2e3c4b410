/**
  The phone's connection manager: one session per device, each with at most one current
  transport, a retry timer and the credential in use. Transports report through listeners; a
  listener is removed when its transport is closed by the manager, and ignores its transport
  once that is not the session's current one.
 */
module Connections {
  import opened Wrappers
  import opened ConnectionMachine

  type DeviceId = nat
  type TransportId = nat

  datatype Auth = Token(token: string) | Code(code: string)

  /** `retryTimer` is the delay of a pending timer. */
  datatype Session = Session(state: ConnectionState, transport: Option<TransportId>, sending: bool,
                             lastAuth: Option<Auth>, retryTimer: Option<nat>)

  /** What a transport reports: its channel opened, a message, its close, an error with or without a code. */
  datatype Signal =
    | Opened
    | Ack
    | TokenIssued(token: string)
    | ErrorMessage(message: string)
    | Closed
    | Error(code: Option<string>)

  const AUTH_CODES := {"INVALID_CREDENTIAL", "INVALID_TOKEN", "UNAUTHORIZED"}

  function FailReason(code: string): Option<OfflineReason> {
    if code == "DESKTOP_OFFLINE" then Some(DesktopOffline)
    else if code == "CONNECTION_TIMEOUT" then Some(TimedOut)
    else if code == "DEVICE_NOT_FOUND" then Some(Unreachable)
    else if code == "RATE_LIMITED" then Some(TimedOut)
    else None
  }

  /** A failure fed to the reducer of a device. */
  datatype Fed = Fed(device: DeviceId, event: ConnectionEvent)

  /** `tokens` and `codes` are the phone's storage; `fed` is the history of failures fed to reducers. */
  datatype Hook = Hook(sessions: map<DeviceId, Session>, listeners: map<TransportId, DeviceId>, next: TransportId,
                       tokens: map<DeviceId, string>, codes: map<DeviceId, string>, fed: seq<Fed>)

  /** An empty stored string counts as absent. */
  function Stored(m: map<DeviceId, string>, id: DeviceId): Option<string> {
    if id in m && m[id] != "" then Some(m[id]) else None
  }

  function StoredAuth(tokens: map<DeviceId, string>, codes: map<DeviceId, string>, id: DeviceId): Option<Auth> {
    match Stored(tokens, id)
    case Some(token) => Some(Token(token))
    case None =>
      match Stored(codes, id)
      case Some(code) => Some(Code(code))
      case None => None
  }

  function Dispatch(h: Hook, id: DeviceId, event: ConnectionEvent): Hook {
    if id !in h.sessions then h
    else
      h.(sessions := h.sessions[id := h.sessions[id].(state := Reduce(h.sessions[id].state, event))],
         fed := if Failure(event) then h.fed + [Fed(id, event)] else h.fed)
  }

  function CloseTransport(h: Hook, id: DeviceId): Hook {
    if id !in h.sessions || h.sessions[id].transport.None? then h
    else
      h.(sessions := h.sessions[id := h.sessions[id].(transport := None)],
         listeners := h.listeners - {h.sessions[id].transport.value})
  }

  function OpenTransport(h: Hook, id: DeviceId, auth: Auth): Hook {
    if id !in h.sessions then h
    else
      var g := Dispatch(CloseTransport(h, id), id, CONNECT);
      g.(sessions := g.sessions[id := g.sessions[id].(transport := Some(g.next), lastAuth := Some(auth))],
         listeners := g.listeners[g.next := id], next := g.next + 1)
  }

  /** Arms the timer when the last event left the session reconnecting. */
  function ScheduleIfReconnecting(h: Hook, id: DeviceId): Hook {
    if id in h.sessions && h.sessions[id].state.Reconnecting?
    then
      var s := h.sessions[id];
      h.(sessions := h.sessions[id := s.(retryTimer := Some(NextReconnectDelay(s.state.retries)))])
    else h
  }

  /** Counts the failure, arms the timer if retries remain, and drops the transport before its close arrives. */
  function FailAndDetach(h: Hook, id: DeviceId, reason: OfflineReason): Hook {
    CloseTransport(ScheduleIfReconnecting(Dispatch(h, id, FAIL(reason)), id), id)
  }

  /** The rejected credential was the token, and there is a pairing code to fall back to. */
  predicate CanFallBack(h: Hook, id: DeviceId) {
    && id in h.sessions
    && h.sessions[id].lastAuth.Some? && h.sessions[id].lastAuth.value.Token?
    && Stored(h.codes, id).Some?
  }

  function TriggerAuthFallback(h: Hook, id: DeviceId): Hook {
    if CanFallBack(h, id) then
      var auth := Code(Stored(h.codes, id).value);
      var g := h.(sessions := h.sessions[id := h.sessions[id].(lastAuth := Some(auth))]);
      OpenTransport(Dispatch(g, id, CONNECT), id, auth)
    else FailAndDetach(h, id, AuthFailed)
  }

  predicate Current(h: Hook, t: TransportId) {
    && t in h.listeners
    && h.listeners[t] in h.sessions
    && h.sessions[h.listeners[t]].transport == Some(t)
  }

  function NotSending(h: Hook, id: DeviceId): Hook
    requires id in h.sessions
  {
    h.(sessions := h.sessions[id := h.sessions[id].(sending := false)])
  }

  function OnClosed(h: Hook, id: DeviceId): Hook
    requires id in h.sessions
  {
    var g := NotSending(h, id);
    if g.sessions[id].state.Idle? then g else ScheduleIfReconnecting(Dispatch(g, id, CLOSE), id)
  }

  function OnError(h: Hook, id: DeviceId, code: Option<string>): Hook {
    if code.None? || code.value == "" then h
    else if code.value in AUTH_CODES then TriggerAuthFallback(h, id)
    else
      match FailReason(code.value)
      case None => h
      case Some(reason) => FailAndDetach(h, id, reason)
  }

  function OnSignal(h: Hook, t: TransportId, signal: Signal): Hook {
    if !Current(h, t) then h
    else
      var id := h.listeners[t];
      match signal
      case Opened => Dispatch(NotSending(h, id), id, OPEN)
      case Ack => NotSending(h, id)
      case TokenIssued(token) =>
        h.(tokens := h.tokens[id := token],
           sessions := h.sessions[id := h.sessions[id].(lastAuth := Some(Token(token)))])
      case ErrorMessage(code) => if code in AUTH_CODES then TriggerAuthFallback(h, id) else h
      case Closed => OnClosed(h, id)
      case Error(code) => OnError(h, id, code)
  }

  const NEW_SESSION := Session(Connecting(0), None, false, None, None)

  function ConnectDevice(h: Hook, id: DeviceId): Hook {
    if id in h.sessions && (h.sessions[id].state.Connecting? || h.sessions[id].state.Connected?) then h
    else
      var closed := CloseTransport(h, id);
      match StoredAuth(h.tokens, h.codes, id)
      case None => closed.(sessions := closed.sessions[id := NEW_SESSION.(state := Offline(AuthFailed))])
      case Some(auth) => OpenTransport(closed.(sessions := closed.sessions[id := NEW_SESSION]), id, auth)
  }

  /** The listener of the transport stays behind; only its session is gone. */
  function DisconnectDevice(h: Hook, id: DeviceId): Hook {
    if id !in h.sessions then h
    else h.(sessions := h.sessions - {id}, tokens := h.tokens - {id}, codes := h.codes - {id})
  }

  function RetryDevice(h: Hook, id: DeviceId): Hook {
    if id !in h.sessions then h
    else
      var g := Dispatch(h.(sessions := h.sessions[id := h.sessions[id].(retryTimer := None)]), id, CONNECT);
      var auth := if g.sessions[id].lastAuth.Some? then g.sessions[id].lastAuth else StoredAuth(g.tokens, g.codes, id);
      if auth.Some? then OpenTransport(g, id, auth.value) else Dispatch(g, id, FAIL(AuthFailed))
  }

  function TimerFires(h: Hook, id: DeviceId): Hook {
    if id !in h.sessions || h.sessions[id].retryTimer.None? then h
    else
      var g := h.(sessions := h.sessions[id := h.sessions[id].(retryTimer := None)]);
      if g.sessions[id].lastAuth.None? then g else OpenTransport(g, id, g.sessions[id].lastAuth.value)
  }

  /** `open` is what the transport says of its channel. */
  predicate CanSend(h: Hook, id: DeviceId, open: bool) {
    && id in h.sessions && h.sessions[id].transport.Some? && open
    && h.sessions[id].state.Connected? && !h.sessions[id].sending
  }

  function Send(h: Hook, id: DeviceId, open: bool): Hook {
    if CanSend(h, id, open) then h.(sessions := h.sessions[id := h.sessions[id].(sending := true)]) else h
  }

  /** Coming to the foreground is a number of retries; scanning a code stores it. */
  datatype Event =
    | Connect(id: DeviceId)
    | Disconnect(id: DeviceId)
    | Retry(id: DeviceId)
    | Timer(id: DeviceId)
    | Report(t: TransportId, signal: Signal)
    | SendText(id: DeviceId, open: bool)
    | StoreCode(id: DeviceId, code: string)

  function Step(h: Hook, e: Event): Hook {
    match e
    case Connect(id) => ConnectDevice(h, id)
    case Disconnect(id) => DisconnectDevice(h, id)
    case Retry(id) => RetryDevice(h, id)
    case Timer(id) => TimerFires(h, id)
    case Report(t, signal) => OnSignal(h, t, signal)
    case SendText(id, open) => Send(h, id, open)
    case StoreCode(id, code) => h.(codes := h.codes[id := code])
  }

  function Initial(tokens: map<DeviceId, string>, codes: map<DeviceId, string>): Hook {
    Hook(map[], map[], 0, tokens, codes, [])
  }

  function After(h: Hook, run: seq<Event>): Hook {
    if run == [] then h else Step(After(h, run[..|run|-1]), run[|run|-1])
  }

  /** Every session's transport has its listener, pointing back at that session; ids are never reused. */
  ghost predicate Wired(h: Hook) {
    && (forall id :: id in h.sessions && h.sessions[id].transport.Some? ==>
          h.sessions[id].transport.value in h.listeners && h.listeners[h.sessions[id].transport.value] == id)
    && (forall t :: t in h.listeners ==> t < h.next)
  }

  /** No transport that is not current becomes current again, and the wiring is kept. */
  ghost predicate Evolves(h: Hook, g: Hook) {
    && Wired(g)
    && h.next <= g.next
    && forall t: TransportId :: t < h.next && !Current(h, t) ==> !Current(g, t)
  }

  // The net effect of the compound operations.

  /** The listeners without that of the session's transport. */
  function Unlistened(h: Hook, s: Session): map<TransportId, DeviceId> {
    if s.transport.Some? then h.listeners - {s.transport.value} else h.listeners
  }

  lemma OpenTransportEffect(h: Hook, id: DeviceId, auth: Auth)
    requires id in h.sessions
    ensures var s := h.sessions[id];
            OpenTransport(h, id, auth) ==
            h.(sessions := h.sessions[id := s.(state := Reduce(s.state, CONNECT), transport := Some(h.next),
                                               lastAuth := Some(auth))],
               listeners := Unlistened(h, s)[h.next := id],
               next := h.next + 1)
  {
  }

  function RetryTimerAfter(s: Session, state: ConnectionState): Option<nat> {
    if state.Reconnecting? then Some(NextReconnectDelay(state.retries)) else s.retryTimer
  }

  lemma FailAndDetachEffect(h: Hook, id: DeviceId, reason: OfflineReason)
    requires id in h.sessions
    ensures var s := h.sessions[id]; var state := Reduce(s.state, FAIL(reason));
            FailAndDetach(h, id, reason) ==
            h.(sessions := h.sessions[id := s.(state := state, transport := None,
                                               retryTimer := RetryTimerAfter(s, state))],
               listeners := Unlistened(h, s),
               fed := h.fed + [Fed(id, FAIL(reason))])
  {
  }

  lemma ClosedEffect(h: Hook, id: DeviceId)
    requires id in h.sessions && !h.sessions[id].state.Idle?
    ensures var s := h.sessions[id]; var state := Reduce(s.state, CLOSE);
            OnClosed(h, id) ==
            h.(sessions := h.sessions[id := s.(state := state, sending := false,
                                               retryTimer := RetryTimerAfter(s, state))],
               fed := h.fed + [Fed(id, CLOSE)])
  {
  }

  lemma FallbackEffect(h: Hook, id: DeviceId)
    requires CanFallBack(h, id)
    ensures var s := h.sessions[id];
            TriggerAuthFallback(h, id) ==
            h.(sessions := h.sessions[id := s.(state := Reduce(s.state, CONNECT), transport := Some(h.next),
                                               lastAuth := Some(Code(Stored(h.codes, id).value)))],
               listeners := Unlistened(h, s)[h.next := id],
               next := h.next + 1)
  {
    var s := h.sessions[id];
    var auth := Code(Stored(h.codes, id).value);
    var g := Dispatch(h.(sessions := h.sessions[id := s.(lastAuth := Some(auth))]), id, CONNECT);
    OpenTransportEffect(g, id, auth);
    assert Reduce(Reduce(s.state, CONNECT), CONNECT) == Reduce(s.state, CONNECT);
  }

  lemma OpenEvolves(h: Hook, id: DeviceId, auth: Auth)
    requires Wired(h) && id in h.sessions
    ensures Evolves(h, OpenTransport(h, id, auth))
  {
    OpenTransportEffect(h, id, auth);
  }

  lemma FallbackEvolves(h: Hook, id: DeviceId)
    requires Wired(h) && id in h.sessions
    ensures Evolves(h, TriggerAuthFallback(h, id))
  {
    if CanFallBack(h, id) {
      FallbackEffect(h, id);
    } else {
      FailAndDetachEffect(h, id, AuthFailed);
    }
  }

  lemma ErrorEvolves(h: Hook, id: DeviceId, code: Option<string>)
    requires Wired(h) && id in h.sessions
    ensures Evolves(h, OnError(h, id, code))
  {
    if code.Some? && code.value != "" {
      if code.value in AUTH_CODES {
        FallbackEvolves(h, id);
      } else if FailReason(code.value).Some? {
        FailAndDetachEffect(h, id, FailReason(code.value).value);
      }
    }
  }

  lemma ClosedEvolves(h: Hook, id: DeviceId)
    requires Wired(h) && id in h.sessions
    ensures Evolves(h, OnClosed(h, id))
  {
    if !h.sessions[id].state.Idle? {
      ClosedEffect(h, id);
    }
  }

  lemma SignalEvolves(h: Hook, t: TransportId, signal: Signal)
    requires Wired(h)
    ensures Evolves(h, OnSignal(h, t, signal))
  {
    if Current(h, t) {
      var id := h.listeners[t];
      match signal
      case ErrorMessage(_) => FallbackEvolves(h, id);
      case Closed => ClosedEvolves(h, id);
      case Error(code) => ErrorEvolves(h, id, code);
      case _ =>
    }
  }

  lemma CloseEvolves(h: Hook, id: DeviceId)
    requires Wired(h)
    ensures Evolves(h, CloseTransport(h, id))
    ensures id in h.sessions ==> CloseTransport(h, id).sessions[id].transport.None?
  {
  }

  lemma EvolvesTransitive(f: Hook, g: Hook, h: Hook)
    requires Evolves(f, g) && Evolves(g, h)
    ensures Evolves(f, h)
  {
  }

  lemma ConnectEvolves(h: Hook, id: DeviceId)
    requires Wired(h)
    ensures Evolves(h, ConnectDevice(h, id))
  {
    var closed := CloseTransport(h, id);
    CloseEvolves(h, id);
    var g := closed.(sessions := closed.sessions[id := NEW_SESSION]);
    assert Evolves(closed, g);
    EvolvesTransitive(h, closed, g);
    var auth := StoredAuth(h.tokens, h.codes, id);
    if auth.Some? {
      OpenEvolves(g, id, auth.value);
      EvolvesTransitive(h, g, OpenTransport(g, id, auth.value));
    }
  }

  lemma RetryEvolves(h: Hook, id: DeviceId)
    requires Wired(h)
    ensures Evolves(h, RetryDevice(h, id)) && Evolves(h, TimerFires(h, id))
  {
    if id in h.sessions {
      var f := h.(sessions := h.sessions[id := h.sessions[id].(retryTimer := None)]);
      assert Evolves(h, f);
      var g := Dispatch(f, id, CONNECT);
      assert Evolves(h, g);
      var auth := if g.sessions[id].lastAuth.Some? then g.sessions[id].lastAuth else StoredAuth(g.tokens, g.codes, id);
      if auth.Some? {
        OpenEvolves(g, id, auth.value);
        EvolvesTransitive(h, g, OpenTransport(g, id, auth.value));
      }
      if f.sessions[id].lastAuth.Some? {
        OpenEvolves(f, id, f.sessions[id].lastAuth.value);
        EvolvesTransitive(h, f, OpenTransport(f, id, f.sessions[id].lastAuth.value));
      }
    }
  }

  lemma StepEvolves(h: Hook, e: Event)
    requires Wired(h)
    ensures Evolves(h, Step(h, e))
  {
    match e
    case Connect(id) => ConnectEvolves(h, id);
    case Disconnect(id) =>
    case Retry(id) => RetryEvolves(h, id);
    case Timer(id) => RetryEvolves(h, id);
    case Report(t, signal) => SignalEvolves(h, t, signal);
    case SendText(id, open) =>
    case StoreCode(id, code) =>
  }

  lemma AfterOneMore(h: Hook, run: seq<Event>, n: nat)
    requires n < |run|
    ensures After(h, run[..n+1]) == Step(After(h, run[..n]), run[n])
  {
    assert run[..n+1][..n] == run[..n];
  }

  lemma AfterStep(h: Hook, run: seq<Event>, e: Event)
    ensures After(h, run + [e]) == Step(After(h, run), e)
  {
    assert (run + [e])[..|run|] == run;
  }

  lemma {:induction false} RunsStayWired(h: Hook, run: seq<Event>, n: nat)
    requires Wired(h) && n <= |run|
    ensures Wired(After(h, run[..n]))
  {
    if n > 0 {
      RunsStayWired(h, run, n - 1);
      AfterOneMore(h, run, n - 1);
      StepEvolves(After(h, run[..n-1]), run[n-1]);
    }
  }

  lemma EvolvesOneMore(f: Hook, g: Hook, e: Event)
    requires Evolves(f, g)
    ensures Evolves(f, Step(g, e))
  {
    StepEvolves(g, e);
    EvolvesTransitive(f, g, Step(g, e));
  }

  lemma {:induction false} RunsEvolve(h: Hook, run: seq<Event>, n: nat, m: nat)
    requires Wired(h) && n <= m <= |run|
    ensures Wired(After(h, run[..n])) && Evolves(After(h, run[..n]), After(h, run[..m]))
  {
    RunsStayWired(h, run, n);
    for k := n to m
      invariant Evolves(After(h, run[..n]), After(h, run[..k]))
    {
      AfterOneMore(h, run, k);
      EvolvesOneMore(After(h, run[..n]), After(h, run[..k]), run[k]);
    }
  }

  /**
    Stale-event immunity over whole runs: a transport that has been opened and is not current at
    some point of a run never becomes current again, and nothing it reports later changes anything.
   */
  lemma {:induction false} StaleTransportsAreInert(h: Hook, run: seq<Event>, n: nat, m: nat,
                                                   t: TransportId, signal: Signal)
    requires Wired(h) && n <= m <= |run|
    requires t < After(h, run[..n]).next && !Current(After(h, run[..n]), t)
    ensures !Current(After(h, run[..m]), t)
    ensures Step(After(h, run[..m]), Report(t, signal)) == After(h, run[..m])
  {
    RunsEvolve(h, run, n, m);
  }

  /** A session has at most one current transport, and no two sessions share one. */
  lemma {:induction false} OneCurrentTransport(h: Hook, run: seq<Event>, id: DeviceId, other: DeviceId, t: TransportId)
    requires Wired(h) && id in After(h, run).sessions && other in After(h, run).sessions
    requires After(h, run).sessions[id].transport == After(h, run).sessions[other].transport == Some(t)
    ensures id == other && Current(After(h, run), t)
  {
    RunsEvolve(h, run, |run|, |run|);
    assert run[..|run|] == run;
  }

  // ----- never stuck -----

  /**
    While connecting a transport is at work, while reconnecting a timer is pending exactly if the session
    has ever held a credential, with the delay of the retries used up, without one there is neither, and
    the retries stay in budget.
   */
  ghost predicate Alive(s: Session) {
    && !s.state.Idle?
    && WithinBudget(s.state)
    && (s.state.Connecting? ==> s.transport.Some?)
    && (s.state.Reconnecting? ==> (s.retryTimer.Some? <==> s.lastAuth.Some?))
    && (s.state.Reconnecting? && s.retryTimer.Some? ==> s.retryTimer.value == NextReconnectDelay(s.state.retries))
    && (s.lastAuth.None? ==> s.transport.None? && s.retryTimer.None?)
  }

  ghost predicate NeverStuck(h: Hook) {
    forall id :: id in h.sessions ==> Alive(h.sessions[id])
  }

  /** Every session but one is untouched. */
  ghost predicate OnlyTouches(h: Hook, g: Hook, id: DeviceId) {
    g.sessions.Keys <= h.sessions.Keys + {id} &&
    forall d :: d in g.sessions && d != id ==> d in h.sessions && g.sessions[d] == h.sessions[d]
  }

  lemma FallbackNeverStuck(h: Hook, id: DeviceId)
    requires NeverStuck(h) && id in h.sessions && h.sessions[id].transport.Some?
    ensures NeverStuck(TriggerAuthFallback(h, id))
  {
    assert Alive(h.sessions[id]);
    if CanFallBack(h, id) {
      FallbackEffect(h, id);
    } else {
      FailAndDetachEffect(h, id, AuthFailed);
    }
  }

  lemma ErrorNeverStuck(h: Hook, id: DeviceId, code: Option<string>)
    requires NeverStuck(h) && id in h.sessions && h.sessions[id].transport.Some?
    ensures NeverStuck(OnError(h, id, code))
  {
    if code.Some? && code.value != "" {
      if code.value in AUTH_CODES {
        FallbackNeverStuck(h, id);
      } else if FailReason(code.value).Some? {
        assert Alive(h.sessions[id]);
        FailAndDetachEffect(h, id, FailReason(code.value).value);
      }
    }
  }

  lemma ClosedNeverStuck(h: Hook, id: DeviceId)
    requires NeverStuck(h) && id in h.sessions && h.sessions[id].transport.Some?
    ensures NeverStuck(OnClosed(h, id))
  {
    assert Alive(h.sessions[id]);
    ClosedEffect(h, id);
  }

  lemma SignalNeverStuck(h: Hook, t: TransportId, signal: Signal)
    requires NeverStuck(h)
    ensures NeverStuck(OnSignal(h, t, signal))
  {
    if Current(h, t) {
      var id := h.listeners[t];
      match signal
      case ErrorMessage(_) => FallbackNeverStuck(h, id);
      case Closed => ClosedNeverStuck(h, id);
      case Error(code) => ErrorNeverStuck(h, id, code);
      case _ =>
    }
  }

  lemma ConnectNeverStuck(h: Hook, id: DeviceId)
    requires NeverStuck(h)
    ensures NeverStuck(ConnectDevice(h, id))
  {
    var closed := CloseTransport(h, id);
    var g := closed.(sessions := closed.sessions[id := NEW_SESSION]);
    assert OnlyTouches(h, g, id);
    var auth := StoredAuth(h.tokens, h.codes, id);
    if auth.Some? {
      OpenTransportEffect(g, id, auth.value);
    }
  }

  lemma TouchedAlive(h: Hook, g: Hook, id: DeviceId)
    requires NeverStuck(h) && OnlyTouches(h, g, id) && (id in g.sessions ==> Alive(g.sessions[id]))
    ensures NeverStuck(g)
  {
  }

  lemma ReopenAlive(h: Hook, id: DeviceId, auth: Auth)
    requires id in h.sessions && WithinBudget(h.sessions[id].state) && !h.sessions[id].state.Idle?
    ensures var g := OpenTransport(h, id, auth);
            OnlyTouches(h, g, id) && id in g.sessions && Alive(g.sessions[id])
  {
    OpenTransportEffect(h, id, auth);
  }

  lemma RetryNeverStuck(h: Hook, id: DeviceId)
    requires NeverStuck(h)
    ensures NeverStuck(RetryDevice(h, id))
  {
    if id in h.sessions {
      assert Alive(h.sessions[id]);
      var f := h.(sessions := h.sessions[id := h.sessions[id].(retryTimer := None)]);
      var g := Dispatch(f, id, CONNECT);
      assert OnlyTouches(h, g, id);
      var auth := if g.sessions[id].lastAuth.Some? then g.sessions[id].lastAuth else StoredAuth(g.tokens, g.codes, id);
      if auth.Some? {
        ReopenAlive(g, id, auth.value);
      }
      TouchedAlive(h, RetryDevice(h, id), id);
    }
  }

  lemma TimerNeverStuck(h: Hook, id: DeviceId)
    requires NeverStuck(h)
    ensures NeverStuck(TimerFires(h, id))
  {
    if id in h.sessions && h.sessions[id].retryTimer.Some? {
      assert Alive(h.sessions[id]);
      var f := h.(sessions := h.sessions[id := h.sessions[id].(retryTimer := None)]);
      assert OnlyTouches(h, f, id);
      if f.sessions[id].lastAuth.Some? {
        OpenTransportEffect(f, id, f.sessions[id].lastAuth.value);
      }
    }
  }

  lemma StepNeverStuck(h: Hook, e: Event)
    requires NeverStuck(h)
    ensures NeverStuck(Step(h, e))
  {
    match e
    case Connect(id) => ConnectNeverStuck(h, id);
    case Disconnect(id) =>
    case Retry(id) => RetryNeverStuck(h, id);
    case Timer(id) => TimerNeverStuck(h, id);
    case Report(t, signal) => SignalNeverStuck(h, t, signal);
    case SendText(id, open) =>
    case StoreCode(id, code) =>
  }

  /** Over every run from an empty phone, with any stored credentials. */
  lemma {:induction false} SessionsNeverStuck(h: Hook, run: seq<Event>)
    requires h.sessions == map[]
    ensures NeverStuck(After(h, run))
  {
    if run != [] {
      SessionsNeverStuck(h, run[..|run|-1]);
      StepNeverStuck(After(h, run[..|run|-1]), run[|run|-1]);
    }
  }
}
