/**
  What the connection manager is for: a transport that opens connects its session, text goes out one
  message at a time, credentials are chosen, kept and forgotten, and errors turn into reasons.
 */
module ConnectionUse {
  import opened Wrappers
  import opened ConnectionMachine
  import opened Connections
  import opened ConnectionFailures

  // ----- connecting -----

  /** The current transport opens: its session is connected over it, and the next text goes out. */
  lemma {:induction false} OpeningConnects(h: Hook, t: TransportId)
    requires Wired(h) && NeverStuck(h) && Current(h, t)
    requires h.sessions[h.listeners[t]].state.Connecting? || h.sessions[h.listeners[t]].state.Reconnecting?
    ensures var id := h.listeners[t]; var g := Step(h, Report(t, Opened));
            && id in g.sessions && g.sessions[id].state.Connected?
            && g.sessions[id].transport == Some(t) && !g.sessions[id].sending && Current(g, t)
            && CanSend(g, id, true) && Step(g, SendText(id, true)).sessions[id].sending
            && !CanSend(Step(g, SendText(id, true)), id, true)
  {
  }

  /** A phone that scans a code, connects and sees its channel open can send. */
  lemma {:induction false} FirstConnection() returns (run: seq<Event>)
    ensures run == PAIRED + [Report(0, Opened)]
    ensures var g := After(PHONE, run);
            && 7 in g.sessions && g.sessions[7].state.Connected?
            && g.sessions[7].transport == Some(0) && CanSend(g, 7, true)
  {
    run := PAIRED + [Report(0, Opened)];
    PairedPhone();
    AfterStep(PHONE, PAIRED, Report(0, Opened));
    OpeningConnects(After(PHONE, PAIRED), 0);
  }

  // ----- one message at a time -----

  predicate Releases(signal: Signal) {
    signal.Opened? || signal.Ack? || signal.Closed?
  }

  /** The message sent last is still waiting: nothing released the lock since, and the session was not replaced. */
  predicate Waiting(h: Hook, run: seq<Event>, id: DeviceId) {
    run != [] &&
    var init, e := run[..|run|-1], run[|run|-1];
    var g := After(h, init);
    match e
    case SendText(d, open) => Waiting(h, init, id) || (d == id && CanSend(g, id, open))
    case Report(t, signal) => Waiting(h, init, id) && !(Current(g, t) && g.listeners[t] == id && Releases(signal))
    case Connect(d) =>
      Waiting(h, init, id) &&
      (d != id || (id in g.sessions && (g.sessions[id].state.Connecting? || g.sessions[id].state.Connected?)))
    case Disconnect(d) => Waiting(h, init, id) && d != id
    case _ => Waiting(h, init, id)
  }

  /** The same sessions, with the same locks. */
  predicate SameLocks(h: Hook, g: Hook) {
    g.sessions.Keys == h.sessions.Keys && forall d :: d in h.sessions ==> g.sessions[d].sending == h.sessions[d].sending
  }

  lemma OpenTransportKeepsLock(h: Hook, id: DeviceId, auth: Auth)
    requires id in h.sessions
    ensures SameLocks(h, OpenTransport(h, id, auth))
  {
    OpenTransportEffect(h, id, auth);
  }

  lemma FailureKeepsLock(h: Hook, id: DeviceId, reason: OfflineReason)
    requires id in h.sessions
    ensures SameLocks(h, FailAndDetach(h, id, reason))
  {
    FailAndDetachEffect(h, id, reason);
  }

  lemma FallbackKeepsLock(h: Hook, id: DeviceId)
    requires id in h.sessions
    ensures SameLocks(h, TriggerAuthFallback(h, id))
  {
    if CanFallBack(h, id) {
      FallbackEffect(h, id);
    } else {
      FailureKeepsLock(h, id, AuthFailed);
    }
  }

  lemma ErrorKeepsLock(h: Hook, id: DeviceId, code: Option<string>)
    requires id in h.sessions
    ensures SameLocks(h, OnError(h, id, code))
  {
    if IsAuthError(code) {
      FallbackKeepsLock(h, id);
    } else if Detaches(code) {
      FailureKeepsLock(h, id, FailReason(code.value).value);
    }
  }

  lemma ReportLock(h: Hook, t: TransportId, signal: Signal)
    requires NeverStuck(h)
    ensures var g := OnSignal(h, t, signal);
            && g.sessions.Keys == h.sessions.Keys
            && forall d :: d in h.sessions ==>
                 g.sessions[d].sending ==
                 (h.sessions[d].sending && !(Current(h, t) && h.listeners[t] == d && Releases(signal)))
  {
    if Current(h, t) {
      var id := h.listeners[t];
      assert Alive(h.sessions[id]);
      match signal
      case ErrorMessage(_) => FallbackKeepsLock(h, id);
      case Error(code) => ErrorKeepsLock(h, id, code);
      case Closed => ClosedEffect(h, id);
      case _ =>
    }
  }

  lemma LocksTransitive(f: Hook, g: Hook, h: Hook)
    requires SameLocks(f, g) && SameLocks(g, h)
    ensures SameLocks(f, h)
  {
  }

  lemma RetryKeepsLock(h: Hook, id: DeviceId)
    ensures SameLocks(h, RetryDevice(h, id))
  {
    if id in h.sessions {
      var g := Dispatch(h.(sessions := h.sessions[id := h.sessions[id].(retryTimer := None)]), id, CONNECT);
      assert SameLocks(h, g);
      var auth := if g.sessions[id].lastAuth.Some? then g.sessions[id].lastAuth else StoredAuth(g.tokens, g.codes, id);
      if auth.Some? {
        OpenTransportKeepsLock(g, id, auth.value);
        LocksTransitive(h, g, OpenTransport(g, id, auth.value));
      }
    }
  }

  lemma TimerKeepsLock(h: Hook, id: DeviceId)
    ensures SameLocks(h, TimerFires(h, id))
  {
    if id in h.sessions {
      var g := h.(sessions := h.sessions[id := h.sessions[id].(retryTimer := None)]);
      assert SameLocks(h, g);
      if g.sessions[id].lastAuth.Some? {
        OpenTransportKeepsLock(g, id, g.sessions[id].lastAuth.value);
        LocksTransitive(h, g, OpenTransport(g, id, g.sessions[id].lastAuth.value));
      }
    }
  }

  lemma ConnectLock(h: Hook, id: DeviceId)
    requires !(id in h.sessions && (h.sessions[id].state.Connecting? || h.sessions[id].state.Connected?))
    ensures var g := ConnectDevice(h, id);
            && g.sessions.Keys == h.sessions.Keys + {id} && !g.sessions[id].sending
            && forall d :: d in h.sessions && d != id ==> g.sessions[d].sending == h.sessions[d].sending
  {
    var closed := CloseTransport(h, id);
    var auth := StoredAuth(h.tokens, h.codes, id);
    if auth.Some? {
      OpenTransportKeepsLock(closed.(sessions := closed.sessions[id := NEW_SESSION]), id, auth.value);
    }
  }

  /** In every run a session's sending lock is held exactly while its last message is waiting. */
  lemma {:induction false} LockExactly(h: Hook, run: seq<Event>, id: DeviceId)
    requires h.sessions == map[]
    ensures Waiting(h, run, id) <==> id in After(h, run).sessions && After(h, run).sessions[id].sending
  {
    if run != [] {
      var init, e := run[..|run|-1], run[|run|-1];
      var g := After(h, init);
      LockExactly(h, init, id);
      SessionsNeverStuck(h, init);
      match e
      case Report(t, signal) => ReportLock(g, t, signal);
      case Retry(d) => RetryKeepsLock(g, d);
      case Timer(d) => TimerKeepsLock(g, d);
      case Connect(d) =>
        if !(d in g.sessions && (g.sessions[d].state.Connecting? || g.sessions[d].state.Connected?)) {
          ConnectLock(g, d);
        }
      case _ =>
    }
  }

  /** So a text is let through exactly on an open channel of a connected session with no message waiting. */
  lemma {:induction false} SendableExactly(h: Hook, run: seq<Event>, id: DeviceId, open: bool)
    requires h.sessions == map[]
    ensures var g := After(h, run);
            CanSend(g, id, open) <==>
            && open && id in g.sessions && g.sessions[id].state.Connected? && g.sessions[id].transport.Some?
            && !Waiting(h, run, id)
  {
    LockExactly(h, run, id);
  }

  // ----- credentials -----

  /** A tap on connect uses the stored token, else the stored code, else gives up at once. */
  lemma {:induction false} ConnectChooses(h: Hook, id: DeviceId)
    requires !(id in h.sessions && (h.sessions[id].state.Connecting? || h.sessions[id].state.Connected?))
    ensures var s := Step(h, Connect(id)).sessions;
            && id in s
            && (id in h.tokens && h.tokens[id] != "" ==>
                  s[id].lastAuth == Some(Token(h.tokens[id])) && s[id].transport == Some(h.next))
            && (!(id in h.tokens && h.tokens[id] != "") && id in h.codes && h.codes[id] != "" ==>
                  s[id].lastAuth == Some(Code(h.codes[id])) && s[id].transport == Some(h.next))
            && (!(id in h.tokens && h.tokens[id] != "") && !(id in h.codes && h.codes[id] != "") ==>
                  s[id] == Session(Offline(AuthFailed), None, false, None, None))
  {
  }

  /** A retry uses the credential in use, else the stored token, else the stored code. */
  lemma {:induction false} RetryChooses(h: Hook, id: DeviceId)
    requires id in h.sessions
    ensures var s, t := h.sessions[id], Step(h, Retry(id)).sessions;
            && id in t
            && (s.lastAuth.Some? ==> t[id].lastAuth == s.lastAuth && t[id].transport == Some(h.next))
            && (s.lastAuth.None? && id in h.tokens && h.tokens[id] != "" ==>
                  t[id].lastAuth == Some(Token(h.tokens[id])) && t[id].transport == Some(h.next))
            && (s.lastAuth.None? && !(id in h.tokens && h.tokens[id] != "") && id in h.codes && h.codes[id] != "" ==>
                  t[id].lastAuth == Some(Code(h.codes[id])) && t[id].transport == Some(h.next))
  {
    var g := Dispatch(h.(sessions := h.sessions[id := h.sessions[id].(retryTimer := None)]), id, CONNECT);
    var auth := if g.sessions[id].lastAuth.Some? then g.sessions[id].lastAuth else StoredAuth(g.tokens, g.codes, id);
    if auth.Some? {
      OpenTransportEffect(g, id, auth.value);
    }
  }

  /** A token the desktop issues is stored, and the next attempt uses it, by retry or by a new connection. */
  lemma {:induction false} IssuedTokenIsUsed(h: Hook, t: TransportId, token: string)
    requires Current(h, t) && token != ""
    ensures var id := h.listeners[t]; var g := Step(h, Report(t, TokenIssued(token)));
            && id in g.tokens && g.tokens[id] == token
            && id in g.sessions && g.sessions[id] == h.sessions[id].(lastAuth := Some(Token(token)))
            && RetryDevice(g, id).sessions[id].lastAuth == Some(Token(token))
            && RetryDevice(g, id).sessions[id].transport == Some(h.next)
  {
    var id := h.listeners[t];
    var g := Step(h, Report(t, TokenIssued(token)));
    var f := Dispatch(g.(sessions := g.sessions[id := g.sessions[id].(retryTimer := None)]), id, CONNECT);
    OpenTransportEffect(f, id, Token(token));
  }

  /** Removing a device forgets its credentials. */
  lemma {:induction false} RemovalForgets(h: Hook, id: DeviceId)
    requires id in h.sessions
    ensures var g := Step(h, Disconnect(id));
            && id !in g.sessions && id !in g.tokens && id !in g.codes
            && Step(g, Connect(id)).sessions[id] == Session(Offline(AuthFailed), None, false, None, None)
  {
    ConnectChooses(Step(h, Disconnect(id)), id);
  }

  // ----- reasons -----

  /** The reason that an error on the last attempt leaves; no other code has any effect. */
  function ReasonAfter(code: string): Option<OfflineReason> {
    match code
    case "DESKTOP_OFFLINE" => Some(DesktopOffline)
    case "CONNECTION_TIMEOUT" => Some(TimedOut)
    case "RATE_LIMITED" => Some(TimedOut)
    case "DEVICE_NOT_FOUND" => Some(Unreachable)
    case "INVALID_CREDENTIAL" => Some(AuthFailed)
    case "INVALID_TOKEN" => Some(AuthFailed)
    case "UNAUTHORIZED" => Some(AuthFailed)
    case _ => None
  }

  /** An error on the last attempt, with no credential to fall back to, decides what the user is told. */
  lemma {:induction false} ErrorDecidesReason(h: Hook, t: TransportId, code: string)
    requires Current(h, t) && h.sessions[h.listeners[t]].state == Connecting(5) && !CanFallBack(h, h.listeners[t])
    ensures var id := h.listeners[t]; var g := Step(h, Report(t, Error(Some(code))));
            && (ReasonAfter(code).Some? ==>
                  id in g.sessions && g.sessions[id].state == Offline(ReasonAfter(code).value) &&
                  g.sessions[id].transport.None?)
            && (ReasonAfter(code).None? ==> g == h)
  {
    var id := h.listeners[t];
    if ReasonAfter(code).Some? {
      FailAndDetachEffect(h, id, ReasonAfter(code).value);
    }
  }
}
