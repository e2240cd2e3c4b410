/**
  How failures are counted and how credentials run out: theorems about the connection manager.
 */
module ConnectionFailures {
  import opened Wrappers
  import opened ConnectionMachine
  import opened Connections

  // ----- exactly-once counting -----

  /** Whether an error with this code makes the manager let go of the transport at once. */
  predicate Detaches(code: Option<string>) {
    code.Some? && code.value != "" && (code.value in AUTH_CODES || FailReason(code.value).Some?)
  }

  predicate IsAuthError(code: Option<string>) {
    code.Some? && code.value in AUTH_CODES
  }

  /** The one failure an attempt ending in this error must cost. */
  function FailureFor(code: Option<string>): ConnectionEvent {
    if !Detaches(code) then CLOSE
    else if IsAuthError(code) then FAIL(AuthFailed)
    else FAIL(FailReason(code.value).value)
  }

  lemma DetachingErrorEffect(h: Hook, t: TransportId, code: Option<string>)
    requires Wired(h) && Current(h, t) && Detaches(code)
    ensures var g := OnSignal(h, t, Error(code)); var id := h.listeners[t];
            && !Current(g, t) && Evolves(h, g) && id in g.sessions
            && g.fed == if IsAuthError(code) && CanFallBack(h, id) then h.fed else h.fed + [Fed(id, FailureFor(code))]
  {
    var id := h.listeners[t];
    ErrorEvolves(h, id, code);
    if IsAuthError(code) {
      if CanFallBack(h, id) {
        FallbackEffect(h, id);
      } else {
        FailAndDetachEffect(h, id, AuthFailed);
      }
    } else {
      FailAndDetachEffect(h, id, FailReason(code.value).value);
    }
  }

  /**
    A failed attempt reports an error and then its close. Together they feed the reducer exactly
    one failure, the one that names the error, or none when they start the fallback from token
    to code.
   */
  lemma {:induction false} FailedAttemptCountsOnce(h: Hook, t: TransportId, code: Option<string>)
    requires Wired(h) && NeverStuck(h) && Current(h, t)
    ensures var id := h.listeners[t];
            var g := OnSignal(OnSignal(h, t, Error(code)), t, Closed);
            g.fed == if IsAuthError(code) && CanFallBack(h, id) then h.fed else h.fed + [Fed(id, FailureFor(code))]
  {
    var id := h.listeners[t];
    assert Alive(h.sessions[id]);
    if Detaches(code) {
      DetachingErrorEffect(h, t, code);
    } else {
      assert OnSignal(h, t, Error(code)) == h;
      ClosedEffect(h, id);
    }
  }

  /** A run of errors and closes from one transport, whatever their number and order. */
  predicate Failing(w: seq<Signal>) {
    forall i :: 0 <= i < |w| ==> w[i].Closed? || w[i].Error?
  }

  function Feed(h: Hook, t: TransportId, w: seq<Signal>): Hook
    decreases |w|
  {
    if w == [] then h else Feed(OnSignal(h, t, w[0]), t, w[1..])
  }

  /** Closes before the first detaching error cost one each; that error costs one unless it falls back. */
  function Cost(w: seq<Signal>, fallsBack: bool): nat
    requires Failing(w)
  {
    if w == [] then 0
    else if w[0].Closed? then 1 + Cost(w[1..], fallsBack)
    else if !Detaches(w[0].code) then Cost(w[1..], fallsBack)
    else if IsAuthError(w[0].code) && fallsBack then 0
    else 1
  }

  lemma {:induction false} InertFeed(h: Hook, t: TransportId, w: seq<Signal>)
    requires !Current(h, t)
    ensures Feed(h, t, w) == h
    decreases |w|
  {
    if w != [] {
      InertFeed(h, t, w[1..]);
    }
  }

  /** So a transport is counted once exactly when its reports cost one. */
  lemma {:induction false} FailuresFedExactly(h: Hook, t: TransportId, w: seq<Signal>)
    requires Wired(h) && NeverStuck(h) && Current(h, t) && Failing(w)
    ensures |Feed(h, t, w).fed| == |h.fed| + Cost(w, CanFallBack(h, h.listeners[t]))
    decreases |w|
  {
    if w != [] {
      var id := h.listeners[t];
      assert Alive(h.sessions[id]);
      var g := OnSignal(h, t, w[0]);
      if w[0].Closed? {
        ClosedEffect(h, id);
        SignalEvolves(h, t, w[0]);
        SignalNeverStuck(h, t, w[0]);
        FailuresFedExactly(g, t, w[1..]);
      } else if !Detaches(w[0].code) {
        assert g == h;
        FailuresFedExactly(g, t, w[1..]);
      } else {
        DetachingErrorEffect(h, t, w[0].code);
        InertFeed(g, t, w[1..]);
      }
    }
  }

  /**
    Two closes from one transport, as when ICE reports "disconnected" and then "failed", are
    counted twice: nothing detaches a transport that only closes.
   */
  lemma DoubleCloseCountsTwice(h: Hook, t: TransportId)
    requires Wired(h) && NeverStuck(h) && Current(h, t)
    ensures |Feed(h, t, [Closed, Closed]).fed| == |h.fed| + 2
  {
    var w := [Closed, Closed];
    FailuresFedExactly(h, t, w);
    assert w[1..] == [Closed] && w[1..][1..] == [];
    assert Cost(w[1..], CanFallBack(h, h.listeners[t])) == 1;
  }

  // ----- credentials run out -----

  /** An attempt is under way and no timer is left over from an earlier one. */
  predicate InFlight(h: Hook, id: DeviceId) {
    && id in h.sessions
    && h.sessions[id].transport.Some?
    && (h.sessions[id].state.Connecting? || h.sessions[id].state.Connected?)
    && h.sessions[id].retryTimer.None?
  }

  /** How many rejections with its last credential a session takes before it is offline. */
  function Patience(s: ConnectionState): nat
    requires WithinBudget(s)
  {
    match s
    case Connected => MAX_RETRIES + 2
    case Connecting(r) => MAX_RETRIES + 1 - r
    case _ => 0
  }

  const REJECTED := Error(Some("INVALID_CREDENTIAL"))

  /** The desktop rejects the current attempt; then the retry timer, if one was armed, fires. */
  function Rejected(h: Hook, id: DeviceId): Hook
    requires InFlight(h, id)
  {
    var t := h.sessions[id].transport.value;
    TimerFires(OnSignal(OnSignal(h, t, REJECTED), t, Closed), id)
  }

  lemma RejectionIsTheFallback(h: Hook, id: DeviceId)
    requires Wired(h) && InFlight(h, id) && Alive(h.sessions[id])
    ensures Rejected(h, id) == TimerFires(TriggerAuthFallback(h, id), id)
  {
    var t := h.sessions[id].transport.value;
    var f := OnSignal(h, t, REJECTED);
    DetachingErrorEffect(h, t, REJECTED.code);
    assert OnSignal(f, t, Closed) == f;
  }

  lemma RejectedFallsBack(h: Hook, id: DeviceId)
    requires Wired(h) && InFlight(h, id) && Alive(h.sessions[id]) && CanFallBack(h, id)
    ensures var g := Rejected(h, id); var s := h.sessions[id];
            && Wired(g) && InFlight(g, id) && g.codes == h.codes && Alive(g.sessions[id])
            && g.sessions[id].state == s.state && !CanFallBack(g, id) && g.next == h.next + 1
  {
    RejectionIsTheFallback(h, id);
    FallbackEffect(h, id);
  }

  lemma RejectedRetries(h: Hook, id: DeviceId)
    requires Wired(h) && InFlight(h, id) && Alive(h.sessions[id]) && !CanFallBack(h, id)
    requires Patience(h.sessions[id].state) > 1
    ensures var g := Rejected(h, id); var s := h.sessions[id];
            && Wired(g) && InFlight(g, id) && g.codes == h.codes && Alive(g.sessions[id])
            && Patience(g.sessions[id].state) == Patience(s.state) - 1 && g.next == h.next + 1 && !CanFallBack(g, id)
  {
    var auth := h.sessions[id].lastAuth.value;
    var f := TriggerAuthFallback(h, id);
    RejectionIsTheFallback(h, id);
    FailAndDetachEffect(h, id, AuthFailed);
    var g := f.(sessions := f.sessions[id := f.sessions[id].(retryTimer := None)]);
    OpenTransportEffect(g, id, auth);
    OpenEvolves(g, id, auth);
  }

  lemma RejectedGivesUp(h: Hook, id: DeviceId)
    requires Wired(h) && InFlight(h, id) && Alive(h.sessions[id]) && !CanFallBack(h, id)
    requires Patience(h.sessions[id].state) <= 1
    ensures var g := Rejected(h, id);
            && Wired(g) && id in g.sessions && g.codes == h.codes && Alive(g.sessions[id])
            && g.sessions[id].state == Offline(AuthFailed) && g.next == h.next
            && g.sessions[id].transport.None? && g.sessions[id].retryTimer.None?
  {
    RejectionIsTheFallback(h, id);
    FailAndDetachEffect(h, id, AuthFailed);
  }

  /** What a rejection leaves: the code in place of the token, one retry fewer, or offline. */
  lemma {:induction false} RejectionEffect(h: Hook, id: DeviceId)
    requires Wired(h) && InFlight(h, id) && Alive(h.sessions[id])
    ensures var g := Rejected(h, id); var s := h.sessions[id];
            && Wired(g) && id in g.sessions && g.codes == h.codes && Alive(g.sessions[id])
            && if CanFallBack(h, id)
               then InFlight(g, id) && g.sessions[id].state == s.state && !CanFallBack(g, id) && g.next == h.next + 1
               else if Patience(s.state) > 1
               then InFlight(g, id) && Patience(g.sessions[id].state) == Patience(s.state) - 1 &&
                    g.next == h.next + 1 && !CanFallBack(g, id)
               else g.sessions[id].state == Offline(AuthFailed) && g.next == h.next &&
                    g.sessions[id].transport.None? && g.sessions[id].retryTimer.None?
  {
    if CanFallBack(h, id) {
      RejectedFallsBack(h, id);
    } else if Patience(h.sessions[id].state) > 1 {
      RejectedRetries(h, id);
    } else {
      RejectedGivesUp(h, id);
    }
  }

  /** Rejections go on while attempts are in flight; the credential comes first in the measure, then the retries. */
  function RejectedForever(h: Hook, id: DeviceId): Hook
    requires Wired(h) && id in h.sessions && Alive(h.sessions[id])
    decreases CanFallBack(h, id), if InFlight(h, id) then Patience(h.sessions[id].state) + 1 else 0
  {
    if InFlight(h, id) then
      RejectionEffect(h, id);
      RejectedForever(Rejected(h, id), id)
    else h
  }

  /**
    Against a desktop that rejects everything, a session ends offline for lack of a
    credential, with nothing left running, after a number of further transports known beforehand.
   */
  lemma {:induction false} RejectionsRunOut(h: Hook, id: DeviceId)
    requires Wired(h) && InFlight(h, id) && Alive(h.sessions[id])
    ensures var g := RejectedForever(h, id);
            && id in g.sessions && g.sessions[id].state == Offline(AuthFailed)
            && g.sessions[id].transport.None? && g.sessions[id].retryTimer.None?
            && g.next == h.next + (if CanFallBack(h, id) then 1 else 0) + Patience(h.sessions[id].state) - 1
    decreases CanFallBack(h, id), Patience(h.sessions[id].state)
  {
    RejectionEffect(h, id);
    var g := Rejected(h, id);
    if InFlight(g, id) {
      RejectionsRunOut(g, id);
    }
  }

  /**
    From the tap on "connect", for a device without a session or with one that is not under way: at
    most seven transports, one with the token and six with the code.
   */
  lemma {:induction false} AtMostSevenTransports(h: Hook, id: DeviceId)
    requires Wired(h) && StoredAuth(h.tokens, h.codes, id).Some?
    requires !(id in h.sessions && (h.sessions[id].state.Connecting? || h.sessions[id].state.Connected?))
    ensures var g := ConnectDevice(h, id);
            && Wired(g) && id in g.sessions && Alive(g.sessions[id])
            && var e := RejectedForever(g, id);
               && id in e.sessions && e.sessions[id].state == Offline(AuthFailed)
               && e.next - h.next == (if Stored(h.tokens, id).Some? && Stored(h.codes, id).Some? then 7 else 6)
  {
    ConnectEvolves(h, id);
    var closed := CloseTransport(h, id);
    var f := closed.(sessions := closed.sessions[id := NEW_SESSION]);
    OpenTransportEffect(f, id, StoredAuth(h.tokens, h.codes, id).value);
    assert ConnectDevice(h, id) == OpenTransport(f, id, StoredAuth(h.tokens, h.codes, id).value);
    RejectionsRunOut(ConnectDevice(h, id), id);
  }

  // ----- offline stays offline -----

  /** A timer is pending only while the session is reconnecting, so offline means no retry will come. */
  ghost predicate TimersSound(h: Hook) {
    forall id :: id in h.sessions && h.sessions[id].retryTimer.Some? ==> h.sessions[id].state.Reconnecting?
  }

  /** The report takes its session, which is reconnecting with a timer pending, out of that state. */
  predicate Unsettles(h: Hook, e: Event) {
    && e.Report? && Current(h, e.t)
    && var id := h.listeners[e.t];
       && h.sessions[id].state.Reconnecting?
       && var last := h.sessions[id].state.retries == MAX_RETRIES;
          match e.signal
          case Opened => true
          case Closed => last
          case Error(code) => Detaches(code) && (last || (IsAuthError(code) && CanFallBack(h, id)))
          case ErrorMessage(code) => code in AUTH_CODES && (last || CanFallBack(h, id))
          case _ => false
  }

  lemma FallbackSoundExactly(h: Hook, id: DeviceId)
    requires TimersSound(h) && NeverStuck(h) && id in h.sessions && h.sessions[id].transport.Some?
    ensures TimersSound(TriggerAuthFallback(h, id)) <==>
            !(h.sessions[id].state.Reconnecting? && (h.sessions[id].state.retries == MAX_RETRIES || CanFallBack(h, id)))
  {
    assert Alive(h.sessions[id]);
    var g := TriggerAuthFallback(h, id);
    if CanFallBack(h, id) {
      FallbackEffect(h, id);
    } else {
      FailAndDetachEffect(h, id, AuthFailed);
    }
    assert forall d :: d in g.sessions && d != id ==> g.sessions[d] == h.sessions[d];
    assert id in g.sessions;
  }

  lemma FailureSoundExactly(h: Hook, id: DeviceId, reason: OfflineReason)
    requires TimersSound(h) && NeverStuck(h) && id in h.sessions && h.sessions[id].transport.Some?
    ensures TimersSound(FailAndDetach(h, id, reason)) <==>
            !(h.sessions[id].state.Reconnecting? && h.sessions[id].state.retries == MAX_RETRIES)
  {
    assert Alive(h.sessions[id]);
    var g := FailAndDetach(h, id, reason);
    FailAndDetachEffect(h, id, reason);
    assert forall d :: d in g.sessions && d != id ==> g.sessions[d] == h.sessions[d];
    assert id in g.sessions;
  }

  lemma CloseSoundExactly(h: Hook, id: DeviceId)
    requires TimersSound(h) && NeverStuck(h) && id in h.sessions && h.sessions[id].transport.Some?
    ensures TimersSound(OnClosed(h, id)) <==>
            !(h.sessions[id].state.Reconnecting? && h.sessions[id].state.retries == MAX_RETRIES)
  {
    assert Alive(h.sessions[id]);
    var g := OnClosed(h, id);
    ClosedEffect(h, id);
    assert forall d :: d in g.sessions && d != id ==> g.sessions[d] == h.sessions[d];
    assert id in g.sessions;
  }

  lemma OpenSoundExactly(h: Hook, id: DeviceId)
    requires TimersSound(h) && NeverStuck(h) && id in h.sessions && h.sessions[id].transport.Some?
    ensures TimersSound(Dispatch(NotSending(h, id), id, OPEN)) <==> !h.sessions[id].state.Reconnecting?
  {
    assert Alive(h.sessions[id]);
    var g := Dispatch(NotSending(h, id), id, OPEN);
    assert forall d :: d in g.sessions && d != id ==> g.sessions[d] == h.sessions[d];
    assert id in g.sessions;
  }

  lemma SignalSoundExactly(h: Hook, t: TransportId, signal: Signal)
    requires TimersSound(h) && NeverStuck(h)
    ensures TimersSound(OnSignal(h, t, signal)) <==> !Unsettles(h, Report(t, signal))
  {
    if Current(h, t) {
      var id := h.listeners[t];
      match signal
      case Opened => OpenSoundExactly(h, id);
      case ErrorMessage(_) => FallbackSoundExactly(h, id);
      case Closed => CloseSoundExactly(h, id);
      case Error(code) =>
        if IsAuthError(code) {
          FallbackSoundExactly(h, id);
        } else if Detaches(code) {
          FailureSoundExactly(h, id, FailReason(code.value).value);
        }
      case _ =>
    }
  }

  lemma OtherTimersSound(h: Hook, e: Event)
    requires TimersSound(h) && !e.Report?
    ensures TimersSound(Step(h, e))
  {
    match e
    case Connect(id) =>
      var auth := StoredAuth(h.tokens, h.codes, id);
      var closed := CloseTransport(h, id);
      if auth.Some? {
        OpenTransportEffect(closed.(sessions := closed.sessions[id := NEW_SESSION]), id, auth.value);
      }
    case Retry(id) =>
      if id in h.sessions {
        var g := Dispatch(h.(sessions := h.sessions[id := h.sessions[id].(retryTimer := None)]), id, CONNECT);
        var s := g.sessions[id];
        var auth := if s.lastAuth.Some? then s.lastAuth else StoredAuth(g.tokens, g.codes, id);
        if auth.Some? {
          OpenTransportEffect(g, id, auth.value);
        }
      }
    case Timer(id) =>
      if id in h.sessions {
        var g := h.(sessions := h.sessions[id := h.sessions[id].(retryTimer := None)]);
        if g.sessions[id].lastAuth.Some? {
          OpenTransportEffect(g, id, g.sessions[id].lastAuth.value);
        }
      }
    case _ =>
  }

  /** One step keeps the timers sound exactly unless it is one of those reports. */
  lemma {:induction false} TimersSoundExactly(h: Hook, e: Event)
    requires TimersSound(h) && NeverStuck(h)
    ensures TimersSound(Step(h, e)) <==> !Unsettles(h, e)
  {
    if e.Report? {
      SignalSoundExactly(h, e.t, e.signal);
    } else {
      OtherTimersSound(h, e);
    }
  }

  /** No report in the run finds its session reconnecting and takes it elsewhere. */
  ghost predicate NeverUnsettled(h: Hook, run: seq<Event>) {
    forall i :: 0 <= i < |run| ==> !Unsettles(After(h, run[..i]), run[i])
  }

  lemma {:induction false} SettledRunsAreSound(h: Hook, run: seq<Event>, n: nat)
    requires h.sessions == map[] && n <= |run| && NeverUnsettled(h, run)
    ensures TimersSound(After(h, run[..n]))
  {
    if n > 0 {
      SettledRunsAreSound(h, run, n - 1);
      SessionsNeverStuck(h, run[..n-1]);
      AfterOneMore(h, run, n - 1);
      TimersSoundExactly(After(h, run[..n-1]), run[n-1]);
    }
  }

  lemma {:induction false} UnsettledRunsAreNot(h: Hook, run: seq<Event>, i: nat)
    requires h.sessions == map[] && i < |run| && Unsettles(After(h, run[..i]), run[i])
    ensures !TimersSound(After(h, run[..i])) || !TimersSound(After(h, run[..i+1]))
  {
    if TimersSound(After(h, run[..i])) {
      SessionsNeverStuck(h, run[..i]);
      AfterOneMore(h, run, i);
      TimersSoundExactly(After(h, run[..i]), run[i]);
    }
  }

  /**
    Offline stays offline, exactly: at every point of a run a pending timer belongs to a reconnecting
    session, if and only if no report in the run unsettles one.
   */
  lemma {:induction false} OfflineHasNoTimer(h: Hook, run: seq<Event>)
    requires h.sessions == map[]
    ensures (forall n :: 0 <= n <= |run| ==> TimersSound(After(h, run[..n]))) <==> NeverUnsettled(h, run)
  {
    if NeverUnsettled(h, run) {
      forall n | 0 <= n <= |run|
        ensures TimersSound(After(h, run[..n]))
      {
        SettledRunsAreSound(h, run, n);
      }
    } else {
      var i :| 0 <= i < |run| && Unsettles(After(h, run[..i]), run[i]);
      UnsettledRunsAreNot(h, run, i);
    }
  }

  // ----- what goes wrong otherwise -----

  /**
    A transport that closes and then opens after all leaves a timer pending on a connected session. When it
    fires, the live transport is closed, and the session calls itself connected over one that never opened.
   */
  lemma {:induction false} RecoveryIsUndone(h: Hook, t: TransportId)
    requires Wired(h) && NeverStuck(h) && Current(h, t)
    requires var s := h.sessions[h.listeners[t]].state; s.Connected? || (!s.Offline? && s.retries < MAX_RETRIES)
    ensures var id := h.listeners[t];
            var g := OnSignal(OnSignal(h, t, Closed), t, Opened); var e := TimerFires(g, id);
            && g.sessions[id].state.Connected? && g.sessions[id].transport == Some(t) && g.sessions[id].retryTimer.Some?
            && id in e.sessions && e.sessions[id].state.Connected? && e.sessions[id].transport == Some(h.next)
            && !Current(e, t) && e.sessions[id].retryTimer.None?
  {
    var id := h.listeners[t];
    assert Alive(h.sessions[id]);
    ClosedEffect(h, id);
    var g := OnSignal(OnSignal(h, t, Closed), t, Opened);
    var p := g.(sessions := g.sessions[id := g.sessions[id].(retryTimer := None)]);
    OpenTransportEffect(p, id, p.sessions[id].lastAuth.value);
  }

  /**
    A second close of the last transport leaves the session offline with its timer still pending, which
    will start over with a full budget.
   */
  lemma {:induction false} DoubleCloseRestarts(h: Hook, t: TransportId)
    requires Wired(h) && NeverStuck(h) && Current(h, t)
    requires h.sessions[h.listeners[t]].state == Connecting(MAX_RETRIES - 1)
    ensures var id := h.listeners[t];
            var g := OnSignal(OnSignal(h, t, Closed), t, Closed);
            && g.sessions[id].state == Offline(Exhausted) && g.sessions[id].retryTimer.Some?
            && TimerFires(g, id).sessions[id].state == Connecting(0)
  {
    var id := h.listeners[t];
    assert Alive(h.sessions[id]);
    ClosedEffect(h, id);
    var f := OnSignal(h, t, Closed);
    ClosedEffect(f, id);
    var g := OnSignal(f, t, Closed);
    var p := g.(sessions := g.sessions[id := g.sessions[id].(retryTimer := None)]);
    OpenTransportEffect(p, id, p.sessions[id].lastAuth.value);
  }

  /** A close with retries left keeps the transport, and costs one retry. */
  lemma CloseCostsOne(h: Hook, t: TransportId)
    requires Wired(h) && NeverStuck(h) && Current(h, t)
    requires var s := h.sessions[h.listeners[t]].state; (s.Connecting? || s.Reconnecting?) && s.retries < MAX_RETRIES
    ensures var id := h.listeners[t]; var g := OnSignal(h, t, Closed);
            && Wired(g) && NeverStuck(g) && Current(g, t) && g.listeners == h.listeners && g.next == h.next
            && g.sessions[id].state == Reconnecting(h.sessions[id].state.retries + 1)
            && g.sessions[id].retryTimer.Some? && g.sessions[id].lastAuth.Some?
  {
    assert Alive(h.sessions[h.listeners[t]]);
    ClosedEffect(h, h.listeners[t]);
    SignalEvolves(h, t, Closed);
    SignalNeverStuck(h, t, Closed);
  }

  lemma TimerReopens(h: Hook, id: DeviceId)
    requires Wired(h) && NeverStuck(h) && id in h.sessions && h.sessions[id].state.Reconnecting?
    requires h.sessions[id].retryTimer.Some? && h.sessions[id].lastAuth.Some?
    ensures var g := TimerFires(h, id);
            && Wired(g) && NeverStuck(g) && Current(g, h.next) && g.listeners[h.next] == id && g.next == h.next + 1
            && g.sessions[id].state == Connecting(h.sessions[id].state.retries)
  {
    RetryEvolves(h, id);
    TimerNeverStuck(h, id);
    var p := h.(sessions := h.sessions[id := h.sessions[id].(retryTimer := None)]);
    OpenTransportEffect(p, id, p.sessions[id].lastAuth.value);
  }

  /** An attempt that closes twice costs two retries. */
  lemma {:induction false} DoubleCloseAttempt(h: Hook, t: TransportId)
    requires Wired(h) && NeverStuck(h) && Current(h, t)
    requires h.sessions[h.listeners[t]].state.Connecting? && h.sessions[h.listeners[t]].state.retries + 2 <= MAX_RETRIES
    ensures var id := h.listeners[t];
            var g := TimerFires(OnSignal(OnSignal(h, t, Closed), t, Closed), id);
            && Wired(g) && NeverStuck(g) && Current(g, h.next) && g.listeners[h.next] == id && g.next == h.next + 1
            && g.sessions[id].state == Connecting(h.sessions[id].state.retries + 2)
  {
    CloseCostsOne(h, t);
    CloseCostsOne(OnSignal(h, t, Closed), t);
    TimerReopens(OnSignal(OnSignal(h, t, Closed), t, Closed), h.listeners[t]);
  }

  const PHONE := Initial(map[], map[])
  const PAIRED := [StoreCode(7, "123456"), Connect(7)]

  lemma {:induction false} PairedPhone()
    ensures After(PHONE, PAIRED) ==
            Hook(map[7 := NEW_SESSION.(transport := Some(0), lastAuth := Some(Code("123456")))], map[0 := 7], 1,
                 map[], map[7 := "123456"], [])
    ensures Wired(After(PHONE, PAIRED)) && NeverStuck(After(PHONE, PAIRED))
  {
    var s, c := StoreCode(7, "123456"), Connect(7);
    var none: seq<Event> := [];
    assert none + [s] == [s] && [s] + [c] == PAIRED;
    AfterStep(PHONE, none, s);
    AfterStep(PHONE, [s], c);
    var h := Step(PHONE, s);
    OpenTransportEffect(h.(sessions := map[7 := NEW_SESSION]), 7, Code("123456"));
  }

  /** So it happens to a freshly paired phone whose first transport loses ICE once before its channel opens. */
  lemma {:induction false} RecoveryUndoneRun() returns (run: seq<Event>)
    ensures run == PAIRED + [Report(0, Closed)] + [Report(0, Opened)] + [Timer(7)]
    ensures var g, e := After(PHONE, run[..4]), After(PHONE, run);
            && 7 in g.sessions && g.sessions[7].state.Connected? && g.sessions[7].transport == Some(0)
            && 7 in e.sessions && e.sessions[7].state.Connected? && e.sessions[7].transport == Some(1)
            && e.sessions[7].retryTimer.None?
  {
    var c, o, t := Report(0, Closed), Report(0, Opened), Timer(7);
    run := PAIRED + [c] + [o] + [t];
    assert run[..4] == PAIRED + [c] + [o];
    PairedPhone();
    AfterStep(PHONE, PAIRED, c);
    AfterStep(PHONE, PAIRED + [c], o);
    AfterStep(PHONE, PAIRED + [c] + [o], t);
    RecoveryIsUndone(After(PHONE, PAIRED), 0);
  }

  /** The reports of an attempt that closes twice, and the timer. */
  function ClosedTwice(t: TransportId): seq<Event> {
    [Report(t, Closed), Report(t, Closed), Timer(7)]
  }

  lemma {:induction false} AfterClosedTwice(h: Hook, run: seq<Event>, t: TransportId)
    ensures After(h, run + ClosedTwice(t)) == TimerFires(OnSignal(OnSignal(After(h, run), t, Closed), t, Closed), 7)
    ensures After(h, (run + ClosedTwice(t))[..|run| + 2]) == OnSignal(OnSignal(After(h, run), t, Closed), t, Closed)
  {
    var c := Report(t, Closed);
    assert run + ClosedTwice(t) == run + [c] + [c] + [Timer(7)];
    assert (run + ClosedTwice(t))[..|run| + 2] == run + [c] + [c];
    AfterStep(h, run, c);
    AfterStep(h, run + [c], c);
    AfterStep(h, run + [c] + [c], Timer(7));
  }

  /** And a phone each of whose attempts closes twice is offline after three of them, and then starts over. */
  lemma {:induction false} DoubleCloseRun() returns (run: seq<Event>)
    ensures run == PAIRED + ClosedTwice(0) + ClosedTwice(1) + ClosedTwice(2)
    ensures var g, e := After(PHONE, run[..10]), After(PHONE, run);
            && 7 in g.sessions && g.sessions[7].state == Offline(Exhausted) && g.sessions[7].retryTimer.Some?
            && 7 in e.sessions && e.sessions[7].state == Connecting(0)
  {
    var one, two := PAIRED + ClosedTwice(0), PAIRED + ClosedTwice(0) + ClosedTwice(1);
    run := two + ClosedTwice(2);
    PairedPhone();
    AfterClosedTwice(PHONE, PAIRED, 0);
    DoubleCloseAttempt(After(PHONE, PAIRED), 0);
    AfterClosedTwice(PHONE, one, 1);
    DoubleCloseAttempt(After(PHONE, one), 1);
    AfterClosedTwice(PHONE, two, 2);
    DoubleCloseRestarts(After(PHONE, two), 2);
  }

  /** A retry without any credential waits for nothing: reconnecting, with neither a timer nor a transport. */
  lemma {:induction false} RetryWithoutCredential() returns (run: seq<Event>)
    ensures run == [Connect(7)] + [Retry(7)]
    ensures After(PHONE, run).sessions == map[7 := NEW_SESSION.(state := Reconnecting(1))]
    ensures NEW_SESSION.transport.None? && NEW_SESSION.retryTimer.None?
  {
    var none: seq<Event> := [];
    run := [Connect(7)] + [Retry(7)];
    assert none + [Connect(7)] == [Connect(7)];
    AfterStep(PHONE, none, Connect(7));
    AfterStep(PHONE, [Connect(7)], Retry(7));
    assert After(PHONE, [Connect(7)]).sessions == map[7 := NEW_SESSION.(state := Offline(AuthFailed))];
  }
}
