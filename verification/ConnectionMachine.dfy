/**
  The phone's connection machine: a pure reducer with bounded retries and exponential backoff.
 */
module ConnectionMachine {
  datatype OfflineReason = Exhausted | Refused | Unreachable | TimedOut | AuthFailed | DesktopOffline | Unknown

  datatype ConnectionState =
    | Idle
    | Connecting(retries: nat)
    | Connected
    | Reconnecting(retries: nat)
    | Offline(reason: OfflineReason)

  datatype ConnectionEvent = CONNECT | OPEN | CLOSE | FAIL(reason: OfflineReason) | DISCONNECT

  const MAX_RETRIES := 5
  const RECONNECT_BASE_DELAY_MS := 1_000
  const RECONNECT_MAX_DELAY_MS := 30_000

  function Pow2(n: nat): nat {
    if n == 0 then 1 else 2 * Pow2(n - 1)
  }

  function NextReconnectDelay(retries: nat): nat {
    var delay := RECONNECT_BASE_DELAY_MS * Pow2(retries);
    if delay <= RECONNECT_MAX_DELAY_MS then delay else RECONNECT_MAX_DELAY_MS
  }

  function Reduce(state: ConnectionState, event: ConnectionEvent): ConnectionState {
    match event
    case CONNECT =>
      if state.Idle? || state.Offline? then Connecting(0)
      else if state.Reconnecting? then Connecting(state.retries)
      else state
    case OPEN => if state.Connecting? || state.Reconnecting? then Connected else state
    case CLOSE =>
      if state.Connected? then Reconnecting(0)
      else if state.Connecting? || state.Reconnecting? then
        var next := state.retries + 1;
        if next > MAX_RETRIES then Offline(Exhausted) else Reconnecting(next)
      else state
    case FAIL(reason) =>
      if state.Connected? then Reconnecting(0)
      else if state.Connecting? || state.Reconnecting? then
        var next := state.retries + 1;
        if next > MAX_RETRIES then Offline(reason) else Reconnecting(next)
      else state
    case DISCONNECT => Idle
  }

  function ReduceAll(state: ConnectionState, events: seq<ConnectionEvent>): ConnectionState {
    if events == [] then state else Reduce(ReduceAll(state, events[..|events|-1]), events[|events|-1])
  }

  predicate WithinBudget(s: ConnectionState) {
    s.Connecting? || s.Reconnecting? ==> s.retries <= MAX_RETRIES
  }

  /** Every state reachable from a fresh machine keeps its retries in 0..5. */
  lemma {:induction false} RetriesBounded(state: ConnectionState, events: seq<ConnectionEvent>)
    requires WithinBudget(state)
    ensures WithinBudget(ReduceAll(state, events))
  {
    if events != [] {
      RetriesBounded(state, events[..|events|-1]);
    }
  }

  predicate Failure(e: ConnectionEvent) {
    e.CLOSE? || e.FAIL?
  }

  function FailureReason(e: ConnectionEvent): OfflineReason {
    if e.FAIL? then e.reason else Exhausted
  }

  function Failures(events: seq<ConnectionEvent>): nat {
    if events == [] then 0
    else Failures(events[..|events|-1]) + (if Failure(events[|events|-1]) then 1 else 0)
  }

  /** The reason of the n-th failure. */
  function NthReason(events: seq<ConnectionEvent>, n: nat): OfflineReason
    requires 0 < n <= Failures(events)
  {
    var init, last := events[..|events|-1], events[|events|-1];
    if Failure(last) && Failures(events) == n then FailureReason(last) else NthReason(init, n)
  }

  /** Only failures and timed retries, no OPEN and no DISCONNECT. */
  ghost predicate OnlyFailing(events: seq<ConnectionEvent>) {
    forall i :: 0 <= i < |events| ==> Failure(events[i]) || events[i].CONNECT?
  }

  /** How many failures it takes to be offline from a lost connection. */
  const FAILURE_BUDGET := MAX_RETRIES + 2

  /**
    From connected, while nothing but failures and retries happens, the number of failures
    alone decides where the machine is: connected at none, retry k-1 after the k-th, and offline at
    exactly the seventh, with that event's reason.
   */
  lemma {:induction false} FailuresDecide(events: seq<ConnectionEvent>)
    requires OnlyFailing(events) && Failures(events) <= FAILURE_BUDGET
    requires Failures(events) == FAILURE_BUDGET ==> Failure(events[|events|-1])
    ensures var s := ReduceAll(Connected, events); var k := Failures(events);
            if k == 0 then s == Connected
            else if k < FAILURE_BUDGET then s == Reconnecting(k - 1) || s == Connecting(k - 1)
            else s == Offline(NthReason(events, k))
  {
    if events != [] {
      FailuresDecide(events[..|events|-1]);
    }
  }

  lemma {:induction false} NotOfflineUnderBudget(events: seq<ConnectionEvent>, n: nat)
    requires OnlyFailing(events) && n <= |events|
    requires forall i :: 0 <= i <= n ==> !ReduceAll(Connected, events[..i]).Offline?
    ensures Failures(events[..n]) < FAILURE_BUDGET
  {
    if n > 0 {
      NotOfflineUnderBudget(events, n - 1);
      assert events[..n][..n-1] == events[..n-1];
      if Failures(events[..n]) == FAILURE_BUDGET {
        FailuresDecide(events[..n]);
      }
    }
  }

  /** Read as time to failure: the run is offline for the first time at its seventh failure. */
  lemma {:induction false} FirstOfflineAtSeventhFailure(events: seq<ConnectionEvent>, n: nat)
    requires OnlyFailing(events) && n < |events|
    requires forall i :: 0 <= i <= n ==> !ReduceAll(Connected, events[..i]).Offline?
    ensures ReduceAll(Connected, events[..n+1]).Offline? <==>
            Failure(events[n]) && Failures(events[..n+1]) == FAILURE_BUDGET
    ensures ReduceAll(Connected, events[..n+1]).Offline? ==>
              ReduceAll(Connected, events[..n+1]) == Offline(FailureReason(events[n]))
  {
    NotOfflineUnderBudget(events, n);
    assert events[..n+1][..n] == events[..n];
    FailuresDecide(events[..n]);
  }

  lemma {:induction false} Pow2Monotone(m: nat, n: nat)
    requires m <= n
    ensures Pow2(m) <= Pow2(n)
  {
    if m < n {
      Pow2Monotone(m, n - 1);
    }
  }

  lemma {:induction false} DelayMonotone(m: nat, n: nat)
    requires m <= n
    ensures NextReconnectDelay(m) <= NextReconnectDelay(n) <= RECONNECT_MAX_DELAY_MS
    ensures NextReconnectDelay(m) >= RECONNECT_BASE_DELAY_MS
  {
    Pow2Monotone(m, n);
    Pow2Monotone(0, m);
  }

  /** The delays scheduled along a run: one each time the machine enters or stays in reconnecting by a failure. */
  function ScheduledDelays(events: seq<ConnectionEvent>): nat {
    if events == [] then 0
    else
      var s := ReduceAll(Connected, events);
      ScheduledDelays(events[..|events|-1]) +
      (if Failure(events[|events|-1]) && s.Reconnecting? then NextReconnectDelay(s.retries) else 0)
  }

  /** Sum of the first k backoff delays. */
  function DelaySum(k: nat): nat {
    if k == 0 then 0 else DelaySum(k - 1) + NextReconnectDelay(k - 1)
  }

  lemma SixDelays()
    ensures DelaySum(MAX_RETRIES + 1) == 61_000
  {
    assert Pow2(0) == 1 && Pow2(1) == 2 && Pow2(2) == 4 && Pow2(3) == 8 && Pow2(4) == 16 && Pow2(5) == 32;
    assert DelaySum(1) == 1_000;
    assert DelaySum(2) == 3_000;
    assert DelaySum(3) == 7_000;
    assert DelaySum(4) == 15_000;
    assert DelaySum(5) == 31_000;
  }

  /** The delays themselves. */
  lemma DelayTable()
    ensures NextReconnectDelay(0) == 1_000 && NextReconnectDelay(1) == 2_000 && NextReconnectDelay(2) == 4_000
    ensures NextReconnectDelay(3) == 8_000 && NextReconnectDelay(4) == 16_000 && NextReconnectDelay(5) == 30_000
  {
    assert Pow2(1) == 2 && Pow2(2) == 4 && Pow2(3) == 8 && Pow2(4) == 16 && Pow2(5) == 32;
  }

  /** The life of a connection: asked for it connects when it opens, with all its retries, and ends when told to. */
  lemma LifeOfAConnection(state: ConnectionState)
    ensures Reduce(state, DISCONNECT) == Idle
    ensures state.Idle? || state.Offline? ==> Reduce(state, CONNECT) == Connecting(0)
    ensures !state.Idle? && !state.Offline? ==> Reduce(Reduce(state, CONNECT), OPEN) == Connected
    ensures state.Idle? || state.Offline? ==> Reduce(state, OPEN) == state
  {
  }

  /** Each failure but the last schedules the delay of the retries used up so far. */
  lemma OneMoreDelay(events: seq<ConnectionEvent>)
    requires events != [] && OnlyFailing(events) && Failures(events) <= FAILURE_BUDGET
    requires Failures(events) == FAILURE_BUDGET ==> Failure(events[|events|-1])
    ensures ScheduledDelays(events) == ScheduledDelays(events[..|events|-1]) +
            (if Failure(events[|events|-1]) && Failures(events) < FAILURE_BUDGET
             then NextReconnectDelay(Failures(events) - 1) else 0)
  {
    FailuresDecide(events);
  }

  /** Every way from connected to offline waits 61 seconds of backoff in all. */
  lemma {:induction false} DelaysToOffline(events: seq<ConnectionEvent>)
    requires OnlyFailing(events) && Failures(events) <= FAILURE_BUDGET
    requires Failures(events) == FAILURE_BUDGET ==> Failure(events[|events|-1])
    ensures ScheduledDelays(events) ==
            DelaySum(if Failures(events) == FAILURE_BUDGET then MAX_RETRIES + 1 else Failures(events))
    ensures Failures(events) == FAILURE_BUDGET ==> ScheduledDelays(events) == 61_000
  {
    if events != [] {
      DelaysToOffline(events[..|events|-1]);
      OneMoreDelay(events);
    }
    SixDelays();
  }
}
