/**
  The per-address rate limiter: a sliding window of one second per key, a sweep of empty
  buckets at most every thirty seconds, and a reset of everything when too many keys remain.
  Times are milliseconds.
 */
module RateLimiter {
  import opened Wrappers

  type Ip = string

  const WINDOW := 1_000
  const SWEEP_INTERVAL := 30_000
  const MAX_BUCKETS := 50_000

  datatype Buckets = Buckets(table: map<Ip, seq<int>>, lastSweep: Option<int>)

  const EMPTY := Buckets(map[], None)

  /** Clock readings never yield a negative duration; the subtraction saturates at zero. */
  function Elapsed(now: int, t: int): nat {
    if now < t then 0 else now - t
  }

  /** The entries of a bucket that are still inside the window. */
  function Recent(bucket: seq<int>, now: int): seq<int> {
    if bucket == [] then []
    else if Elapsed(now, bucket[0]) < WINDOW then [bucket[0]] + Recent(bucket[1..], now)
    else Recent(bucket[1..], now)
  }

  function BucketOf(b: Buckets, ip: Ip): seq<int> {
    if ip in b.table then b.table[ip] else []
  }

  predicate Allows(b: Buckets, ip: Ip, limit: nat, now: int) {
    |Recent(BucketOf(b, ip), now)| < limit
  }

  /** The call's own bucket, purged and, when allowed, with the call added. */
  function Recorded(b: Buckets, ip: Ip, limit: nat, now: int): map<Ip, seq<int>> {
    var recent := Recent(BucketOf(b, ip), now);
    b.table[ip := if |recent| < limit then recent + [now] else recent]
  }

  function NonEmpty(m: map<Ip, seq<int>>): map<Ip, seq<int>> {
    map k | k in m && m[k] != [] :: m[k]
  }

  predicate Sweeps(b: Buckets, ip: Ip, limit: nat, now: int) {
    && Allows(b, ip, limit, now)
    && (b.lastSweep.None? || Elapsed(now, b.lastSweep.value) >= SWEEP_INTERVAL ||
        |Recorded(b, ip, limit, now)| > MAX_BUCKETS)
  }

  /** The overflow reset: even without empty buckets there are too many keys. */
  predicate Resets(b: Buckets, ip: Ip, limit: nat, now: int) {
    Sweeps(b, ip, limit, now) && |NonEmpty(Recorded(b, ip, limit, now))| > MAX_BUCKETS
  }

  function AfterCheck(b: Buckets, ip: Ip, limit: nat, now: int): Buckets {
    var recorded := Recorded(b, ip, limit, now);
    if !Sweeps(b, ip, limit, now) then b.(table := recorded)
    else if Resets(b, ip, limit, now) then Buckets(map[], Some(now))
    else Buckets(NonEmpty(recorded), Some(now))
  }

  method Retain(bucket: seq<int>, now: int) returns (kept: seq<int>)
    ensures kept == Recent(bucket, now)
  {
    kept := [];
    for i := 0 to |bucket|
      invariant Recent(bucket, now) == kept + Recent(bucket[i..], now)
    {
      assert bucket[i..][1..] == bucket[i+1..];
      if Elapsed(now, bucket[i]) < WINDOW {
        kept := kept + [bucket[i]];
      }
    }
    assert bucket[|bucket|..] == [];
  }

  /** The limiter itself. */
  class Limiter {
    var buckets: map<Ip, seq<int>>
    var lastSweep: Option<int>

    function State(): Buckets
      reads this
    {
      Buckets(buckets, lastSweep)
    }

    constructor ()
      ensures State() == EMPTY
    {
      buckets, lastSweep := map[], None;
    }

    method Check(ip: Ip, limit: nat, now: int) returns (allowed: bool)
      modifies this
      ensures allowed == old(Allows(State(), ip, limit, now))
      ensures State() == AfterCheck(old(State()), ip, limit, now)
    {
      if ip !in buckets {
        buckets := buckets[ip := []];
      }
      var kept := Retain(buckets[ip], now);
      if |kept| >= limit {
        allowed := false;
        buckets := buckets[ip := kept];
      } else {
        allowed := true;
        buckets := buckets[ip := kept + [now]];
      }
      assert buckets == Recorded(old(State()), ip, limit, now);

      var overdue := lastSweep.None? || Elapsed(now, lastSweep.value) >= SWEEP_INTERVAL;
      if allowed && (overdue || |buckets| > MAX_BUCKETS) {
        lastSweep := Some(now);
        buckets := NonEmpty(buckets);
        if |buckets| > MAX_BUCKETS {
          buckets := map[];
        }
      }
    }
  }

  // ----- whole runs -----

  datatype Call = Call(ip: Ip, limit: nat, now: int)

  function After(run: seq<Call>): Buckets {
    if run == [] then EMPTY
    else
      var c := run[|run|-1];
      AfterCheck(After(run[..|run|-1]), c.ip, c.limit, c.now)
  }

  predicate Allowed(run: seq<Call>, i: nat)
    requires i < |run|
  {
    Allows(After(run[..i]), run[i].ip, run[i].limit, run[i].now)
  }

  predicate ResetAt(run: seq<Call>, i: nat)
    requires i < |run|
  {
    Resets(After(run[..i]), run[i].ip, run[i].limit, run[i].now)
  }

  ghost predicate ClockOrdered(run: seq<Call>) {
    forall i, j :: 0 <= i < j < |run| ==> run[i].now <= run[j].now
  }

  lemma SmallMap(ip: Ip, times: seq<int>)
    requires times != []
    ensures |map[ip := times]| == 1 && NonEmpty(map[ip := times]) == map[ip := times]
  {
  }

  lemma FirstCalls(ip: Ip, limit: nat, now: int, lastSweep: Option<int>)
    requires limit > 0 && lastSweep.None?
    ensures AfterCheck(Buckets(map[], lastSweep), ip, limit, now) == Buckets(map[ip := [now]], Some(now))
    ensures Allows(Buckets(map[], lastSweep), ip, limit, now) && !Resets(Buckets(map[], lastSweep), ip, limit, now)
  {
    var none: seq<int> := [];
    assert none + [now] == [now];
    SmallMap(ip, [now]);
    assert Recorded(Buckets(map[], lastSweep), ip, limit, now) == map[ip := [now]];
  }

  // ----- which calls a call is weighed against, for any clocks -----

  /** No overflow reset at call k or at any later one. */
  predicate NoResetFrom(run: seq<Call>, k: nat) {
    k < |run| ==> !ResetAt(run, |run| - 1) && NoResetFrom(run[..|run|-1], k)
  }

  /** Call k of the run let `ip` through, and no overflow reset came since. */
  predicate Standing(run: seq<Call>, ip: Ip, k: nat) {
    k < |run| && run[k].ip == ip && Allowed(run, k) && NoResetFrom(run, k)
  }

  /** No reading of the address that reached the lock after call k was a second or more past it. */
  ghost predicate NeverAged(run: seq<Call>, ip: Ip, k: nat)
    requires k < |run|
  {
    forall j :: k < j < |run| && run[j].ip == ip ==> run[j].now < run[k].now + 1_000
  }

  ghost predicate Within(t: int, readings: set<int>) {
    forall r :: r in readings ==> r < t + 1_000
  }

  ghost predicate IsKept(run: seq<Call>, ip: Ip, k: nat, readings: set<int>) {
    Standing(run, ip, k) && NeverAged(run, ip, k) && Within(run[k].now, readings)
  }

  /** The standing calls that no later reading has aged out, and that are within a second of `readings`. */
  ghost function Kept(run: seq<Call>, ip: Ip, readings: set<int>): set<nat> {
    set k: nat | k < |run| && IsKept(run, ip, k, readings)
  }

  /** The plain description: the standing calls less than a second old at `now`. */
  ghost function InWindow(run: seq<Call>, ip: Ip, now: int): set<nat> {
    set k: nat | k < |run| && Standing(run, ip, k) && now < run[k].now + 1_000
  }

  /** The entries of a bucket that survive a purge at each of the readings. */
  ghost function Surviving(bucket: seq<int>, readings: set<int>): seq<int> {
    if bucket == [] then []
    else if Within(bucket[0], readings) then [bucket[0]] + Surviving(bucket[1..], readings)
    else Surviving(bucket[1..], readings)
  }

  lemma {:induction false} SurvivingOne(bucket: seq<int>, now: int)
    ensures Surviving(bucket, {now}) == Recent(bucket, now)
  {
    if bucket != [] {
      assert now in {now};
      assert Within(bucket[0], {now}) <==> Elapsed(now, bucket[0]) < WINDOW;
      SurvivingOne(bucket[1..], now);
    }
  }

  lemma {:induction false} SurvivingRecent(bucket: seq<int>, now: int, readings: set<int>)
    ensures Surviving(Recent(bucket, now), readings) == Surviving(bucket, readings + {now})
  {
    if bucket != [] {
      assert Within(bucket[0], readings + {now}) <==>
             Elapsed(now, bucket[0]) < WINDOW && Within(bucket[0], readings) by {
        assert now in readings + {now};
      }
      SurvivingRecent(bucket[1..], now, readings);
      if Elapsed(now, bucket[0]) < WINDOW {
        assert ([bucket[0]] + Recent(bucket[1..], now))[1..] == Recent(bucket[1..], now);
      }
    }
  }

  lemma {:induction false} SurvivingAppend(bucket: seq<int>, t: int, readings: set<int>)
    ensures Surviving(bucket + [t], readings) == Surviving(bucket, readings) + (if Within(t, readings) then [t] else [])
  {
    if bucket == [] {
      assert [t][1..] == [];
    } else {
      assert (bucket + [t])[1..] == bucket[1..] + [t];
      SurvivingAppend(bucket[1..], t, readings);
    }
  }

  /** What one call does to the bucket of any address. */
  lemma BucketAfterCheck(b: Buckets, c: Call, ip: Ip)
    ensures BucketOf(AfterCheck(b, c.ip, c.limit, c.now), ip) ==
            if Resets(b, c.ip, c.limit, c.now) then []
            else if ip != c.ip then BucketOf(b, ip)
            else Recent(BucketOf(b, ip), c.now) + (if Allows(b, ip, c.limit, c.now) then [c.now] else [])
  {
    var recorded := Recorded(b, c.ip, c.limit, c.now);
    assert BucketOf(AfterCheck(b, c.ip, c.limit, c.now), ip) ==
           if Resets(b, c.ip, c.limit, c.now) then [] else if ip in recorded then recorded[ip] else [];
  }

  lemma StandingPrefix(run: seq<Call>, ip: Ip, k: nat)
    requires k < |run| - 1
    ensures Standing(run, ip, k) <==> Standing(run[..|run|-1], ip, k) && !ResetAt(run, |run| - 1)
  {
    assert run[..|run|-1][..k] == run[..k];
  }

  lemma NeverAgedPrefix(run: seq<Call>, ip: Ip, k: nat)
    requires k < |run| - 1
    ensures var n := |run| - 1;
            NeverAged(run, ip, k) <==>
            NeverAged(run[..n], ip, k) && (run[n].ip == ip ==> run[n].now < run[k].now + 1_000)
  {
    var n := |run| - 1;
    assert forall j :: 0 <= j < n ==> run[..n][j] == run[j];
  }

  lemma WithinOneMore(t: int, readings: set<int>, now: int)
    ensures Within(t, readings + {now}) <==> Within(t, readings) && now < t + 1_000
  {
    assert now in readings + {now};
  }

  /** What one more call does to an earlier one. */
  lemma IsKeptStep(run: seq<Call>, ip: Ip, k: nat, readings: set<int>)
    requires k < |run| - 1
    ensures var n := |run| - 1; var c := run[n];
            IsKept(run, ip, k, readings) <==>
            !ResetAt(run, n) && IsKept(run[..n], ip, k, if c.ip == ip then readings + {c.now} else readings)
  {
    StandingPrefix(run, ip, k);
    NeverAgedPrefix(run, ip, k);
    WithinOneMore(run[k].now, readings, run[|run|-1].now);
  }

  /** The kept calls after one more call. */
  ghost function KeptNext(run: seq<Call>, ip: Ip, readings: set<int>): set<nat>
    requires run != []
  {
    var n := |run| - 1;
    var c := run[n];
    if ResetAt(run, n) then {}
    else if c.ip != ip then Kept(run[..n], ip, readings)
    else Kept(run[..n], ip, readings + {c.now}) + (if Allowed(run, n) && Within(c.now, readings) then {n} else {})
  }

  lemma KeptMember(run: seq<Call>, ip: Ip, readings: set<int>, k: nat)
    requires run != []
    ensures k in Kept(run, ip, readings) <==> k in KeptNext(run, ip, readings)
  {
    if k < |run| - 1 {
      IsKeptStep(run, ip, k, readings);
    } else if k == |run| - 1 {
      assert NoResetFrom(run[..k], k);
    }
  }

  lemma {:induction false} KeptStep(run: seq<Call>, ip: Ip, readings: set<int>)
    requires run != []
    ensures Kept(run, ip, readings) == KeptNext(run, ip, readings)
  {
    forall k: nat
      ensures k in Kept(run, ip, readings) <==> k in KeptNext(run, ip, readings)
    {
      KeptMember(run, ip, readings, k);
    }
  }

  /** A bucket holds exactly the kept calls, whatever the order of the clocks. */
  lemma {:induction false} BucketsHoldTheKept(run: seq<Call>, ip: Ip, readings: set<int>)
    ensures |Surviving(BucketOf(After(run), ip), readings)| == |Kept(run, ip, readings)|
  {
    if run == [] {
      assert Kept(run, ip, readings) == {};
    } else {
      var n := |run| - 1;
      var c := run[n];
      var was := BucketOf(After(run[..n]), ip);
      KeptStep(run, ip, readings);
      BucketAfterCheck(After(run[..n]), c, ip);
      if !ResetAt(run, n) && c.ip != ip {
        BucketsHoldTheKept(run[..n], ip, readings);
      } else if !ResetAt(run, n) {
        BucketsHoldTheKept(run[..n], ip, readings + {c.now});
        SurvivingRecent(was, c.now, readings);
        SurvivingAppend(Recent(was, c.now), c.now, readings);
      }
    }
  }

  /**
    The limiter, exactly, for any clocks at all: a call is allowed if and only if fewer than its limit
    of the address's allowed calls since the last overflow reset are less than a second old,
    both by its own reading and by every reading of the address that came between.
   */
  lemma {:induction false} AllowedExactly(run: seq<Call>, i: nat)
    requires i < |run|
    ensures Allowed(run, i) <==> |Kept(run[..i], run[i].ip, {run[i].now})| < run[i].limit
  {
    BucketsHoldTheKept(run[..i], run[i].ip, {run[i].now});
    SurvivingOne(BucketOf(After(run[..i]), run[i].ip), run[i].now);
  }

  lemma KeptInWindow(run: seq<Call>, ip: Ip, now: int)
    ensures Kept(run, ip, {now}) <= InWindow(run, ip, now)
    ensures |Kept(run, ip, {now})| <= |InWindow(run, ip, now)|
  {
    assert now in {now};
    SubsetSize(Kept(run, ip, {now}), InWindow(run, ip, now));
  }

  /** So the plain description, which forgets the readings between, fails exactly when they make the difference. */
  lemma {:induction false} PlainWindowExactly(run: seq<Call>, i: nat)
    requires i < |run|
    ensures var kept, window := Kept(run[..i], run[i].ip, {run[i].now}), InWindow(run[..i], run[i].ip, run[i].now);
            && kept <= window
            && ((Allowed(run, i) <==> |window| < run[i].limit) <==> !(|kept| < run[i].limit <= |window|))
  {
    AllowedExactly(run, i);
    KeptInWindow(run[..i], run[i].ip, run[i].now);
  }

  /** In clock order the readings between make no difference, and the plain description holds. */
  lemma {:induction false} AllowedInClockOrder(run: seq<Call>, i: nat)
    requires i < |run| && ClockOrdered(run)
    ensures Allowed(run, i) <==> |InWindow(run[..i], run[i].ip, run[i].now)| < run[i].limit
  {
    AllowedExactly(run, i);
    var kept, window := Kept(run[..i], run[i].ip, {run[i].now}), InWindow(run[..i], run[i].ip, run[i].now);
    assert forall j :: 0 <= j < i ==> run[..i][j] == run[j];
    assert kept == window;
  }

  /** check reads its clock before it takes the lock; out of clock order the plain description fails. */
  lemma {:induction false} OutOfOrderClocksMatter() returns (run: seq<Call>)
    ensures |run| == 3 && !ClockOrdered(run)
    ensures Allowed(run, 2) && |InWindow(run[..2], run[2].ip, run[2].now)| == run[2].limit
  {
    var a, b, c := Call("a", 2, 0), Call("a", 2, 1_000), Call("a", 2, 500);
    run := [a, b, c];
    assert run[2].now < run[1].now;
    assert run[..2] == [a, b];
    assert [a, b][..1] == [a];
    assert [a][..0] == [];
    FirstCalls("a", 2, 0, None);
    assert After([a]) == Buckets(map["a" := [0]], Some(0));
    assert Recent([0], 1_000) == [];
    assert Recent([0], 1_000) + [1_000] == [1_000];
    assert Recorded(After([a]), "a", 2, 1_000) == map["a" := [1_000]];
    SmallMap("a", [1_000]);
    assert !Sweeps(After([a]), "a", 2, 1_000);
    assert After([a, b]) == AfterCheck(After([a]), "a", 2, 1_000);
    assert After([a, b]) == Buckets(map["a" := [1_000]], Some(0));
    assert [1_000][1..] == [];
    assert Recent([1_000], 500) == [1_000];
    assert Allowed(run, 2);
    assert Allowed([a, b], 0) && !ResetAt([a], 0) && Allowed([a, b], 1) && !ResetAt([a, b], 1);
    assert NoResetFrom([a], 0) && NoResetFrom([a], 1);
    assert Standing([a, b], "a", 0) && Standing([a, b], "a", 1);
    assert InWindow([a, b], "a", 500) == {0, 1};
  }

  // ----- how many calls a short span lets through, for any clocks -----

  /** One call as one address sees it: let through for that address, followed by a reset. */
  datatype Entry = Entry(passed: bool, reset: bool)

  function Log(run: seq<Call>, ip: Ip): seq<Entry> {
    seq(|run|, i requires 0 <= i < |run| => Entry(run[i].ip == ip && Allowed(run, i), ResetAt(run, i)))
  }

  function Passed(log: seq<Entry>): nat {
    if log == [] then 0 else Passed(log[..|log|-1]) + (if log[|log|-1].passed then 1 else 0)
  }

  function ResetCount(log: seq<Entry>): nat {
    if log == [] then 0 else ResetCount(log[..|log|-1]) + (if log[|log|-1].reset then 1 else 0)
  }

  /** How many calls were let through since the last reset. */
  function SinceReset(log: seq<Entry>): nat {
    if log == [] || log[|log|-1].reset then 0
    else SinceReset(log[..|log|-1]) + (if log[|log|-1].passed then 1 else 0)
  }

  /** limit * (resets + 1), in a form without multiplication. */
  function Budget(limit: nat, resets: nat): nat {
    if resets == 0 then limit else Budget(limit, resets - 1) + limit
  }

  lemma {:induction false} BudgetIsProduct(limit: nat, resets: nat)
    ensures Budget(limit, resets) == limit * (resets + 1)
  {
    if resets > 0 {
      BudgetIsProduct(limit, resets - 1);
    }
  }

  /** If call i was let through, fewer than `limit` were before it since the last reset. */
  ghost predicate Fits(log: seq<Entry>, limit: nat, i: nat) {
    i < |log| && log[i].passed ==> SinceReset(log[..i]) < limit
  }

  /** Every reset opens a new budget, and between two of them at most `limit` calls pass. */
  lemma {:induction false} SpanBound(log: seq<Entry>, limit: nat)
    requires forall i: nat :: Fits(log, limit, i)
    ensures SinceReset(log) <= limit
    ensures Passed(log) + (limit - SinceReset(log)) <= Budget(limit, ResetCount(log))
  {
    if log != [] {
      var init := log[..|log|-1];
      forall i: nat
        ensures Fits(init, limit, i)
      {
        assert Fits(log, limit, i);
        if i < |init| {
          assert init[..i] == log[..i] && init[i] == log[i];
        }
      }
      SpanBound(init, limit);
      assert Fits(log, limit, |init|);
    }
  }

  /** The entries of a bucket in the second that starts at `start`. */
  function InSecond(bucket: seq<int>, start: int): nat {
    if bucket == [] then 0
    else InSecond(bucket[..|bucket|-1], start) + (if start <= bucket[|bucket|-1] < start + 1_000 then 1 else 0)
  }

  lemma {:induction false} InSecondOfFront(bucket: seq<int>, t: int, start: int)
    ensures InSecond([t] + bucket, start) == (if start <= t < start + 1_000 then 1 else 0) + InSecond(bucket, start)
  {
    if bucket == [] {
      assert [t][..0] == [] && [t] + bucket == [t];
    } else {
      assert ([t] + bucket)[..|bucket|] == [t] + bucket[..|bucket|-1];
      InSecondOfFront(bucket[..|bucket|-1], t, start);
    }
  }

  /** A purge within that second takes none of its entries, and leaves no fewer entries than those. */
  lemma {:induction false} PurgeSparesTheSecond(bucket: seq<int>, now: int, start: int)
    requires start <= now < start + 1_000
    ensures InSecond(Recent(bucket, now), start) == InSecond(bucket, start) <= |Recent(bucket, now)|
  {
    if bucket != [] {
      PurgeSparesTheSecond(bucket[1..], now, start);
      assert bucket == [bucket[0]] + bucket[1..];
      InSecondOfFront(bucket[1..], bucket[0], start);
      InSecondOfFront(Recent(bucket[1..], now), bucket[0], start);
    }
  }

  /** All the readings of `ip` between a and b lie in the second that starts at `start`. */
  ghost predicate WithinSecond(run: seq<Call>, ip: Ip, a: nat, b: nat, start: int) {
    forall i :: a <= i < b <= |run| && run[i].ip == ip ==> start <= run[i].now < start + 1_000
  }

  /** What one check does to the entries of that second. */
  lemma SecondAfterCheck(b: Buckets, c: Call, ip: Ip, start: int)
    requires c.ip == ip ==> start <= c.now < start + 1_000
    ensures InSecond(BucketOf(AfterCheck(b, c.ip, c.limit, c.now), ip), start) ==
            if Resets(b, c.ip, c.limit, c.now) then 0
            else InSecond(BucketOf(b, ip), start) + (if c.ip == ip && Allows(b, ip, c.limit, c.now) then 1 else 0)
  {
    var was := BucketOf(b, ip);
    BucketAfterCheck(b, c, ip);
    if c.ip == ip {
      PurgeSparesTheSecond(was, c.now, start);
      assert (Recent(was, c.now) + [c.now])[..|Recent(was, c.now)|] == Recent(was, c.now);
    }
  }

  lemma LastOfSpan(log: seq<Entry>, a: nat, m: nat)
    requires a <= m < |log|
    ensures SinceReset(log[a..m+1]) ==
            if log[m].reset then 0 else SinceReset(log[a..m]) + (if log[m].passed then 1 else 0)
  {
    var span := log[a..m+1];
    assert span[..|span|-1] == log[a..m] && span[|span|-1] == log[m];
  }

  lemma SpanStep(run: seq<Call>, ip: Ip, a: nat, m: nat)
    requires a <= m < |run|
    ensures SinceReset(Log(run, ip)[a..m+1]) ==
            if ResetAt(run, m) then 0
            else SinceReset(Log(run, ip)[a..m]) + (if run[m].ip == ip && Allowed(run, m) then 1 else 0)
  {
    LastOfSpan(Log(run, ip), a, m);
  }

  lemma AfterOneMore(run: seq<Call>, m: nat)
    requires m < |run|
    ensures After(run[..m+1]) == AfterCheck(After(run[..m]), run[m].ip, run[m].limit, run[m].now)
  {
    assert run[..m+1][..m] == run[..m];
  }

  /** The calls that a span let through since its last reset are all still in the bucket. */
  lemma {:induction false} BucketCoversSpan(run: seq<Call>, ip: Ip, a: nat, m: nat, start: int)
    requires a <= m <= |run| && WithinSecond(run, ip, a, m, start)
    ensures SinceReset(Log(run, ip)[a..m]) <= InSecond(BucketOf(After(run[..m]), ip), start)
  {
    if a < m {
      BucketCoversSpan(run, ip, a, m - 1, start);
      SpanStep(run, ip, a, m - 1);
      AfterOneMore(run, m - 1);
      SecondAfterCheck(After(run[..m-1]), run[m-1], ip, start);
    }
  }

  lemma AllowedFindsRoom(run: seq<Call>, i: nat, start: int)
    requires i < |run| && Allowed(run, i) && start <= run[i].now < start + 1_000
    ensures InSecond(BucketOf(After(run[..i]), run[i].ip), start) < run[i].limit
  {
    PurgeSparesTheSecond(BucketOf(After(run[..i]), run[i].ip), run[i].now, start);
  }

  lemma {:induction false} SpanFits(run: seq<Call>, ip: Ip, limit: nat, a: nat, b: nat, start: int, i: nat)
    requires a <= b <= |run| && WithinSecond(run, ip, a, b, start)
    requires forall k :: a <= k < b && run[k].ip == ip ==> run[k].limit == limit
    ensures Fits(Log(run, ip)[a..b], limit, i)
  {
    var log := Log(run, ip);
    if i < b - a && log[a..b][i].passed {
      assert log[a..b][..i] == log[a..a+i];
      BucketCoversSpan(run, ip, a, a + i, start);
      AllowedFindsRoom(run, a + i, start);
    }
  }

  lemma {:induction false} ShortSpanWithinBudget(run: seq<Call>, ip: Ip, limit: nat, a: nat, b: nat, start: int)
    requires a <= b <= |run| && WithinSecond(run, ip, a, b, start)
    requires forall k :: a <= k < b && run[k].ip == ip ==> run[k].limit == limit
    ensures Passed(Log(run, ip)[a..b]) <= Budget(limit, ResetCount(Log(run, ip)[a..b]))
  {
    forall i: nat
      ensures Fits(Log(run, ip)[a..b], limit, i)
    {
      SpanFits(run, ip, limit, a, b, start, i);
    }
    SpanBound(Log(run, ip)[a..b], limit);
  }

  /**
    Any span of a run in which the readings of an address lie within one second of each other, in
    whatever order, and which holds r overflow resets, lets through at most limit * (r + 1) of its calls.
   */
  lemma {:induction false} ShortSpanBounded(run: seq<Call>, ip: Ip, limit: nat, a: nat, b: nat, start: int)
    requires a <= b <= |run| && WithinSecond(run, ip, a, b, start)
    requires forall k :: a <= k < b && run[k].ip == ip ==> run[k].limit == limit
    ensures Passed(Log(run, ip)[a..b]) <= limit * (ResetCount(Log(run, ip)[a..b]) + 1)
  {
    ShortSpanWithinBudget(run, ip, limit, a, b, start);
    BudgetIsProduct(limit, ResetCount(Log(run, ip)[a..b]));
  }

  // ----- how many keys are kept -----

  /** A denied call with a limit of at least one adds no key. */
  lemma DeniedAddsNoKey(b: Buckets, ip: Ip, limit: nat, now: int)
    requires limit >= 1 && !Allows(b, ip, limit, now)
    ensures AfterCheck(b, ip, limit, now).table.Keys == b.table.Keys
  {
    assert ip in b.table;
  }

  /** After every call at most 50,000 keys remain, for any clocks, as long as no limit is zero. */
  lemma {:induction false} KeysBounded(run: seq<Call>)
    requires forall i :: 0 <= i < |run| ==> run[i].limit >= 1
    ensures |After(run).table| <= MAX_BUCKETS
  {
    if run != [] {
      var init, c := run[..|run|-1], run[|run|-1];
      KeysBounded(init);
      if !Allows(After(init), c.ip, c.limit, c.now) {
        DeniedAddsNoKey(After(init), c.ip, c.limit, c.now);
        assert |After(run).table.Keys| == |After(init).table.Keys|;
      }
    }
  }

  function Addresses(run: seq<Call>): set<Ip> {
    set i | 0 <= i < |run| :: run[i].ip
  }

  /** With a limit of zero nothing is ever swept: every address stays, so the bound fails past 50,000 of them. */
  lemma {:induction false} ZeroLimitKeepsEveryKey(run: seq<Call>)
    requires forall i :: 0 <= i < |run| ==> run[i].limit == 0
    ensures After(run).table.Keys == Addresses(run)
    ensures |After(run).table| <= MAX_BUCKETS <==> |Addresses(run)| <= MAX_BUCKETS
  {
    if run != [] {
      var init := run[..|run|-1];
      ZeroLimitKeepsEveryKey(init);
      assert forall k :: 0 <= k < |init| ==> init[k] == run[k];
      assert Addresses(run) == Addresses(init) + {run[|run|-1].ip};
    }
    assert |After(run).table| == |After(run).table.Keys|;
  }

  // ----- resets and sweeps -----

  /** The addresses with a call that stands and was never aged out, counting the call that comes now. */
  ghost function Present(run: seq<Call>, n: nat): set<Ip>
    requires n < |run|
  {
    (set ip | ip in Addresses(run[..n]) && ip != run[n].ip && Kept(run[..n], ip, {}) != {}) + {run[n].ip}
  }

  lemma {:induction false} SurvivingAll(bucket: seq<int>)
    ensures Surviving(bucket, {}) == bucket
  {
    if bucket != [] {
      SurvivingAll(bucket[1..]);
    }
  }

  lemma {:induction false} BucketEmptyExactly(run: seq<Call>, ip: Ip)
    ensures BucketOf(After(run), ip) == [] <==> Kept(run, ip, {}) == {}
    ensures Kept(run, ip, {}) != {} ==> ip in Addresses(run)
  {
    BucketsHoldTheKept(run, ip, {});
    SurvivingAll(BucketOf(After(run), ip));
    if Kept(run, ip, {}) != {} {
      var k: nat :| k in Kept(run, ip, {});
      assert run[k].ip in Addresses(run);
    }
  }

  lemma {:induction false} NonEmptyKeys(run: seq<Call>, n: nat)
    requires n < |run| && Allowed(run, n)
    ensures NonEmpty(Recorded(After(run[..n]), run[n].ip, run[n].limit, run[n].now)).Keys == Present(run, n)
  {
    var b, c := After(run[..n]), run[n];
    var recorded := Recorded(b, c.ip, c.limit, c.now);
    forall ip
      ensures ip in NonEmpty(recorded) <==> ip in Present(run, n)
    {
      BucketEmptyExactly(run[..n], ip);
    }
  }

  /**
    Everything is forgotten exactly by an allowed call that leaves more than 50,000 addresses with standing
    calls.
   */
  lemma {:induction false} ResetExactly(run: seq<Call>, n: nat)
    requires n < |run|
    ensures ResetAt(run, n) <==> Allowed(run, n) && |Present(run, n)| > 50_000
    ensures ResetAt(run, n) ==> After(run[..n+1]).table == map[]
  {
    AfterOneMore(run, n);
    if Allowed(run, n) {
      var recorded := Recorded(After(run[..n]), run[n].ip, run[n].limit, run[n].now);
      NonEmptyKeys(run, n);
      assert NonEmpty(recorded).Keys <= recorded.Keys;
      SubsetSize(NonEmpty(recorded).Keys, recorded.Keys);
      assert |NonEmpty(recorded)| == |Present(run, n)|;
    }
  }

  /** The last sweep was an allowed call. */
  lemma {:induction false} SweptByAllowed(run: seq<Call>)
    ensures After(run).lastSweep.Some? ==>
              exists i: nat :: i < |run| && Allowed(run, i) && run[i].now == After(run).lastSweep.value
  {
    if run != [] {
      var n := |run| - 1;
      SweptByAllowed(run[..n]);
      if After(run).lastSweep == After(run[..n]).lastSweep && After(run).lastSweep.Some? {
        var i: nat :| i < n && Allowed(run[..n], i) && run[..n][i].now == After(run).lastSweep.value;
        assert run[..n][..i] == run[..i] && Allowed(run, i);
      } else if After(run).lastSweep.Some? {
        assert Allowed(run, n);
      }
    }
  }

  lemma {:induction false} OverdueSweeps(b: Buckets, c: Call)
    requires Allows(b, c.ip, c.limit, c.now) && (b.lastSweep.Some? ==> b.lastSweep.value + 30_000 <= c.now)
    ensures var table := AfterCheck(b, c.ip, c.limit, c.now).table; forall ip :: ip in table ==> table[ip] != []
  {
  }

  /** An allowed call thirty seconds after all earlier ones leaves no empty bucket behind. */
  lemma {:induction false} OverdueCallSweeps(run: seq<Call>, n: nat)
    requires n < |run| && Allowed(run, n)
    requires forall i :: 0 <= i < n && Allowed(run, i) ==> run[i].now + 30_000 <= run[n].now
    ensures var table := After(run[..n+1]).table; forall ip :: ip in table ==> table[ip] != []
  {
    var b := After(run[..n]);
    AfterOneMore(run, n);
    SweptByAllowed(run[..n]);
    if b.lastSweep.Some? {
      var i: nat :| i < n && Allowed(run[..n], i) && run[..n][i].now == b.lastSweep.value;
      assert run[..n][..i] == run[..i] && Allowed(run, i);
    }
    OverdueSweeps(b, run[n]);
  }

  // ----- which addresses are kept, exactly -----

  /** A sweep is due: the first, thirty seconds after the last, or more than 50,000 addresses at hand. */
  predicate Due(last: Option<int>, now: int, keys: set<Ip>) {
    last.None? || now >= last.value + 30_000 || |keys| > 50_000
  }

  /** The clock of the last call that swept. */
  function LastSweep(run: seq<Call>): Option<int> {
    if run == [] then None
    else
      var n := |run| - 1;
      if Allowed(run, n) && Due(LastSweep(run[..n]), run[n].now, After(run[..n]).table.Keys + {run[n].ip})
      then Some(run[n].now) else LastSweep(run[..n])
  }

  lemma {:induction false} LastSweepKept(run: seq<Call>)
    ensures After(run).lastSweep == LastSweep(run)
  {
    if run != [] {
      var n := |run| - 1;
      LastSweepKept(run[..n]);
      assert Recorded(After(run[..n]), run[n].ip, run[n].limit, run[n].now).Keys ==
             After(run[..n]).table.Keys + {run[n].ip};
    }
  }

  /**
    A call adds its own address, and nothing else changes, unless it is allowed and a sweep is due; then those
    remain that have standing calls, or none if these are more than 50,000.
   */
  lemma {:induction false} KeysExactly(run: seq<Call>, n: nat)
    requires n < |run|
    ensures var keys := After(run[..n]).table.Keys + {run[n].ip};
            After(run[..n+1]).table.Keys ==
            if !(Allowed(run, n) && Due(LastSweep(run[..n]), run[n].now, keys)) then keys
            else if |Present(run, n)| > 50_000 then {}
            else Present(run, n)
  {
    var b, c := After(run[..n]), run[n];
    AfterOneMore(run, n);
    LastSweepKept(run[..n]);
    assert Recorded(b, c.ip, c.limit, c.now).Keys == b.table.Keys + {c.ip};
    if Allowed(run, n) {
      NonEmptyKeys(run, n);
      assert |NonEmpty(Recorded(b, c.ip, c.limit, c.now))| == |Present(run, n)|;
    }
  }
}
