/**
  verify_token with its two halves apart: the lookup, and the writing of what was found into the cache.
  Registrations, and the halves of other verifications, may come in between. A registration is one step.
 */
module VerifyRace {
  import opened Wrappers
  import opened DeviceRepo
  import opened TokenAuth

  type VerifyId = nat

  /** A table hit that is still to be written to the cache. */
  datatype Hit = Hit(token: Token, device: DeviceId)

  datatype World = World(auth: State, hits: map<VerifyId, Hit>)

  datatype Event =
    | Registers(req: Request, bearer: Option<Token>, newToken: Token, now: int, victim: Token)
    | Lookup(v: VerifyId, token: Token)
    | Put(v: VerifyId, victim: Token)

  /** A lookup that misses the cache and finds the token in the table. */
  ghost predicate Hits(w: World, e: Event) {
    e.Lookup? && e.v !in w.hits && e.token !in w.auth.cache && FindIdByToken(w.auth.table, e.token).Some?
  }

  ghost function Next(w: World, max: nat, e: Event): World {
    match e
    case Registers(req, bearer, newToken, now, victim) =>
      w.(auth := Step(w.auth, max, Register(req, bearer, newToken, now, victim)))
    case Lookup(v, token) =>
      if Hits(w, e) then w.(hits := w.hits[v := Hit(token, FindIdByToken(w.auth.table, token).value)]) else w
    case Put(v, victim) =>
      if v !in w.hits then w
      else
        var hit := w.hits[v];
        World(State(w.auth.table, AfterPut(w.auth.cache, max, hit.token, hit.device, victim)), w.hits - {v})
  }

  ghost function Run(table: Table, max: nat, run: seq<Event>): World {
    if run == [] then World(State(table, map[]), map[])
    else Next(Run(table, max, run[..|run|-1]), max, run[|run|-1])
  }

  lemma RunStep(table: Table, max: nat, run: seq<Event>, n: nat)
    requires n < |run|
    ensures Run(table, max, run[..n+1]) == Next(Run(table, max, run[..n]), max, run[n])
  {
    assert run[..n+1][..n] == run[..n];
  }

  /** The tokens drawn along the run. */
  function Drawn(run: seq<Event>): set<Token> {
    if run == [] then {}
    else Drawn(run[..|run|-1]) + (if run[|run|-1].Registers? then {run[|run|-1].newToken} else {})
  }

  /** Drawn tokens are new to the initial table and never repeat. */
  ghost predicate FreshDraws(table: Table, run: seq<Event>) {
    run != [] ==>
      && FreshDraws(table, run[..|run|-1])
      && (run[|run|-1].Registers? ==> run[|run|-1].newToken !in StoredTokens(table) + Drawn(run[..|run|-1]))
  }

  lemma {:induction false} FreshDrawsPrefix(table: Table, run: seq<Event>, n: nat)
    requires FreshDraws(table, run) && n <= |run|
    ensures FreshDraws(table, run[..n])
    decreases |run|
  {
    if n < |run| {
      FreshDrawsPrefix(table, run[..|run|-1], n);
      assert run[..|run|-1][..n] == run[..n];
    } else {
      assert run[..n] == run;
    }
  }

  /** What holds in every run, whatever became of the cache's entries. */
  ghost predicate Bounded(table: Table, max: nat, run: seq<Event>) {
    var s := Run(table, max, run).auth;
    && DistinctHashes(s.table)
    && |s.cache| <= (if max == 0 then 1 else max)
    && StoredTokens(s.table) <= StoredTokens(table) + Drawn(run)
  }

  lemma BoundedRegister(s: State, max: nat, call: Call)
    requires DistinctHashes(s.table) && |s.cache| <= (if max == 0 then 1 else max)
    requires call.Register? && call.newToken !in StoredTokens(s.table)
    ensures var t := Step(s, max, call);
            && DistinctHashes(t.table) && |t.cache| <= (if max == 0 then 1 else max)
            && StoredTokens(t.table) <= StoredTokens(s.table) + {call.newToken}
  {
    UpsertKeepsHashesDistinct(s.table, call.req, call.bearer, call.newToken, call.now);
    var outcome := UpsertOutcome(s.table, call.req, call.bearer, call.newToken, call.now);
    var kept := if outcome.Rotated? then s.cache - {call.bearer.value} else s.cache;
    assert kept.Keys <= s.cache.Keys;
    SubsetSize(kept.Keys, s.cache.Keys);
    if !outcome.Unverified? {
      PutKeepsBound(kept, max, outcome.device.pairingToken, call.req.device, call.victim);
    }
  }

  lemma {:induction false} RunsStayBounded(table: Table, max: nat, run: seq<Event>)
    requires DistinctHashes(table) && FreshDraws(table, run)
    ensures Bounded(table, max, run)
  {
    if run != [] {
      var init, e := run[..|run|-1], run[|run|-1];
      RunsStayBounded(table, max, init);
      var w := Run(table, max, init);
      match e
      case Registers(req, bearer, newToken, now, victim) =>
        BoundedRegister(w.auth, max, Register(req, bearer, newToken, now, victim));
      case Lookup(_, _) =>
      case Put(v, victim) =>
        if v in w.hits {
          PutKeepsBound(w.auth.cache, max, w.hits[v].token, w.hits[v].device, victim);
        }
    }
  }

  // ----- a cache that agrees with the table -----

  /** The hit about to be written is not the table's word any more. */
  predicate Stale(w: World, e: Event) {
    e.Put? && e.v in w.hits && !Holds(w.auth.table, w.hits[e.v].device, w.hits[e.v].token)
  }

  /** The step keeps the cache in agreement with the table exactly unless it writes a stale hit. */
  lemma {:induction false} AgreesExactly(w: World, max: nat, e: Event)
    requires Good(w.auth, max) && (e.Registers? ==> e.newToken !in StoredTokens(w.auth.table))
    ensures CacheAgrees(Next(w, max, e).auth) <==> !Stale(w, e)
  {
    match e
    case Registers(req, bearer, newToken, now, victim) =>
      RegisterKeepsGood(w.auth, max, Register(req, bearer, newToken, now, victim));
    case Lookup(_, _) =>
    case Put(v, victim) =>
      if v in w.hits {
        var hit := w.hits[v];
        PutKeepsBound(w.auth.cache, max, hit.token, hit.device, victim);
        if !Stale(w, e) {
          PutAgrees(w.auth.table, w.auth.cache, max, hit.token, hit.device, victim);
        }
      }
  }

  ghost predicate NeverStale(table: Table, max: nat, run: seq<Event>) {
    forall i :: 0 <= i < |run| ==> !Stale(Run(table, max, run[..i]), run[i])
  }

  /** One step of a run with fresh tokens, from a cache that agrees. */
  lemma RunAgreesExactly(table: Table, max: nat, run: seq<Event>, n: nat)
    requires DistinctHashes(table) && FreshDraws(table, run) && n < |run|
    requires CacheAgrees(Run(table, max, run[..n]).auth)
    ensures CacheAgrees(Run(table, max, run[..n+1]).auth) <==> !Stale(Run(table, max, run[..n]), run[n])
  {
    FreshDrawsPrefix(table, run, n);
    FreshDrawsPrefix(table, run, n + 1);
    assert run[..n+1][..n] == run[..n];
    RunsStayBounded(table, max, run[..n]);
    RunStep(table, max, run, n);
    AgreesExactly(Run(table, max, run[..n]), max, run[n]);
  }

  lemma {:induction false} NeverStaleAgrees(table: Table, max: nat, run: seq<Event>, n: nat)
    requires DistinctHashes(table) && FreshDraws(table, run) && NeverStale(table, max, run) && n <= |run|
    ensures CacheAgrees(Run(table, max, run[..n]).auth)
  {
    if n > 0 {
      NeverStaleAgrees(table, max, run, n - 1);
      RunAgreesExactly(table, max, run, n - 1);
    }
  }

  /**
    With lookups that straddle registrations: at every point of a run the cache agrees with the table,
    if and only if no stale hit is ever written.
   */
  lemma {:induction false} CacheAgreesExactly(table: Table, max: nat, run: seq<Event>)
    requires DistinctHashes(table) && FreshDraws(table, run)
    ensures (forall n :: 0 <= n <= |run| ==> CacheAgrees(Run(table, max, run[..n]).auth)) <==>
            NeverStale(table, max, run)
  {
    if NeverStale(table, max, run) {
      forall n | 0 <= n <= |run|
        ensures CacheAgrees(Run(table, max, run[..n]).auth)
      {
        NeverStaleAgrees(table, max, run, n);
      }
    } else {
      var i :| 0 <= i < |run| && Stale(Run(table, max, run[..i]), run[i]);
      if CacheAgrees(Run(table, max, run[..i]).auth) {
        RunAgreesExactly(table, max, run, i);
        assert !CacheAgrees(Run(table, max, run[..i+1]).auth);
      }
    }
  }

  // ----- when a hit is stale -----

  /** The registration rotates this very token away. */
  ghost predicate Rotates(w: World, e: Event, token: Token) {
    && e.Registers? && e.bearer == Some(token)
    && UpsertOutcome(w.auth.table, e.req, e.bearer, e.newToken, e.now).Rotated?
  }

  /** Since the lookup whose hit `v` still holds, its token was rotated away. */
  ghost predicate RotatedSince(table: Table, max: nat, run: seq<Event>, v: VerifyId) {
    run != [] &&
    var init, e := run[..|run|-1], run[|run|-1];
    var w := Run(table, max, init);
    v in w.hits && (RotatedSince(table, max, init, v) || Rotates(w, e, w.hits[v].token))
  }

  /** What is known of a hit: its token is its device's, or nobody's any more, and is never drawn again. */
  ghost predicate HitKnown(table: Table, max: nat, run: seq<Event>, v: VerifyId) {
    var w := Run(table, max, run);
    v in w.hits ==>
      && w.hits[v].token in StoredTokens(table) + Drawn(run)
      && (if RotatedSince(table, max, run, v) then w.hits[v].token !in StoredTokens(w.auth.table)
          else Holds(w.auth.table, w.hits[v].device, w.hits[v].token))
  }

  lemma HeldIsStored(table: Table, device: DeviceId, token: Token)
    requires Holds(table, device, token)
    ensures token in StoredTokens(table)
  {
    assert table[device].hash.token == token;
  }

  /** A registration takes a held token away exactly by rotating it, and brings no dead one back. */
  lemma RegisterMoves(w: World, max: nat, e: Event, device: DeviceId, token: Token)
    requires DistinctHashes(w.auth.table) && e.Registers?
    requires e.newToken !in StoredTokens(w.auth.table) && e.newToken != token
    ensures var table := Next(w, max, e).auth.table;
            && (token !in StoredTokens(w.auth.table) ==> token !in StoredTokens(table))
            && (Holds(w.auth.table, device, token) && !Rotates(w, e, token) ==> Holds(table, device, token))
            && (Holds(w.auth.table, device, token) && Rotates(w, e, token) ==> token !in StoredTokens(table))
  {
    UpsertKeepsHashesDistinct(w.auth.table, e.req, e.bearer, e.newToken, e.now);
    UpsertMovesOneToken(w.auth.table, e.req, e.bearer, e.newToken, e.now, device, token);
  }

  lemma {:induction false} HitsAreKnown(table: Table, max: nat, run: seq<Event>, v: VerifyId)
    requires DistinctHashes(table) && FreshDraws(table, run)
    ensures HitKnown(table, max, run, v)
  {
    if run != [] {
      var init, e := run[..|run|-1], run[|run|-1];
      var w := Run(table, max, init);
      HitsAreKnown(table, max, init, v);
      RunsStayBounded(table, max, init);
      if v in w.hits && e.Registers? {
        RegisterMoves(w, max, e, w.hits[v].device, w.hits[v].token);
      } else if e.Lookup? && e.v == v && Hits(w, e) {
        StoredExactly(w.auth.table, e.token);
      }
    }
  }

  /** A hit is stale exactly if its token was rotated away since the lookup, and then nobody holds it. */
  lemma {:induction false} StaleExactly(table: Table, max: nat, run: seq<Event>, v: VerifyId, victim: Token)
    requires DistinctHashes(table) && FreshDraws(table, run) && v in Run(table, max, run).hits
    ensures var w := Run(table, max, run);
            && (Stale(w, Put(v, victim)) <==> RotatedSince(table, max, run, v))
            && (Stale(w, Put(v, victim)) ==> FindIdByToken(w.auth.table, w.hits[v].token) == None)
  {
    var w := Run(table, max, run);
    HitsAreKnown(table, max, run, v);
    if Holds(w.auth.table, w.hits[v].device, w.hits[v].token) {
      HeldIsStored(w.auth.table, w.hits[v].device, w.hits[v].token);
    }
    StoredExactly(w.auth.table, w.hits[v].token);
  }

  lemma PutLands(w: World, max: nat, v: VerifyId, victim: Token)
    requires v in w.hits
    ensures VerifyResult(Next(w, max, Put(v, victim)).auth, w.hits[v].token) == Some(w.hits[v].device)
  {
  }

  /** A lookup, a rotation and the writing of the hit: the dead token is accepted again. */
  lemma {:induction false} DeadTokenAcceptedAgain(table: Table, max: nat, device: DeviceId, token: Token,
                                                  newToken: Token, req: Request, now: int)
    requires DistinctHashes(table) && Holds(table, device, token) && req.device == device
    requires newToken !in StoredTokens(table) && DueForRotation(table[device], now)
    ensures var run := [Lookup(0, token), Registers(req, Some(token), newToken, now, token), Put(0, token)];
            var s := Run(table, max, run).auth;
            VerifyResult(s, token) == Some(device) && FindIdByToken(s.table, token) == None
  {
    var l, r, p := Lookup(0, token), Registers(req, Some(token), newToken, now, token), Put(0, token);
    var none: seq<Event> := [];
    assert [l, r, p][..2] == [l, r];
    assert [l, r][..1] == [l];
    assert [l][..0] == none;
    FoundById(table, device, token);
    HeldIsStored(table, device, token);
    var start := Run(table, max, none);
    assert start == World(State(table, map[]), map[]) && Hits(start, l);
    var w := Run(table, max, [l]);
    assert w == Next(start, max, l);
    assert w == World(State(table, map[]), map[0 := Hit(token, device)]);
    assert Rotates(w, r, token);
    RegisterMoves(w, max, r, device, token);
    var x := Run(table, max, [l, r]);
    assert x.hits == w.hits;
    PutLands(x, max, 0, token);
    StoredExactly(x.auth.table, token);
  }
}
