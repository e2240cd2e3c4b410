/**
  Token authentication: a bounded cache in front of the device table. The register and
  verify_token handlers run one at a time here, in any order and number.
 */
module TokenAuth {
  import opened Wrappers
  import opened DeviceRepo

  type CacheMap = map<Token, DeviceId>

  /** What is left when a full cache makes room: any one entry may go, `victim` if it is there. */
  ghost function MadeRoom(cache: CacheMap, max: nat, victim: Token): CacheMap {
    if |cache| < max || cache == map[] then cache
    else if victim in cache then cache - {victim}
    else
      var k :| k in cache;
      cache - {k}
  }

  ghost function AfterPut(cache: CacheMap, max: nat, token: Token, device: DeviceId, victim: Token): CacheMap {
    MadeRoom(cache, max, victim)[token := device]
  }

  lemma RoomMade(cache: CacheMap, max: nat, victim: Token)
    requires |cache| <= if max == 0 then 1 else max
    ensures var room := MadeRoom(cache, max, victim);
            && |room.Keys| + 1 <= (if max == 0 then 1 else max)
            && room.Keys <= cache.Keys && |cache.Keys - room.Keys| <= 1
            && forall t :: t in room ==> room[t] == cache[t]
  {
    var room := MadeRoom(cache, max, victim);
    if room == cache {
      assert cache.Keys - room.Keys == {};
    } else {
      var k :| k in cache && room == cache - {k};
      assert room.Keys == cache.Keys - {k} && cache.Keys - room.Keys == {k};
    }
  }

  lemma WrittenOver(was: set<Token>, room: set<Token>, token: Token)
    requires |was - room| <= 1
    ensures |was - (room + {token})| <= 1 && |room + {token}| <= |room| + 1
  {
    SubsetSize(was - (room + {token}), was - room);
  }

  lemma PutContents(cache: CacheMap, max: nat, token: Token, device: DeviceId, victim: Token)
    requires |cache| <= if max == 0 then 1 else max
    ensures var after := AfterPut(cache, max, token, device, victim);
            && after.Keys == MadeRoom(cache, max, victim).Keys + {token}
            && token in after && after[token] == device
            && forall t :: t in after && t != token ==> t in cache && after[t] == cache[t]
  {
    RoomMade(cache, max, victim);
  }

  /** Writing never loses what was just written, drops at most one entry and keeps the bound. */
  lemma PutKeepsBound(cache: CacheMap, max: nat, token: Token, device: DeviceId, victim: Token)
    requires |cache| <= if max == 0 then 1 else max
    ensures var after := AfterPut(cache, max, token, device, victim);
            && token in after && after[token] == device
            && |after| <= (if max == 0 then 1 else max)
            && |cache.Keys - after.Keys| <= 1
            && forall t :: t in after && t != token ==> t in cache && after[t] == cache[t]
  {
    var keys := MadeRoom(cache, max, victim).Keys;
    RoomMade(cache, max, victim);
    PutContents(cache, max, token, device, victim);
    WrittenOver(cache.Keys, keys, token);
    assert |AfterPut(cache, max, token, device, victim)| == |keys + {token}|;
  }

  /** A cache with room evicts nothing. */
  lemma NothingEvicted(cache: CacheMap, max: nat, token: Token, device: DeviceId, victim: Token)
    requires |cache| < max
    ensures AfterPut(cache, max, token, device, victim) == cache[token := device]
  {
  }

  class Cache {
    var tokens: CacheMap
    const maxTokens: nat

    constructor (maxTokens: nat)
      ensures tokens == map[] && this.maxTokens == maxTokens
    {
      tokens := map[];
      this.maxTokens := maxTokens;
    }

    method PutToken(token: Token, device: DeviceId) returns (ghost victim: Token)
      modifies this
      ensures tokens == AfterPut(old(tokens), maxTokens, token, device, victim)
    {
      victim := token;
      if |tokens| >= maxTokens {
        if tokens != map[] {
          var k :| k in tokens;
          victim := k;
          tokens := tokens - {k};
        }
      }
      tokens := tokens[token := device];
    }

    method GetToken(token: Token) returns (device: Option<DeviceId>)
      ensures device == if token in tokens then Some(tokens[token]) else None
    {
      if token in tokens {
        return Some(tokens[token]);
      }
      return None;
    }

    method InvalidateToken(token: Token)
      modifies this
      ensures tokens == old(tokens) - {token}
    {
      tokens := tokens - {token};
    }
  }

  // ----- the handlers -----

  datatype State = State(table: Table, cache: CacheMap)

  /** `victim` resolves the arbitrary choice of an eviction. */
  datatype Call =
    | Register(req: Request, bearer: Option<Token>, newToken: Token, now: int, victim: Token)
    | Verify(token: Token, victim: Token)

  ghost function VerifyResult(s: State, token: Token): Option<DeviceId> {
    if token in s.cache then Some(s.cache[token]) else FindIdByToken(s.table, token)
  }

  ghost function Step(s: State, max: nat, call: Call): State {
    match call
    case Register(req, bearer, newToken, now, victim) =>
      var table := AfterUpsert(s.table, req, bearer, newToken, now);
      (match UpsertOutcome(s.table, req, bearer, newToken, now)
       case Created(d) => State(table, AfterPut(s.cache, max, d.pairingToken, req.device, victim))
       case Reused(d) => State(table, AfterPut(s.cache, max, d.pairingToken, req.device, victim))
       case Rotated(d) =>
         var kept := if bearer.Some? then s.cache - {bearer.value} else s.cache;
         State(table, AfterPut(kept, max, d.pairingToken, req.device, victim))
       case Unverified => State(table, s.cache))
    case Verify(token, victim) =>
      var found := FindIdByToken(s.table, token);
      if token in s.cache || found.None? then s
      else s.(cache := AfterPut(s.cache, max, token, found.value, victim))
  }

  /** The handlers as the server runs them, over one repository and one cache. */
  class Server {
    const repo: Repo
    const cache: Cache

    constructor (table: Table, maxTokens: nat)
      ensures Current() == State(table, map[]) && cache.maxTokens == maxTokens
      ensures fresh(repo) && fresh(cache)
    {
      repo := new Repo(table);
      cache := new Cache(maxTokens);
    }

    ghost function Current(): State
      reads repo, cache
    {
      State(repo.table, cache.tokens)
    }

    /** POST /devices; `newToken` is the token drawn for this request. */
    method RegisterDevice(req: Request, bearer: Option<Token>, newToken: Token, now: int)
      returns (outcome: Outcome, ghost victim: Token)
      modifies repo, cache
      ensures outcome == old(UpsertOutcome(repo.table, req, bearer, newToken, now))
      ensures Current() == Step(old(Current()), cache.maxTokens, Register(req, bearer, newToken, now, victim))
    {
      victim := newToken;
      outcome := repo.Upsert(req, bearer, newToken, now);
      match outcome
      case Created(d) =>
        victim := cache.PutToken(d.pairingToken, req.device);
      case Reused(d) =>
        victim := cache.PutToken(d.pairingToken, req.device);
      case Rotated(d) =>
        if bearer.Some? {
          cache.InvalidateToken(bearer.value);
        }
        victim := cache.PutToken(d.pairingToken, req.device);
      case Unverified =>
    }

    /** SELECT id ... WHERE token_hash = ?; with distinct digests at most one row qualifies. */
    method Lookup(token: Token) returns (device: Option<DeviceId>)
      requires DistinctHashes(repo.table)
      ensures device == FindIdByToken(repo.table, token)
    {
      StoredExactly(repo.table, token);
      if token !in StoredTokens(repo.table) {
        return None;
      }
      var d: DeviceId :| d in repo.table && Holds(repo.table, d, token);
      FoundById(repo.table, d, token);
      device := Some(d);
    }

    /** The cache first, then the table; a table hit warms the cache. */
    method VerifyToken(token: Token) returns (device: Option<DeviceId>, ghost victim: Token)
      requires DistinctHashes(repo.table)
      modifies cache
      ensures device == old(VerifyResult(Current(), token))
      ensures Current() == Step(old(Current()), cache.maxTokens, Verify(token, victim))
    {
      victim := token;
      device := cache.GetToken(token);
      if device.None? {
        device := Lookup(token);
        if device.Some? {
          victim := cache.PutToken(token, device.value);
        }
      }
    }
  }

  // ----- whole runs -----

  ghost function After(table: Table, max: nat, run: seq<Call>): State {
    if run == [] then State(table, map[]) else Step(After(table, max, run[..|run|-1]), max, run[|run|-1])
  }

  /** The tokens drawn for registrations. */
  function NewTokens(run: seq<Call>): set<Token> {
    set i | 0 <= i < |run| && run[i].Register? :: run[i].newToken
  }

  /** Drawn tokens are new to the initial table and never repeat. */
  ghost predicate FreshTokens(table: Table, run: seq<Call>) {
    && NewTokens(run) !! StoredTokens(table)
    && forall i, j :: 0 <= i < j < |run| && run[i].Register? && run[j].Register? ==> run[i].newToken != run[j].newToken
  }

  /** Every cached token is the current token of the device it stands for. */
  ghost predicate CacheAgrees(s: State) {
    forall t :: t in s.cache ==> Holds(s.table, s.cache[t], t)
  }

  ghost predicate Good(s: State, max: nat) {
    DistinctHashes(s.table) && CacheAgrees(s) && |s.cache| <= if max == 0 then 1 else max
  }

  /** After an upsert the outcome's token is the device's, and all others keep theirs, the rotated one excepted. */
  lemma UpsertMovesOneToken(table: Table, req: Request, bearer: Option<Token>, newToken: Token, now: int,
                            device: DeviceId, token: Token)
    requires DistinctHashes(table)
    ensures var outcome := UpsertOutcome(table, req, bearer, newToken, now);
            var after := AfterUpsert(table, req, bearer, newToken, now);
            && (!outcome.Unverified? ==> Holds(after, req.device, outcome.device.pairingToken))
            && (outcome.Rotated? ==> bearer.Some? && Holds(table, req.device, bearer.value))
            && (Holds(table, device, token) && !(outcome.Rotated? && token == bearer.value) ==>
                  Holds(after, device, token))
  {
  }

  lemma PutAgrees(table: Table, cache: CacheMap, max: nat, token: Token, device: DeviceId, victim: Token)
    requires CacheAgrees(State(table, cache)) && Holds(table, device, token)
    requires |cache| <= if max == 0 then 1 else max
    ensures var after := AfterPut(cache, max, token, device, victim);
            CacheAgrees(State(table, after)) && |after| <= if max == 0 then 1 else max
  {
    PutKeepsBound(cache, max, token, device, victim);
  }

  lemma RegisterKeepsGood(s: State, max: nat, call: Call)
    requires Good(s, max) && call.Register? && call.newToken !in StoredTokens(s.table)
    ensures Good(Step(s, max, call), max)
  {
    UpsertKeepsHashesDistinct(s.table, call.req, call.bearer, call.newToken, call.now);
    var outcome := UpsertOutcome(s.table, call.req, call.bearer, call.newToken, call.now);
    var table := AfterUpsert(s.table, call.req, call.bearer, call.newToken, call.now);
    UpsertMovesOneToken(s.table, call.req, call.bearer, call.newToken, call.now, call.req.device, call.newToken);
    var kept := if outcome.Rotated? then s.cache - {call.bearer.value} else s.cache;
    assert kept.Keys <= s.cache.Keys;
    SubsetSize(kept.Keys, s.cache.Keys);
    forall t | t in kept
      ensures Holds(table, kept[t], t)
    {
      UpsertMovesOneToken(s.table, call.req, call.bearer, call.newToken, call.now, s.cache[t], t);
    }
    if !outcome.Unverified? {
      PutAgrees(table, kept, max, outcome.device.pairingToken, call.req.device, call.victim);
    }
  }

  lemma VerifyKeepsGood(s: State, max: nat, call: Call)
    requires Good(s, max) && call.Verify?
    ensures Good(Step(s, max, call), max) && Step(s, max, call).table == s.table
  {
    StoredExactly(s.table, call.token);
    var found := FindIdByToken(s.table, call.token);
    if call.token !in s.cache && found.Some? {
      PutAgrees(s.table, s.cache, max, call.token, found.value, call.victim);
    }
  }

  lemma {:induction false} RunsStayGood(table: Table, max: nat, run: seq<Call>)
    requires DistinctHashes(table) && FreshTokens(table, run)
    ensures Good(After(table, max, run), max)
    ensures StoredTokens(After(table, max, run).table) <= StoredTokens(table) + NewTokens(run)
  {
    if run != [] {
      var init, last := run[..|run|-1], run[|run|-1];
      assert forall k :: 0 <= k < |init| ==> init[k] == run[k];
      assert NewTokens(init) <= NewTokens(run);
      RunsStayGood(table, max, init);
      var s := After(table, max, init);
      if last.Register? {
        assert last.newToken in NewTokens(run);
        RegisterKeepsGood(s, max, last);
        UpsertKeepsHashesDistinct(s.table, last.req, last.bearer, last.newToken, last.now);
      } else {
        VerifyKeepsGood(s, max, last);
      }
    }
  }

  /**
    In every run, verify_token answers what the table alone would answer: the cache is never
    ahead of the table nor behind it, whatever was evicted.
   */
  lemma VerifyAgreesWithTable(table: Table, max: nat, run: seq<Call>, token: Token)
    requires DistinctHashes(table) && FreshTokens(table, run)
    ensures VerifyResult(After(table, max, run), token) == FindIdByToken(After(table, max, run).table, token)
  {
    RunsStayGood(table, max, run);
    var s := After(table, max, run);
    if token in s.cache {
      FoundById(s.table, s.cache[token], token);
    }
  }

  lemma FreshPrefix(table: Table, run: seq<Call>, n: nat)
    requires FreshTokens(table, run) && n <= |run|
    ensures FreshTokens(table, run[..n]) && NewTokens(run[..n]) <= NewTokens(run)
  {
    assert forall k :: 0 <= k < n ==> run[..n][k] == run[k];
    assert NewTokens(run[..n]) <= NewTokens(run);
  }

  /** The token drawn by call n is nobody's before it, and was never drawn before. */
  lemma DrawnTokenUnheld(table: Table, max: nat, run: seq<Call>, n: nat)
    requires DistinctHashes(table) && FreshTokens(table, run) && n < |run| && run[n].Register?
    ensures run[n].newToken !in StoredTokens(After(table, max, run[..n]).table)
    ensures run[n].newToken !in StoredTokens(table) + NewTokens(run[..n])
  {
    FreshPrefix(table, run, n);
    RunsStayGood(table, max, run[..n]);
    assert forall k :: 0 <= k < n ==> run[..n][k] == run[k];
    assert run[n].newToken in NewTokens(run);
  }

  /** The table alone: the cache never acts back on it. */
  function TableStep(table: Table, call: Call): Table {
    match call
    case Register(req, bearer, newToken, now, _) => AfterUpsert(table, req, bearer, newToken, now)
    case Verify(_, _) => table
  }

  lemma StepRevivesNothing(table: Table, call: Call, token: Token)
    requires DistinctHashes(table) && token !in StoredTokens(table)
    requires call.Register? && call.newToken !in StoredTokens(table) && call.newToken != token
    ensures token !in StoredTokens(TableStep(table, call))
  {
    UpsertKeepsHashesDistinct(table, call.req, call.bearer, call.newToken, call.now);
  }

  predicate Draws(call: Call, token: Token) {
    call.Register? && call.newToken == token
  }

  lemma NotDrawnAgain(table: Table, run: seq<Call>, n: nat, token: Token)
    requires FreshTokens(table, run) && n <= |run|
    requires token in StoredTokens(table) + NewTokens(run[..n])
    ensures forall k :: n <= k < |run| ==> !Draws(run[k], token)
  {
    if token in NewTokens(run[..n]) {
      var i :| 0 <= i < n && Draws(run[..n][i], token);
      assert Draws(run[i], token);
    } else {
      assert token !in NewTokens(run);
    }
  }

  function TableAfter(table: Table, run: seq<Call>): Table {
    if run == [] then table else TableStep(TableAfter(table, run[..|run|-1]), run[|run|-1])
  }

  lemma {:induction false} CacheNeverActsBack(table: Table, max: nat, run: seq<Call>)
    ensures After(table, max, run).table == TableAfter(table, run)
  {
    if run != [] {
      CacheNeverActsBack(table, max, run[..|run|-1]);
    }
  }

  lemma StaysDeadOneMore(table: Table, run: seq<Call>, m: nat, token: Token)
    requires DistinctHashes(table) && FreshTokens(table, run) && m < |run| && !Draws(run[m], token)
    requires token !in StoredTokens(TableAfter(table, run[..m]))
    ensures token !in StoredTokens(TableAfter(table, run[..m+1]))
  {
    FreshPrefix(table, run, m);
    RunsStayGood(table, 1, run[..m]);
    CacheNeverActsBack(table, 1, run[..m]);
    assert run[..m+1][..m] == run[..m];
    if run[m].Register? {
      DrawnTokenUnheld(table, 1, run, m);
      StepRevivesNothing(TableAfter(table, run[..m]), run[m], token);
    }
  }

  lemma {:induction false} UndrawnStaysDead(table: Table, run: seq<Call>, n: nat, m: nat, token: Token)
    requires DistinctHashes(table) && FreshTokens(table, run) && n <= m <= |run|
    requires forall k :: n <= k < |run| ==> !Draws(run[k], token)
    requires token !in StoredTokens(TableAfter(table, run[..n]))
    ensures token !in StoredTokens(TableAfter(table, run[..m]))
  {
    if n < m {
      UndrawnStaysDead(table, run, n, m - 1, token);
      StaysDeadOneMore(table, run, m - 1, token);
    }
  }

  /** Once a token is nobody's, it stays nobody's: no later registration draws it again. */
  lemma DeadTokenStaysDead(table: Table, max: nat, run: seq<Call>, n: nat, m: nat, token: Token)
    requires DistinctHashes(table) && FreshTokens(table, run) && n <= m <= |run|
    requires token in StoredTokens(table) + NewTokens(run[..n])
    requires token !in StoredTokens(After(table, max, run[..n]).table)
    ensures token !in StoredTokens(After(table, max, run[..m]).table)
  {
    NotDrawnAgain(table, run, n, token);
    CacheNeverActsBack(table, max, run[..n]);
    CacheNeverActsBack(table, max, run[..m]);
    UndrawnStaysDead(table, run, n, m, token);
  }

  lemma DrawnEarlier(run: seq<Call>, n: nat, m: nat)
    requires n <= m <= |run|
    ensures NewTokens(run[..n]) <= NewTokens(run[..m])
  {
    assert forall k :: 0 <= k < n ==> run[..n][k] == run[..m][k];
  }

  // ----- how long a token lives -----

  ghost predicate ClockOrdered(run: seq<Call>) {
    forall i, j :: 0 <= i < j < |run| && run[i].Register? && run[j].Register? ==> run[i].now <= run[j].now
  }

  function OutcomeAt(table: Table, run: seq<Call>, n: nat): Outcome
    requires n < |run| && run[n].Register?
  {
    UpsertOutcome(TableAfter(table, run[..n]), run[n].req, run[n].bearer, run[n].newToken, run[n].now)
  }

  predicate Issues(o: Outcome) {
    o.Created? || o.Rotated?
  }

  /** The stored issue time of `device` is `at`, up to the second it was cut to, or later. */
  predicate IssuedSince(table: Table, device: DeviceId, at: int) {
    device in table && table[device].issuedAt * 1_000 > at - 1_000
  }

  lemma StepKeepsIssueTime(table: Table, call: Call, device: DeviceId, at: int)
    requires call.Register? ==> at <= call.now
    requires IssuedSince(table, device, at) ||
             (call.Register? && call.req.device == device &&
              Issues(UpsertOutcome(table, call.req, call.bearer, call.newToken, call.now)))
    ensures IssuedSince(TableStep(table, call), device, at)
  {
    if call.Register? {
      UpsertTouchesOneRow(table, call.req, call.bearer, call.newToken, call.now);
      if call.req.device != device {
        assert device in table - {call.req.device};
        assert device in TableStep(table, call) - {call.req.device};
      }
    }
  }

  lemma {:induction false} IssueTimeHolds(table: Table, run: seq<Call>, i: nat, m: nat)
    requires ClockOrdered(run) && i < m <= |run| && run[i].Register? && Issues(OutcomeAt(table, run, i))
    ensures IssuedSince(TableAfter(table, run[..m]), run[i].req.device, run[i].now)
  {
    if i < m - 1 {
      IssueTimeHolds(table, run, i, m - 1);
    }
    assert run[..m][..m-1] == run[..m-1];
    StepKeepsIssueTime(TableAfter(table, run[..m-1]), run[m-1], run[i].req.device, run[i].now);
  }

  /**
    A token, once issued, is good for a day: between an issue and any later rotation of the same
    device lies the whole lifetime, short of the second to which the issue time is cut.
   */
  lemma TokensLiveADay(table: Table, run: seq<Call>, i: nat, j: nat)
    requires ClockOrdered(run) && i < j < |run| && run[i].Register? && run[j].Register?
    requires run[i].req.device == run[j].req.device
    requires Issues(OutcomeAt(table, run, i)) && OutcomeAt(table, run, j).Rotated?
    ensures run[j].now - run[i].now > DEVICE_TOKEN_TTL - 1_000
  {
    IssueTimeHolds(table, run, i, j);
  }

  /** No registration of the device between i and j was answered with a rotation. */
  predicate Unrotated(table: Table, run: seq<Call>, device: DeviceId, i: nat, j: nat)
    requires j <= |run|
  {
    forall k :: i < k < j && run[k].Register? && run[k].req.device == device ==> !OutcomeAt(table, run, k).Rotated?
  }

  lemma StepKeepsToken(table: Table, call: Call, device: DeviceId, token: Token)
    requires Holds(table, device, token)
    requires call.Register? && call.req.device == device ==>
               !UpsertOutcome(table, call.req, call.bearer, call.newToken, call.now).Rotated?
    ensures Holds(TableStep(table, call), device, token)
    ensures TableStep(table, call)[device].issuedAt == table[device].issuedAt
  {
    if call.Register? {
      UpsertTouchesOneRow(table, call.req, call.bearer, call.newToken, call.now);
      if call.req.device != device {
        assert device in table - {call.req.device};
        assert device in TableStep(table, call) - {call.req.device};
        assert (TableStep(table, call) - {call.req.device})[device] == (table - {call.req.device})[device];
      }
    }
  }

  lemma {:induction false} HeldSince(table: Table, run: seq<Call>, i: nat, m: nat)
    requires i < m <= |run| && run[i].Register? && Issues(OutcomeAt(table, run, i))
    requires Unrotated(table, run, run[i].req.device, i, m)
    ensures Holds(TableAfter(table, run[..m]), run[i].req.device, run[i].newToken)
    ensures TableAfter(table, run[..m])[run[i].req.device].issuedAt == run[i].now / 1_000
  {
    assert run[..m][..m-1] == run[..m-1];
    if i < m - 1 {
      HeldSince(table, run, i, m - 1);
      StepKeepsToken(TableAfter(table, run[..m-1]), run[m-1], run[i].req.device, run[i].newToken);
    } else {
      var c := run[i];
      UpsertTouchesOneRow(TableAfter(table, run[..i]), c.req, c.bearer, c.newToken, c.now);
    }
  }

  /**
    The life of a token over whole runs: while no rotation comes in between, whoever shows the issued token is
    told the same token again for a day after its issue, and a new one later; nobody else is told any.
   */
  lemma {:induction false} HolderDecided(table: Table, run: seq<Call>, i: nat, j: nat)
    requires i < j < |run| && run[i].Register? && run[j].Register? && run[i].req.device == run[j].req.device
    requires Issues(OutcomeAt(table, run, i)) && Unrotated(table, run, run[i].req.device, i, j)
    ensures var told, outcome := OutcomeAt(table, run, i).device.pairingToken, OutcomeAt(table, run, j);
            var young := run[j].now <= run[i].now / 1_000 * 1_000 + 86_400_000;
            && told == run[i].newToken
            && (outcome.Reused? <==> run[j].bearer == Some(told) && young)
            && (outcome.Rotated? <==> run[j].bearer == Some(told) && !young)
            && (outcome.Unverified? <==> run[j].bearer != Some(told))
            && (outcome.Reused? ==> outcome.device.pairingToken == told)
            && (outcome.Rotated? ==> outcome.device.pairingToken == run[j].newToken)
  {
    var c, d := run[i], run[j];
    HeldSince(table, run, i, j);
    UpsertTouchesOneRow(TableAfter(table, run[..i]), c.req, c.bearer, c.newToken, c.now);
    RegistrationDecided(TableAfter(table, run[..j]), d.req, d.bearer, d.newToken, d.now);
  }

  // ----- what the cache saves -----

  /** A token that was just verified or handed out is in the cache: its next verification asks no table. */
  lemma CacheWarms(s: State, max: nat, call: Call)
    requires Good(s, max)
    ensures var t := Step(s, max, call);
            && (call.Verify? && FindIdByToken(s.table, call.token).Some? ==> call.token in t.cache)
            && (call.Register? ==>
                  var outcome := UpsertOutcome(s.table, call.req, call.bearer, call.newToken, call.now);
                  !outcome.Unverified? ==>
                    outcome.device.pairingToken in t.cache && t.cache[outcome.device.pairingToken] == call.req.device)
  {
  }

  // ----- rotation -----

  /** The step of a rotation: the bearer's token is nobody's any more, the drawn one is the device's. */
  lemma RotationStep(s: State, max: nat, call: Call)
    requires Good(s, max) && call.Register? && call.newToken !in StoredTokens(s.table)
    requires UpsertOutcome(s.table, call.req, call.bearer, call.newToken, call.now).Rotated?
    ensures call.bearer.Some? && call.bearer.value in StoredTokens(s.table)
    ensures call.bearer.value !in StoredTokens(Step(s, max, call).table)
    ensures Holds(Step(s, max, call).table, call.req.device, call.newToken)
  {
    assert s.table[call.req.device].hash.token in StoredTokens(s.table);
  }

  /**
    After a rotation the new token is accepted at once, and the old one is refused at every
    later point of the run.
   */
  lemma RotationIsFinal(table: Table, max: nat, run: seq<Call>, n: nat, m: nat)
    requires DistinctHashes(table) && FreshTokens(table, run) && n < m <= |run| && run[n].Register?
    requires var before := After(table, max, run[..n]).table;
             UpsertOutcome(before, run[n].req, run[n].bearer, run[n].newToken, run[n].now).Rotated?
    ensures run[n].bearer.Some?
    ensures VerifyResult(After(table, max, run[..n+1]), run[n].newToken) == Some(run[n].req.device)
    ensures VerifyResult(After(table, max, run[..m]), run[n].bearer.value) == None
  {
    FreshPrefix(table, run, n);
    FreshPrefix(table, run, n + 1);
    FreshPrefix(table, run, m);
    RunsStayGood(table, max, run[..n]);
    RunsStayGood(table, max, run[..n+1]);
    DrawnTokenUnheld(table, max, run, n);
    RotationStep(After(table, max, run[..n]), max, run[n]);
    assert run[..n+1][..n] == run[..n];
    VerifyAgreesWithTable(table, max, run[..n+1], run[n].newToken);
    FoundById(After(table, max, run[..n+1]).table, run[n].req.device, run[n].newToken);
    DrawnEarlier(run, n, n + 1);
    DeadTokenStaysDead(table, max, run, n + 1, m, run[n].bearer.value);
    VerifyAgreesWithTable(table, max, run[..m], run[n].bearer.value);
    StoredExactly(After(table, max, run[..m]).table, run[n].bearer.value);
  }
}
