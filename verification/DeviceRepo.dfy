/**
  The device table of the pairing server and the statements that change it. Each function
  `After...` is one SQL statement, hence one atomic step. The token digest is injective;
  rows migrated from an older schema carry no digest. Clocks are milliseconds, stored
  timestamps whole seconds.
 */
module DeviceRepo {
  import opened Wrappers

  type DeviceId = nat
  type Token = string

  const DEVICE_TOKEN_TTL := 24 * 60 * 60 * 1_000

  datatype Hash = NoHash | Digest(token: Token)

  datatype Row = Row(name: Option<string>, ip: string, port: nat, online: bool, lastSeen: int,
                     createdAt: int, hash: Hash, issuedAt: int)

  type Table = map<DeviceId, Row>

  datatype Request = Request(device: DeviceId, name: Option<string>, ip: string, port: nat)

  /** What a successful registration returns; `createdAt` is in milliseconds again. */
  datatype Device = Device(id: DeviceId, name: Option<string>, ip: string, port: nat, pairingToken: Token,
                           createdAt: int)

  datatype Outcome = Created(device: Device) | Reused(device: Device) | Rotated(device: Device) | Unverified

  function Seconds(ms: int): int {
    ms / 1_000
  }

  function Or(a: Option<string>, b: Option<string>): Option<string> {
    if a.Some? then a else b
  }

  /** INSERT ... ON CONFLICT(id) DO NOTHING */
  function AfterInsert(table: Table, req: Request, newToken: Token, now: int): Table {
    if req.device in table then table
    else
      var at := Seconds(now);
      table[req.device := Row(req.name, req.ip, req.port, true, at, at, Digest(newToken), at)]
  }

  function AfterMarkOnline(table: Table, req: Request, now: int): Table {
    if req.device !in table then table
    else table[req.device := table[req.device].(ip := req.ip, port := req.port, online := true,
                                                lastSeen := Seconds(now))]
  }

  function AfterRotate(table: Table, req: Request, newToken: Token, now: int): Table {
    if req.device !in table then table
    else table[req.device := table[req.device].(ip := req.ip, port := req.port, hash := Digest(newToken),
                                                issuedAt := Seconds(now), online := true, lastSeen := Seconds(now))]
  }

  predicate Verified(row: Row, bearer: Option<Token>) {
    bearer.Some? && row.hash != NoHash && Digest(bearer.value) == row.hash
  }

  predicate DueForRotation(row: Row, now: int) {
    now - row.issuedAt * 1_000 > DEVICE_TOKEN_TTL
  }

  /** match_existing: what becomes of a request for a device whose row was read as `row`. */
  function MatchOutcome(row: Row, req: Request, bearer: Option<Token>, newToken: Token, now: int): Outcome {
    if !Verified(row, bearer) then Unverified
    else if DueForRotation(row, now)
    then Rotated(Device(req.device, Or(req.name, row.name), req.ip, req.port, newToken, row.createdAt * 1_000))
    else Reused(Device(req.device, Or(req.name, row.name), req.ip, req.port, bearer.value, row.createdAt * 1_000))
  }

  function AfterMatch(table: Table, row: Row, req: Request, bearer: Option<Token>, newToken: Token, now: int): Table {
    match MatchOutcome(row, req, bearer, newToken, now)
    case Rotated(_) => AfterRotate(table, req, newToken, now)
    case Reused(_) => AfterMarkOnline(table, req, now)
    case _ => table
  }

  function UpsertOutcome(table: Table, req: Request, bearer: Option<Token>, newToken: Token, now: int): Outcome {
    if req.device in table then MatchOutcome(table[req.device], req, bearer, newToken, now)
    else Created(Device(req.device, req.name, req.ip, req.port, newToken, now))
  }

  function AfterUpsert(table: Table, req: Request, bearer: Option<Token>, newToken: Token, now: int): Table {
    if req.device in table then AfterMatch(table, table[req.device], req, bearer, newToken, now)
    else AfterInsert(table, req, newToken, now)
  }

  predicate Holds(table: Table, device: DeviceId, token: Token) {
    device in table && table[device].hash == Digest(token)
  }

  /** find_id_by_token */
  ghost function FindIdByToken(table: Table, token: Token): Option<DeviceId> {
    if exists d :: Holds(table, d, token) then
      var d :| Holds(table, d, token);
      Some(d)
    else None
  }

  function StoredTokens(table: Table): set<Token> {
    set d | d in table && table[d].hash.Digest? :: table[d].hash.token
  }

  ghost predicate DistinctHashes(table: Table) {
    forall d, e :: d in table && e in table && table[d].hash == table[e].hash && table[d].hash.Digest? ==> d == e
  }

  lemma FoundById(table: Table, device: DeviceId, token: Token)
    requires DistinctHashes(table) && Holds(table, device, token)
    ensures FindIdByToken(table, token) == Some(device)
  {
  }

  lemma StoredExactly(table: Table, token: Token)
    ensures token in StoredTokens(table) <==> FindIdByToken(table, token).Some?
    ensures FindIdByToken(table, token).Some? ==> Holds(table, FindIdByToken(table, token).value, token)
  {
    if exists d :: Holds(table, d, token) {
      var d :| Holds(table, d, token);
      assert table[d].hash.token == token;
    }
    if token in StoredTokens(table) {
      var d :| d in table && table[d].hash.Digest? && table[d].hash.token == token;
      assert Holds(table, d, token);
    }
  }

  /** One registration with a token nobody holds keeps digests distinct and adds at most that token. */
  lemma UpsertKeepsHashesDistinct(table: Table, req: Request, bearer: Option<Token>, newToken: Token, now: int)
    requires DistinctHashes(table) && newToken !in StoredTokens(table)
    ensures DistinctHashes(AfterUpsert(table, req, bearer, newToken, now))
    ensures StoredTokens(AfterUpsert(table, req, bearer, newToken, now)) <= StoredTokens(table) + {newToken}
  {
    assert forall d :: d in table && table[d].hash.Digest? ==> table[d].hash.token in StoredTokens(table);
  }

  /**
    Registration touches the row of its own device and no other, and only when it succeeds; then the row
    is online at the request's address, and its token changes exactly when the outcome says so.
   */
  lemma UpsertTouchesOneRow(table: Table, req: Request, bearer: Option<Token>, newToken: Token, now: int)
    ensures var outcome := UpsertOutcome(table, req, bearer, newToken, now);
            var after := AfterUpsert(table, req, bearer, newToken, now);
            && after - {req.device} == table - {req.device}
            && (outcome.Unverified? ==> after == table)
            && (outcome.Created? <==> req.device !in table)
            && (!outcome.Unverified? ==>
                  && req.device in after
                  && var row := after[req.device];
                     && row.online && row.lastSeen == Seconds(now)
                     && row.ip == req.ip == outcome.device.ip && row.port == req.port == outcome.device.port
                     && row.hash == Digest(outcome.device.pairingToken)
                     && (outcome.Reused? ==>
                           row.hash == table[req.device].hash && row.issuedAt == table[req.device].issuedAt)
                     && (!outcome.Reused? ==> outcome.device.pairingToken == newToken && row.issuedAt == Seconds(now))
                     && (outcome.Created? ==> row.createdAt == Seconds(now) && row.name == req.name)
                     && outcome.device.id == req.device
                     && outcome.device.createdAt ==
                        (if outcome.Created? then now else table[req.device].createdAt * 1_000)
                     && (!outcome.Created? ==>
                           row.createdAt == table[req.device].createdAt && row.name == table[req.device].name))
  {
  }

  /**
    What becomes of a registration of a known device: whoever does not hold its token is refused; the holder
    keeps it for a day after it was issued, and gets a new one later.
   */
  lemma RegistrationDecided(table: Table, req: Request, bearer: Option<Token>, newToken: Token, now: int)
    requires req.device in table
    ensures var outcome := UpsertOutcome(table, req, bearer, newToken, now);
            var held := bearer.Some? && Holds(table, req.device, bearer.value);
            var young := now <= table[req.device].issuedAt * 1_000 + 86_400_000;
            && (outcome.Unverified? <==> !held)
            && (outcome.Reused? <==> held && young)
            && (outcome.Rotated? <==> held && !young)
            && (outcome.Reused? ==> outcome.device.pairingToken == bearer.value)
            && (outcome.Rotated? ==> outcome.device.pairingToken == newToken)
  {
  }

  /** A device that registers again under a new name is told that name, but the table keeps the old one. */
  lemma EchoedNameExactly(table: Table, req: Request, bearer: Option<Token>, newToken: Token, now: int)
    requires !UpsertOutcome(table, req, bearer, newToken, now).Unverified?
    ensures UpsertOutcome(table, req, bearer, newToken, now).device.name ==
            AfterUpsert(table, req, bearer, newToken, now)[req.device].name <==>
            req.device !in table || req.name.None? || req.name == table[req.device].name
  {
  }

  /** The repository: `upsert` runs its statements one after another. */
  class Repo {
    var table: Table

    constructor (table: Table)
      ensures this.table == table
    {
      this.table := table;
    }

    method MarkOnline(req: Request, now: int)
      modifies this
      ensures table == AfterMarkOnline(old(table), req, now)
    {
      if req.device in table {
        var row := table[req.device];
        table := table[req.device := row.(ip := req.ip, port := req.port, online := true, lastSeen := Seconds(now))];
      }
    }

    method RotateToken(req: Request, newToken: Token, now: int)
      modifies this
      ensures table == AfterRotate(old(table), req, newToken, now)
    {
      if req.device in table {
        var row := table[req.device];
        table := table[req.device := row.(ip := req.ip, port := req.port, hash := Digest(newToken),
                                          issuedAt := Seconds(now), online := true, lastSeen := Seconds(now))];
      }
    }

    method MatchExisting(row: Row, req: Request, bearer: Option<Token>, newToken: Token, now: int)
      returns (outcome: Outcome)
      modifies this
      ensures outcome == MatchOutcome(row, req, bearer, newToken, now)
      ensures table == AfterMatch(old(table), row, req, bearer, newToken, now)
    {
      if !Verified(row, bearer) {
        return Unverified;
      }
      if DueForRotation(row, now) {
        RotateToken(req, newToken, now);
        return Rotated(Device(req.device, Or(req.name, row.name), req.ip, req.port, newToken, row.createdAt * 1_000));
      }
      MarkOnline(req, now);
      return Reused(Device(req.device, Or(req.name, row.name), req.ip, req.port, bearer.value, row.createdAt * 1_000));
    }

    method InsertIfAbsent(req: Request, newToken: Token, now: int) returns (rowsAffected: nat)
      modifies this
      ensures table == AfterInsert(old(table), req, newToken, now)
      ensures rowsAffected == if req.device in old(table) then 0 else 1
      ensures req.device in table
    {
      if req.device in table {
        return 0;
      }
      var at := Seconds(now);
      table := table[req.device := Row(req.name, req.ip, req.port, true, at, at, Digest(newToken), at)];
      return 1;
    }

    method Upsert(req: Request, bearer: Option<Token>, newToken: Token, now: int) returns (outcome: Outcome)
      modifies this
      ensures outcome == UpsertOutcome(old(table), req, bearer, newToken, now)
      ensures table == AfterUpsert(old(table), req, bearer, newToken, now)
    {
      if req.device in table {
        outcome := MatchExisting(table[req.device], req, bearer, newToken, now);
        return;
      }
      // Nothing ran in between, so the row is inserted; RegistrationRace has the concurrent case.
      var rowsAffected := InsertIfAbsent(req, newToken, now);
      assert rowsAffected == 1;
      outcome := Created(Device(req.device, req.name, req.ip, req.port, newToken, now));
    }
  }
}
