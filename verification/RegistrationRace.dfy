/**
  Concurrent registrations, one SQL statement at a time: the first SELECT, the INSERT with
  ON CONFLICT DO NOTHING, the second SELECT when that INSERT touched nothing, and the UPDATE
  of a verified device. Any number of registrations of any devices interleave; rows are
  not deleted meanwhile.
 */
module RegistrationRace {
  import opened Wrappers
  import opened DeviceRepo

  type CallId = nat

  /** Where a registration stands; `Updating` has read and verified `row`. */
  datatype Stage = Selecting | Inserting | Reselecting | Updating(row: Row) | Finished(outcome: Outcome)

  /** `now` is read once, when the request arrives. */
  datatype Registration = Registration(req: Request, bearer: Option<Token>, newToken: Token, now: int, stage: Stage)

  datatype World = World(table: Table, calls: map<CallId, Registration>)

  /** What a registration does once it holds the row of its device. */
  function OnRow(r: Registration, row: Row): Stage {
    if Verified(row, r.bearer) then Updating(row) else Finished(Unverified)
  }

  function NextStage(table: Table, r: Registration): Stage {
    match r.stage
    case Selecting => if r.req.device in table then OnRow(r, table[r.req.device]) else Inserting
    case Inserting =>
      if r.req.device in table then Reselecting
      else Finished(Created(Device(r.req.device, r.req.name, r.req.ip, r.req.port, r.newToken, r.now)))
    case Reselecting => if r.req.device in table then OnRow(r, table[r.req.device]) else r.stage
    case Updating(row) => Finished(MatchOutcome(row, r.req, r.bearer, r.newToken, r.now))
    case Finished(_) => r.stage
  }

  function NextTable(table: Table, r: Registration): Table {
    match r.stage
    case Inserting => AfterInsert(table, r.req, r.newToken, r.now)
    case Updating(row) => AfterMatch(table, row, r.req, r.bearer, r.newToken, r.now)
    case _ => table
  }

  /** One statement of one registration. */
  function Step(w: World, c: CallId): World {
    if c !in w.calls then w
    else
      var r := w.calls[c];
      World(NextTable(w.table, r), w.calls[c := r.(stage := NextStage(w.table, r))])
  }

  /** A schedule says whose turn it is, again and again. */
  function After(w: World, schedule: seq<CallId>): (v: World)
    ensures v.calls.Keys == w.calls.Keys
  {
    if schedule == [] then w else Step(After(w, schedule[..|schedule|-1]), schedule[|schedule|-1])
  }

  ghost predicate AllStarting(w: World) {
    forall c :: c in w.calls ==> w.calls[c].stage.Selecting?
  }

  predicate Won(w: World, c: CallId, device: DeviceId) {
    c in w.calls && w.calls[c].req.device == device && w.calls[c].stage.Finished? && w.calls[c].stage.outcome.Created?
  }

  /** Nobody registering `device` shows a token. */
  ghost predicate NoBearers(w: World, device: DeviceId) {
    forall c :: c in w.calls && w.calls[c].req.device == device ==> w.calls[c].bearer.None?
  }

  ghost predicate RaceInvariant(w: World, device: DeviceId) {
    && (device in w.table <==> exists c :: Won(w, c, device))
    && (forall c, d :: Won(w, c, device) && Won(w, d, device) ==> c == d)
    && (forall c :: c in w.calls && w.calls[c].req.device == device ==>
          w.calls[c].stage.Selecting? || w.calls[c].stage.Inserting? || device in w.table)
  }

  /** Without bearers nothing is ever updated, and the stored digest is the winner's. */
  ghost predicate BareInvariant(w: World, device: DeviceId) {
    && (forall c :: c in w.calls && w.calls[c].req.device == device ==>
          !w.calls[c].stage.Updating? &&
          (w.calls[c].stage.Finished? ==> w.calls[c].stage.outcome.Created? || w.calls[c].stage.outcome.Unverified?))
    && (forall c :: Won(w, c, device) ==>
          (Holds(w.table, device, w.calls[c].newToken) &&
           w.calls[c].stage.outcome.device.pairingToken == w.calls[c].newToken))
  }

  lemma RaceStep(w: World, c: CallId, device: DeviceId)
    requires RaceInvariant(w, device)
    ensures RaceInvariant(Step(w, c), device)
  {
    var v := Step(w, c);
    if c in w.calls {
      var r := w.calls[c];
      forall d | d != c
        ensures Won(v, d, device) == Won(w, d, device)
      {
      }
      if r.req.device == device && r.stage.Inserting? && device !in w.table {
        assert Won(v, c, device);
        assert forall d :: !Won(w, d, device);
      } else {
        assert Won(v, c, device) == Won(w, c, device);
        assert device in v.table <==> device in w.table;
      }
      if device in v.table && device in w.table {
        var d :| Won(w, d, device);
        assert Won(v, d, device);
      }
    }
  }

  lemma BareStep(w: World, c: CallId, device: DeviceId)
    requires RaceInvariant(w, device) && NoBearers(w, device) && BareInvariant(w, device)
    ensures BareInvariant(Step(w, c), device) && NoBearers(Step(w, c), device)
  {
  }

  lemma {:induction false} RunKeepsRace(w: World, schedule: seq<CallId>, device: DeviceId)
    requires AllStarting(w) && device !in w.table
    ensures RaceInvariant(After(w, schedule), device)
    ensures NoBearers(w, device) ==> BareInvariant(After(w, schedule), device) && NoBearers(After(w, schedule), device)
    ensures forall c :: c in w.calls ==>
              After(w, schedule).calls[c] == w.calls[c].(stage := After(w, schedule).calls[c].stage)
  {
    if schedule != [] {
      var init, c := schedule[..|schedule|-1], schedule[|schedule|-1];
      RunKeepsRace(w, init, device);
      RaceStep(After(w, init), c, device);
      if NoBearers(w, device) {
        BareStep(After(w, init), c, device);
      }
    }
  }

  /**
    One winner per new device: however many registrations race and whatever tokens they show,
    at most one is ever told "created", and as soon as any of them has finished, exactly one is.
   */
  lemma OneWinner(w: World, schedule: seq<CallId>, device: DeviceId, c: CallId)
    requires AllStarting(w) && device !in w.table
    requires c in w.calls && w.calls[c].req.device == device
    requires After(w, schedule).calls[c].stage.Finished?
    ensures exists winner :: Won(After(w, schedule), winner, device) &&
              forall d :: Won(After(w, schedule), d, device) ==> d == winner
  {
    RunKeepsRace(w, schedule, device);
  }

  /**
    When none of them shows a token, everybody else is refused and the stored digest is that of
    the token the winner was given.
   */
  lemma LosersUnverified(w: World, schedule: seq<CallId>, device: DeviceId, winner: CallId, c: CallId)
    requires AllStarting(w) && device !in w.table && NoBearers(w, device)
    requires Won(After(w, schedule), winner, device)
    requires c in w.calls && w.calls[c].req.device == device && c != winner
    ensures var v := After(w, schedule);
            && Holds(v.table, device, w.calls[winner].newToken)
            && v.calls[winner].stage.outcome.device.pairingToken == w.calls[winner].newToken
            && (v.calls[c].stage.Finished? ==> v.calls[c].stage.outcome.Unverified?)
  {
    RunKeepsRace(w, schedule, device);
  }

  function Remaining(stage: Stage): nat {
    match stage
    case Selecting => 4
    case Inserting => 3
    case Reselecting => 2
    case Updating(_) => 1
    case Finished(_) => 0
  }

  function Turns(schedule: seq<CallId>, c: CallId): nat {
    if schedule == [] then 0
    else Turns(schedule[..|schedule|-1], c) + (if schedule[|schedule|-1] == c then 1 else 0)
  }

  /** Nobody is left waiting: four turns finish any registration, whatever the others do in between. */
  lemma {:induction false} FourTurnsFinish(w: World, schedule: seq<CallId>, c: CallId)
    requires AllStarting(w) && c in w.calls && w.calls[c].req.device !in w.table
    ensures Remaining(After(w, schedule).calls[c].stage) + Turns(schedule, c) <= 4 ||
            After(w, schedule).calls[c].stage.Finished?
    ensures Turns(schedule, c) >= 4 ==> After(w, schedule).calls[c].stage.Finished?
  {
    if schedule != [] {
      var init := schedule[..|schedule|-1];
      FourTurnsFinish(w, init, c);
      RunKeepsRace(w, init, w.calls[c].req.device);
    }
  }

  /** A registration that is not interrupted does exactly what the upsert of the repository says. */
  lemma {:induction false} SoloRunIsUpsert(w: World, c: CallId)
    requires c in w.calls && w.calls[c].stage.Selecting?
    ensures var r := w.calls[c]; var v := After(w, [c, c, c, c]);
            && v.table == AfterUpsert(w.table, r.req, r.bearer, r.newToken, r.now)
            && v.calls[c].stage == Finished(UpsertOutcome(w.table, r.req, r.bearer, r.newToken, r.now))
  {
    assert [c, c, c, c][..3] == [c, c, c];
    assert [c, c, c][..2] == [c, c];
    assert [c, c][..1] == [c];
    assert [c][..0] == [];
    var v1 := Step(w, c);
    var v2 := Step(v1, c);
    var v3 := Step(v2, c);
    assert After(w, [c]) == v1;
    assert After(w, [c, c]) == v2;
    assert After(w, [c, c, c]) == v3;
  }

  // ----- known devices: whose token is stored -----

  /** A registration keeps its request; and whoever is past its SELECT found the row, or will find it. */
  ghost predicate Sensible(w: World, v: World) {
    && v.calls.Keys == w.calls.Keys
    && (forall c :: c in w.calls ==> v.calls[c] == w.calls[c].(stage := v.calls[c].stage))
    && (forall c :: c in v.calls && (v.calls[c].stage.Reselecting? || v.calls[c].stage.Updating?) ==>
          v.calls[c].req.device in v.table)
  }

  lemma SensibleStep(w: World, v: World, c: CallId)
    requires Sensible(w, v)
    ensures Sensible(w, Step(v, c))
  {
  }

  lemma {:induction false} RunsStaySensible(w: World, schedule: seq<CallId>)
    requires AllStarting(w)
    ensures Sensible(w, After(w, schedule))
  {
    if schedule != [] {
      RunsStaySensible(w, schedule[..|schedule|-1]);
      SensibleStep(w, After(w, schedule[..|schedule|-1]), schedule[|schedule|-1]);
    }
  }

  /** The next statement of the call stores the token drawn for it. */
  predicate StoresToken(w: World, c: CallId) {
    && c in w.calls
    && var r := w.calls[c];
       || (r.stage.Inserting? && r.req.device !in w.table)
       || (r.stage.Updating? && MatchOutcome(r.stage.row, r.req, r.bearer, r.newToken, r.now).Rotated?)
  }

  /** The call that stored a token for `device` last, if any did. */
  function LastStorer(w: World, schedule: seq<CallId>, device: DeviceId): Option<CallId> {
    if schedule == [] then None
    else
      var init, c := schedule[..|schedule|-1], schedule[|schedule|-1];
      if StoresToken(After(w, init), c) && After(w, init).calls[c].req.device == device
      then Some(c) else LastStorer(w, init, device)
  }

  /** The call was told a token drawn for it: created or rotated. */
  predicate Issued(w: World, c: CallId) {
    && c in w.calls && w.calls[c].stage.Finished?
    && (w.calls[c].stage.outcome.Created? || w.calls[c].stage.outcome.Rotated?)
  }

  ghost predicate StoredBy(w: World, v: World, device: DeviceId, last: Option<CallId>) {
    match last
    case Some(c) =>
      c in v.calls && v.calls[c].req.device == device && Issued(v, c) && Holds(v.table, device, v.calls[c].newToken)
    case None =>
      && (device in v.table <==> device in w.table)
      && (device in w.table ==> v.table[device].hash == w.table[device].hash)
      && (forall c :: c in v.calls && v.calls[c].req.device == device ==> !Issued(v, c))
  }

  /** The storing call is told its token by that statement, and the row then holds it. */
  lemma StorerStep(w: World, v: World, c: CallId)
    requires Sensible(w, v) && StoresToken(v, c)
    ensures Issued(Step(v, c), c) && Step(v, c).calls[c].req == v.calls[c].req
    ensures Holds(Step(v, c).table, v.calls[c].req.device, v.calls[c].newToken)
    ensures Step(v, c).calls[c].newToken == v.calls[c].newToken
  {
  }

  /** Any other statement leaves the stored hash alone, and tells nobody a new token. */
  lemma OtherStep(w: World, v: World, c: CallId, device: DeviceId)
    requires Sensible(w, v) && !(StoresToken(v, c) && v.calls[c].req.device == device)
    ensures device in Step(v, c).table <==> device in v.table
    ensures device in v.table ==> Step(v, c).table[device].hash == v.table[device].hash
    ensures forall d :: d in v.calls && v.calls[d].req.device == device ==> (Issued(Step(v, c), d) <==> Issued(v, d))
  {
  }

  /** After any run the stored hash is that of the token stored last, or the one from before the run. */
  lemma {:induction false} StoredIsTheLast(w: World, schedule: seq<CallId>, device: DeviceId)
    requires AllStarting(w)
    ensures StoredBy(w, After(w, schedule), device, LastStorer(w, schedule, device))
  {
    if schedule != [] {
      var init, c := schedule[..|schedule|-1], schedule[|schedule|-1];
      var v := After(w, init);
      StoredIsTheLast(w, init, device);
      RunsStaySensible(w, init);
      if StoresToken(v, c) && v.calls[c].req.device == device {
        StorerStep(w, v, c);
      } else {
        OtherStep(w, v, c, device);
      }
    }
  }

  /**
    Whatever the interleaving of registrations of a device, known or not, and whatever bearers they show:
    of the tokens they were told to have been drawn for them, exactly the one stored last is accepted.
   */
  lemma {:induction false} OnlyTheLastTokenCounts(w: World, schedule: seq<CallId>, device: DeviceId, c: CallId)
    requires AllStarting(w) && Issued(After(w, schedule), c) && w.calls[c].req.device == device
    requires forall d :: d in w.calls && d != c ==> w.calls[d].newToken != w.calls[c].newToken
    ensures Holds(After(w, schedule).table, device, w.calls[c].newToken) <==> LastStorer(w, schedule, device) == Some(c)
  {
    StoredIsTheLast(w, schedule, device);
    RunsStaySensible(w, schedule);
  }

  /**
    Two registrations that show the same token, both due for rotation, are both rotated; the first is told a
    token that is dead by then.
   */
  lemma {:induction false} BothRotate(w: World, c: CallId, d: CallId)
    requires AllStarting(w) && c in w.calls && d in w.calls && c != d
    requires w.calls[c].req.device == w.calls[d].req.device && w.calls[c].newToken != w.calls[d].newToken
    requires forall e :: e in {c, d} ==>
               && w.calls[e].req.device in w.table
               && Verified(w.table[w.calls[e].req.device], w.calls[e].bearer)
               && DueForRotation(w.table[w.calls[e].req.device], w.calls[e].now)
    ensures var v := After(w, [c, d, c, d]);
            && (forall e :: e in {c, d} ==> Issued(v, e) && v.calls[e].stage.outcome.Rotated?)
            && v.calls[c].stage.outcome.device.pairingToken == w.calls[c].newToken
            && Holds(v.table, w.calls[d].req.device, w.calls[d].newToken)
            && !Holds(v.table, w.calls[c].req.device, w.calls[c].newToken)
  {
    assert [c, d, c, d][..3] == [c, d, c];
    assert [c, d, c][..2] == [c, d];
    assert [c, d][..1] == [c];
    assert [c][..0] == [];
    assert c in {c, d} && d in {c, d};
    var row := w.table[w.calls[c].req.device];
    var v1 := Step(w, c);
    var v2 := Step(v1, d);
    var v3 := Step(v2, c);
    assert After(w, [c]) == v1 && v1.table == w.table && v1.calls[c].stage == Updating(row);
    assert After(w, [c, d]) == v2 && v2.table == w.table && v2.calls[d].stage == Updating(row);
    assert After(w, [c, d, c]) == v3 && v3.calls[d] == v2.calls[d];
  }

  /** Whoever finds the row already there on inserting it is answered as if it had found it at once. */
  lemma {:induction false} ConflictIsUpsert(w: World, c: CallId)
    requires c in w.calls && w.calls[c].stage.Inserting? && w.calls[c].req.device in w.table
    ensures var r := w.calls[c]; var v := After(w, [c, c, c]);
            && v.table == AfterUpsert(w.table, r.req, r.bearer, r.newToken, r.now)
            && v.calls[c].stage == Finished(UpsertOutcome(w.table, r.req, r.bearer, r.newToken, r.now))
  {
    assert [c, c, c][..2] == [c, c];
    assert [c, c][..1] == [c];
    assert [c][..0] == [];
    var v1 := Step(w, c);
    var v2 := Step(v1, c);
    assert After(w, [c]) == v1;
    assert After(w, [c, c]) == v2;
  }
}
