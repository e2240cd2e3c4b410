/**
  Batched heartbeat updates: a bounded channel, a buffer that is flushed on every tick and
  whenever it reaches a thousand items, and a transaction that either commits the whole
  buffer or leaves table and buffer as they were.
 */
module BatchWriter {
  import opened Wrappers
  import opened DeviceRepo

  const CHANNEL_CAPACITY := 10_000
  const FLUSH_THRESHOLD := 1_000

  datatype Update = Update(device: DeviceId, ip: string, port: nat, ts: int, name: Option<string>)

  /** One UPDATE; a device without a row is not touched. */
  function Apply(table: Table, u: Update): Table {
    if u.device !in table then table
    else table[u.device := table[u.device].(ip := u.ip, port := u.port, name := Or(u.name, table[u.device].name),
                                            online := true, lastSeen := u.ts)]
  }

  /** The updates applied one at a time, in order. */
  function ApplyAll(table: Table, us: seq<Update>): Table {
    if us == [] then table else Apply(ApplyAll(table, us[..|us|-1]), us[|us|-1])
  }

  lemma {:induction false} ApplyAllConcat(table: Table, us: seq<Update>, vs: seq<Update>)
    ensures ApplyAll(table, us + vs) == ApplyAll(ApplyAll(table, us), vs)
  {
    if vs == [] {
      assert us + vs == us;
    } else {
      assert (us + vs)[..|us + vs|-1] == us + vs[..|vs|-1];
      ApplyAllConcat(table, us, vs[..|vs|-1]);
    }
  }

  /** The last update of `device`, if any. */
  function LastFor(us: seq<Update>, device: DeviceId): Option<Update> {
    if us == [] then None
    else if us[|us|-1].device == device then Some(us[|us|-1])
    else LastFor(us[..|us|-1], device)
  }

  /** The last name anybody reported for `device`. */
  function LastName(us: seq<Update>, device: DeviceId): Option<string> {
    if us == [] then None
    else if us[|us|-1].device == device && us[|us|-1].name.Some? then us[|us|-1].name
    else LastName(us[..|us|-1], device)
  }

  /** What the updates leave in a row: the last address and time, the last name that was not null. */
  function FinalRow(row: Row, us: seq<Update>, device: DeviceId): Row {
    match LastFor(us, device)
    case None => row
    case Some(u) => row.(ip := u.ip, port := u.port, online := true, lastSeen := u.ts,
                         name := Or(LastName(us, device), row.name))
  }

  lemma {:induction false} NoUpdateNoName(us: seq<Update>, d: DeviceId)
    requires LastFor(us, d).None?
    ensures LastName(us, d).None?
  {
    if us != [] {
      NoUpdateNoName(us[..|us|-1], d);
    }
  }

  lemma {:induction false} ApplyAllRows(table: Table, us: seq<Update>)
    ensures ApplyAll(table, us) == map d | d in table :: FinalRow(table[d], us, d)
  {
    if us != [] {
      var init := us[..|us|-1];
      ApplyAllRows(table, init);
      forall d | d in table && LastFor(init, d).None?
        ensures LastName(init, d).None?
      {
        NoUpdateNoName(init, d);
      }
    }
  }

  /**
    The writer task with its channel and its table. The ghost fields record history: all
    updates accepted by the channel, and all committed so far.
   */
  class Writer {
    var channel: seq<Update>
    var buf: seq<Update>
    var table: Table
    ghost var accepted: seq<Update>
    ghost var committed: seq<Update>
    ghost const initial: Table

    /** Nothing is lost, repeated or reordered, and the table is what immediate application would give. */
    ghost predicate Valid()
      reads this
    {
      && committed + buf + channel == accepted
      && table == ApplyAll(initial, committed)
      && |channel| <= CHANNEL_CAPACITY
    }

    constructor (table: Table)
      ensures Valid() && accepted == [] && committed == [] && initial == table
    {
      channel, buf, accepted, committed := [], [], [], [];
      this.table := table;
      initial := table;
    }

    /** Never blocks: a full channel drops the update. */
    method Enqueue(u: Update) returns (ok: bool)
      requires Valid()
      modifies this
      ensures Valid() && ok == (|old(channel)| < 10_000)
      ensures accepted == if ok then old(accepted) + [u] else old(accepted)
      ensures channel == if ok then old(channel) + [u] else old(channel)
      ensures buf == old(buf) && committed == old(committed) && table == old(table)
    {
      ok := |channel| < CHANNEL_CAPACITY;
      if ok {
        channel := channel + [u];
        accepted := accepted + [u];
      }
    }

    /** One transaction over the whole buffer; `failsAt` is the statement that fails, the commit being the last. */
    method Flush(failsAt: Option<nat>) returns (ok: bool)
      requires Valid()
      modifies this`buf, this`table, this`committed
      ensures Valid()
      ensures ok == (buf == [] && committed == old(committed) + old(buf))
      ensures ok == (old(buf) == [] || failsAt.None? || failsAt.value > |old(buf)|)
      ensures !ok ==> buf == old(buf) && table == old(table) && committed == old(committed)
    {
      if buf == [] {
        return true;
      }
      var tx := table;
      for i := 0 to |buf|
        invariant tx == ApplyAll(table, buf[..i])
        invariant failsAt.None? || failsAt.value >= i
      {
        if failsAt == Some(i) {
          return false;
        }
        assert buf[..i+1][..i] == buf[..i];
        tx := Apply(tx, buf[i]);
      }
      if failsAt == Some(|buf|) {
        return false;
      }
      assert buf[..|buf|] == buf;
      ApplyAllConcat(initial, committed, buf);
      table := tx;
      committed := committed + buf;
      buf := [];
      return true;
    }

    /** The timer branch: take everything the channel holds, then flush. */
    method Tick(failsAt: Option<nat>)
      requires Valid()
      modifies this`channel, this`buf, this`table, this`committed
      ensures Valid() && channel == []
      ensures failsAt.None? ==> buf == [] && committed == accepted
    {
      while channel != []
        invariant Valid()
        decreases |channel|
      {
        buf := buf + [channel[0]];
        channel := channel[1..];
      }
      if buf != [] {
        var _ := Flush(failsAt);
      }
    }

    /** The receive branch: one item, flushed at once when the buffer has reached the threshold. */
    method Receive(failsAt: Option<nat>)
      requires Valid() && channel != []
      modifies this`channel, this`buf, this`table, this`committed
      ensures Valid() && channel == old(channel)[1..]
      ensures |old(buf)| + 1 < 1_000 ==> buf == old(buf) + [old(channel)[0]] && table == old(table)
      ensures |old(buf)| + 1 >= 1_000 && failsAt.None? ==>
                buf == [] && committed == old(committed + buf) + [old(channel)[0]]
    {
      buf := buf + [channel[0]];
      channel := channel[1..];
      if |buf| >= FLUSH_THRESHOLD {
        var _ := Flush(failsAt);
      }
    }
  }

  // ----- whole runs, with the failures chosen freely -----

  datatype State = State(channel: seq<Update>, buf: seq<Update>, table: Table)

  /** A tick may find more items arriving while it drains, so it takes some prefix of the channel. */
  datatype Event = Enqueue(u: Update) | Tick(take: nat, commits: bool) | Receive(commits: bool)

  function Flushed(s: State, commits: bool): State {
    if commits then State(s.channel, [], ApplyAll(s.table, s.buf)) else s
  }

  function Step(s: State, e: Event): State {
    match e
    case Enqueue(u) => if |s.channel| < CHANNEL_CAPACITY then s.(channel := s.channel + [u]) else s
    case Tick(take, commits) =>
      var n := if take <= |s.channel| then take else |s.channel|;
      Flushed(State(s.channel[n..], s.buf + s.channel[..n], s.table), commits)
    case Receive(commits) =>
      if s.channel == [] then s
      else
        var t := State(s.channel[1..], s.buf + [s.channel[0]], s.table);
        if |t.buf| >= FLUSH_THRESHOLD then Flushed(t, commits) else t
  }

  function After(table: Table, run: seq<Event>): State {
    if run == [] then State([], [], table) else Step(After(table, run[..|run|-1]), run[|run|-1])
  }

  /** The updates the channel took, in order. */
  function Accepted(table: Table, run: seq<Event>): seq<Update> {
    if run == [] then []
    else
      var init, e := run[..|run|-1], run[|run|-1];
      if e.Enqueue? && |After(table, init).channel| < CHANNEL_CAPACITY
      then Accepted(table, init) + [e.u] else Accepted(table, init)
  }

  /** What one step commits. */
  function StepCommits(s: State, e: Event): seq<Update> {
    match e
    case Enqueue(_) => []
    case Tick(take, commits) =>
      if commits then s.buf + s.channel[..if take <= |s.channel| then take else |s.channel|] else []
    case Receive(commits) =>
      if s.channel != [] && commits && |s.buf| + 1 >= FLUSH_THRESHOLD then s.buf + [s.channel[0]] else []
  }

  lemma {:induction false} StepMoves(s: State, e: Event)
    ensures var t := Step(s, e);
            StepCommits(s, e) + t.buf + t.channel ==
            s.buf + s.channel + (if e.Enqueue? && |s.channel| < CHANNEL_CAPACITY then [e.u] else [])
  {
  }

  lemma {:induction false} StepApplies(s: State, e: Event)
    ensures Step(s, e).table == ApplyAll(s.table, StepCommits(s, e))
  {
    assert ApplyAll(s.table, []) == s.table;
  }

  lemma {:induction false} StepConserves(table: Table, committed: seq<Update>, s: State, e: Event)
    requires s.table == ApplyAll(table, committed)
    ensures var t := Step(s, e); var more := StepCommits(s, e);
            && t.table == ApplyAll(table, committed + more)
            && more + t.buf + t.channel ==
               s.buf + s.channel + (if e.Enqueue? && |s.channel| < CHANNEL_CAPACITY then [e.u] else [])
  {
    StepMoves(s, e);
    StepApplies(s, e);
    ApplyAllConcat(table, committed, StepCommits(s, e));
  }

  /** The updates committed so far, in the order of their transactions. */
  function Committed(table: Table, run: seq<Event>): seq<Update> {
    if run == [] then []
    else Committed(table, run[..|run|-1]) + StepCommits(After(table, run[..|run|-1]), run[|run|-1])
  }

  lemma Regroup(c: seq<Update>, more: seq<Update>, buf: seq<Update>, channel: seq<Update>,
                oldBuf: seq<Update>, oldChannel: seq<Update>, added: seq<Update>)
    requires more + buf + channel == oldBuf + oldChannel + added
    ensures c + more + buf + channel == c + oldBuf + oldChannel + added
  {
    assert c + more + buf + channel == c + (more + buf + channel);
  }

  /** What the channel takes with one step. */
  function Added(s: State, e: Event): seq<Update> {
    if e.Enqueue? && |s.channel| < CHANNEL_CAPACITY then [e.u] else []
  }

  lemma {:induction false} Extends(table: Table, run: seq<Event>)
    requires run != []
    ensures var init, e := run[..|run|-1], run[|run|-1];
            && Accepted(table, run) == Accepted(table, init) + Added(After(table, init), e)
            && Committed(table, run) == Committed(table, init) + StepCommits(After(table, init), e)
  {
  }

  lemma {:induction false} RunConserves(table: Table, run: seq<Event>)
    ensures var s := After(table, run);
            && Committed(table, run) + s.buf + s.channel == Accepted(table, run)
            && s.table == ApplyAll(table, Committed(table, run))
  {
    if run != [] {
      var init, e := run[..|run|-1], run[|run|-1];
      RunConserves(table, init);
      var s, t := After(table, init), After(table, run);
      Extends(table, run);
      StepConserves(table, Committed(table, init), s, e);
      Regroup(Committed(table, init), StepCommits(s, e), t.buf, t.channel, s.buf, s.channel, Added(s, e));
    }
  }

  lemma {:induction false} ChannelBounded(table: Table, run: seq<Event>)
    ensures |After(table, run).channel| <= CHANNEL_CAPACITY
  {
    if run != [] {
      ChannelBounded(table, run[..|run|-1]);
    }
  }

  /**
    Whatever the flush points and however many transactions fail: committed, buffer and channel
    together are the accepted updates in order, and the table is what applying the committed
    ones one at a time gives, that is, per existing row the last address and the last non-null name.
   */
  lemma {:induction false} BatchingIsImmediate(table: Table, run: seq<Event>)
    ensures var s := After(table, run); var committed := Committed(table, run);
            && committed + s.buf + s.channel == Accepted(table, run)
            && |s.channel| <= CHANNEL_CAPACITY
            && s.table == ApplyAll(table, committed)
            && s.table == map d | d in table :: FinalRow(table[d], committed, d)
  {
    RunConserves(table, run);
    ChannelBounded(table, run);
    ApplyAllRows(table, Committed(table, run));
  }

  // ----- when updates reach the table -----

  /** The channel takes an update exactly while it holds fewer than ten thousand. */
  lemma {:induction false} EnqueuedExactly(s: State, u: Update)
    ensures Step(s, Enqueue(u)) == if |s.channel| < 10_000 then s.(channel := s.channel + [u]) else s
  {
  }

  predicate Commits(e: Event) {
    !e.Enqueue? ==> e.commits
  }

  /**
    While transactions commit, no more than 999 updates ever wait in the buffer; below that they wait for the
    tick; and a tick that drains the channel leaves nothing waiting.
   */
  lemma {:induction false} NothingWaitsLong(table: Table, run: seq<Event>)
    requires forall i :: 0 <= i < |run| ==> Commits(run[i])
    ensures var s := After(table, run);
            && |s.buf| <= 999
            && (s.channel != [] && |s.buf| < 999 ==>
                  Step(s, Receive(true)) == State(s.channel[1..], s.buf + [s.channel[0]], s.table))
            && (s.channel != [] && |s.buf| == 999 ==> Step(s, Receive(true)).buf == [])
            && Step(s, Tick(|s.channel|, true)).channel == [] && Step(s, Tick(|s.channel|, true)).buf == []
  {
    if run != [] {
      NothingWaitsLong(table, run[..|run|-1]);
    }
  }
}
