/**
  The long poll for an answer, under every interleaving with session creation, answers and
  clean-up. A poll peeks, then registers as a waiter, then peeks again when it is woken or its
  hold runs out; each of these is a separate step, and the wake-up reaches only the waiters
  registered at that moment.
 */
module LongPoll {
  import opened Wrappers
  import opened SignalStore

  const LONG_POLL_HOLD := 30_000

  type PollId = nat

  datatype Outcome = Answered(answer: AnswerStatus) | NoContent | NotFound

  /** `began` is the clock of the first peek, `created` the creation time of the session it saw. */
  datatype Poll =
    | Peeked(id: SessionId, began: int, created: int)
    | Waiting(id: SessionId, began: int, created: int, registered: int, woken: bool)
    | Done(id: SessionId, outcome: Outcome)

  datatype State = State(sessions: Sessions, polls: map<PollId, Poll>)

  datatype Event =
    | Create(id: SessionId, device: DeviceId, offer: string, credential: string)
    | Submit(id: SessionId, answer: AnswerStatus)
    | Cleanup
    | Begin(poll: PollId, id: SessionId)
    | Register(poll: PollId)
    | Recheck(poll: PollId)

  datatype Timed = Timed(now: int, event: Event)

  /** The reply to a peek that decides the request. */
  function Reply(peek: Option<Option<AnswerStatus>>): Outcome {
    match peek
    case None => NotFound
    case Some(None) => NoContent
    case Some(Some(a)) => Answered(a)
  }

  /** The hold ends: the waiter was woken, or its time ran out. */
  predicate HoldOver(p: Poll, now: int) {
    p.Waiting? && (p.woken || now >= p.registered + LONG_POLL_HOLD)
  }

  /** notify_waiters: wakes the polls registered on `id`, and stores nothing for later ones. */
  function Wake(polls: map<PollId, Poll>, id: SessionId): map<PollId, Poll> {
    map p | p in polls :: if polls[p].Waiting? && polls[p].id == id then polls[p].(woken := true) else polls[p]
  }

  function Step(s: State, t: Timed): State {
    match t.event
    case Create(id, device, offer, credential) =>
      s.(sessions := AfterCreate(s.sessions, id, device, offer, credential, t.now))
    case Submit(id, answer) =>
      State(AfterSubmit(s.sessions, id, answer, t.now),
            if CanSubmit(s.sessions, id, t.now) then Wake(s.polls, id) else s.polls)
    case Cleanup => s.(sessions := AfterCleanup(s.sessions, t.now))
    case Begin(p, id) =>
      if p in s.polls then s
      else
        var peek := PeekResult(s.sessions, id, t.now);
        s.(polls := s.polls[p := if peek == Some(None) then Peeked(id, t.now, s.sessions[id].createdAt)
                                 else Done(id, Reply(peek))])
    case Register(p) =>
      if p in s.polls && s.polls[p].Peeked?
      then s.(polls := s.polls[p := Waiting(s.polls[p].id, s.polls[p].began, s.polls[p].created, t.now, false)])
      else s
    case Recheck(p) =>
      if p in s.polls && HoldOver(s.polls[p], t.now)
      then s.(polls := s.polls[p := Done(s.polls[p].id, Reply(PeekResult(s.sessions, s.polls[p].id, t.now)))])
      else s
  }

  function After(run: seq<Timed>): State {
    if run == [] then State(map[], map[]) else Step(After(run[..|run|-1]), run[|run|-1])
  }

  ghost predicate ClockOrdered(run: seq<Timed>) {
    forall i, j :: 0 <= i < j < |run| ==> run[i].now <= run[j].now
  }

  /** The session id each step draws, if any. */
  function Drawn(run: seq<Timed>): seq<Option<SessionId>> {
    if run == [] then []
    else
      var event := run[|run|-1].event;
      Drawn(run[..|run|-1]) + [if event.Create? then Some(event.id) else None]
  }

  /** Drawn session ids never repeat. */
  ghost predicate FreshIds(run: seq<Timed>) {
    NeverRepeat(Drawn(run))
  }

  lemma {:induction false} LastDrawn(run: seq<Timed>)
    requires run != []
    ensures var init, last := run[..|run|-1], run[|run|-1];
            && (FreshIds(run) ==> FreshIds(init) && (last.event.Create? ==> last.event.id !in IdSet(Drawn(init))))
            && IdSet(Drawn(run)) == IdSet(Drawn(init)) + (if last.event.Create? then {last.event.id} else {})
  {
    assert Drawn(run)[..|Drawn(run)|-1] == Drawn(run[..|run|-1]);
    LastIsNew(Drawn(run));
  }

  /** When `id` was successfully created. */
  function CreatedAt(run: seq<Timed>, id: SessionId): Option<int> {
    if run == [] then None
    else
      var init, last := run[..|run|-1], run[|run|-1];
      if last.event.Create? && last.event.id == id && CanCreate(After(init).sessions, last.event.device, last.now)
      then Some(last.now) else CreatedAt(init, id)
  }

  /** The last answer the desktop successfully submitted for `id`. */
  function LastSubmitted(run: seq<Timed>, id: SessionId): Option<AnswerStatus> {
    if run == [] then None
    else
      var init, last := run[..|run|-1], run[|run|-1];
      if last.event.Submit? && last.event.id == id && CanSubmit(After(init).sessions, id, last.now)
      then Some(last.event.answer) else LastSubmitted(init, id)
  }

  /** Whether an answer for its session was submitted since poll `p` registered. */
  predicate SubmittedSinceRegistration(run: seq<Timed>, p: PollId, id: SessionId) {
    run != [] &&
    var init, last := run[..|run|-1], run[|run|-1];
    if last.event == Register(p) && p in After(init).polls && After(init).polls[p].Peeked? then false
    else (last.event.Submit? && last.event.id == id && CanSubmit(After(init).sessions, id, last.now)) ||
         SubmittedSinceRegistration(init, p, id)
  }

  /** What the store says about `id` at `now` is decided by the history alone. */
  ghost predicate StoreMatchesHistory(run: seq<Timed>, id: SessionId, now: int) {
    var s := After(run).sessions;
    var created := CreatedAt(run, id);
    && (id in s ==> created == Some(s[id].createdAt) && s[id].answer == LastSubmitted(run, id))
    && (created.Some? && now - created.value < SIGNAL_SESSION_TTL ==> id in s)
    && (id !in IdSet(Drawn(run)) ==> created.None? && LastSubmitted(run, id).None?)
  }

  lemma {:induction false} RunsMatchHistory(run: seq<Timed>, id: SessionId, now: int)
    requires ClockOrdered(run) && FreshIds(run)
    requires run != [] ==> run[|run|-1].now <= now
    ensures StoreMatchesHistory(run, id, now)
  {
    if run != [] {
      var init, last := run[..|run|-1], run[|run|-1];
      LastDrawn(run);
      RunsMatchHistory(init, id, last.now);
    }
  }

  /** An answer is taken exactly for a session created less than sixty seconds before. */
  lemma {:induction false} SubmitAcceptedExactly(run: seq<Timed>, id: SessionId, now: int)
    requires ClockOrdered(run) && FreshIds(run)
    requires run != [] ==> run[|run|-1].now <= now
    ensures CanSubmit(After(run).sessions, id, now) <==>
            CreatedAt(run, id).Some? && now - CreatedAt(run, id).value < 60_000
  {
    RunsMatchHistory(run, id, now);
  }

  /** The reply any peek of `id` must give at `now`. */
  function Verdict(created: Option<int>, submitted: Option<AnswerStatus>, now: int): Outcome {
    if created.None? || now - created.value >= SIGNAL_SESSION_TTL then NotFound
    else if submitted.None? then NoContent
    else Answered(submitted.value)
  }

  lemma {:induction false} PeekFollowsHistory(run: seq<Timed>, id: SessionId, now: int)
    requires ClockOrdered(run) && FreshIds(run)
    requires run != [] ==> run[|run|-1].now <= now
    ensures Reply(PeekResult(After(run).sessions, id, now)) == Verdict(CreatedAt(run, id), LastSubmitted(run, id), now)
  {
    RunsMatchHistory(run, id, now);
  }

  ghost predicate PollMatchesHistory(run: seq<Timed>, p: PollId) {
    p in After(run).polls && !After(run).polls[p].Done? ==>
      var poll := After(run).polls[p];
      && CreatedAt(run, poll.id) == Some(poll.created)
      && poll.id in IdSet(Drawn(run))
      && 0 <= poll.began - poll.created < SIGNAL_SESSION_TTL
  }

  lemma {:induction false} CreatedInThePast(run: seq<Timed>, id: SessionId)
    requires ClockOrdered(run) && CreatedAt(run, id).Some?
    ensures id in IdSet(Drawn(run)) && run != [] && CreatedAt(run, id).value <= run[|run|-1].now
  {
    var init := run[..|run|-1];
    LastDrawn(run);
    if CreatedAt(init, id) == CreatedAt(run, id) {
      CreatedInThePast(init, id);
    } else {
      assert run[|run|-1].event.id == id;
    }
  }

  lemma {:induction false} PollBegins(init: seq<Timed>, t: Timed)
    requires ClockOrdered(init) && FreshIds(init) && t.event.Begin?
    requires init != [] ==> init[|init|-1].now <= t.now
    ensures PeekResult(After(init).sessions, t.event.id, t.now) == Some(None) ==>
              var createdAt := After(init).sessions[t.event.id].createdAt;
              && CreatedAt(init, t.event.id) == Some(createdAt)
              && t.event.id in IdSet(Drawn(init))
              && 0 <= t.now - createdAt < SIGNAL_SESSION_TTL
  {
    RunsMatchHistory(init, t.event.id, t.now);
    if CreatedAt(init, t.event.id).Some? {
      CreatedInThePast(init, t.event.id);
    }
  }

  lemma {:induction false} CreationIsSettled(run: seq<Timed>, id: SessionId)
    requires FreshIds(run) && run != []
    requires id in IdSet(Drawn(run[..|run|-1]))
    ensures id in IdSet(Drawn(run)) && CreatedAt(run, id) == CreatedAt(run[..|run|-1], id)
  {
    var init := run[..|run|-1];
    LastDrawn(run);
  }

  lemma {:induction false} PollsMatchHistory(run: seq<Timed>, p: PollId)
    requires ClockOrdered(run) && FreshIds(run)
    ensures PollMatchesHistory(run, p)
  {
    if run != [] {
      var init, last := run[..|run|-1], run[|run|-1];
      LastDrawn(run);
      PollsMatchHistory(init, p);
      if p in After(init).polls {
        if !After(init).polls[p].Done? {
          CreationIsSettled(run, After(init).polls[p].id);
        }
      } else if last.event.Begin? && PeekResult(After(init).sessions, last.event.id, last.now) == Some(None) {
        PollBegins(init, last);
        CreationIsSettled(run, last.event.id);
      }
    }
  }

  /** When poll `p` began, and when it registered as a waiter. */
  function BeganAt(run: seq<Timed>, p: PollId): Option<int> {
    if run == [] then None
    else
      var init, last := run[..|run|-1], run[|run|-1];
      if last.event.Begin? && last.event.poll == p && BeganAt(init, p).None? then Some(last.now) else BeganAt(init, p)
  }

  function RegisteredAt(run: seq<Timed>, p: PollId): Option<int> {
    if run == [] then None
    else
      var init, last := run[..|run|-1], run[|run|-1];
      if last.event == Register(p) && p in After(init).polls && After(init).polls[p].Peeked? then Some(last.now)
      else RegisteredAt(init, p)
  }

  /** The clocks a poll keeps are those of its first peek and of its registration. */
  lemma {:induction false} PollClocks(run: seq<Timed>, p: PollId)
    ensures p in After(run).polls <==> BeganAt(run, p).Some?
    ensures p in After(run).polls && !After(run).polls[p].Done? ==> After(run).polls[p].began == BeganAt(run, p).value
    ensures p in After(run).polls && After(run).polls[p].Waiting? ==>
              RegisteredAt(run, p) == Some(After(run).polls[p].registered)
  {
    if run != [] {
      PollClocks(run[..|run|-1], p);
    }
  }

  /** A waiter is woken exactly when an answer was submitted since it registered. */
  lemma {:induction false} WokenExactly(run: seq<Timed>, p: PollId)
    requires p in After(run).polls && After(run).polls[p].Waiting?
    ensures After(run).polls[p].woken <==> SubmittedSinceRegistration(run, p, After(run).polls[p].id)
  {
    if run != [] {
      var init, last := run[..|run|-1], run[|run|-1];
      if last.event != Register(p) || After(init).polls[p].Waiting? {
        assert p in After(init).polls && After(init).polls[p].Waiting?;
        WokenExactly(init, p);
      }
    }
  }

  /**
    The long poll never loses an answer. A finished hold replies exactly what the history
    dictates: not found exactly when the session is 60 s old by then; otherwise no content
    exactly when nothing was submitted before the re-check, else the last answer submitted.
    A wake-up that fell between the first peek and the registration changes none of this.
   */
  lemma {:induction false} RecheckRepliesExactly(run: seq<Timed>, p: PollId, now: int)
    requires ClockOrdered(run) && FreshIds(run)
    requires run != [] ==> run[|run|-1].now <= now
    requires p in After(run).polls && HoldOver(After(run).polls[p], now)
    ensures var poll := After(run).polls[p];
            var done := Step(After(run), Timed(now, Recheck(p))).polls[p];
            && CreatedAt(run, poll.id) == Some(poll.created)
            && done == Done(poll.id, Verdict(CreatedAt(run, poll.id), LastSubmitted(run, poll.id), now))
            && (done.outcome.NotFound? <==> now - poll.created >= 60_000)
  {
    PollsMatchHistory(run, p);
    PeekFollowsHistory(run, After(run).polls[p].id, now);
  }

  /** The first peek likewise, for any session id, known or not. */
  lemma {:induction false} FirstPeekRepliesExactly(run: seq<Timed>, p: PollId, id: SessionId, now: int)
    requires ClockOrdered(run) && FreshIds(run)
    requires run != [] ==> run[|run|-1].now <= now
    requires p !in After(run).polls
    ensures var poll := Step(After(run), Timed(now, Begin(p, id))).polls[p];
            var verdict := Verdict(CreatedAt(run, id), LastSubmitted(run, id), now);
            if verdict.NoContent? then poll == Peeked(id, now, CreatedAt(run, id).value) else poll == Done(id, verdict)
  {
    PeekFollowsHistory(run, id, now);
    RunsMatchHistory(run, id, now);
  }

  /**
    A poll begun while the session is younger than 30 s less some slack, and re-checked within 30 s plus
    that slack of its first peek, is never told "not found".
   */
  lemma {:induction false} EarlyPollFindsItsSession(run: seq<Timed>, p: PollId, now: int, slack: nat)
    requires ClockOrdered(run) && FreshIds(run)
    requires run != [] ==> run[|run|-1].now <= now
    requires p in After(run).polls && HoldOver(After(run).polls[p], now)
    requires BeganAt(run, p).Some? && CreatedAt(run, After(run).polls[p].id).Some?
    requires BeganAt(run, p).value - CreatedAt(run, After(run).polls[p].id).value < 30_000 - slack
    requires now - BeganAt(run, p).value <= 30_000 + slack
    ensures !Step(After(run), Timed(now, Recheck(p))).polls[p].outcome.NotFound?
  {
    RecheckRepliesExactly(run, p, now);
    PollClocks(run, p);
  }

  /** A session created at 0, and a poll that finds no answer at `at`. */
  lemma {:induction false} SeenUnanswered(at: int) returns (run: seq<Timed>)
    requires 0 <= at < SIGNAL_SESSION_TTL
    ensures run == [Timed(0, Create(1, 7, "o", "c")), Timed(at, Begin(0, 1))]
    ensures After(run) == State(map[1 := Session(7, "o", "c", None, 0)], map[0 := Peeked(1, at, 0)])
    ensures Drawn(run) == [Some(1), None]
  {
    var c, b := Timed(0, Create(1, 7, "o", "c")), Timed(at, Begin(0, 1));
    run := [c, b];
    assert [c, b][..1] == [c];
    assert [c][..0] == [];
    assert Active(map[], 7, 0) == {};
    assert After([c]) == State(map[1 := Session(7, "o", "c", None, 0)], map[]);
    assert PeekResult(After([c]).sessions, 1, at) == Some(None);
    assert Drawn([c]) == [Some(1)];
  }

  lemma {:induction false} DrawnOneMore(run: seq<Timed>, t: Timed)
    ensures After(run + [t]) == Step(After(run), t)
    ensures Drawn(run + [t]) == Drawn(run) + [if t.event.Create? then Some(t.event.id) else None]
  {
    assert (run + [t])[..|run|] == run;
  }

  /** Without slack it can be told so: begun at age 29 s, registered 2 s later, re-checked when the hold is over. */
  lemma {:induction false} EarlyPollNotFound() returns (run: seq<Timed>)
    ensures ClockOrdered(run) && FreshIds(run)
    ensures run == [Timed(0, Create(1, 7, "o", "c")), Timed(29_000, Begin(0, 1)),
                    Timed(31_000, Register(0)), Timed(61_000, Recheck(0))]
    ensures 0 in After(run[..2]).polls && After(run[..2]).polls[0] == Peeked(1, 29_000, 0)
    ensures 0 in After(run).polls && After(run).polls[0] == Done(1, NotFound)
  {
    var seen := SeenUnanswered(29_000);
    var r, x := Timed(31_000, Register(0)), Timed(61_000, Recheck(0));
    DrawnOneMore(seen, r);
    DrawnOneMore(seen + [r], x);
    run := seen + [r] + [x];
    assert run[..2] == seen;
  }

  /**
    When a waiter may re-check: at once if an answer came in since it registered, and 30 s
    after its registration at the latest. So a wake-up missed before the registration
    delays the reply by the hold and no more.
   */
  lemma {:induction false} HoldEndsExactly(run: seq<Timed>, p: PollId, now: int)
    requires p in After(run).polls && After(run).polls[p].Waiting?
    ensures HoldOver(After(run).polls[p], now) <==>
            SubmittedSinceRegistration(run, p, After(run).polls[p].id) ||
            (RegisteredAt(run, p).Some? && now >= RegisteredAt(run, p).value + 30_000)
  {
    WokenExactly(run, p);
    PollClocks(run, p);
  }

  /** A wake-up between the peek and the registration is lost: the answer is there, yet the poll holds. */
  lemma {:induction false} MissedWakeUpExists() returns (run: seq<Timed>)
    ensures ClockOrdered(run) && FreshIds(run)
    ensures 0 in After(run).polls && After(run).polls[0].Waiting?
    ensures LastSubmitted(run, After(run).polls[0].id).Some?
    ensures !HoldOver(After(run).polls[0], run[|run|-1].now)
  {
    var seen := SeenUnanswered(1);
    var a, r := Timed(2, Submit(1, Accepted("s"))), Timed(3, Register(0));
    DrawnOneMore(seen, a);
    DrawnOneMore(seen + [a], r);
    run := seen + [a] + [r];
    assert run[..3] == seen + [a] && (seen + [a])[..2] == seen;
    assert LastSubmitted(seen + [a], 1) == Some(Accepted("s"));
  }
}
