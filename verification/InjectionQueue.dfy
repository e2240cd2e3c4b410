/**
  The desktop's injection queue: many phones enqueue into one bounded queue, and a single
  processor takes a task, hands it to the injector, and reports the result.
 */
module InjectionQueue {
  datatype Task = Task(client: string, text: string, timestamp: int)

  /** A task the injector was given, and whether it succeeded. */
  datatype Handled = Handled(task: Task, ok: bool)

  /** A result callback: which client, whether it succeeded, how many characters. */
  datatype Report = Report(client: string, ok: bool, chars: nat)

  /** Where the processor is between two steps. */
  datatype Processor = Free | Holding(task: Task) | Reporting(handled: Handled)

  datatype State = State(queue: seq<Task>, processor: Processor, handled: seq<Handled>, reports: seq<Report>)

  const INITIAL := State([], Free, [], [])

  datatype Event = Enqueue(task: Task) | Pop | Inject(ok: bool) | Notify

  function ReportOf(h: Handled): Report {
    Report(h.task.client, h.ok, |h.task.text|)
  }

  function Step(s: State, maxQueueSize: nat, e: Event): State {
    match e
    case Enqueue(task) => if |s.queue| >= maxQueueSize then s else s.(queue := s.queue + [task])
    case Pop =>
      if s.processor.Free? && s.queue != [] then s.(queue := s.queue[1..], processor := Holding(s.queue[0])) else s
    case Inject(ok) =>
      if s.processor.Holding? then
        var h := Handled(s.processor.task, ok);
        s.(processor := Reporting(h), handled := s.handled + [h])
      else s
    case Notify =>
      if s.processor.Reporting?
      then s.(processor := Free, reports := s.reports + [ReportOf(s.processor.handled)])
      else s
  }

  function After(maxQueueSize: nat, run: seq<Event>): State {
    if run == [] then INITIAL else Step(After(maxQueueSize, run[..|run|-1]), maxQueueSize, run[|run|-1])
  }

  /** What enqueue_injection took, in the order of the lock. */
  function Accepted(maxQueueSize: nat, run: seq<Event>): seq<Task> {
    if run == [] then []
    else
      var init, e := run[..|run|-1], run[|run|-1];
      if e.Enqueue? && |After(maxQueueSize, init).queue| < maxQueueSize
      then Accepted(maxQueueSize, init) + [e.task] else Accepted(maxQueueSize, init)
  }

  function Tasks(hs: seq<Handled>): seq<Task> {
    seq(|hs|, i requires 0 <= i < |hs| => hs[i].task)
  }

  function Reports(hs: seq<Handled>): seq<Report> {
    seq(|hs|, i requires 0 <= i < |hs| => ReportOf(hs[i]))
  }

  function InHand(p: Processor): seq<Task> {
    if p.Holding? then [p.task] else []
  }

  /**
    Under every interleaving: what was accepted is what the injector was given, then whatever is in
    hand, then the queue, in order, nothing lost or repeated; the queue never exceeds its bound;
    and there is one report per handled task, in the same order, the last one possibly pending.
   */
  lemma {:induction false} QueueConserved(maxQueueSize: nat, run: seq<Event>)
    ensures var s := After(maxQueueSize, run);
            && Accepted(maxQueueSize, run) == Tasks(s.handled) + InHand(s.processor) + s.queue
            && |s.queue| <= maxQueueSize
            && Reports(s.handled) ==
               s.reports + (if s.processor.Reporting? then [ReportOf(s.processor.handled)] else [])
  {
    if run != [] {
      QueueConserved(maxQueueSize, run[..|run|-1]);
      var s, t := After(maxQueueSize, run[..|run|-1]), After(maxQueueSize, run);
      if t.handled != s.handled {
        assert Tasks(t.handled) == Tasks(s.handled) + InHand(s.processor);
        assert Reports(t.handled) == Reports(s.handled) + [ReportOf(t.processor.handled)];
      }
    }
  }

  /** A text is accepted exactly while fewer than the bound were accepted and not yet taken by the processor. */
  lemma {:induction false} AcceptedExactly(maxQueueSize: nat, run: seq<Event>, task: Task)
    ensures var s := After(maxQueueSize, run);
            var waiting := |Accepted(maxQueueSize, run)| - |s.handled| - |InHand(s.processor)|;
            Accepted(maxQueueSize, run + [Enqueue(task)]) ==
            Accepted(maxQueueSize, run) + (if waiting < maxQueueSize then [task] else [])
  {
    QueueConserved(maxQueueSize, run);
    assert (run + [Enqueue(task)])[..|run|] == run;
  }

  /** What the injector answered, call by call. */
  function Answers(maxQueueSize: nat, run: seq<Event>): seq<bool> {
    if run == [] then []
    else
      var init, e := run[..|run|-1], run[|run|-1];
      if e.Inject? && After(maxQueueSize, init).processor.Holding? then Answers(maxQueueSize, init) + [e.ok]
      else Answers(maxQueueSize, init)
  }

  lemma {:induction false} HandledAnswered(maxQueueSize: nat, run: seq<Event>)
    ensures var handled := After(maxQueueSize, run).handled;
            && |handled| == |Answers(maxQueueSize, run)|
            && forall i :: 0 <= i < |handled| ==> handled[i].ok == Answers(maxQueueSize, run)[i]
  {
    if run != [] {
      HandledAnswered(maxQueueSize, run[..|run|-1]);
    }
  }

  /** Report by report: the i-th is to the sender of the i-th accepted text, with the injector's i-th answer. */
  lemma {:induction false} ReportsTell(maxQueueSize: nat, run: seq<Event>, i: nat)
    requires i < |After(maxQueueSize, run).reports|
    ensures i < |Accepted(maxQueueSize, run)| && i < |Answers(maxQueueSize, run)|
    ensures var r, task := After(maxQueueSize, run).reports[i], Accepted(maxQueueSize, run)[i];
            r.client == task.client && r.chars == |task.text| && r.ok == Answers(maxQueueSize, run)[i]
  {
    QueueConserved(maxQueueSize, run);
    HandledAnswered(maxQueueSize, run);
    var s := After(maxQueueSize, run);
    assert Reports(s.handled)[i] == s.reports[i];
    assert Accepted(maxQueueSize, run)[i] == Tasks(s.handled)[i];
  }

  /** One turn of the processor, undisturbed. */
  function Turn(s: State, maxQueueSize: nat, ok: bool): State {
    Step(Step(Step(s, maxQueueSize, Pop), maxQueueSize, Inject(ok)), maxQueueSize, Notify)
  }

  function Turns(s: State, maxQueueSize: nat, oks: seq<bool>): State
    decreases |oks|
  {
    if oks == [] then s else Turns(Turn(s, maxQueueSize, oks[0]), maxQueueSize, oks[1..])
  }

  /** As many turns as there are texts empty the queue and report every one of them. */
  lemma {:induction false} TurnsEmptyTheQueue(s: State, maxQueueSize: nat, oks: seq<bool>)
    requires s.processor.Free? && |oks| == |s.queue|
    ensures var t := Turns(s, maxQueueSize, oks);
            && t.queue == [] && t.processor.Free?
            && t.reports == s.reports +
                 seq(|oks|, i requires 0 <= i < |oks| =>
                       Report(s.queue[i].client, oks[i], |s.queue[i].text|))
    decreases |oks|
  {
    if oks != [] {
      var t := Turn(s, maxQueueSize, oks[0]);
      assert t.reports == s.reports + [Report(s.queue[0].client, oks[0], |s.queue[0].text|)];
      TurnsEmptyTheQueue(t, maxQueueSize, oks[1..]);
    }
  }

  class ConnectionManager {
    var queue: seq<Task>
    const maxQueueSize: nat
    ghost var handled: seq<Handled>
    ghost var reports: seq<Report>

    ghost predicate Valid()
      reads this
    {
      |queue| <= maxQueueSize && reports == Reports(handled)
    }

    constructor (maxQueueSize: nat)
      ensures Valid() && queue == [] && handled == [] && this.maxQueueSize == maxQueueSize
    {
      queue, handled, reports := [], [], [];
      this.maxQueueSize := maxQueueSize;
    }

    /** False is QueueFull. */
    method EnqueueInjection(client: string, text: string, now: int) returns (ok: bool)
      requires Valid()
      modifies this`queue
      ensures Valid() && ok == (|old(queue)| < maxQueueSize)
      ensures queue == if ok then old(queue) + [Task(client, text, now)] else old(queue)
    {
      if |queue| >= maxQueueSize {
        return false;
      }
      queue := queue + [Task(client, text, now)];
      return true;
    }

    /** One turn of the processor's loop; `ok` tells whether the injector succeeds this time. */
    method ProcessNext(ok: bool) returns (processed: bool)
      requires Valid()
      modifies this
      ensures Valid() && processed == (old(queue) != [])
      ensures processed ==>
                var h := Handled(old(queue)[0], ok);
                queue == old(queue)[1..] && handled == old(handled) + [h] && reports == old(reports) + [ReportOf(h)]
      ensures !processed ==> queue == old(queue) && handled == old(handled) && reports == old(reports)
    {
      if queue == [] {
        return false;
      }
      var h := Handled(queue[0], ok);
      queue := queue[1..];
      ghost var before := handled;
      handled := handled + [h];
      reports := reports + [ReportOf(h)];
      assert Reports(handled) == Reports(before) + [ReportOf(h)];
      return true;
    }
  }
}
