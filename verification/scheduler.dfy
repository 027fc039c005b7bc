/** The bounded task scheduler as a state machine over event-loop turns (src/queueing-executor.ts).
    Each event is one uninterrupted turn; everything between two awaits of the source happens in one step. */
module Scheduler {
  import opened Telemetry

  /** How the delegate's `execute` reacts: it hands back a promise, or it throws before the first await
      after publishing some terminal statuses. */
  datatype Delegate = ReturnsPromise | ThrowsAtOnce(published: seq<TerminalState>)

  /** `ticket` stands for the identity of the entry object: the arrival number of its submission. */
  datatype Entry = Entry(ticket: nat, taskId: string, delegate: Delegate)

  datatype Outcome = Resolved | RejectedWithError
  datatype Settlement = Settlement(ticket: nat, outcome: Outcome)

  /** A reading of the two real gauges, taken whenever one of them changes. */
  datatype Load = Load(active: nat, depth: nat)

  /** The fields of the executor and its meters, followed by the record of what happened so far. */
  datatype Executor = Executor(
    maxConcurrent: nat, maxQueued: nat,
    queue: seq<Entry>, pending: map<string, Entry>, active: nat, tasks: TaskMetrics,
    submitted: nat, running: map<nat, Entry>, started: seq<nat>, turnedAway: set<nat>,
    settled: seq<Settlement>, busFinished: seq<nat>, loads: seq<Load>)

  datatype Event =
    | Submit(taskId: string, delegate: Delegate)
    | Cancel(taskId: string)
    | Settle(ticket: nat, published: seq<TerminalState>, threw: bool)

  function Init(maxConcurrent: int, maxQueued: int): Executor {
    Executor(Max(1, if maxConcurrent < 0 then 0 else maxConcurrent), if maxQueued < 0 then 0 else maxQueued,
             [], map[], 0, NO_TASKS, 0, map[], [], {}, [], [], [])
  }

  // ----- the turns ---------------------------------------------------------------------------

  /** Position of the first queued entry of a task, or the queue's length. */
  function FindIndex(q: seq<Entry>, taskId: string): (i: nat)
    ensures i <= |q|
    ensures forall j :: 0 <= j < i ==> q[j].taskId != taskId
    ensures i < |q| ==> q[i].taskId == taskId
  {
    if q == [] then 0 else if q[0].taskId == taskId then 0 else 1 + FindIndex(q[1..], taskId)
  }

  function QueueDelete(q: seq<Entry>, taskId: string): (r: seq<Entry>)
    ensures |r| <= |q|
  {
    var i := FindIndex(q, taskId);
    if i < |q| then q[..i] + q[i + 1..] else q
  }

  /** The observed bus keeps the last terminal status; none at all counts as a failure. */
  function FinalState(published: seq<TerminalState>): TerminalState {
    if published == [] then Failed else published[|published| - 1]
  }

  function Noted(s: Executor): Executor {
    s.(loads := s.loads + [Load(s.active, |s.queue|)])
  }

  /** `runEntry` up to the call of the delegate. */
  function Begun(s: Executor, e: Entry): Executor {
    var q := QueueDelete(s.queue, e.taskId);
    Noted(s.(queue := q,
          active := s.active + 1,
          tasks := s.tasks.WithStart(s.active + 1, |q|),
          running := s.running[e.ticket := e],
          started := s.started + [e.ticket]))
  }

  /** The synchronous part of `runEntry`, including its `finally` block when the delegate throws at once. */
  function Start(s: Executor, e: Entry): (r: Executor)
    ensures |r.queue| <= |s.queue|
    decreases |s.queue|, 1
  {
    match e.delegate
    case ReturnsPromise => Begun(s, e)
    case ThrowsAtOnce(published) => Drain(Finish(Begun(s, e), e, FinalState(published), RejectedWithError))
  }

  /** The `finally` block of `runEntry` up to the drain. */
  function Finish(s: Executor, e: Entry, final: TerminalState, outcome: Outcome): Executor {
    var active := if s.active == 0 then 0 else s.active - 1;
    Noted(s.(pending := s.pending - {e.taskId},
          active := active,
          tasks := s.tasks.WithFinish(final, active, |s.queue|),
          running := s.running - {e.ticket},
          settled := s.settled + [Settlement(e.ticket, outcome)],
          busFinished := s.busFinished + [e.ticket]))
  }

  function Drain(s: Executor): (r: Executor)
    ensures |r.queue| <= |s.queue|
    decreases |s.queue|, 0
  {
    if s.active < s.maxConcurrent && |s.queue| > 0 then
      Drain(Start(s.(queue := s.queue[1..]), s.queue[0]))
    else s
  }

  function TurnAway(s: Executor, ticket: nat): Executor {
    s.(turnedAway := s.turnedAway + {ticket},
    settled := s.settled + [Settlement(ticket, Resolved)],
    busFinished := s.busFinished + [ticket])
  }

  /** The overload branch: the pending entry set just before is deleted again. */
  function Overloaded(s: Executor, taskId: string): Executor {
    Noted(s.(pending := s.pending - {taskId}, tasks := s.tasks.WithQueueRejection(|s.queue|)))
  }

  function Enqueued(s: Executor, e: Entry): Executor {
    Noted(s.(queue := s.queue + [e], tasks := s.tasks.WithQueued(|s.queue| + 1)))
  }

  function Arrived(s: Executor, e: Entry): Executor {
    s.(submitted := s.submitted + 1, pending := s.pending[e.taskId := e])
  }

  function Execute(s: Executor, taskId: string, delegate: Delegate): Executor {
    var e := Entry(s.submitted, taskId, delegate);
    if s.active < s.maxConcurrent then Start(Arrived(s, e), e)
    else if |s.queue| >= s.maxQueued then TurnAway(Overloaded(Arrived(s, e), taskId), e.ticket)
    else Enqueued(Arrived(s, e), e)
  }

  function CanceledInQueue(s: Executor, i: nat): Executor
    requires i < |s.queue|
  {
    var q := s.queue[..i] + s.queue[i + 1..];
    Noted(s.(queue := q, pending := s.pending - {s.queue[i].taskId},
          tasks := s.tasks.WithFinish(Canceled, s.active, |q|)))
  }

  function CancelTask(s: Executor, taskId: string): Executor {
    var i := FindIndex(s.queue, taskId);
    if i < |s.queue| then
      TurnAway(CanceledInQueue(s, i), s.queue[i].ticket)
    else s
  }

  /** The delegate's promise of a running entry settles, after publishing some terminal statuses. */
  function OnSettled(s: Executor, ticket: nat, published: seq<TerminalState>, threw: bool): Executor {
    if ticket in s.running then
      Drain(Finish(s, s.running[ticket], FinalState(published), if threw then RejectedWithError else Resolved))
    else s
  }

  function Step(s: Executor, ev: Event): Executor {
    match ev
    case Submit(taskId, delegate) => Execute(s, taskId, delegate)
    case Cancel(taskId) => CancelTask(s, taskId)
    case Settle(ticket, published, threw) => OnSettled(s, ticket, published, threw)
  }

  function Run(s: Executor, evs: seq<Event>): Executor {
    if evs == [] then s else Step(Run(s, evs[..|evs| - 1]), evs[|evs| - 1])
  }
}
