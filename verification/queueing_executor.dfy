/** The executor as an object (src/queueing-executor.ts): its methods update the fields in place, step by step,
    and each is shown to take the turn that Scheduler describes. */
module QueueingExecutor {
  import opened Telemetry
  import opened Scheduler
  import opened SchedulerSafety
  import opened SchedulerOutcomes

  class QueueingAgentExecutor {
    const maxConcurrentTasks: nat
    const maxQueuedTasks: nat
    const telemetry: GatewayTelemetry
    var queue: seq<Entry>
    var pendingByTaskId: map<string, Entry>
    var activeTasks: nat

    // Seen from outside: how many entries arrived, which promises were settled, which buses were finished.
    var submitted: nat
    var settled: seq<Settlement>
    var busFinished: seq<nat>

    ghost var running: map<nat, Entry>
    ghost var started: seq<nat>
    ghost var turnedAway: set<nat>
    ghost var loads: seq<Load>
    ghost var history: seq<Event>

    ghost function State(): Executor
      reads this, telemetry
    {
      Executor(maxConcurrentTasks, maxQueuedTasks, queue, pendingByTaskId, activeTasks, telemetry.tasks,
               submitted, running, started, turnedAway, settled, busFinished, loads)
    }

    /** The object is where the state machine would be after the same turns. */
    ghost predicate Valid()
      reads this, telemetry
    {
      State() == Run(Init(maxConcurrentTasks, maxQueuedTasks), history)
    }

    constructor (telemetry: GatewayTelemetry, maxConcurrent: int, maxQueued: int)
      requires telemetry.tasks == NO_TASKS
      ensures Valid() && history == []
      ensures State() == Init(maxConcurrent, maxQueued)
      ensures this.telemetry == telemetry
    {
      this.telemetry := telemetry;
      maxConcurrentTasks := if maxConcurrent < 1 then 1 else maxConcurrent;
      maxQueuedTasks := if maxQueued < 0 then 0 else maxQueued;
      queue, pendingByTaskId, activeTasks := [], map[], 0;
      submitted, settled, busFinished := 0, [], [];
      running, started, turnedAway, loads, history := map[], [], {}, [], [];
    }

    method Execute(taskId: string, delegate: Delegate)
      requires Valid()
      modifies this, telemetry
      ensures Valid() && history == old(history) + [Submit(taskId, delegate)]
      ensures State() == Step(old(State()), Submit(taskId, delegate)) && Quiescent(State())
    {
      ghost var s0 := State();
      Accept(taskId, delegate);
      TookStep(s0, Submit(taskId, delegate));
    }

    method Accept(taskId: string, delegate: Delegate)
      modifies this, telemetry
      ensures State() == Scheduler.Execute(old(State()), taskId, delegate) && history == old(history)
    {
      hide Start, Overloaded, Enqueued, TurnAway;
      var entry := Entry(submitted, taskId, delegate);
      submitted := submitted + 1;
      pendingByTaskId := pendingByTaskId[taskId := entry];
      assert State() == Arrived(old(State()), entry);

      if activeTasks < maxConcurrentTasks {
        RunEntry(entry);
      } else if |queue| >= maxQueuedTasks {
        RejectOverload(entry);
      } else {
        Enqueue(entry);
      }
    }

    method RejectOverload(entry: Entry)
      modifies this, telemetry
      ensures State() == TurnAway(Overloaded(old(State()), entry.taskId), entry.ticket) && history == old(history)
    {
      pendingByTaskId := pendingByTaskId - {entry.taskId};
      telemetry.RecordQueueRejected(|queue|);
      loads := loads + [Load(activeTasks, |queue|)];
      busFinished := busFinished + [entry.ticket];
      settled := settled + [Settlement(entry.ticket, Resolved)];
      turnedAway := turnedAway + {entry.ticket};
    }

    method Enqueue(entry: Entry)
      modifies this, telemetry
      ensures State() == Enqueued(old(State()), entry) && history == old(history)
    {
      queue := queue + [entry];
      telemetry.RecordTaskQueued(|queue|);
      loads := loads + [Load(activeTasks, |queue|)];
    }

    method CancelTask(taskId: string)
      requires Valid()
      modifies this, telemetry
      ensures Valid() && history == old(history) + [Cancel(taskId)]
      ensures State() == Step(old(State()), Cancel(taskId)) && Quiescent(State())
    {
      ghost var s0 := State();
      DropQueued(taskId);
      TookStep(s0, Cancel(taskId));
    }

    method DropQueued(taskId: string)
      modifies this, telemetry
      ensures State() == Scheduler.CancelTask(old(State()), taskId) && history == old(history)
    {
      hide TaskMetrics.WithFinish;
      var queuedIndex := IndexOf(taskId);
      if queuedIndex < |queue| {
        var entry := queue[queuedIndex];
        queue := queue[..queuedIndex] + queue[queuedIndex + 1..];
        pendingByTaskId := pendingByTaskId - {taskId};
        busFinished := busFinished + [entry.ticket];
        settled := settled + [Settlement(entry.ticket, Resolved)];
        turnedAway := turnedAway + {entry.ticket};
        MeterFinish(Canceled);
      }
    }

    /** The continuation of `runEntry` after the delegate's promise settles. */
    method DelegateSettled(entry: Entry, published: seq<TerminalState>, threw: bool)
      requires Valid() && entry.ticket in running && running[entry.ticket] == entry
      modifies this, telemetry
      ensures Valid() && history == old(history) + [Settle(entry.ticket, published, threw)]
      ensures State() == Step(old(State()), Settle(entry.ticket, published, threw)) && Quiescent(State())
      ensures old(settled) < settled && settled[|old(settled)|].ticket == entry.ticket
      ensures settled[|old(settled)|].outcome == RejectedWithError <==> threw
    {
      RunningTicket(entry.ticket);
      CompletionSettles(State(), entry.ticket, published, threw);
      ghost var s0 := State();
      FinishEntry(entry, FinalState(published), if threw then RejectedWithError else Resolved);
      DrainQueue();
      TookStep(s0, Settle(entry.ticket, published, threw));
    }

    /** `runEntry` up to its first await, or to its end when the delegate throws before that. */
    method RunEntry(entry: Entry)
      modifies this, telemetry
      ensures State() == Start(old(State()), entry) && history == old(history)
      decreases |queue|, 1
    {
      hide TaskMetrics.WithStart, QueueDelete;
      QueueDeleteEntry(entry.taskId);
      activeTasks := activeTasks + 1;
      telemetry.RecordTaskStart(activeTasks, |queue|);
      running := running[entry.ticket := entry];
      started := started + [entry.ticket];
      loads := loads + [Load(activeTasks, |queue|)];
      assert State() == Begun(old(State()), entry);
      match entry.delegate {
        case ReturnsPromise =>
        case ThrowsAtOnce(published) =>
          FinishEntry(entry, FinalState(published), RejectedWithError);
          DrainQueue();
      }
    }

    method FinishEntry(entry: Entry, final: TerminalState, outcome: Outcome)
      modifies this, telemetry
      ensures State() == Finish(old(State()), entry, final, outcome) && history == old(history)
    {
      hide TaskMetrics.WithFinish;
      settled := settled + [Settlement(entry.ticket, outcome)];
      pendingByTaskId := pendingByTaskId - {entry.taskId};
      activeTasks := if activeTasks == 0 then 0 else activeTasks - 1;
      running := running - {entry.ticket};
      MeterFinish(final);
      busFinished := busFinished + [entry.ticket];
    }

    method MeterFinish(final: TerminalState)
      modifies this`loads, telemetry
      ensures State() == Noted(old(State()).(tasks := old(telemetry.tasks).WithFinish(final, activeTasks, |queue|)))
    {
      hide TaskMetrics.WithFinish;
      telemetry.RecordTaskFinish(final, activeTasks, |queue|);
      loads := loads + [Load(activeTasks, |queue|)];
    }

    method DrainQueue()
      modifies this, telemetry
      ensures State() == Drain(old(State())) && history == old(history)
      decreases |queue|, 0
    {
      while activeTasks < maxConcurrentTasks && |queue| > 0
        invariant Drain(State()) == Drain(old(State()))
        invariant |queue| <= old(|queue|) && history == old(history)
        decreases |queue|
      {
        var next := queue[0];
        ghost var s := State();
        queue := queue[1..];
        RunEntry(next);
        assert State() == Start(s.(queue := s.queue[1..]), s.queue[0]);
      }
    }

    method QueueDeleteEntry(taskId: string)
      modifies this`queue
      ensures queue == QueueDelete(old(queue), taskId)
    {
      var index := IndexOf(taskId);
      if index < |queue| {
        queue := queue[..index] + queue[index + 1..];
      }
    }

    method IndexOf(taskId: string) returns (i: nat)
      ensures i == FindIndex(queue, taskId)
    {
      i := 0;
      while i < |queue| && queue[i].taskId != taskId
        invariant i <= |queue|
        invariant forall j :: 0 <= j < i ==> queue[j].taskId != taskId
      {
        i := i + 1;
      }
    }

    lemma RunningTicket(ticket: nat)
      requires Valid() && ticket in running
      ensures running[ticket].ticket == ticket
    {
      RunIsQuiescent(maxConcurrentTasks, maxQueuedTasks, history);
    }

    ghost method TookStep(before: Executor, ev: Event)
      requires before == Run(Init(maxConcurrentTasks, maxQueuedTasks), history)
      requires State() == Step(before, ev)
      modifies this`history
      ensures Valid() && history == old(history) + [ev] && Quiescent(State())
    {
      hide Quiescent, Step;
      history := history + [ev];
      assert history[..|history| - 1] == old(history);
      RunIsQuiescent(maxConcurrentTasks, maxQueuedTasks, history);
    }
  }
}
