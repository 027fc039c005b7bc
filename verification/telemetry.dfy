/** The task counters and gauges of the gateway (src/telemetry.ts). */
module Telemetry {

  datatype TerminalState = Completed | Failed | Canceled | Rejected

  datatype TaskMetrics = TaskMetrics(
    queued: nat, started: nat,
    completed: nat, failed: nat, canceled: nat, rejected: nat,
    queueRejections: nat, finished: nat,
    active: nat, queueDepth: nat,
    maxActiveObserved: nat, maxQueueDepthObserved: nat)
  {
    function WithQueueState(activeCount: nat, depth: nat): TaskMetrics {
      this.(active := activeCount,
      queueDepth := depth,
      maxActiveObserved := Max(maxActiveObserved, activeCount),
      maxQueueDepthObserved := Max(maxQueueDepthObserved, depth))
    }

    function WithTerminal(state: TerminalState): TaskMetrics {
      match state
      case Completed => this.(completed := completed + 1)
      case Failed => this.(failed := failed + 1)
      case Canceled => this.(canceled := canceled + 1)
      case Rejected => this.(rejected := rejected + 1)
    }

    function WithFinish(state: TerminalState, activeCount: nat, depth: nat): TaskMetrics {
      this.(finished := finished + 1).WithQueueState(activeCount, depth).WithTerminal(state)
    }

    function WithStart(activeCount: nat, depth: nat): TaskMetrics {
      this.(started := started + 1).WithQueueState(activeCount, depth)
    }

    function WithQueued(depth: nat): TaskMetrics {
      this.(queued := queued + 1).WithQueueState(active, depth)
    }

    function WithQueueRejection(depth: nat): TaskMetrics {
      this.(queueRejections := queueRejections + 1, rejected := rejected + 1).WithQueueState(active, depth)
    }

    /** Every finish and every queue rejection is booked under exactly one terminal state. */
    predicate TerminalsBalance() {
      completed + failed + canceled + rejected == finished + queueRejections
    }
  }

  const NO_TASKS := TaskMetrics(0, 0, 0, 0, 0, 0, 0, 0, 0, 0, 0, 0)

  function Max(a: nat, b: nat): nat {
    if a < b then b else a
  }

  class GatewayTelemetry {
    var tasks: TaskMetrics

    constructor ()
      ensures tasks == NO_TASKS
    {
      tasks := NO_TASKS;
    }

    method RecordTaskQueued(queueDepth: nat)
      modifies this
      ensures tasks == old(tasks).WithQueued(queueDepth)
    {
      tasks := tasks.(queued := tasks.queued + 1);
      SetQueueState(tasks.active, queueDepth);
    }

    method RecordTaskStart(activeCount: nat, queueDepth: nat)
      modifies this
      ensures tasks == old(tasks).WithStart(activeCount, queueDepth)
    {
      tasks := tasks.(started := tasks.started + 1);
      SetQueueState(activeCount, queueDepth);
    }

    method RecordTaskFinish(state: TerminalState, activeCount: nat, queueDepth: nat)
      modifies this
      ensures tasks == old(tasks).WithFinish(state, activeCount, queueDepth)
    {
      tasks := tasks.(finished := tasks.finished + 1);
      SetQueueState(activeCount, queueDepth);
      match state {
        case Completed => tasks := tasks.(completed := tasks.completed + 1);
        case Failed => tasks := tasks.(failed := tasks.failed + 1);
        case Canceled => tasks := tasks.(canceled := tasks.canceled + 1);
        case Rejected => tasks := tasks.(rejected := tasks.rejected + 1);
      }
    }

    method RecordQueueRejected(queueDepth: nat)
      modifies this
      ensures tasks == old(tasks).WithQueueRejection(queueDepth)
    {
      tasks := tasks.(queueRejections := tasks.queueRejections + 1);
      tasks := tasks.(rejected := tasks.rejected + 1);
      SetQueueState(tasks.active, queueDepth);
    }

    method SetQueueState(activeCount: nat, queueDepth: nat)
      modifies this
      ensures tasks == old(tasks).WithQueueState(activeCount, queueDepth)
    {
      tasks := tasks.(
      active := activeCount,
      queueDepth := queueDepth,
      maxActiveObserved := Max(tasks.maxActiveObserved, activeCount),
      maxQueueDepthObserved := Max(tasks.maxQueueDepthObserved, queueDepth));
    }
  }
}
