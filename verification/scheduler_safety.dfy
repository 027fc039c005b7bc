/** Scheduler safety: limits, work conservation, meters and arrival order, for any task ids. */
module SchedulerSafety {
  import opened Telemetry
  import opened Scheduler

  function PeakActive(loads: seq<Load>): nat {
    if loads == [] then 0 else Max(PeakActive(loads[..|loads| - 1]), loads[|loads| - 1].active)
  }

  function PeakDepth(loads: seq<Load>): nat {
    if loads == [] then 0 else Max(PeakDepth(loads[..|loads| - 1]), loads[|loads| - 1].depth)
  }

  /** The peaks are the largest readings ever taken. */
  lemma {:induction false} PeaksAreMaxima(loads: seq<Load>)
    ensures forall i :: 0 <= i < |loads| ==> loads[i].active <= PeakActive(loads) && loads[i].depth <= PeakDepth(loads)
    ensures PeakActive(loads) > 0 ==> exists i :: 0 <= i < |loads| && loads[i].active == PeakActive(loads)
    ensures PeakDepth(loads) > 0 ==> exists i :: 0 <= i < |loads| && loads[i].depth == PeakDepth(loads)
  {
    if loads != [] {
      var n := |loads| - 1;
      PeaksAreMaxima(loads[..n]);
      assert forall i :: 0 <= i < n ==> loads[..n][i] == loads[i];
    }
  }

  ghost predicate MetersAgree(s: Executor) {
    && s.tasks.active == s.active
    && s.tasks.TerminalsBalance()
    && s.tasks.finished + s.tasks.queueRejections == |s.settled|
    && s.tasks.started == |s.started|
    && s.tasks.maxActiveObserved == PeakActive(s.loads)
    && s.tasks.maxQueueDepthObserved == PeakDepth(s.loads)
    && s.tasks.maxActiveObserved <= s.maxConcurrent
    && s.tasks.maxQueueDepthObserved <= s.maxQueued
  }

  ghost predicate IsSettled(s: Executor, ticket: nat) {
    exists i :: 0 <= i < |s.settled| && s.settled[i].ticket == ticket
  }

  /** Tickets appear in at most one place, and start in arrival order. */
  ghost predicate TicketsOrdered(s: Executor) {
    && (forall i :: 0 <= i < |s.queue| ==> s.queue[i].ticket < s.submitted)
    && Increasing(s.queue)
    && (forall i, j :: 0 <= i < j < |s.started| ==> s.started[i] < s.started[j])
    && (forall i, j :: 0 <= i < |s.started| && 0 <= j < |s.queue| ==> s.started[i] < s.queue[j].ticket)
    && (forall t :: t in s.started || t in s.turnedAway ==> t < s.submitted)
    && (forall t :: t in s.started ==> t !in s.turnedAway)
    && (forall i :: 0 <= i < |s.queue| ==> s.queue[i].ticket !in s.turnedAway)
  }

  ghost predicate SettledOnce(s: Executor) {
    && (forall t :: t in s.running ==> s.running[t].ticket == t && t in s.started)
    && (forall t: nat :: IsSettled(s, t) <==> t in s.turnedAway || (t in s.started && t !in s.running))
    && (forall i, j :: 0 <= i < j < |s.settled| ==> s.settled[i].ticket != s.settled[j].ticket)
    && |s.busFinished| == |s.settled|
    && (forall i :: 0 <= i < |s.settled| ==> s.busFinished[i] == s.settled[i].ticket)
    && s.active == |s.running|
  }

  ghost predicate Bounded(s: Executor) {
    && 1 <= s.maxConcurrent
    && s.active <= s.maxConcurrent
    && |s.queue| <= s.maxQueued
  }

  ghost predicate WorkConserving(s: Executor) {
    s.queue != [] ==> s.active == s.maxConcurrent
  }

  ghost predicate GaugesCurrent(s: Executor) {
    && s.tasks.queueDepth == |s.queue|
    && (if s.loads == [] then s.active == 0 && s.queue == []
        else s.loads[|s.loads| - 1] == Load(s.active, |s.queue|))
  }

  ghost predicate Core(s: Executor) {
    Bounded(s) && MetersAgree(s) && TicketsOrdered(s) && SettledOnce(s)
  }

  /** The state between two turns. */
  ghost predicate Quiescent(s: Executor) {
    Core(s) && GaugesCurrent(s) && WorkConserving(s)
  }

  lemma NotedPeaks(s: Executor)
    ensures PeakActive(Noted(s).loads) == Max(PeakActive(s.loads), s.active)
    ensures PeakDepth(Noted(s).loads) == Max(PeakDepth(s.loads), |s.queue|)
  {
    assert Noted(s).loads[..|s.loads|] == s.loads;
  }

  /** An entry about to start: it arrived after everything started and before everything queued. */
  ghost predicate CanStart(s: Executor, e: Entry) {
    && e.ticket < s.submitted
    && e.ticket !in s.turnedAway
    && (forall t :: t in s.started ==> t < e.ticket)
    && (forall i :: 0 <= i < |s.queue| ==> e.ticket < s.queue[i].ticket)
  }

  lemma BegunMeters(s: Executor, e: Entry)
    requires Bounded(s) && MetersAgree(s) && s.active < s.maxConcurrent
    ensures Bounded(Begun(s, e)) && MetersAgree(Begun(s, e)) && GaugesCurrent(Begun(s, e))
  {
    NotedPeaks(s.(queue := QueueDelete(s.queue, e.taskId), active := s.active + 1));
  }

  ghost predicate Increasing(q: seq<Entry>) {
    forall i, j :: 0 <= i < j < |q| ==> q[i].ticket < q[j].ticket
  }

  lemma WithoutIndexOrdered(q: seq<Entry>, i: nat)
    requires Increasing(q) && i < |q|
    ensures var r := q[..i] + q[i + 1..];
            && Increasing(r)
            && (forall j :: 0 <= j < |r| ==> r[j] in q && r[j].ticket != q[i].ticket)
  {
    var r := q[..i] + q[i + 1..];
    assert forall j :: 0 <= j < |r| ==> r[j] == q[if j < i then j else j + 1];
  }

  lemma QueueDeleteOrdered(q: seq<Entry>, taskId: string)
    requires Increasing(q)
    ensures Increasing(QueueDelete(q, taskId))
    ensures forall i :: 0 <= i < |QueueDelete(q, taskId)| ==> QueueDelete(q, taskId)[i] in q
  {
    var i := FindIndex(q, taskId);
    if i < |q| { WithoutIndexOrdered(q, i); }
  }

  lemma BegunTickets(s: Executor, e: Entry)
    requires TicketsOrdered(s) && CanStart(s, e)
    ensures TicketsOrdered(Begun(s, e))
  {
    hide QueueDelete, FindIndex, Increasing;
    QueueDeleteOrdered(s.queue, e.taskId);
    var r := Begun(s, e);
    assert forall i :: 0 <= i < |r.queue| ==> r.queue[i] in s.queue;
    assert forall i :: 0 <= i < |s.started| ==> s.started[i] in s.started;
    assert forall t :: t in r.started ==> t in s.started || t == e.ticket;
  }

  lemma BegunSettled(s: Executor, e: Entry)
    requires SettledOnce(s) && CanStart(s, e)
    ensures SettledOnce(Begun(s, e))
  {
    var r := Begun(s, e);
    assert e.ticket !in s.started;
    assert e.ticket !in s.running;
    assert |r.running| == |s.running| + 1;
    assert forall t :: t in r.started <==> t in s.started || t == e.ticket;
    assert forall t: nat :: IsSettled(r, t) <==> IsSettled(s, t);
  }

  lemma SettledAppend(s: Executor, r: Executor, x: Settlement)
    requires r.settled == s.settled + [x]
    ensures forall t: nat :: IsSettled(r, t) <==> IsSettled(s, t) || t == x.ticket
  {
    forall t: nat ensures IsSettled(r, t) <==> IsSettled(s, t) || t == x.ticket {
      if IsSettled(s, t) {
        var i :| 0 <= i < |s.settled| && s.settled[i].ticket == t;
        assert r.settled[i].ticket == t;
      }
      if t == x.ticket { assert r.settled[|s.settled|].ticket == t; }
    }
  }

  lemma RunningCount(s: Executor, t: nat)
    requires t in s.running
    ensures |s.running| == |s.running - {t}| + 1
  {
    assert s.running.Keys == (s.running - {t}).Keys + {t};
  }

  lemma FinishSettled(s: Executor, e: Entry, final: TerminalState, outcome: Outcome)
    requires SettledOnce(s) && e.ticket in s.running && e.ticket !in s.turnedAway
    ensures SettledOnce(Finish(s, e, final, outcome))
    ensures Finish(s, e, final, outcome).active < s.active
  {
    var r := Finish(s, e, final, outcome);
    RunningCount(s, e.ticket);
    assert !IsSettled(s, e.ticket);
    SettledAppend(s, r, Settlement(e.ticket, outcome));
  }

  lemma FinishMeters(s: Executor, e: Entry, final: TerminalState, outcome: Outcome)
    requires Bounded(s) && MetersAgree(s) && s.active > 0
    ensures Bounded(Finish(s, e, final, outcome)) && MetersAgree(Finish(s, e, final, outcome))
    ensures GaugesCurrent(Finish(s, e, final, outcome))
  {
    NotedPeaks(s.(active := s.active - 1));
  }

  lemma FinishKeeps(s: Executor, e: Entry, final: TerminalState, outcome: Outcome)
    requires Core(s) && e.ticket in s.running
    ensures Core(Finish(s, e, final, outcome)) && GaugesCurrent(Finish(s, e, final, outcome))
    ensures Finish(s, e, final, outcome).active < s.active
  {
    RunningCount(s, e.ticket);
    FinishMeters(s, e, final, outcome);
    FinishSettled(s, e, final, outcome);
    assert TicketsOrdered(Finish(s, e, final, outcome));
  }

  lemma BegunKeeps(s: Executor, e: Entry)
    requires Core(s) && s.active < s.maxConcurrent && CanStart(s, e)
    ensures Core(Begun(s, e)) && GaugesCurrent(Begun(s, e)) && e.ticket in Begun(s, e).running
  {
    BegunMeters(s, e);
    BegunTickets(s, e);
    BegunSettled(s, e);
  }

  lemma TakenCore(s: Executor)
    requires Core(s) && |s.queue| > 0
    ensures Core(s.(queue := s.queue[1..])) && CanStart(s.(queue := s.queue[1..]), s.queue[0])
  {
    SameSettled(s, s.(queue := s.queue[1..]));
    assert s.queue[0] in s.queue;
  }

  lemma {:induction false} StartKeeps(s: Executor, e: Entry)
    requires Core(s) && s.active < s.maxConcurrent && CanStart(s, e)
    ensures Core(Start(s, e)) && GaugesCurrent(Start(s, e))
    ensures e.delegate.ThrowsAtOnce? ==> WorkConserving(Start(s, e))
    decreases |s.queue|, 1
  {
    BegunKeeps(s, e);
    match e.delegate
    case ReturnsPromise =>
    case ThrowsAtOnce(published) =>
      FinishKeeps(Begun(s, e), e, FinalState(published), RejectedWithError);
      DrainKeeps(Finish(Begun(s, e), e, FinalState(published), RejectedWithError));
  }

  lemma {:induction false} DrainKeeps(s: Executor)
    requires Core(s) && GaugesCurrent(s)
    ensures Quiescent(Drain(s))
    decreases |s.queue|, 0
  {
    if s.active < s.maxConcurrent && |s.queue| > 0 {
      var rest := s.(queue := s.queue[1..]);
      TakenCore(s);
      StartKeeps(rest, s.queue[0]);
      DrainKeeps(Start(rest, s.queue[0]));
    }
  }

  lemma {:induction false} StartFrame(s: Executor, e: Entry)
    ensures Start(s, e).submitted == s.submitted && Start(s, e).maxConcurrent == s.maxConcurrent
    ensures s.loads <= Start(s, e).loads
    decreases |s.queue|, 1
  {
    if e.delegate.ThrowsAtOnce? {
      DrainFrame(Finish(Begun(s, e), e, FinalState(e.delegate.published), RejectedWithError));
    }
  }

  lemma {:induction false} DrainFrame(s: Executor)
    ensures Drain(s).submitted == s.submitted && Drain(s).maxConcurrent == s.maxConcurrent
    ensures s.loads <= Drain(s).loads
    decreases |s.queue|, 0
  {
    if s.active < s.maxConcurrent && |s.queue| > 0 {
      StartFrame(s.(queue := s.queue[1..]), s.queue[0]);
      DrainFrame(Start(s.(queue := s.queue[1..]), s.queue[0]));
    }
  }

  /** Scheduler safety of one turn, for any ids, delegates and interleaving. */
  lemma StepKeepsQuiescent(s: Executor, ev: Event)
    requires Quiescent(s)
    ensures Quiescent(Step(s, ev))
  {
    hide Bounded, MetersAgree, TicketsOrdered, SettledOnce;
    match ev
    case Submit(taskId, delegate) => ExecuteKeeps(s, taskId, delegate);
    case Cancel(taskId) => CancelKeeps(s, taskId);
    case Settle(ticket, published, threw) => SettleKeeps(s, ticket, published, threw);
  }

  lemma SettleKeeps(s: Executor, ticket: nat, published: seq<TerminalState>, threw: bool)
    requires Quiescent(s)
    ensures Quiescent(OnSettled(s, ticket, published, threw))
  {
    assert ticket in s.running ==> s.running[ticket].ticket == ticket;
    hide Bounded, MetersAgree, TicketsOrdered, SettledOnce;
    if ticket in s.running {
      var outcome := if threw then RejectedWithError else Resolved;
      FinishKeeps(s, s.running[ticket], FinalState(published), outcome);
      DrainKeeps(Finish(s, s.running[ticket], FinalState(published), outcome));
    }
  }

  lemma TurnAwaySettles(s: Executor, ticket: nat)
    requires SettledOnce(s) && ticket !in s.turnedAway && ticket !in s.started
    ensures SettledOnce(TurnAway(s, ticket))
  {
    assert !IsSettled(s, ticket);
    SettledAppend(s, TurnAway(s, ticket), Settlement(ticket, Resolved));
  }

  lemma SameSettled(s: Executor, r: Executor)
    requires SettledOnce(s)
    requires r.settled == s.settled && r.busFinished == s.busFinished && r.running == s.running
    requires r.started == s.started && r.turnedAway == s.turnedAway && r.active == s.active
    ensures SettledOnce(r)
  {
    assert forall t: nat :: IsSettled(r, t) <==> IsSettled(s, t);
  }

  lemma ExecuteKeeps(s: Executor, taskId: string, delegate: Delegate)
    requires Quiescent(s)
    ensures Quiescent(Execute(s, taskId, delegate))
  {
    var e := Entry(s.submitted, taskId, delegate);
    if s.active < s.maxConcurrent {
      var s1 := Arrived(s, e);
      SameSettled(s, s1);
      assert TicketsOrdered(s1) && MetersAgree(s1) && Bounded(s1);
      StartKeeps(s1, e);
    } else if |s.queue| >= s.maxQueued {
      RejectKeeps(s, e);
    } else {
      EnqueueKeeps(s, e);
    }
  }

  lemma RejectMeters(s: Executor, e: Entry)
    requires Bounded(s) && MetersAgree(s)
    ensures MetersAgree(TurnAway(Overloaded(Arrived(s, e), e.taskId), e.ticket))
  {
    NotedPeaks(s);
  }

  lemma RejectTickets(s: Executor, e: Entry)
    requires TicketsOrdered(s) && e.ticket == s.submitted
    ensures TicketsOrdered(TurnAway(Overloaded(Arrived(s, e), e.taskId), e.ticket))
  {
  }

  lemma RejectKeeps(s: Executor, e: Entry)
    requires Quiescent(s) && e.ticket == s.submitted && s.active == s.maxConcurrent && |s.queue| >= s.maxQueued
    ensures Quiescent(Execute(s, e.taskId, e.delegate))
  {
    RejectMeters(s, e);
    RejectTickets(s, e);
    SameSettled(s, Overloaded(Arrived(s, e), e.taskId));
    TurnAwaySettles(Overloaded(Arrived(s, e), e.taskId), e.ticket);
  }

  lemma EnqueueTickets(s: Executor, e: Entry)
    requires TicketsOrdered(s) && e.ticket == s.submitted
    ensures TicketsOrdered(s.(submitted := s.submitted + 1, queue := s.queue + [e]))
  {
    assert forall i :: 0 <= i < |s.started| ==> s.started[i] in s.started;
  }

  lemma EnqueueKeeps(s: Executor, e: Entry)
    requires Quiescent(s) && e.ticket == s.submitted && s.active == s.maxConcurrent && |s.queue| < s.maxQueued
    ensures Quiescent(Execute(s, e.taskId, e.delegate))
  {
    var r := Execute(s, e.taskId, e.delegate);
    NotedPeaks(s.(queue := s.queue + [e]));
    SameSettled(s, r);
    EnqueueTickets(s, e);
    assert TicketsOrdered(r);
  }

  lemma QueuedNotStarted(s: Executor, i: nat)
    requires TicketsOrdered(s) && i < |s.queue|
    ensures s.queue[i].ticket !in s.started && s.queue[i].ticket !in s.turnedAway
  {
    assert forall j :: 0 <= j < |s.started| ==> s.started[j] != s.queue[i].ticket;
  }

  lemma CancelTickets(s: Executor, i: nat)
    requires TicketsOrdered(s) && i < |s.queue|
    ensures s.queue[i].ticket !in s.started
    ensures TicketsOrdered(TurnAway(CanceledInQueue(s, i), s.queue[i].ticket))
  {
    QueuedNotStarted(s, i);
    WithoutIndexOrdered(s.queue, i);
    assert forall j :: 0 <= j < |s.queue| ==> s.queue[j] in s.queue;
    assert forall x :: x in s.queue ==> x.ticket < s.submitted && x.ticket !in s.turnedAway;
  }

  lemma CancelMeters(s: Executor, i: nat)
    requires Bounded(s) && MetersAgree(s) && i < |s.queue|
    ensures MetersAgree(TurnAway(CanceledInQueue(s, i), s.queue[i].ticket))
  {
    NotedPeaks(s.(queue := s.queue[..i] + s.queue[i + 1..]));
  }

  lemma CancelKeeps(s: Executor, taskId: string)
    requires Quiescent(s)
    ensures Quiescent(CancelTask(s, taskId))
  {
    var i := FindIndex(s.queue, taskId);
    if i < |s.queue| {
      CancelTickets(s, i);
      CancelMeters(s, i);
      SameSettled(s, CanceledInQueue(s, i));
      TurnAwaySettles(CanceledInQueue(s, i), s.queue[i].ticket);
    }
  }

  /** Scheduler safety over whole runs: the limits, work conservation and meter conservation
      hold between any two turns, even when task ids repeat. */
  lemma {:induction false} RunIsQuiescent(maxConcurrent: int, maxQueued: int, evs: seq<Event>)
    ensures Quiescent(Run(Init(maxConcurrent, maxQueued), evs))
  {
    if evs == [] {
      assert forall t: nat :: !IsSettled(Init(maxConcurrent, maxQueued), t);
    } else {
      RunIsQuiescent(maxConcurrent, maxQueued, evs[..|evs| - 1]);
      StepKeepsQuiescent(Run(Init(maxConcurrent, maxQueued), evs[..|evs| - 1]), evs[|evs| - 1]);
    }
  }

  lemma LoadsGrow(s: Executor, ev: Event)
    ensures s.loads <= Step(s, ev).loads
  {
    match ev
    case Submit(taskId, delegate) =>
      StartFrame(Arrived(s, Entry(s.submitted, taskId, delegate)), Entry(s.submitted, taskId, delegate));
    case Cancel(taskId) =>
    case Settle(ticket, published, threw) =>
      if ticket in s.running {
        DrainFrame(Finish(s, s.running[ticket], FinalState(published), if threw then RejectedWithError else Resolved));
      }
  }

  lemma {:induction false} RunLoadsGrow(s: Executor, evs: seq<Event>, k: nat)
    requires k <= |evs|
    ensures Run(s, evs[..k]).loads <= Run(s, evs).loads
  {
    if k == |evs| {
      assert evs[..k] == evs;
    } else {
      var n := |evs| - 1;
      RunLoadsGrow(s, evs[..n], k);
      assert evs[..n][..k] == evs[..k];
      LoadsGrow(Run(s, evs[..n]), evs[n]);
    }
  }

  lemma MaximaCover(past: Executor, s: Executor)
    requires GaugesCurrent(past) && past.loads <= s.loads
    ensures past.active <= PeakActive(s.loads) && |past.queue| <= PeakDepth(s.loads)
  {
    PeaksAreMaxima(s.loads);
    if past.loads != [] {
      assert s.loads[|past.loads| - 1] == past.loads[|past.loads| - 1];
    }
  }

  /** The observed maxima cover every state of the run, stay within the limits, and were really reached. */
  lemma ObservedMaximaAreTrue(maxConcurrent: int, maxQueued: int, evs: seq<Event>)
    ensures var s := Run(Init(maxConcurrent, maxQueued), evs);
            && (forall k :: 0 <= k <= |evs| ==>
                              var past := Run(Init(maxConcurrent, maxQueued), evs[..k]);
                              past.active <= s.tasks.maxActiveObserved && |past.queue| <= s.tasks.maxQueueDepthObserved)
            && s.tasks.maxActiveObserved <= s.maxConcurrent && s.tasks.maxQueueDepthObserved <= s.maxQueued
            && (s.tasks.maxActiveObserved > 0 ==>
                  exists i :: 0 <= i < |s.loads| && s.loads[i].active == s.tasks.maxActiveObserved)
            && (s.tasks.maxQueueDepthObserved > 0 ==>
                  exists i :: 0 <= i < |s.loads| && s.loads[i].depth == s.tasks.maxQueueDepthObserved)
  {
    hide TicketsOrdered, SettledOnce, PeakActive, PeakDepth;
    var s0 := Init(maxConcurrent, maxQueued);
    var s := Run(s0, evs);
    RunIsQuiescent(maxConcurrent, maxQueued, evs);
    PeaksAreMaxima(s.loads);
    forall k | 0 <= k <= |evs|
      ensures Run(s0, evs[..k]).active <= s.tasks.maxActiveObserved
      ensures |Run(s0, evs[..k]).queue| <= s.tasks.maxQueueDepthObserved
    {
      RunIsQuiescent(maxConcurrent, maxQueued, evs[..k]);
      RunLoadsGrow(s0, evs, k);
      MaximaCover(Run(s0, evs[..k]), s);
    }
  }
}
