/** The pending table: exactly when it lists the queued and running entries, each under its own id. */
module SchedulerPending {
  import opened Telemetry
  import opened Scheduler
  import opened SchedulerSafety
  import opened SchedulerLoss

  ghost predicate IsLive(s: Executor, x: Entry) {
    x in s.queue || (x.ticket in s.running && s.running[x.ticket] == x)
  }

  /** The pending table is exactly the queued and running entries, plus any entry just taken off the queue. */
  ghost predicate PendingExact(s: Executor, taken: set<Entry>) {
    && (forall x: Entry :: IsLive(s, x) || x in taken ==> x.taskId in s.pending && s.pending[x.taskId] == x)
    && (forall id :: id in s.pending ==>
                       s.pending[id].taskId == id && (IsLive(s, s.pending[id]) || s.pending[id] in taken))
  }

  lemma BegunPending(s: Executor, e: Entry)
    requires Core(s) && CanStart(s, e) && PendingExact(s, {e})
    ensures PendingExact(Begun(s, e), {})
  {
    var r := Begun(s, e);
    assert e.ticket !in s.running;
    var i := FindIndex(s.queue, e.taskId);
    if i < |s.queue| {
      assert s.queue[i] in s.queue;
      assert IsLive(s, s.queue[i]);
      assert false;
    }
    assert r.queue == s.queue;
    assert forall x :: IsLive(r, x) <==> IsLive(s, x) || x == e;
  }

  /** A running entry is neither queued nor pending under an id of another live entry. */
  lemma RunningAlone(s: Executor, e: Entry, x: Entry)
    requires TicketsOrdered(s) && SettledOnce(s) && PendingExact(s, {})
    requires e.ticket in s.running && s.running[e.ticket] == e
    requires IsLive(s, x) && x.taskId == e.taskId
    ensures x == e && x !in s.queue
  {
    assert IsLive(s, e);
    assert e.ticket in s.started;
    assert forall i :: 0 <= i < |s.queue| ==> s.queue[i] != e;
  }

  lemma FinishPending(s: Executor, e: Entry, r: Executor)
    requires TicketsOrdered(s) && SettledOnce(s) && PendingExact(s, {})
    requires e.ticket in s.running && s.running[e.ticket] == e
    requires r.queue == s.queue && r.running == s.running - {e.ticket} && r.pending == s.pending - {e.taskId}
    ensures PendingExact(r, {})
  {
    forall x | IsLive(r, x) ensures IsLive(s, x) && x.taskId != e.taskId {
      assert IsLive(s, x);
      if x.taskId == e.taskId { RunningAlone(s, e, x); }
    }
    forall id | id in r.pending ensures IsLive(r, s.pending[id]) {
      assert IsLive(s, s.pending[id]);
    }
  }

  lemma {:induction false} StartPending(s: Executor, e: Entry)
    requires Core(s) && s.active < s.maxConcurrent && CanStart(s, e) && PendingExact(s, {e})
    ensures PendingExact(Start(s, e), {})
    decreases |s.queue|, 1
  {
    hide PendingExact;
    BegunKeeps(s, e);
    BegunPending(s, e);
    match e.delegate
    case ReturnsPromise =>
    case ThrowsAtOnce(published) =>
      var r := Finish(Begun(s, e), e, FinalState(published), RejectedWithError);
      FinishKeeps(Begun(s, e), e, FinalState(published), RejectedWithError);
      FinishPending(Begun(s, e), e, r);
      DrainPending(r);
  }

  lemma TakenPending(s: Executor)
    requires TicketsOrdered(s) && PendingExact(s, {}) && |s.queue| > 0
    ensures PendingExact(s.(queue := s.queue[1..]), {s.queue[0]})
  {
    var rest := s.(queue := s.queue[1..]);
    assert forall x :: x in s.queue <==> x in rest.queue || x == s.queue[0];
    assert forall x :: IsLive(s, x) <==> IsLive(rest, x) || x == s.queue[0];
  }

  lemma {:induction false} DrainPending(s: Executor)
    requires Core(s) && GaugesCurrent(s) && PendingExact(s, {})
    ensures PendingExact(Drain(s), {})
    decreases |s.queue|, 0
  {
    if s.active < s.maxConcurrent && |s.queue| > 0 {
      hide PendingExact;
      var rest := s.(queue := s.queue[1..]);
      TakenCore(s);
      TakenPending(s);
      StartPending(rest, s.queue[0]);
      StartKeeps(rest, s.queue[0]);
      DrainPending(Start(rest, s.queue[0]));
    }
  }

  lemma SamePending(s: Executor, r: Executor)
    requires PendingExact(s, {}) && r.queue == s.queue && r.running == s.running && r.pending == s.pending
    ensures PendingExact(r, {})
  {
    assert forall x :: IsLive(r, x) <==> IsLive(s, x);
  }

  lemma ArrivedPending(s: Executor, e: Entry)
    requires PendingExact(s, {}) && e.taskId !in s.pending
    ensures PendingExact(Arrived(s, e), {e})
  {
    assert forall x :: IsLive(Arrived(s, e), x) <==> IsLive(s, x);
  }

  lemma WithoutIndex(q: seq<Entry>, i: nat)
    requires i < |q|
    requires forall j :: 0 <= j < |q| && j != i ==> q[j] != q[i]
    ensures forall x :: x in q[..i] + q[i + 1..] <==> x in q && x != q[i]
  {
    var r := q[..i] + q[i + 1..];
    forall x | x in q && x != q[i] ensures x in r {
      var j :| 0 <= j < |q| && q[j] == x;
      assert r[if j < i then j else j - 1] == x;
    }
  }

  lemma CanceledPending(s: Executor, i: nat)
    requires TicketsOrdered(s) && SettledOnce(s) && PendingExact(s, {}) && i < |s.queue|
    ensures PendingExact(CanceledInQueue(s, i), {})
  {
    var e := s.queue[i];
    var r := CanceledInQueue(s, i);
    QueuedNotStarted(s, i);
    WithoutIndex(s.queue, i);
    assert forall x :: IsLive(r, x) <==> IsLive(s, x) && x != e;
    assert IsLive(s, e);
  }

  lemma CancelPending(s: Executor, taskId: string)
    requires TicketsOrdered(s) && SettledOnce(s) && PendingExact(s, {})
    ensures PendingExact(CancelTask(s, taskId), {})
  {
    var i := FindIndex(s.queue, taskId);
    if i < |s.queue| {
      CanceledPending(s, i);
      SamePending(CanceledInQueue(s, i), CancelTask(s, taskId));
    }
  }

  lemma SettlePending(s: Executor, ticket: nat, published: seq<TerminalState>, threw: bool)
    requires Quiescent(s) && PendingExact(s, {})
    ensures PendingExact(OnSettled(s, ticket, published, threw), {})
  {
    hide PendingExact;
    if ticket in s.running {
      var e := s.running[ticket];
      var outcome := if threw then RejectedWithError else Resolved;
      FinishKeeps(s, e, FinalState(published), outcome);
      FinishPending(s, e, Finish(s, e, FinalState(published), outcome));
      DrainPending(Finish(s, e, FinalState(published), outcome));
    }
  }

  lemma EnqueuePending(s: Executor, e: Entry, r: Executor)
    requires PendingExact(s, {}) && e.taskId !in s.pending
    requires r.queue == s.queue + [e] && r.pending == s.pending[e.taskId := e] && r.running == s.running
    ensures PendingExact(r, {})
  {
    assert r.queue[|s.queue|] == e;
    assert forall x :: IsLive(r, x) <==> IsLive(s, x) || x == e;
  }

  lemma FreshSubmitPending(s: Executor, taskId: string, delegate: Delegate)
    requires Quiescent(s) && PendingExact(s, {}) && taskId !in s.pending
    ensures PendingExact(Execute(s, taskId, delegate), {})
  {
    hide MetersAgree, TicketsOrdered, SettledOnce, PendingExact;
    var e := Entry(s.submitted, taskId, delegate);
    var r := Execute(s, taskId, delegate);
    if s.active < s.maxConcurrent {
      ArrivedCanStart(s, e);
      ArrivedPending(s, e);
      StartPending(Arrived(s, e), e);
    } else if |s.queue| >= s.maxQueued {
      SamePending(s, r);
    } else {
      EnqueuePending(s, e, r);
    }
  }

  lemma PendingIsOlder(s: Executor, taskId: string)
    requires TicketsOrdered(s) && SettledOnce(s) && PendingExact(s, {}) && taskId in s.pending
    ensures IsLive(s, s.pending[taskId]) && s.pending[taskId].taskId == taskId
    ensures s.pending[taskId].ticket < s.submitted
  {
  }

  lemma DuplicateStartBreaks(s: Executor, e: Entry)
    requires e.taskId in s.pending && s.queue == []
    requires IsLive(s, s.pending[e.taskId]) && s.pending[e.taskId].taskId == e.taskId
    requires s.pending[e.taskId].ticket < s.submitted == e.ticket
    ensures !PendingExact(Start(Arrived(s, e), e), {})
  {
    var s1 := Arrived(s, e);
    var older := s.pending[e.taskId];
    match e.delegate
    case ReturnsPromise =>
      assert IsLive(Begun(s1, e), older);
    case ThrowsAtOnce(published) =>
      var r := Finish(Begun(s1, e), e, FinalState(published), RejectedWithError);
      assert r.queue == [] && Drain(r) == r;
      assert IsLive(r, older);
  }

  lemma DuplicateWaitBreaks(s: Executor, e: Entry, r: Executor)
    requires e.taskId in s.pending && IsLive(s, s.pending[e.taskId]) && s.pending[e.taskId].taskId == e.taskId
    requires s.pending[e.taskId].ticket < e.ticket
    requires r.running == s.running
    requires || (r.queue == s.queue && e.taskId !in r.pending)
             || (r.queue == s.queue + [e] && r.pending == s.pending[e.taskId := e])
    ensures !PendingExact(r, {})
  {
    assert IsLive(r, s.pending[e.taskId]);
    assert r.queue == s.queue + [e] ==> e in r.queue && IsLive(r, e);
  }

  /** Submitting an id that is still live breaks the pending table on every branch. */
  lemma DuplicateSubmitBreaks(s: Executor, taskId: string, delegate: Delegate)
    requires Quiescent(s) && PendingExact(s, {}) && taskId in s.pending
    ensures !PendingExact(Execute(s, taskId, delegate), {})
  {
    hide MetersAgree, TicketsOrdered, SettledOnce, PendingExact, IsLive;
    var e := Entry(s.submitted, taskId, delegate);
    PendingIsOlder(s, taskId);
    if s.active < s.maxConcurrent {
      DuplicateStartBreaks(s, e);
    } else {
      DuplicateWaitBreaks(s, e, Execute(s, taskId, delegate));
    }
  }

  /** A submission keeps the pending table exact if and only if its id is not live, which the caller can see in
      advance. */
  lemma SubmitKeepsPendingIff(s: Executor, taskId: string, delegate: Delegate)
    requires Quiescent(s) && PendingExact(s, {})
    ensures PendingExact(Step(s, Submit(taskId, delegate)), {}) <==> taskId !in s.pending
  {
    if taskId !in s.pending {
      FreshSubmitPending(s, taskId, delegate);
    } else {
      DuplicateSubmitBreaks(s, taskId, delegate);
    }
  }

  /** Along the run no id is submitted while an earlier entry with that id is pending. */
  ghost predicate LiveIdsDistinct(s: Executor, evs: seq<Event>) {
    evs == [] ||
    var n := |evs| - 1;
    LiveIdsDistinct(s, evs[..n]) &&
    (evs[n].Submit? ==> evs[n].taskId !in Run(s, evs[..n]).pending)
  }

  lemma StepPending(s: Executor, ev: Event)
    requires Quiescent(s) && PendingExact(s, {}) && (ev.Submit? ==> ev.taskId !in s.pending)
    ensures Quiescent(Step(s, ev)) && PendingExact(Step(s, ev), {})
  {
    StepKeepsQuiescent(s, ev);
    hide MetersAgree, TicketsOrdered, SettledOnce, PendingExact;
    match ev
    case Submit(taskId, delegate) => FreshSubmitPending(s, taskId, delegate);
    case Cancel(taskId) => CancelPending(s, taskId);
    case Settle(ticket, published, threw) => SettlePending(s, ticket, published, threw);
  }

  /** A queued entry is live, so an id that is not pending has no waiting namesake. */
  lemma FreshIdsDoNotJoin(s: Executor, ev: Event)
    requires PendingExact(s, {}) && (ev.Submit? ==> ev.taskId !in s.pending)
    ensures !JoinsNamesake(s, ev)
  {
    assert forall i :: 0 <= i < |s.queue| ==> IsLive(s, s.queue[i]);
  }

  /** With distinct live ids the pending table lists exactly the queued and running entries, whatever happened, and no
      submission waits behind a namesake. */
  lemma {:induction false} RunKeepsPending(s: Executor, evs: seq<Event>)
    requires Quiescent(s) && PendingExact(s, {}) && LiveIdsDistinct(s, evs)
    ensures Quiescent(Run(s, evs)) && PendingExact(Run(s, evs), {}) && NoNamesakeJoins(s, evs)
  {
    hide Quiescent, PendingExact, Step, JoinsNamesake;
    if evs != [] {
      var n := |evs| - 1;
      RunKeepsPending(s, evs[..n]);
      StepPending(Run(s, evs[..n]), evs[n]);
      FreshIdsDoNotJoin(Run(s, evs[..n]), evs[n]);
    }
  }
}
