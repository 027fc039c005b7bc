/** Settlement: every submitted entry is queued, running, or settled exactly once, as long as no two queued entries have
    the same task id; and exactly when a submission endangers that. */
module SchedulerLoss {
  import opened Telemetry
  import opened Scheduler
  import opened SchedulerSafety

  ghost predicate IsQueued(s: Executor, t: nat) {
    exists i :: 0 <= i < |s.queue| && s.queue[i].ticket == t
  }

  /** Every submitted entry is queued, was started, or was turned away; `taken` has just left the queue. */
  ghost predicate NothingLost(s: Executor, taken: set<nat>) {
    forall t: nat :: t < s.submitted ==> IsQueued(s, t) || t in s.started || t in s.turnedAway || t in taken
  }

  /** Submitted entries are settled, running or queued, apart from those just taken off the queue. */
  ghost predicate Balanced(s: Executor, taken: nat) {
    s.submitted == |s.settled| + s.active + |s.queue| + taken
  }

  ghost predicate Lossless(s: Executor) {
    NothingLost(s, {}) && Balanced(s, 0)
  }

  ghost predicate IdsDistinct(q: seq<Entry>) {
    forall i, j :: 0 <= i < j < |q| ==> q[i].taskId != q[j].taskId
  }

  ghost predicate HasId(q: seq<Entry>, taskId: string) {
    exists i :: 0 <= i < |q| && q[i].taskId == taskId
  }

  // ----- what keeps every entry ---------------------------------------------------------------------------------

  lemma NothingToDelete(q: seq<Entry>, taskId: string)
    requires !HasId(q, taskId)
    ensures QueueDelete(q, taskId) == q
  {
  }

  lemma SameLost(s: Executor, r: Executor, taken: set<nat>, taken': set<nat>)
    requires NothingLost(s, taken) && r.queue == s.queue && r.submitted == s.submitted
    requires forall t: nat :: t in s.started || t in s.turnedAway || t in taken ==>
                                t in r.started || t in r.turnedAway || t in taken'
    ensures NothingLost(r, taken')
  {
    forall t: nat | t < r.submitted ensures IsQueued(r, t) || t in r.started || t in r.turnedAway || t in taken' {
      assert IsQueued(s, t) ==> IsQueued(r, t);
    }
  }

  lemma BegunLossless(s: Executor, e: Entry)
    requires NothingLost(s, {e.ticket}) && Balanced(s, 1) && !HasId(s.queue, e.taskId)
    ensures Lossless(Begun(s, e)) && Begun(s, e).queue == s.queue
  {
    NothingToDelete(s.queue, e.taskId);
    hide QueueDelete;
    SameLost(s, Begun(s, e), {e.ticket}, {});
  }

  lemma FinishLossless(s: Executor, e: Entry, final: TerminalState, outcome: Outcome)
    requires Lossless(s) && s.active > 0
    ensures Lossless(Finish(s, e, final, outcome)) && Finish(s, e, final, outcome).queue == s.queue
  {
    SameLost(s, Finish(s, e, final, outcome), {}, {});
  }

  lemma TakenLossless(s: Executor)
    requires Lossless(s) && IdsDistinct(s.queue) && |s.queue| > 0
    ensures var rest := s.(queue := s.queue[1..]);
            && NothingLost(rest, {s.queue[0].ticket}) && Balanced(rest, 1)
            && IdsDistinct(rest.queue) && !HasId(rest.queue, s.queue[0].taskId)
  {
    var rest := s.(queue := s.queue[1..]);
    forall t: nat | t < s.submitted && IsQueued(s, t) ensures IsQueued(rest, t) || s.queue[0].ticket == t {
      var i :| 0 <= i < |s.queue| && s.queue[i].ticket == t;
      if i > 0 { assert rest.queue[i - 1].ticket == t; }
    }
  }

  lemma {:induction false} StartLossless(s: Executor, e: Entry)
    requires Core(s) && s.active < s.maxConcurrent && CanStart(s, e)
    requires NothingLost(s, {e.ticket}) && Balanced(s, 1) && IdsDistinct(s.queue) && !HasId(s.queue, e.taskId)
    ensures Lossless(Start(s, e)) && IdsDistinct(Start(s, e).queue)
    decreases |s.queue|, 1
  {
    hide NothingLost, Balanced, IdsDistinct, Core, CanStart;
    BegunKeeps(s, e);
    BegunLossless(s, e);
    match e.delegate
    case ReturnsPromise =>
    case ThrowsAtOnce(published) =>
      FinishKeeps(Begun(s, e), e, FinalState(published), RejectedWithError);
      FinishLossless(Begun(s, e), e, FinalState(published), RejectedWithError);
      DrainLossless(Finish(Begun(s, e), e, FinalState(published), RejectedWithError));
  }

  lemma {:induction false} DrainLossless(s: Executor)
    requires Core(s) && GaugesCurrent(s) && Lossless(s) && IdsDistinct(s.queue)
    ensures Lossless(Drain(s)) && IdsDistinct(Drain(s).queue)
    decreases |s.queue|, 0
  {
    if s.active < s.maxConcurrent && |s.queue| > 0 {
      hide Lossless, IdsDistinct, Core, GaugesCurrent, NothingLost, Balanced;
      var rest := s.(queue := s.queue[1..]);
      TakenCore(s);
      TakenLossless(s);
      StartLossless(rest, s.queue[0]);
      StartKeeps(rest, s.queue[0]);
      DrainLossless(Start(rest, s.queue[0]));
    }
  }

  lemma WithoutIndexDistinct(q: seq<Entry>, i: nat)
    requires IdsDistinct(q) && i < |q|
    ensures IdsDistinct(q[..i] + q[i + 1..])
  {
    var r := q[..i] + q[i + 1..];
    assert forall j :: 0 <= j < |r| ==> r[j] == q[if j < i then j else j + 1];
  }

  lemma CancelLossless(s: Executor, taskId: string)
    requires Lossless(s)
    ensures Lossless(CancelTask(s, taskId))
    ensures IdsDistinct(s.queue) ==> IdsDistinct(CancelTask(s, taskId).queue)
  {
    var i := FindIndex(s.queue, taskId);
    if i < |s.queue| {
      var r := TurnAway(CanceledInQueue(s, i), s.queue[i].ticket);
      if IdsDistinct(s.queue) { WithoutIndexDistinct(s.queue, i); }
      forall t: nat | t < r.submitted ensures IsQueued(r, t) || t in r.started || t in r.turnedAway {
        if j :| 0 <= j < |s.queue| && s.queue[j].ticket == t && j != i {
          assert r.queue[if j < i then j else j - 1].ticket == t;
        } else {
          assert IsQueued(s, t) ==> t == s.queue[i].ticket;
        }
      }
    }
  }

  lemma SettleLossless(s: Executor, ticket: nat, published: seq<TerminalState>, threw: bool)
    requires Quiescent(s) && Lossless(s) && IdsDistinct(s.queue)
    ensures Lossless(OnSettled(s, ticket, published, threw))
            && IdsDistinct(OnSettled(s, ticket, published, threw).queue)
  {
    assert ticket in s.running ==> s.running[ticket].ticket == ticket && s.active > 0 by {
      if ticket in s.running { RunningCount(s, ticket); }
    }
    hide Lossless, IdsDistinct, Core, GaugesCurrent, WorkConserving;
    if ticket in s.running {
      var e := s.running[ticket];
      var outcome := if threw then RejectedWithError else Resolved;
      FinishKeeps(s, e, FinalState(published), outcome);
      FinishLossless(s, e, FinalState(published), outcome);
      DrainLossless(Finish(s, e, FinalState(published), outcome));
    }
  }

  lemma ArrivedCanStart(s: Executor, e: Entry)
    requires Core(s) && e.ticket == s.submitted && s.queue == []
    ensures Core(Arrived(s, e)) && CanStart(Arrived(s, e), e)
  {
    SameSettled(s, Arrived(s, e));
  }

  lemma ArrivedTaken(s: Executor, e: Entry)
    requires Lossless(s) && e.ticket == s.submitted
    ensures NothingLost(Arrived(s, e), {e.ticket}) && Balanced(Arrived(s, e), 1)
  {
    var r := Arrived(s, e);
    forall t: nat | t < r.submitted ensures IsQueued(r, t) || t in r.started || t in r.turnedAway || t in {e.ticket} {
      assert t < s.submitted && IsQueued(s, t) ==> IsQueued(r, t);
    }
  }

  lemma RejectLossless(s: Executor, e: Entry)
    requires Lossless(s) && e.ticket == s.submitted
    ensures var r := TurnAway(Overloaded(Arrived(s, e), e.taskId), e.ticket); Lossless(r) && r.queue == s.queue
  {
    ArrivedTaken(s, e);
    SameLost(Arrived(s, e), TurnAway(Overloaded(Arrived(s, e), e.taskId), e.ticket), {e.ticket}, {});
  }

  lemma EnqueueLossless(s: Executor, e: Entry)
    requires Lossless(s) && e.ticket == s.submitted
    ensures Lossless(Enqueued(Arrived(s, e), e))
  {
    var r := Enqueued(Arrived(s, e), e);
    assert r.queue[|s.queue|].ticket == e.ticket;
    forall t: nat | t < r.submitted ensures IsQueued(r, t) || t in r.started || t in r.turnedAway {
      if t < s.submitted && IsQueued(s, t) {
        var j :| 0 <= j < |s.queue| && s.queue[j].ticket == t;
        assert r.queue[j].ticket == t;
      }
    }
  }

  /** The submission has to wait, and an entry with its id is waiting already. */
  ghost predicate JoinsNamesake(s: Executor, ev: Event) {
    ev.Submit? && s.active >= s.maxConcurrent && |s.queue| < s.maxQueued && HasId(s.queue, ev.taskId)
  }

  lemma JoinedIdsDistinctIff(q: seq<Entry>, e: Entry)
    requires IdsDistinct(q)
    ensures IdsDistinct(q + [e]) <==> !HasId(q, e.taskId)
  {
    if i :| 0 <= i < |q| && q[i].taskId == e.taskId {
      assert (q + [e])[i].taskId == (q + [e])[|q|].taskId;
    }
  }

  /** A submission never loses anything by itself; it leaves two queued entries with one id if and only if it has to
      wait behind a namesake, which the caller can see in advance. */
  lemma SubmitLossless(s: Executor, taskId: string, delegate: Delegate)
    requires Quiescent(s) && Lossless(s) && IdsDistinct(s.queue)
    ensures Lossless(Execute(s, taskId, delegate))
    ensures IdsDistinct(Execute(s, taskId, delegate).queue) <==> !JoinsNamesake(s, Submit(taskId, delegate))
  {
    var e := Entry(s.submitted, taskId, delegate);
    hide MetersAgree, TicketsOrdered, SettledOnce, Lossless, NothingLost, Balanced, IdsDistinct;
    if s.active < s.maxConcurrent {
      assert s.queue == [] && !HasId(s.queue, taskId);
      ArrivedCanStart(s, e);
      ArrivedTaken(s, e);
      StartLossless(Arrived(s, e), e);
    } else if |s.queue| >= s.maxQueued {
      RejectLossless(s, e);
    } else {
      EnqueueLossless(s, e);
      JoinedIdsDistinctIff(s.queue, e);
    }
  }

  lemma StepLossless(s: Executor, ev: Event)
    requires Quiescent(s) && Lossless(s) && IdsDistinct(s.queue)
    ensures Quiescent(Step(s, ev)) && Lossless(Step(s, ev))
    ensures IdsDistinct(Step(s, ev).queue) <==> !JoinsNamesake(s, ev)
  {
    hide Quiescent, Lossless, IdsDistinct;
    StepKeepsQuiescent(s, ev);
    match ev
    case Submit(taskId, delegate) => SubmitLossless(s, taskId, delegate);
    case Cancel(taskId) => CancelLossless(s, taskId);
    case Settle(ticket, published, threw) => SettleLossless(s, ticket, published, threw);
  }

  /** Along the run no submission has to wait behind a namesake. */
  ghost predicate NoNamesakeJoins(s: Executor, evs: seq<Event>) {
    evs == [] ||
    var n := |evs| - 1;
    NoNamesakeJoins(s, evs[..n]) && !JoinsNamesake(Run(s, evs[..n]), evs[n])
  }

  lemma {:induction false} RunIsLossless(s: Executor, evs: seq<Event>)
    requires Quiescent(s) && Lossless(s) && IdsDistinct(s.queue) && NoNamesakeJoins(s, evs)
    ensures Quiescent(Run(s, evs)) && Lossless(Run(s, evs)) && IdsDistinct(Run(s, evs).queue)
  {
    hide Quiescent, Lossless, IdsDistinct, Step, JoinsNamesake;
    if evs != [] {
      var n := |evs| - 1;
      RunIsLossless(s, evs[..n]);
      StepLossless(Run(s, evs[..n]), evs[n]);
    }
  }

  lemma InitLossless(maxConcurrent: int, maxQueued: int)
    ensures var s := Init(maxConcurrent, maxQueued); Quiescent(s) && Lossless(s) && IdsDistinct(s.queue)
  {
    assert Run(Init(maxConcurrent, maxQueued), []) == Init(maxConcurrent, maxQueued);
    RunIsQuiescent(maxConcurrent, maxQueued, []);
  }

  /** A submitted ticket is in exactly one of the three places. */
  lemma InOnePlace(s: Executor, t: nat)
    requires TicketsOrdered(s) && SettledOnce(s) && NothingLost(s, {}) && t < s.submitted
    ensures IsSettled(s, t) <==> !IsQueued(s, t) && t !in s.running
    ensures IsQueued(s, t) ==> t !in s.running
  {
    if i :| 0 <= i < |s.queue| && s.queue[i].ticket == t { QueuedNotStarted(s, i); }
  }

  /** Settlement and meter conservation over all runs in which no submission has to wait behind a namesake; the id of a
      running task may be submitted again. */
  lemma SettledExactlyOnce(maxConcurrent: int, maxQueued: int, evs: seq<Event>)
    requires NoNamesakeJoins(Init(maxConcurrent, maxQueued), evs)
    ensures var s := Run(Init(maxConcurrent, maxQueued), evs);
            && s.submitted == s.tasks.finished + s.tasks.queueRejections + s.tasks.active + s.tasks.queueDepth
            && s.tasks.completed + s.tasks.failed + s.tasks.canceled + s.tasks.rejected
               == s.tasks.finished + s.tasks.queueRejections
            && s.tasks.active == s.active == |s.running| && s.tasks.queueDepth == |s.queue|
    ensures var s := Run(Init(maxConcurrent, maxQueued), evs);
            && (forall t: nat :: t < s.submitted ==>
                                   && (IsSettled(s, t) <==> !IsQueued(s, t) && t !in s.running)
                                   && (IsQueued(s, t) ==> t !in s.running))
            && (forall i, j :: 0 <= i < j < |s.settled| ==> s.settled[i].ticket != s.settled[j].ticket)
  {
    InitLossless(maxConcurrent, maxQueued);
    RunIsLossless(Init(maxConcurrent, maxQueued), evs);
    var s := Run(Init(maxConcurrent, maxQueued), evs);
    forall t: nat | t < s.submitted
      ensures IsSettled(s, t) <==> !IsQueued(s, t) && t !in s.running
      ensures IsQueued(s, t) ==> t !in s.running
    {
      InOnePlace(s, t);
    }
  }

  // ----- how an entry gets lost ---------------------------------------------------------------------------------

  /** When the first of the last two queued entries starts and the other has its id, `queueDelete` drops the other:
      the queue is empty and nobody will ever start, turn away or settle it. */
  lemma NamesakeDropped(s: Executor, ticket: nat, published: seq<TerminalState>, threw: bool)
    requires Quiescent(s) && ticket in s.running && |s.queue| == 2 && s.queue[0].taskId == s.queue[1].taskId
    ensures var r := OnSettled(s, ticket, published, threw);
            && r.queue == [] && r.started == s.started + [s.queue[0].ticket] && r.turnedAway == s.turnedAway
            && r.submitted == s.submitted
  {
    var first, second := s.queue[0], s.queue[1];
    assert s.active == s.maxConcurrent && s.active > 0;
    hide Quiescent;
    var s1 := Finish(s, s.running[ticket], FinalState(published), if threw then RejectedWithError else Resolved);
    assert s1.queue[1..] == [second];
    assert QueueDelete([second], first.taskId) == [];
    var rest := s1.(queue := s1.queue[1..]);
    var b := Begun(rest, first);
    assert b.queue == [];
    match first.delegate
    case ReturnsPromise =>
      assert Start(rest, first) == b && Drain(s1) == Drain(b) == b;
    case ThrowsAtOnce(statuses) =>
      var f := Finish(b, first, FinalState(statuses), RejectedWithError);
      assert Start(rest, first) == Drain(f) == f && Drain(s1) == Drain(f);
  }

  /** The dropped entry is neither queued nor running, and will never be settled. */
  ghost predicate IsLost(s: Executor, t: nat) {
    && t < s.submitted && !IsQueued(s, t) && t !in s.started && t !in s.turnedAway
    && t !in s.running && !IsSettled(s, t)
  }

  lemma DroppedIsLost(s: Executor, ticket: nat, published: seq<TerminalState>, threw: bool)
    requires Quiescent(s) && ticket in s.running && |s.queue| == 2 && s.queue[0].taskId == s.queue[1].taskId
    ensures IsLost(OnSettled(s, ticket, published, threw), s.queue[1].ticket)
  {
    var t := s.queue[1].ticket;
    QueuedNotStarted(s, 1);
    assert t < s.submitted && t != s.queue[0].ticket && t !in s.started && t !in s.turnedAway;
    StepKeepsQuiescent(s, Settle(ticket, published, threw));
    hide OnSettled;
    NamesakeDropped(s, ticket, published, threw);
  }

  lemma LostMeans(s: Executor, t: nat)
    requires IsLost(s, t)
    ensures !NothingLost(s, {}) && t < s.submitted
  {
  }

  /** Not waiting, never started and never turned away. */
  ghost predicate Absent(s: Executor, t: nat) {
    !IsQueued(s, t) && t !in s.started && t !in s.turnedAway
  }

  lemma WithoutAbsent(s: Executor, i: nat, t: nat, r: Executor)
    requires Absent(s, t) && i < |s.queue| && r.queue == s.queue[..i] + s.queue[i + 1..]
    requires t !in r.started && t !in r.turnedAway
    ensures Absent(r, t)
  {
    if j :| 0 <= j < |r.queue| && r.queue[j].ticket == t {
      assert s.queue[if j < i then j else j + 1].ticket == t;
    }
  }

  lemma BegunAbsent(s: Executor, e: Entry, t: nat)
    requires Absent(s, t) && e.ticket != t
    ensures Absent(Begun(s, e), t)
  {
    var i := FindIndex(s.queue, e.taskId);
    if i < |s.queue| {
      WithoutAbsent(s, i, t, Begun(s, e));
    } else {
      assert IsQueued(Begun(s, e), t) ==> IsQueued(s, t);
    }
  }

  lemma FinishAbsent(s: Executor, e: Entry, final: TerminalState, outcome: Outcome, t: nat)
    requires Absent(s, t)
    ensures Absent(Finish(s, e, final, outcome), t)
  {
    assert IsQueued(Finish(s, e, final, outcome), t) ==> IsQueued(s, t);
  }

  lemma {:induction false} StartAbsent(s: Executor, e: Entry, t: nat)
    requires Absent(s, t) && e.ticket != t
    ensures Absent(Start(s, e), t)
    decreases |s.queue|, 1
  {
    hide Absent;
    BegunAbsent(s, e, t);
    match e.delegate
    case ReturnsPromise =>
    case ThrowsAtOnce(published) =>
      FinishAbsent(Begun(s, e), e, FinalState(published), RejectedWithError, t);
      DrainAbsent(Finish(Begun(s, e), e, FinalState(published), RejectedWithError), t);
  }

  lemma {:induction false} DrainAbsent(s: Executor, t: nat)
    requires Absent(s, t)
    ensures Absent(Drain(s), t)
    decreases |s.queue|, 0
  {
    if s.active < s.maxConcurrent && |s.queue| > 0 {
      var rest := s.(queue := s.queue[1..]);
      assert rest.queue == s.queue[..0] + s.queue[1..];
      WithoutAbsent(s, 0, t, rest);
      assert s.queue[0].ticket != t;
      hide Absent;
      StartAbsent(rest, s.queue[0], t);
      DrainAbsent(Start(rest, s.queue[0]), t);
    }
  }

  lemma SubmitAbsent(s: Executor, e: Entry, t: nat)
    requires Absent(s, t) && t < s.submitted == e.ticket
    ensures Absent(Execute(s, e.taskId, e.delegate), t)
  {
    assert IsQueued(Arrived(s, e), t) ==> IsQueued(s, t);
    if s.active < s.maxConcurrent {
      StartAbsent(Arrived(s, e), e, t);
    } else if |s.queue| >= s.maxQueued {
      var r := TurnAway(Overloaded(Arrived(s, e), e.taskId), e.ticket);
      assert IsQueued(r, t) ==> IsQueued(s, t);
    } else {
      assert forall j :: 0 <= j < |s.queue| ==> s.queue[j].ticket != t;
    }
  }

  lemma StepAbsent(s: Executor, ev: Event, t: nat)
    requires Absent(s, t) && t < s.submitted
    ensures Absent(Step(s, ev), t) && t < Step(s, ev).submitted
  {
    match ev
    case Submit(taskId, delegate) =>
      var e := Entry(s.submitted, taskId, delegate);
      SubmitAbsent(s, e, t);
      StartFrame(Arrived(s, e), e);
    case Cancel(taskId) =>
      var i := FindIndex(s.queue, taskId);
      if i < |s.queue| {
        assert s.queue[i].ticket != t;
        WithoutAbsent(s, i, t, CancelTask(s, taskId));
      }
    case Settle(ticket, published, threw) =>
      if ticket in s.running {
        var outcome := if threw then RejectedWithError else Resolved;
        var s1 := Finish(s, s.running[ticket], FinalState(published), outcome);
        FinishAbsent(s, s.running[ticket], FinalState(published), outcome, t);
        DrainAbsent(s1, t);
        DrainFrame(s1);
      }
  }

  lemma AbsentIsLost(s: Executor, t: nat)
    requires Quiescent(s) && t < s.submitted
    ensures Absent(s, t) <==> IsLost(s, t)
  {
  }

  /** What is lost stays lost: no later submission, cancellation or completion starts, turns away or settles it. */
  lemma {:induction false} LostForGood(s: Executor, evs: seq<Event>, t: nat)
    requires Quiescent(s) && IsLost(s, t)
    ensures Quiescent(Run(s, evs)) && IsLost(Run(s, evs), t)
  {
    hide Quiescent, IsLost, Absent, Step;
    if evs != [] {
      var n := |evs| - 1;
      LostForGood(s, evs[..n], t);
      var past := Run(s, evs[..n]);
      assert t < past.submitted by { LostMeans(past, t); }
      AbsentIsLost(past, t);
      StepAbsent(past, evs[n], t);
      StepKeepsQuiescent(past, evs[n]);
      AbsentIsLost(Step(past, evs[n]), t);
    }
  }

  lemma {:induction false} RunCons(s: Executor, ev: Event, evs: seq<Event>)
    ensures Run(s, [ev] + evs) == Run(Step(s, ev), evs)
    ensures NoNamesakeJoins(s, [ev] + evs) <==> !JoinsNamesake(s, ev) && NoNamesakeJoins(Step(s, ev), evs)
  {
    hide Step, JoinsNamesake;
    if evs == [] {
      assert [ev] + evs == [ev] && [ev][..0] == [];
      assert Run(s, []) == s;
    } else {
      var n := |evs| - 1;
      RunCons(s, ev, evs[..n]);
      assert ([ev] + evs)[..n + 1] == [ev] + evs[..n] && ([ev] + evs)[n + 1] == evs[n];
    }
  }

  lemma NamesakesLeft(q: seq<Entry>, f: nat, i: nat, j: nat)
    requires i < j < |q| && f < |q| && i != f && j != f && q[i].taskId == q[j].taskId
    ensures !IdsDistinct(q[..f] + q[f + 1..])
  {
    var r := q[..f] + q[f + 1..];
    var a, b := if i < f then i else i - 1, if j < f then j else j - 1;
    assert r[a] == q[i] && r[b] == q[j];
  }

  lemma FirstIsNotLater(q: seq<Entry>, k: nat)
    requires k < |q|
    ensures FindIndex(q, q[k].taskId) <= k
  {
  }

  /** Three entries, two of them namesakes: removing the first namesake of the third leaves two namesakes. */
  lemma NamesakesRemain(q: seq<Entry>, i: nat, j: nat, k: nat)
    requires i < j < |q| && k < |q| && k != i && k != j && q[i].taskId == q[j].taskId
    ensures var f := FindIndex(q, q[k].taskId); f < |q| && !IdsDistinct(q[..f] + q[f + 1..])
  {
    hide IdsDistinct, FindIndex;
    var f := FindIndex(q, q[k].taskId);
    FirstIsNotLater(q, k);
    if f == j { FirstIsNotLater(q, i); }
    if f != i {
      NamesakesLeft(q, f, i, j);
    } else if k < j {
      NamesakesLeft(q, f, k, j);
    } else {
      NamesakesLeft(q, f, j, k);
    }
  }

  /** With namesakes among three or more queued entries, one cancellation leaves a shorter queue with namesakes. */
  lemma CancelLeavesNamesakes(s: Executor) returns (taskId: string)
    requires Quiescent(s) && !IdsDistinct(s.queue) && |s.queue| > 2
    ensures var r := Step(s, Cancel(taskId)); Quiescent(r) && !IdsDistinct(r.queue) && |r.queue| < |s.queue|
  {
    hide Quiescent;
    var i, j :| 0 <= i < j < |s.queue| && s.queue[i].taskId == s.queue[j].taskId;
    var k := if i != 0 then 0 else if j != 1 then 1 else 2;
    taskId := s.queue[k].taskId;
    NamesakesRemain(s.queue, i, j, k);
    StepKeepsQuiescent(s, Cancel(taskId));
  }

  /** Two queued entries with one id: a completion loses one of them. */
  lemma CompletionLosesNamesake(s: Executor) returns (ticket: nat)
    requires Quiescent(s) && !IdsDistinct(s.queue) && |s.queue| <= 2
    ensures !NothingLost(Step(s, Settle(ticket, [Completed], false)), {})
  {
    assert |s.running| == s.active > 0;
    ticket :| ticket in s.running;
    hide Quiescent, NothingLost;
    DroppedIsLost(s, ticket, [Completed], false);
    LostMeans(Step(s, Settle(ticket, [Completed], false)), s.queue[1].ticket);
  }

  /** Two queued entries with one id: cancelling the others and letting a running task complete loses one of the two. */
  lemma {:induction false} LossFollows(s: Executor) returns (more: seq<Event>)
    requires Quiescent(s) && !IdsDistinct(s.queue)
    ensures NoNamesakeJoins(s, more) && !NothingLost(Run(s, more), {})
    decreases |s.queue|
  {
    hide Quiescent, IdsDistinct, Step, NothingLost;
    if |s.queue| > 2 {
      var taskId := CancelLeavesNamesakes(s);
      more := LossFollows(Step(s, Cancel(taskId)));
      RunCons(s, Cancel(taskId), more);
      more := [Cancel(taskId)] + more;
    } else {
      var ticket := CompletionLosesNamesake(s);
      var settle := Settle(ticket, [Completed], false);
      RunCons(s, settle, []);
      more := [settle] + [];
      assert Run(Step(s, settle), []) == Step(s, settle);
    }
  }

  /** After a submission every continuation without further waiting namesakes loses nothing, if and only if the
      submission itself did not have to wait behind a namesake. */
  lemma LossIff(s: Executor, taskId: string, delegate: Delegate)
    requires Quiescent(s) && Lossless(s) && IdsDistinct(s.queue)
    ensures var ev := Submit(taskId, delegate);
            !JoinsNamesake(s, ev) <==>
            (forall more :: NoNamesakeJoins(Step(s, ev), more) ==> NothingLost(Run(Step(s, ev), more), {}))
  {
    var ev := Submit(taskId, delegate);
    var r := Step(s, ev);
    StepLossless(s, ev);
    hide Quiescent, Step, NothingLost, IdsDistinct, JoinsNamesake, NoNamesakeJoins, Run;
    if IdsDistinct(r.queue) {
      forall more | NoNamesakeJoins(r, more) ensures NothingLost(Run(r, more), {}) {
        RunIsLossless(r, more);
      }
    } else {
      var more := LossFollows(r);
    }
  }

  /** Three submissions to an executor with one slot and a queue of two. */
  lemma NamesakesWait() returns (evs: seq<Event>, s: Executor)
    ensures evs == [Submit("a", ReturnsPromise), Submit("b", ReturnsPromise), Submit("b", ReturnsPromise)]
    ensures s == Run(Init(1, 2), evs) && s.queue == [Entry(1, "b", ReturnsPromise), Entry(2, "b", ReturnsPromise)]
    ensures 0 in s.running && s.submitted == 3 && s.turnedAway == {} && s.started == [0]
  {
    evs := [Submit("a", ReturnsPromise), Submit("b", ReturnsPromise), Submit("b", ReturnsPromise)];
    var s0 := Init(1, 2);
    assert evs[..2][..1] == evs[..1] == [evs[0]] && evs[..1][..0] == [];
    var s1 := Run(s0, evs[..1]);
    assert s1 == Step(Run(s0, []), evs[0]);
    var s2 := Run(s0, evs[..2]);
    assert s2 == Step(s1, evs[1]);
    s := Run(s0, evs);
    assert s == Step(s2, evs[2]);
  }

  /** A run in which an entry ends up neither queued nor started nor turned away, so that nobody will ever settle it. */
  lemma DuplicateIdsLoseAnEntry() returns (evs: seq<Event>)
    ensures evs == [Submit("a", ReturnsPromise), Submit("b", ReturnsPromise), Submit("b", ReturnsPromise),
                    Settle(0, [Completed], false)]
    ensures IsLost(Run(Init(1, 2), evs), 2)
  {
    var submits, s := NamesakesWait();
    evs := submits + [Settle(0, [Completed], false)];
    assert evs[..3] == submits;
    assert Run(Init(1, 2), evs) == OnSettled(s, 0, [Completed], false);
    RunIsQuiescent(1, 2, submits);
    hide Run, Init, OnSettled, Quiescent, IsLost;
    DroppedIsLost(s, 0, [Completed], false);
  }
}
