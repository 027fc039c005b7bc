/** Outcomes: which promises are rejected and which terminal state each task is counted under, over whole runs. */
module SchedulerOutcomes {
  import opened Telemetry
  import opened Scheduler
  import opened SchedulerSafety

  /** The status a task ends with: the last terminal one it published, a failure when there was none. */
  function EndStatus(published: seq<TerminalState>): TerminalState {
    if |published| > 0 then published[|published| - 1] else Failed
  }

  /** The submissions of a run, each under its arrival number. */
  function Submissions(evs: seq<Event>): seq<Entry> {
    if evs == [] then [] else
    var n := |evs| - 1;
    var before := Submissions(evs[..n]);
    if evs[n].Submit? then before + [Entry(|before|, evs[n].taskId, evs[n].delegate)] else before
  }

  predicate IsEntry(entries: seq<Entry>, e: Entry) {
    e.ticket < |entries| && entries[e.ticket] == e
  }

  /** What is queued and what runs are submitted entries, and what runs has handed out a promise. */
  ghost predicate Known(s: Executor, entries: seq<Entry>) {
    && (forall e :: e in s.queue ==> IsEntry(entries, e))
    && (forall t :: t in s.running ==>
                      t == s.running[t].ticket && IsEntry(entries, s.running[t])
                      && s.running[t].delegate.ReturnsPromise?)
  }

  function Counter(tasks: TaskMetrics, state: TerminalState): nat {
    match state
    case Completed => tasks.completed
    case Failed => tasks.failed
    case Canceled => tasks.canceled
    case Rejected => tasks.rejected
  }

  /** How many of the settlements count under a state, given each ticket's state. */
  function Booked(settled: seq<Settlement>, final: nat -> TerminalState, state: TerminalState): nat {
    if settled == [] then 0 else
    var n := |settled| - 1;
    Booked(settled[..n], final, state) + if final(settled[n].ticket) == state then 1 else 0
  }

  lemma {:induction false} BookedAppend(a: seq<Settlement>, b: seq<Settlement>, final: nat -> TerminalState,
                                        state: TerminalState)
    ensures Booked(a + b, final, state) == Booked(a, final, state) + Booked(b, final, state)
  {
    if b == [] {
      assert a + b == a;
    } else {
      var n := |b| - 1;
      assert (a + b)[..|a| + n] == a + b[..n];
      BookedAppend(a, b[..n], final, state);
    }
  }

  lemma BookedOne(x: Settlement, final: nat -> TerminalState, state: TerminalState)
    ensures Booked([x], final, state) == if final(x.ticket) == state then 1 else 0
  {
    assert [x][..0] == [];
    assert Booked([], final, state) == 0;
  }

  lemma {:induction false} BookedAlike(settled: seq<Settlement>, f: nat -> TerminalState, g: nat -> TerminalState,
                                       state: TerminalState)
    requires forall i :: 0 <= i < |settled| ==> f(settled[i].ticket) == g(settled[i].ticket)
    ensures Booked(settled, f, state) == Booked(settled, g, state)
  {
    if settled != [] {
      var n := |settled| - 1;
      assert forall i :: 0 <= i < n ==> settled[..n][i] == settled[i];
      BookedAlike(settled[..n], f, g, state);
    }
  }

  // ----- starts and drains -------------------------------------------------------------------------------------

  /** An entry whose delegate threw before it handed out a promise. */
  predicate ThrewAtOnce(entries: seq<Entry>, t: nat) {
    t < |entries| && entries[t].delegate.ThrowsAtOnce?
  }

  /** Each such entry counts under the last status it published. */
  ghost predicate CountsAtOnce(entries: seq<Entry>, final: nat -> TerminalState) {
    forall t: nat :: ThrewAtOnce(entries, t) ==> final(t) == EndStatus(entries[t].delegate.published)
  }

  /** From s to r entries were started and some of them threw at once: those, and no others, were settled. */
  ghost predicate Proceeds(s: Executor, r: Executor, entries: seq<Entry>, final: nat -> TerminalState) {
    && s.settled <= r.settled && s.started <= r.started && r.turnedAway == s.turnedAway
    && (forall i :: |s.settled| <= i < |r.settled| ==>
                      && ThrewAtOnce(entries, r.settled[i].ticket) && r.settled[i].outcome == RejectedWithError
                      && r.settled[i].ticket in r.started)
    && (forall state :: Counter(r.tasks, state)
                        == Counter(s.tasks, state) + Booked(r.settled[|s.settled|..], final, state))
  }

  lemma ProceedsTwice(s: Executor, t: Executor, u: Executor, entries: seq<Entry>, final: nat -> TerminalState)
    requires Proceeds(s, t, entries, final) && Proceeds(t, u, entries, final)
    ensures Proceeds(s, u, entries, final)
  {
    hide ThrewAtOnce, Counter, Booked;
    assert forall i :: 0 <= i < |t.settled| ==> u.settled[i] == t.settled[i];
    assert forall k :: k in t.started ==> k in u.started;
    assert u.settled[|s.settled|..] == t.settled[|s.settled|..] + u.settled[|t.settled|..];
    forall state
      ensures Counter(u.tasks, state) == Counter(s.tasks, state) + Booked(u.settled[|s.settled|..], final, state)
    {
      BookedAppend(t.settled[|s.settled|..], u.settled[|t.settled|..], final, state);
    }
  }

  lemma QueueDeleteMembers(q: seq<Entry>, taskId: string)
    ensures forall e :: e in QueueDelete(q, taskId) ==> e in q
  {
  }

  lemma BegunProceeds(s: Executor, e: Entry, entries: seq<Entry>, final: nat -> TerminalState)
    ensures Proceeds(s, Begun(s, e), entries, final) && e.ticket in Begun(s, e).started
    ensures Begun(s, e).running == s.running[e.ticket := e]
    ensures |Begun(s, e).queue| <= |s.queue| && forall x :: x in Begun(s, e).queue ==> x in s.queue
  {
    QueueDeleteMembers(s.queue, e.taskId);
    hide QueueDelete;
    assert Booked([], final, Failed) == 0;
  }

  lemma ThrownProceeds(s: Executor, e: Entry, published: seq<TerminalState>, entries: seq<Entry>,
                       final: nat -> TerminalState)
    requires IsEntry(entries, e) && e.delegate == ThrowsAtOnce(published) && e.ticket in s.started
    requires CountsAtOnce(entries, final)
    ensures var r := Finish(s, e, FinalState(published), RejectedWithError);
            Proceeds(s, r, entries, final) && r.queue == s.queue && r.running == s.running - {e.ticket}
  {
    var r := Finish(s, e, FinalState(published), RejectedWithError);
    var x := Settlement(e.ticket, RejectedWithError);
    assert r.settled[|s.settled|..] == [x];
    assert ThrewAtOnce(entries, e.ticket) && final(e.ticket) == EndStatus(published);
    forall state
      ensures Counter(r.tasks, state) == Counter(s.tasks, state) + Booked(r.settled[|s.settled|..], final, state)
    {
      BookedOne(x, final, state);
    }
  }

  lemma {:induction false} StartProceeds(s: Executor, e: Entry, entries: seq<Entry>, final: nat -> TerminalState)
    requires Known(s, entries) && IsEntry(entries, e) && CountsAtOnce(entries, final)
    ensures Proceeds(s, Start(s, e), entries, final) && Known(Start(s, e), entries)
    decreases |s.queue|, 1
  {
    hide CountsAtOnce, Proceeds, IsEntry, Begun, Finish;
    var b := Begun(s, e);
    BegunProceeds(s, e, entries, final);
    match e.delegate
    case ReturnsPromise =>
    case ThrowsAtOnce(published) =>
      var f := Finish(b, e, FinalState(published), RejectedWithError);
      ThrownProceeds(b, e, published, entries, final);
      ProceedsTwice(s, b, f, entries, final);
      DrainProceeds(f, entries, final);
      ProceedsTwice(s, f, Drain(f), entries, final);
  }

  lemma {:induction false} DrainProceeds(s: Executor, entries: seq<Entry>, final: nat -> TerminalState)
    requires Known(s, entries) && CountsAtOnce(entries, final)
    ensures Proceeds(s, Drain(s), entries, final) && Known(Drain(s), entries)
    decreases |s.queue|, 0
  {
    if s.active < s.maxConcurrent && |s.queue| > 0 {
      var rest := s.(queue := s.queue[1..]);
      assert s.queue[0] in s.queue && Known(rest, entries);
      TakenProceeds(s, rest, entries, final);
      hide Known, CountsAtOnce, Proceeds, IsEntry;
      StartProceeds(rest, s.queue[0], entries, final);
      ProceedsTwice(s, rest, Start(rest, s.queue[0]), entries, final);
      DrainProceeds(Start(rest, s.queue[0]), entries, final);
      ProceedsTwice(s, Start(rest, s.queue[0]), Drain(s), entries, final);
    } else {
      TakenProceeds(s, s, entries, final);
    }
  }

  lemma TakenProceeds(s: Executor, rest: Executor, entries: seq<Entry>, final: nat -> TerminalState)
    requires rest.settled == s.settled && rest.started == s.started && rest.turnedAway == s.turnedAway
    requires rest.tasks == s.tasks
    ensures Proceeds(s, rest, entries, final)
  {
    assert Booked([], final, Failed) == 0;
  }

  // ----- one turn ----------------------------------------------------------------------------------------------

  /** What is turned away counts as canceled or as rejected. */
  function TurnedAwayAs(ev: Event): TerminalState {
    if ev.Cancel? then Canceled else Rejected
  }

  /** The state a ticket counts under that is settled in the turn `ev`, with `r` the state afterwards. */
  function FinalIn(ev: Event, r: Executor, entries: seq<Entry>, t: nat): TerminalState {
    if ev.Settle? && ev.ticket == t then EndStatus(ev.published)
    else if t in r.turnedAway then TurnedAwayAs(ev)
    else if ThrewAtOnce(entries, t) then EndStatus(entries[t].delegate.published)
    else Failed
  }

  function Finals(ev: Event, r: Executor, entries: seq<Entry>): nat -> TerminalState {
    (t: nat) => FinalIn(ev, r, entries, t)
  }

  function AtOnce(entries: seq<Entry>): nat -> TerminalState {
    (t: nat) => if ThrewAtOnce(entries, t) then EndStatus(entries[t].delegate.published) else Failed
  }

  /** The promise of this ticket ends with an error in the turn `ev`. */
  predicate ThrewIn(ev: Event, r: Executor, entries: seq<Entry>, t: nat) {
    if ev.Settle? && ev.ticket == t then ev.threw else t in r.started && ThrewAtOnce(entries, t)
  }

  /** What a turn settles, how, and under which counters. */
  ghost predicate TurnEnds(s: Executor, ev: Event, r: Executor, entries: seq<Entry>) {
    && s.settled <= r.settled && s.started <= r.started && s.turnedAway <= r.turnedAway
    && (forall i :: |s.settled| <= i < |r.settled| ==>
                      (r.settled[i].outcome == RejectedWithError <==> ThrewIn(ev, r, entries, r.settled[i].ticket)))
    && (forall state :: Counter(r.tasks, state)
                        == Counter(s.tasks, state) + Booked(r.settled[|s.settled|..], Finals(ev, r, entries), state))
  }

  lemma NothingEnds(s: Executor, ev: Event, r: Executor, entries: seq<Entry>)
    requires r.settled == s.settled && r.started == s.started && r.turnedAway == s.turnedAway
    requires forall state :: Counter(r.tasks, state) == Counter(s.tasks, state)
    ensures TurnEnds(s, ev, r, entries)
  {
    hide Counter, Finals;
    assert r.settled[|s.settled|..] == [];
    assert forall state :: Booked([], Finals(ev, r, entries), state) == 0;
  }

  /** One entry is turned away. */
  lemma OneTurnedAway(s: Executor, ev: Event, r: Executor, entries: seq<Entry>, t: nat)
    requires !ev.Settle? && t !in s.started
    requires r.settled == s.settled + [Settlement(t, Resolved)] && r.started == s.started
    requires r.turnedAway == s.turnedAway + {t}
    requires forall state :: Counter(r.tasks, state) == Counter(s.tasks, state) +
                                                        if state == TurnedAwayAs(ev) then 1 else 0
    ensures TurnEnds(s, ev, r, entries)
  {
    hide Counter, Booked;
    assert r.settled[|s.settled|..] == [Settlement(t, Resolved)];
    forall state
      ensures Counter(r.tasks, state)
           == Counter(s.tasks, state) + Booked(r.settled[|s.settled|..], Finals(ev, r, entries), state)
    {
      BookedOne(Settlement(t, Resolved), Finals(ev, r, entries), state);
    }
  }

  /** The entries of a stretch of starts count in the turn as they count by themselves. */
  lemma StartsEnd(s: Executor, ev: Event, r: Executor, entries: seq<Entry>)
    requires Proceeds(s, r, entries, AtOnce(entries))
    requires forall t :: t in r.started ==> t !in r.turnedAway
    requires ev.Settle? ==> forall i :: |s.settled| <= i < |r.settled| ==> r.settled[i].ticket != ev.ticket
    ensures TurnEnds(s, ev, r, entries)
  {
    hide Counter, Booked, EndStatus;
    var latest := r.settled[|s.settled|..];
    assert forall i :: 0 <= i < |latest| ==> latest[i] == r.settled[|s.settled| + i];
    forall state ensures Booked(latest, AtOnce(entries), state) == Booked(latest, Finals(ev, r, entries), state) {
      BookedAlike(latest, AtOnce(entries), Finals(ev, r, entries), state);
    }
  }

  lemma SubmitStarts(s: Executor, e: Entry, entries: seq<Entry>)
    requires Known(s, entries) && IsEntry(entries, e) && CountsAtOnce(entries, AtOnce(entries))
    requires forall t :: t in Start(Arrived(s, e), e).started ==> t !in Start(Arrived(s, e), e).turnedAway
    ensures TurnEnds(s, Submit(e.taskId, e.delegate), Start(Arrived(s, e), e), entries)
    ensures Known(Start(Arrived(s, e), e), entries)
  {
    hide TurnEnds, IsEntry, CountsAtOnce, Start, Proceeds;
    StartProceeds(Arrived(s, e), e, entries, AtOnce(entries));
    TakenProceeds(s, Arrived(s, e), entries, AtOnce(entries));
    ProceedsTwice(s, Arrived(s, e), Start(Arrived(s, e), e), entries, AtOnce(entries));
    StartsEnd(s, Submit(e.taskId, e.delegate), Start(Arrived(s, e), e), entries);
  }

  /** Between turns nothing is both started and turned away. */
  ghost predicate Apart(s: Executor) {
    forall t :: t in s.started ==> t !in s.turnedAway
  }

  lemma StepKeepsApart(s: Executor, ev: Event)
    requires Quiescent(s)
    ensures Apart(Step(s, ev)) && SettledOnce(Step(s, ev)) && TicketsOrdered(Step(s, ev))
  {
    hide Step;
    StepKeepsQuiescent(s, ev);
  }

  lemma SubmitRejects(s: Executor, e: Entry, entries: seq<Entry>)
    requires Known(s, entries) && e.ticket !in s.started
    ensures var r := TurnAway(Overloaded(Arrived(s, e), e.taskId), e.ticket);
            TurnEnds(s, Submit(e.taskId, e.delegate), r, entries) && Known(r, entries)
  {
    hide TurnEnds, IsEntry;
    OneTurnedAway(s, Submit(e.taskId, e.delegate), TurnAway(Overloaded(Arrived(s, e), e.taskId), e.ticket), entries,
                  e.ticket);
  }

  lemma SubmitWaits(s: Executor, e: Entry, entries: seq<Entry>)
    requires Known(s, entries) && IsEntry(entries, e)
    ensures var r := Enqueued(Arrived(s, e), e);
            TurnEnds(s, Submit(e.taskId, e.delegate), r, entries) && Known(r, entries)
  {
    hide TurnEnds, IsEntry;
    NothingEnds(s, Submit(e.taskId, e.delegate), Enqueued(Arrived(s, e), e), entries);
  }

  lemma AtOnceCounts(entries: seq<Entry>)
    ensures CountsAtOnce(entries, AtOnce(entries))
  {
  }

  lemma SubmitEnds(s: Executor, taskId: string, delegate: Delegate, entries: seq<Entry>)
    requires Quiescent(s) && Known(s, entries) && IsEntry(entries, Entry(s.submitted, taskId, delegate))
    ensures var r := Step(s, Submit(taskId, delegate));
            TurnEnds(s, Submit(taskId, delegate), r, entries) && Known(r, entries)
  {
    var ev, e := Submit(taskId, delegate), Entry(s.submitted, taskId, delegate);
    assert s.submitted !in s.started;
    StepKeepsApart(s, ev);
    hide Quiescent, TurnEnds, IsEntry, Start, CountsAtOnce, ThrewAtOnce, Known, SettledOnce, TicketsOrdered;
    hide Arrived, Enqueued, Overloaded, TurnAway;
    if s.active < s.maxConcurrent {
      AtOnceCounts(entries);
      SubmitStarts(s, e, entries);
    } else if |s.queue| >= s.maxQueued {
      SubmitRejects(s, e, entries);
    } else {
      SubmitWaits(s, e, entries);
    }
  }

  lemma CancelEnds(s: Executor, taskId: string, entries: seq<Entry>)
    requires Quiescent(s) && Known(s, entries)
    ensures var r := Step(s, Cancel(taskId)); TurnEnds(s, Cancel(taskId), r, entries) && Known(r, entries)
  {
    var i, r := FindIndex(s.queue, taskId), Step(s, Cancel(taskId));
    if i < |s.queue| {
      QueuedNotStarted(s, i);
      hide Quiescent, TurnEnds, IsEntry;
      OneTurnedAway(s, Cancel(taskId), r, entries, s.queue[i].ticket);
    } else {
      NothingEnds(s, Cancel(taskId), s, entries);
    }
  }

  /** The running entry's own settlement comes first, then those of the entries its slot lets start. */
  lemma CompletionEnds(s: Executor, ev: Event, f: Executor, r: Executor, entries: seq<Entry>)
    requires ev.Settle? && f.settled == s.settled
                                        + [Settlement(ev.ticket, if ev.threw then RejectedWithError else Resolved)]
    requires f.started == s.started && f.turnedAway == s.turnedAway
    requires forall state :: Counter(f.tasks, state) == Counter(s.tasks, state) +
                                                        if state == EndStatus(ev.published) then 1 else 0
    requires TurnEnds(f, ev, r, entries)
    ensures TurnEnds(s, ev, r, entries)
  {
    var own := f.settled[|s.settled|];
    var finals := Finals(ev, r, entries);
    assert r.settled[|s.settled|..] == [own] + r.settled[|f.settled|..];
    assert r.settled[|s.settled|] == own;
    hide Counter, Booked, EndStatus;
    forall state
      ensures Counter(r.tasks, state) == Counter(s.tasks, state) + Booked(r.settled[|s.settled|..], finals, state)
    {
      BookedOne(own, finals, state);
      BookedAppend([own], r.settled[|f.settled|..], finals, state);
    }
  }

  lemma OthersSettle(f: Executor, r: Executor, k: nat, ticket: nat)
    requires SettledOnce(r) && f.settled <= r.settled && k < |f.settled| && f.settled[k].ticket == ticket
    ensures forall i :: |f.settled| <= i < |r.settled| ==> r.settled[i].ticket != ticket
  {
    assert r.settled[k].ticket == ticket;
  }

  lemma FinishBooks(s: Executor, e: Entry, published: seq<TerminalState>, outcome: Outcome, entries: seq<Entry>)
    requires Known(s, entries)
    ensures var f := Finish(s, e, FinalState(published), outcome);
            && Known(f, entries) && f.settled == s.settled + [Settlement(e.ticket, outcome)]
            && f.started == s.started && f.turnedAway == s.turnedAway
            && forall state :: Counter(f.tasks, state) == Counter(s.tasks, state) +
                                                          if state == EndStatus(published) then 1 else 0
  {
    hide IsEntry;
  }

  lemma DrainEnds(f: Executor, ev: Event, entries: seq<Entry>, k: nat)
    requires Known(f, entries) && Apart(Drain(f)) && SettledOnce(Drain(f))
    requires ev.Settle? && k < |f.settled| && f.settled[k].ticket == ev.ticket
    ensures TurnEnds(f, ev, Drain(f), entries) && Known(Drain(f), entries)
  {
    AtOnceCounts(entries);
    hide Known, CountsAtOnce, Drain, TurnEnds, ThrewAtOnce, SettledOnce;
    DrainProceeds(f, entries, AtOnce(entries));
    ProceedsGrows(f, Drain(f), entries);
    OthersSettle(f, Drain(f), k, ev.ticket);
    StartsEnd(f, ev, Drain(f), entries);
  }

  lemma SettleEnds(s: Executor, ev: Event, entries: seq<Entry>)
    requires SettledOnce(s) && Known(s, entries) && ev.Settle?
    requires Apart(Step(s, ev)) && SettledOnce(Step(s, ev))
    ensures TurnEnds(s, ev, Step(s, ev), entries) && Known(Step(s, ev), entries)
  {
    assert ev.ticket in s.running ==> s.running[ev.ticket].ticket == ev.ticket;
    hide TurnEnds, IsEntry, Known, SettledOnce, Apart, Drain, Finish, FinalState, EndStatus, Counter;
    if ev.ticket in s.running {
      var outcome := if ev.threw then RejectedWithError else Resolved;
      var f := Finish(s, s.running[ev.ticket], FinalState(ev.published), outcome);
      FinishBooks(s, s.running[ev.ticket], ev.published, outcome, entries);
      DrainEnds(f, ev, entries, |s.settled|);
      CompletionEnds(s, ev, f, Drain(f), entries);
    } else {
      NothingEnds(s, ev, s, entries);
    }
  }

  lemma ProceedsGrows(s: Executor, r: Executor, entries: seq<Entry>)
    requires Proceeds(s, r, entries, AtOnce(entries))
    ensures s.settled <= r.settled
  {
  }

  // ----- whole runs --------------------------------------------------------------------------------------------

  lemma {:induction false} SubmissionsCount(s: Executor, evs: seq<Event>)
    requires s.submitted == 0
    ensures |Submissions(evs)| == Run(s, evs).submitted
  {
    if evs != [] {
      var n := |evs| - 1;
      SubmissionsCount(s, evs[..n]);
      SubmittedAfter(Run(s, evs[..n]), evs[n]);
    }
  }

  lemma SubmittedAfter(s: Executor, ev: Event)
    ensures Step(s, ev).submitted == s.submitted + if ev.Submit? then 1 else 0
  {
    match ev
    case Submit(taskId, delegate) =>
      var e := Entry(s.submitted, taskId, delegate);
      StartFrame(Arrived(s, e), e);
    case Cancel(_) =>
    case Settle(ticket, published, threw) =>
      if ticket in s.running {
        DrainFrame(Finish(s, s.running[ticket], FinalState(published), if threw then RejectedWithError else Resolved));
      }
  }

  lemma KnownMore(s: Executor, entries: seq<Entry>, more: seq<Entry>)
    requires Known(s, entries) && entries <= more
    ensures Known(s, more)
  {
  }

  /** A turn of a run ends what it ends as its events say, and everything alive afterwards is still as submitted. */
  lemma StepEnds(s: Executor, ev: Event, before: seq<Entry>, entries: seq<Entry>)
    requires Quiescent(s) && Known(s, before) && |before| == s.submitted
    requires entries == if ev.Submit? then before + [Entry(s.submitted, ev.taskId, ev.delegate)] else before
    ensures TurnEnds(s, ev, Step(s, ev), entries) && Known(Step(s, ev), entries)
  {
    KnownMore(s, before, entries);
    StepKeepsApart(s, ev);
    assert SettledOnce(s);
    hide Quiescent, Known, TurnEnds, Step, SettledOnce, TicketsOrdered, Apart;
    match ev
    case Submit(taskId, delegate) => SubmitEnds(s, taskId, delegate, entries);
    case Cancel(taskId) => CancelEnds(s, taskId, entries);
    case Settle(_, _, _) => SettleEnds(s, ev, entries);
  }

  /** The task was running when its delegate's promise ended with an error. */
  ghost predicate SettledThrowing(s0: Executor, evs: seq<Event>, t: nat) {
    exists k :: 0 <= k < |evs| && evs[k].Settle? && evs[k].ticket == t && evs[k].threw && t in Run(s0, evs[..k]).running
  }

  /** The delegate threw: before it handed out its promise, or when the promise ended. */
  ghost predicate DelegateThrew(s0: Executor, evs: seq<Event>, t: nat) {
    t in Run(s0, evs).started && (ThrewAtOnce(Submissions(evs), t) || SettledThrowing(s0, evs, t))
  }

  /** The state a settled ticket counts under, by the turn that settled it. */
  ghost function FinalOf(s0: Executor, evs: seq<Event>, t: nat): TerminalState {
    if evs == [] then Failed
    else
      var before := evs[..|evs| - 1];
      if IsSettled(Run(s0, before), t) then FinalOf(s0, before, t)
      else FinalIn(evs[|evs| - 1], Run(s0, evs), Submissions(evs), t)
  }

  lemma SettledThrowingSnoc(s0: Executor, evs: seq<Event>, t: nat)
    requires evs != []
    ensures var before, ev := evs[..|evs| - 1], evs[|evs| - 1];
            SettledThrowing(s0, evs, t) <==>
            SettledThrowing(s0, before, t)
            || (ev.Settle? && ev.ticket == t && ev.threw && t in Run(s0, before).running)
  {
    hide Run;
    var n := |evs| - 1;
    var before := evs[..n];
    assert forall k :: 0 <= k < n ==> before[..k] == evs[..k] && before[k] == evs[k];
    if SettledThrowing(s0, before, t) {
      var k :| 0 <= k < |before| && before[k].Settle? && before[k].ticket == t && before[k].threw
               && t in Run(s0, before[..k]).running;
      assert evs[k].threw && t in Run(s0, evs[..k]).running;
    }
    if SettledThrowing(s0, evs, t) {
      var k :| 0 <= k < |evs| && evs[k].Settle? && evs[k].ticket == t && evs[k].threw && t in Run(s0, evs[..k]).running;
      if k < n { assert before[k].threw && t in Run(s0, before[..k]).running; }
    }
  }

  lemma SettledStaysSettled(s: Executor, r: Executor, t: nat)
    requires s.settled <= r.settled && IsSettled(s, t)
    ensures IsSettled(r, t)
  {
    var i :| 0 <= i < |s.settled| && s.settled[i].ticket == t;
    assert r.settled[i].ticket == t;
  }

  lemma CompletedIsSettled(s: Executor, ev: Event)
    requires Quiescent(s) && ev.Settle? && ev.ticket in s.running
    ensures IsSettled(Step(s, ev), ev.ticket)
  {
    var outcome := if ev.threw then RejectedWithError else Resolved;
    assert s.running[ev.ticket].ticket == ev.ticket;
    hide Quiescent, Drain, TaskMetrics.WithFinish;
    var f := Finish(s, s.running[ev.ticket], FinalState(ev.published), outcome);
    assert f.settled[|s.settled|].ticket == ev.ticket;
    DrainGrowsSettled(f);
    SettledStaysSettled(f, Drain(f), ev.ticket);
  }

  lemma {:induction false} StartGrowsSettled(s: Executor, e: Entry)
    ensures s.settled <= Start(s, e).settled
    decreases |s.queue|, 1
  {
    if e.delegate.ThrowsAtOnce? {
      DrainGrowsSettled(Finish(Begun(s, e), e, FinalState(e.delegate.published), RejectedWithError));
    }
  }

  lemma {:induction false} DrainGrowsSettled(s: Executor)
    ensures s.settled <= Drain(s).settled
    decreases |s.queue|, 0
  {
    if s.active < s.maxConcurrent && |s.queue| > 0 {
      StartGrowsSettled(s.(queue := s.queue[1..]), s.queue[0]);
      DrainGrowsSettled(Start(s.(queue := s.queue[1..]), s.queue[0]));
    }
  }

  /** What was settled before the turn is as it was: nothing settled runs, starts or throws any more. */
  lemma OldEnds(s: Executor, r: Executor, before: seq<Entry>, entries: seq<Entry>, i: nat)
    requires SettledOnce(s) && TicketsOrdered(s) && Apart(r) && |before| == s.submitted && before <= entries
    requires s.settled <= r.settled && s.started <= r.started && s.turnedAway <= r.turnedAway && i < |s.settled|
    ensures var t := r.settled[i].ticket;
            && t !in s.running && IsSettled(s, t) && (t in s.started <==> t in r.started)
            && (ThrewAtOnce(before, t) <==> ThrewAtOnce(entries, t))
  {
    assert r.settled[i] == s.settled[i];
    var t := s.settled[i].ticket;
    assert IsSettled(s, t);
    assert t in s.started ==> t in r.started;
  }

  lemma NewEnds(s: Executor, r: Executor, i: nat)
    requires SettledOnce(r) && s.settled <= r.settled && |s.settled| <= i < |r.settled|
    ensures !IsSettled(s, r.settled[i].ticket)
  {
    assert forall j :: 0 <= j < |s.settled| ==> s.settled[j] == r.settled[j];
  }

  /** For a ticket the turn settled: whether its promise ended with an error in this turn is whether its delegate threw,
      now or when it was called. */
  lemma NewThrew(s: Executor, ev: Event, entries: seq<Entry>, t: nat)
    requires SettledOnce(s) && Known(s, entries) && Known(Step(s, ev), entries)
    requires s.started <= Step(s, ev).started && !IsSettled(s, t) && IsSettled(Step(s, ev), t)
    ensures ThrewIn(ev, Step(s, ev), entries, t) <==>
            t in Step(s, ev).started &&
            (ThrewAtOnce(entries, t) || (ev.Settle? && ev.ticket == t && ev.threw && t in s.running))
  {
    var r := Step(s, ev);
    if ev.Settle? && ev.ticket == t {
      assert t !in s.running ==> r == s;
      assert IsEntry(entries, s.running[t]);
      assert t in s.started && t in r.started;
    }
  }

  ghost predicate PromisesFollow(s0: Executor, evs: seq<Event>) {
    && (forall i :: 0 <= i < |Run(s0, evs).settled| ==> PromiseFollows(s0, evs, Run(s0, evs).settled[i]))
    && (forall t: nat :: SettledThrowing(s0, evs, t) ==> IsSettled(Run(s0, evs), t))
  }

  ghost predicate PromiseFollows(s0: Executor, evs: seq<Event>, x: Settlement) {
    x.outcome == RejectedWithError <==> DelegateThrew(s0, evs, x.ticket)
  }

  lemma OldPromise(s0: Executor, evs: seq<Event>, before: seq<Event>, i: nat)
    requires evs != [] && before == evs[..|evs| - 1] && i < |Run(s0, before).settled|
    requires var s, r := Run(s0, before), Run(s0, evs);
             && SettledOnce(s) && TicketsOrdered(s) && Apart(r) && |Submissions(before)| == s.submitted
             && Submissions(before) <= Submissions(evs)
             && s.settled <= r.settled && s.started <= r.started && s.turnedAway <= r.turnedAway
    requires PromiseFollows(s0, before, Run(s0, before).settled[i])
    ensures PromiseFollows(s0, evs, Run(s0, evs).settled[i])
  {
    hide Run, Submissions, SettledOnce, TicketsOrdered, Apart, SettledThrowing, ThrewAtOnce;
    OldEnds(Run(s0, before), Run(s0, evs), Submissions(before), Submissions(evs), i);
    SettledThrowingSnoc(s0, evs, Run(s0, evs).settled[i].ticket);
  }

  lemma NewPromise(s0: Executor, evs: seq<Event>, before: seq<Event>, i: nat)
    requires evs != [] && before == evs[..|evs| - 1]
    requires var s, r := Run(s0, before), Run(s0, evs);
             && SettledOnce(s) && SettledOnce(r) && Known(s, Submissions(evs)) && Known(r, Submissions(evs))
             && TurnEnds(s, evs[|evs| - 1], r, Submissions(evs)) && |s.settled| <= i < |r.settled|
    requires PromisesFollow(s0, before)
    ensures PromiseFollows(s0, evs, Run(s0, evs).settled[i])
  {
    var s, r, ev, entries := Run(s0, before), Run(s0, evs), evs[|evs| - 1], Submissions(evs);
    assert r == Step(s, ev);
    var t := r.settled[i].ticket;
    assert IsSettled(r, t) && (r.settled[i].outcome == RejectedWithError <==> ThrewIn(ev, r, entries, t));
    assert SettledThrowing(s0, before, t) ==> IsSettled(s, t);
    NewEnds(s, r, i);
    hide Run, Submissions, SettledOnce, Known, SettledThrowing, ThrewAtOnce, PromisesFollow, Step, ThrewIn;
    NewThrew(s, ev, entries, t);
    SettledThrowingSnoc(s0, evs, t);
  }

  /** Everything the two theorems need about the last turn of a run. */
  lemma LastTurn(maxConcurrent: int, maxQueued: int, evs: seq<Event>)
    requires evs != [] && Known(Run(Init(maxConcurrent, maxQueued), evs[..|evs| - 1]), Submissions(evs[..|evs| - 1]))
    ensures var s0 := Init(maxConcurrent, maxQueued);
            var before := evs[..|evs| - 1];
            var s, r := Run(s0, before), Run(s0, evs);
            && Quiescent(s) && Quiescent(r) && Apart(r) && |Submissions(before)| == s.submitted
            && Submissions(before) <= Submissions(evs) && Known(s, Submissions(evs)) && Known(r, Submissions(evs))
            && TurnEnds(s, evs[|evs| - 1], r, Submissions(evs))
  {
    var s0, n := Init(maxConcurrent, maxQueued), |evs| - 1;
    RunIsQuiescent(maxConcurrent, maxQueued, evs[..n]);
    RunIsQuiescent(maxConcurrent, maxQueued, evs);
    SubmissionsCount(s0, evs[..n]);
    StepKeepsApart(Run(s0, evs[..n]), evs[n]);
    hide Quiescent, Known, TurnEnds, Step, Apart, SettledOnce, TicketsOrdered;
    StepEnds(Run(s0, evs[..n]), evs[n], Submissions(evs[..n]), Submissions(evs));
    KnownMore(Run(s0, evs[..n]), Submissions(evs[..n]), Submissions(evs));
  }

  lemma {:induction false} EntriesAreSubmissions(maxConcurrent: int, maxQueued: int, evs: seq<Event>)
    ensures Known(Run(Init(maxConcurrent, maxQueued), evs), Submissions(evs))
  {
    if evs != [] {
      EntriesAreSubmissions(maxConcurrent, maxQueued, evs[..|evs| - 1]);
      LastTurn(maxConcurrent, maxQueued, evs);
    }
  }

  lemma {:induction false} RunPromisesFollow(maxConcurrent: int, maxQueued: int, evs: seq<Event>)
    ensures PromisesFollow(Init(maxConcurrent, maxQueued), evs)
  {
    var s0 := Init(maxConcurrent, maxQueued);
    if evs != [] {
      var n := |evs| - 1;
      var before := evs[..n];
      RunPromisesFollow(maxConcurrent, maxQueued, before);
      EntriesAreSubmissions(maxConcurrent, maxQueued, before);
      LastTurn(maxConcurrent, maxQueued, evs);
      var s, r := Run(s0, before), Run(s0, evs);
      assert r == Step(s, evs[n]);
      hide Run, Init, Step, Submissions, Known, PromiseFollows, MetersAgree, SettledThrowing, Apart;
      forall i | 0 <= i < |r.settled| ensures PromiseFollows(s0, evs, r.settled[i]) {
        if i < |s.settled| {
          OldPromise(s0, evs, before, i);
        } else {
          NewPromise(s0, evs, before, i);
        }
      }
      forall t: nat | SettledThrowing(s0, evs, t) ensures IsSettled(r, t) {
        SettledThrowingSnoc(s0, evs, t);
        if IsSettled(s, t) { SettledStaysSettled(s, r, t); } else { CompletedIsSettled(s, evs[n]); }
      }
    }
  }

  /** In every run a settled promise is rejected if and only if the task was started and its delegate threw; what was
      turned away, by the queue limit or by a cancellation, is resolved. */
  lemma PromisesFollowDelegates(maxConcurrent: int, maxQueued: int, evs: seq<Event>, i: nat)
    requires i < |Run(Init(maxConcurrent, maxQueued), evs).settled|
    ensures var s := Run(Init(maxConcurrent, maxQueued), evs);
            var t := s.settled[i].ticket;
            && (s.settled[i].outcome == RejectedWithError <==>
                DelegateThrew(Init(maxConcurrent, maxQueued), evs, t))
            && (t in s.turnedAway ==> s.settled[i].outcome == Resolved)
  {
    RunPromisesFollow(maxConcurrent, maxQueued, evs);
    RunIsQuiescent(maxConcurrent, maxQueued, evs);
    var s0 := Init(maxConcurrent, maxQueued);
    hide Run, Init, SettledThrowing, ThrewAtOnce;
    assert PromiseFollows(s0, evs, Run(s0, evs).settled[i]);
  }

  ghost function FinalsOf(s0: Executor, evs: seq<Event>): nat -> TerminalState {
    (t: nat) => FinalOf(s0, evs, t)
  }

  /** In every run each terminal counter is the number of settled tasks that ended in its state: the last status the
      delegate published, failed if it published none; canceled in the queue; rejected by the full queue. */
  lemma {:induction false} MetersFollowDelegates(maxConcurrent: int, maxQueued: int, evs: seq<Event>,
                                                 state: TerminalState)
    ensures var s0 := Init(maxConcurrent, maxQueued);
            Counter(Run(s0, evs).tasks, state) == Booked(Run(s0, evs).settled, FinalsOf(s0, evs), state)
  {
    hide Counter, Booked, FinalOf, Run;
    var s0 := Init(maxConcurrent, maxQueued);
    if evs == [] {
      NothingBooked(s0, state);
    } else {
      var before := evs[..|evs| - 1];
      MetersFollowDelegates(maxConcurrent, maxQueued, before, state);
      EntriesAreSubmissions(maxConcurrent, maxQueued, before);
      hide Init, Known, MetersAgree, TicketsOrdered, Apart, Submissions, TurnEnds;
      hide Bounded, GaugesCurrent, WorkConserving, SettledOnce;
      LastTurn(maxConcurrent, maxQueued, evs);
      MetersFollow(s0, evs, before, state);
    }
  }

  lemma NothingBooked(s0: Executor, state: TerminalState)
    requires s0.tasks == NO_TASKS && s0.settled == []
    ensures Counter(Run(s0, []).tasks, state) == Booked(Run(s0, []).settled, FinalsOf(s0, []), state)
  {
  }

  lemma MetersFollow(s0: Executor, evs: seq<Event>, before: seq<Event>, state: TerminalState)
    requires evs != [] && before == evs[..|evs| - 1] && SettledOnce(Run(s0, evs))
    requires TurnEnds(Run(s0, before), evs[|evs| - 1], Run(s0, evs), Submissions(evs))
    requires Counter(Run(s0, before).tasks, state) == Booked(Run(s0, before).settled, FinalsOf(s0, before), state)
    ensures Counter(Run(s0, evs).tasks, state) == Booked(Run(s0, evs).settled, FinalsOf(s0, evs), state)
  {
    hide Run, Counter, Booked, FinalIn, FinalOf, Submissions, TurnEnds, SettledOnce;
    var s, r := Run(s0, before), Run(s0, evs);
    TurnCounts(s, evs[|evs| - 1], r, Submissions(evs), state);
    FinalsStay(s0, evs, before, state);
    FinalsStart(s0, evs, before, state);
    BookedAppend(s.settled, r.settled[|s.settled|..], FinalsOf(s0, evs), state);
    assert r.settled == s.settled + r.settled[|s.settled|..];
  }

  lemma TurnCounts(s: Executor, ev: Event, r: Executor, entries: seq<Entry>, state: TerminalState)
    requires TurnEnds(s, ev, r, entries)
    ensures s.settled <= r.settled
    ensures Counter(r.tasks, state)
         == Counter(s.tasks, state) + Booked(r.settled[|s.settled|..], Finals(ev, r, entries), state)
  {
  }

  lemma FinalsStay(s0: Executor, evs: seq<Event>, before: seq<Event>, state: TerminalState)
    requires evs != [] && before == evs[..|evs| - 1]
    ensures var settled := Run(s0, before).settled;
            Booked(settled, FinalsOf(s0, evs), state) == Booked(settled, FinalsOf(s0, before), state)
  {
    var s := Run(s0, before);
    hide Run, FinalIn;
    forall i | 0 <= i < |s.settled|
      ensures FinalsOf(s0, evs)(s.settled[i].ticket) == FinalsOf(s0, before)(s.settled[i].ticket)
    {
      assert IsSettled(s, s.settled[i].ticket);
    }
    BookedAlike(s.settled, FinalsOf(s0, evs), FinalsOf(s0, before), state);
  }

  lemma FinalsStart(s0: Executor, evs: seq<Event>, before: seq<Event>, state: TerminalState)
    requires evs != [] && before == evs[..|evs| - 1]
    requires SettledOnce(Run(s0, evs)) && Run(s0, before).settled <= Run(s0, evs).settled
    ensures var s, r := Run(s0, before), Run(s0, evs);
            var latest := r.settled[|s.settled|..];
            Booked(latest, FinalsOf(s0, evs), state)
            == Booked(latest, Finals(evs[|evs| - 1], r, Submissions(evs)), state)
  {
    var s, r := Run(s0, before), Run(s0, evs);
    var latest := r.settled[|s.settled|..];
    var finals := Finals(evs[|evs| - 1], r, Submissions(evs));
    hide Run, FinalIn, Submissions, SettledOnce;
    forall i | 0 <= i < |latest| ensures FinalsOf(s0, evs)(latest[i].ticket) == finals(latest[i].ticket) {
      NewEnds(s, r, |s.settled| + i);
    }
    BookedAlike(latest, FinalsOf(s0, evs), finals, state);
  }

  /** A completion settles its own task first, and rejects its promise exactly if the delegate's threw. */
  lemma CompletionSettles(s: Executor, ticket: nat, published: seq<TerminalState>, threw: bool)
    requires ticket in s.running && s.running[ticket].ticket == ticket
    ensures var r := Step(s, Settle(ticket, published, threw));
            && s.settled < r.settled && r.settled[|s.settled|].ticket == ticket
            && (r.settled[|s.settled|].outcome == RejectedWithError <==> threw)
  {
    var outcome := if threw then RejectedWithError else Resolved;
    hide Drain, TaskMetrics.WithFinish;
    DrainGrowsSettled(Finish(s, s.running[ticket], FinalState(published), outcome));
  }

  // ----- the meters of the queue -------------------------------------------------------------------------------

  lemma {:induction false} StartKeepsArrivals(s: Executor, e: Entry)
    ensures Start(s, e).tasks.queued == s.tasks.queued && Start(s, e).tasks.queueRejections == s.tasks.queueRejections
    decreases |s.queue|, 1
  {
    if e.delegate.ThrowsAtOnce? {
      DrainKeepsArrivals(Finish(Begun(s, e), e, FinalState(e.delegate.published), RejectedWithError));
    }
  }

  lemma {:induction false} DrainKeepsArrivals(s: Executor)
    ensures Drain(s).tasks.queued == s.tasks.queued && Drain(s).tasks.queueRejections == s.tasks.queueRejections
    decreases |s.queue|, 0
  {
    if s.active < s.maxConcurrent && |s.queue| > 0 {
      StartKeepsArrivals(s.(queue := s.queue[1..]), s.queue[0]);
      DrainKeepsArrivals(Start(s.(queue := s.queue[1..]), s.queue[0]));
    }
  }

  /** Submissions of the run that found all slots taken, with room in the queue or without. */
  ghost function Arrivals(s0: Executor, evs: seq<Event>, room: bool): nat {
    if evs == [] then 0
    else
      var n := |evs| - 1;
      var s := Run(s0, evs[..n]);
      Arrivals(s0, evs[..n], room) +
      if evs[n].Submit? && s.active >= s.maxConcurrent && (|s.queue| < s.maxQueued <==> room) then 1 else 0
  }

  lemma ArrivalStep(s: Executor, ev: Event)
    ensures var busy := ev.Submit? && s.active >= s.maxConcurrent;
            var r := Step(s, ev);
            && r.tasks.queued == s.tasks.queued + (if busy && |s.queue| < s.maxQueued then 1 else 0)
            && r.tasks.queueRejections == s.tasks.queueRejections + if busy && |s.queue| >= s.maxQueued then 1 else 0
  {
    match ev
    case Submit(taskId, delegate) =>
      StartKeepsArrivals(Arrived(s, Entry(s.submitted, taskId, delegate)), Entry(s.submitted, taskId, delegate));
    case Cancel(_) =>
    case Settle(ticket, published, threw) =>
      if ticket in s.running {
        var outcome := if threw then RejectedWithError else Resolved;
        DrainKeepsArrivals(Finish(s, s.running[ticket], FinalState(published), outcome));
      }
  }

  /** In every run the queued and the rejected submissions are metered one by one. */
  lemma {:induction false} MetersFollowArrivals(s0: Executor, evs: seq<Event>)
    requires s0.tasks == NO_TASKS
    ensures Run(s0, evs).tasks.queued == Arrivals(s0, evs, true)
    ensures Run(s0, evs).tasks.queueRejections == Arrivals(s0, evs, false)
  {
    if evs != [] {
      var n := |evs| - 1;
      MetersFollowArrivals(s0, evs[..n]);
      ArrivalStep(Run(s0, evs[..n]), evs[n]);
      hide Step;
    }
  }
}
