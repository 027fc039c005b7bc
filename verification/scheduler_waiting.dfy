/** Bounded waiting: every completion moves a queued entry at least one place forward. */
module SchedulerWaiting {
  import opened Telemetry
  import opened Scheduler
  import opened SchedulerSafety
  import opened SchedulerLoss

  /** How many entries leave the queue up to and including this one; 0 when it is not queued. */
  function Behind(q: seq<Entry>, t: nat): nat {
    if q == [] then 0
    else if q[0].ticket == t then 1
    else var b := Behind(q[1..], t); if b == 0 then 0 else b + 1
  }

  lemma {:induction false} BehindMeansQueued(q: seq<Entry>, t: nat)
    ensures Behind(q, t) > 0 <==> exists i :: 0 <= i < |q| && q[i].ticket == t
    ensures Behind(q, t) > 0 ==> Behind(q, t) <= |q| && q[Behind(q, t) - 1].ticket == t
  {
    if q != [] {
      BehindMeansQueued(q[1..], t);
      if i :| 0 < i < |q| && q[i].ticket == t {
        assert q[1..][i - 1].ticket == t;
      }
    }
  }

  lemma {:induction false} BehindDelete(q: seq<Entry>, i: nat, t: nat)
    requires i < |q|
    requires Increasing(q)
    ensures Behind(q[..i] + q[i + 1..], t) <= Behind(q, t)
  {
    var r := q[..i] + q[i + 1..];
    if i == 0 {
      assert r == q[1..];
      if q[0].ticket == t { BehindMeansQueued(r, t); }
    } else {
      BehindDelete(q[1..], i - 1, t);
      assert r[1..] == q[1..][..i - 1] + q[1..][i..];
    }
  }

  lemma {:induction false} BehindAppend(q: seq<Entry>, e: Entry, t: nat)
    requires e.ticket != t
    ensures Behind(q + [e], t) == Behind(q, t)
  {
    if q != [] {
      BehindAppend(q[1..], e, t);
      assert (q + [e])[1..] == q[1..] + [e];
    }
  }

  lemma BehindTail(q: seq<Entry>, t: nat)
    requires Increasing(q)
    ensures Behind(q, t) > 0 ==> Behind(q[1..], t) == Behind(q, t) - 1
    ensures Behind(q, t) == 0 && q != [] ==> Behind(q[1..], t) == 0
  {
    if q != [] { BehindMeansQueued(q[1..], t); }
  }

  lemma BehindQueueDelete(s: Executor, taskId: string, t: nat)
    requires TicketsOrdered(s)
    ensures Behind(QueueDelete(s.queue, taskId), t) <= Behind(s.queue, t)
  {
    var i := FindIndex(s.queue, taskId);
    if i < |s.queue| { BehindDelete(s.queue, i, t); }
  }

  lemma {:induction false} StartAdvances(s: Executor, e: Entry, t: nat)
    requires Core(s) && s.active < s.maxConcurrent && CanStart(s, e)
    ensures Behind(Start(s, e).queue, t) <= Behind(s.queue, t)
    decreases |s.queue|, 1
  {
    BehindQueueDelete(s, e.taskId, t);
    BegunKeeps(s, e);
    match e.delegate
    case ReturnsPromise =>
    case ThrowsAtOnce(published) =>
      FinishKeeps(Begun(s, e), e, FinalState(published), RejectedWithError);
      DrainAdvances(Finish(Begun(s, e), e, FinalState(published), RejectedWithError), t);
  }

  lemma {:induction false} DrainAdvances(s: Executor, t: nat)
    requires Core(s) && GaugesCurrent(s)
    ensures Behind(Drain(s).queue, t) <= Behind(s.queue, t)
    ensures s.active < s.maxConcurrent && Behind(s.queue, t) > 0 ==> Behind(Drain(s).queue, t) < Behind(s.queue, t)
    decreases |s.queue|, 0
  {
    if s.active < s.maxConcurrent && |s.queue| > 0 {
      var rest := s.(queue := s.queue[1..]);
      TakenCore(s);
      StartKeeps(rest, s.queue[0]);
      StartAdvances(rest, s.queue[0], t);
      DrainAdvances(Start(rest, s.queue[0]), t);
      BehindTail(s.queue, t);
    }
  }

  predicate IsCompletion(s: Executor, ev: Event) {
    ev.Settle? && ev.ticket in s.running
  }

  lemma StepAdvances(s: Executor, ev: Event, t: nat)
    requires Quiescent(s) && t < s.submitted
    ensures Behind(Step(s, ev).queue, t) <= Behind(s.queue, t)
    ensures IsCompletion(s, ev) && Behind(s.queue, t) > 0 ==> Behind(Step(s, ev).queue, t) < Behind(s.queue, t)
    ensures s.submitted <= Step(s, ev).submitted
  {
    match ev
    case Submit(taskId, delegate) => SubmitAdvances(s, Entry(s.submitted, taskId, delegate), t);
    case Cancel(taskId) => BehindQueueDelete(s, taskId, t);
    case Settle(ticket, published, threw) => SettleAdvances(s, ticket, published, threw, t);
  }

  lemma SettleAdvances(s: Executor, ticket: nat, published: seq<TerminalState>, threw: bool, t: nat)
    requires Quiescent(s)
    ensures var r := OnSettled(s, ticket, published, threw);
            && r.submitted == s.submitted
            && Behind(r.queue, t) <= Behind(s.queue, t)
            && (ticket in s.running && Behind(s.queue, t) > 0 ==> Behind(r.queue, t) < Behind(s.queue, t))
  {
    assert ticket in s.running ==> s.running[ticket].ticket == ticket;
    hide MetersAgree, TicketsOrdered, SettledOnce;
    if ticket in s.running {
      var outcome := if threw then RejectedWithError else Resolved;
      var s1 := Finish(s, s.running[ticket], FinalState(published), outcome);
      FinishKeeps(s, s.running[ticket], FinalState(published), outcome);
      DrainAdvances(s1, t);
      DrainFrame(s1);
    }
  }

  lemma SubmitAdvances(s: Executor, e: Entry, t: nat)
    requires Bounded(s) && WorkConserving(s) && t < s.submitted && e.ticket == s.submitted
    ensures Behind(Execute(s, e.taskId, e.delegate).queue, t) <= Behind(s.queue, t)
    ensures Execute(s, e.taskId, e.delegate).submitted == s.submitted + 1
  {
    if s.active < s.maxConcurrent {
      assert s.queue == [];
      StartFrame(Arrived(s, e), e);
    } else if |s.queue| < s.maxQueued {
      BehindAppend(s.queue, e, t);
    }
  }

  function Completions(s: Executor, evs: seq<Event>): nat {
    if evs == [] then 0 else
    var n := |evs| - 1;
    Completions(s, evs[..n]) + if IsCompletion(Run(s, evs[..n]), evs[n]) then 1 else 0
  }

  /** Every completion moves a queued entry at least one place forward; nothing moves it back. */
  lemma {:induction false} QueueAdvances(s: Executor, evs: seq<Event>, t: nat)
    requires Quiescent(s) && t < s.submitted
    ensures Quiescent(Run(s, evs)) && s.submitted <= Run(s, evs).submitted
    ensures Behind(Run(s, evs).queue, t) == 0
            || Behind(Run(s, evs).queue, t) + Completions(s, evs) <= Behind(s.queue, t)
  {
    if evs != [] {
      var n := |evs| - 1;
      QueueAdvances(s, evs[..n], t);
      StepKeepsQuiescent(Run(s, evs[..n]), evs[n]);
      StepAdvances(Run(s, evs[..n]), evs[n], t);
    }
  }

  /** Bounded waiting: the entry at queue index k has started, or was canceled, after k + 1 further completions, as
      long as no later submission has to wait behind a namesake. */
  lemma StartsWithin(s: Executor, evs: seq<Event>, k: nat)
    requires Quiescent(s) && Lossless(s) && IdsDistinct(s.queue) && k < |s.queue|
    requires NoNamesakeJoins(s, evs) && Completions(s, evs) >= k + 1
    ensures s.queue[k].ticket in Run(s, evs).started || s.queue[k].ticket in Run(s, evs).turnedAway
  {
    var t := s.queue[k].ticket;
    QueueAdvances(s, evs, t);
    RunIsLossless(s, evs);
    BehindMeansQueued(s.queue, t);
    BehindMeansQueued(Run(s, evs).queue, t);
  }
}
