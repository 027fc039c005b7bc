/** The RPC correlation table and the challenge wait of one gateway connection (src/executor.ts,
    GatewayRpcConnection): responses, timeouts, send failures and both kinds of close race to settle the promises
    handed out. A timer is named by the request, or wait, that set it. */
module GatewayRpc {
  import opened Wrappers

  /** A call of a promise's resolve or reject function. */
  datatype Outcome = Resolved(payload: string) | Rejected(message: string)

  datatype Pending = Pending(methodName: string, expectFinal: bool)

  type Calls = map<nat, seq<Outcome>>

  /** The pending requests, their running timers, and the settling calls made so far on every promise handed out. */
  datatype Table = Table(pending: map<nat, Pending>, timers: set<nat>, calls: Calls)

  /** The wait whose resolver and rejecter are installed, the one whose timer runs, and the calls made so far. */
  datatype Waits = Waits(waiting: Option<nat>, timer: Option<nat>, nonce: string, calls: Calls)

  datatype State = State(connected: bool, table: Table, waits: Waits)

  const INITIAL := State(false, Table(map[], {}, map[]), Waits(None, None, "", map[]))

  datatype Event =
    | Opened
    | Disconnected
    | Requested(id: nat, methodName: string, expectFinal: bool, sendError: Option<string>)
    | Responded(id: nat, accepted: bool, ok: bool, payload: string, error: Option<string>)
    | TimedOut(id: nat)
    | AwaitedChallenge(wait: nat)
    | Challenged(nonce: string)
    | NonceDropped
    | ChallengeTimedOut(wait: nat)
    | OpenFailed(reason: string)
    | SocketClosed
    | Closed

  predicate Enabled(s: State, ev: Event) {
    match ev
    case Requested(id, _, _, _) => s.connected && id !in s.table.calls
    case TimedOut(id) => id in s.table.timers && id in s.table.pending
    case AwaitedChallenge(wait) => wait !in s.waits.calls
    case ChallengeTimedOut(wait) => s.waits.timer == Some(wait)
    case _ => true
  }

  function FailureMessage(p: Pending, error: Option<string>): string {
    if error.Some? && error.value != "" then error.value else "gateway method failed: " + p.methodName
  }

  function Called(calls: Calls, id: nat, outcome: Outcome): Calls {
    calls[id := (if id in calls then calls[id] else []) + [outcome]]
  }

  function Settle(t: Table, id: nat, outcome: Outcome): Table {
    Table(t.pending - {id}, t.timers - {id}, Called(t.calls, id, outcome))
  }

  function Registered(t: Table, id: nat, entry: Pending): Table {
    Table(t.pending[id := entry], t.timers + {id}, t.calls[id := []])
  }

  function RejectAll(t: Table, message: string): Table {
    Table(map[], t.timers - t.pending.Keys,
          map id | id in t.calls :: if id in t.pending then t.calls[id] + [Rejected(message)] else t.calls[id])
  }

  function TableAfter(t: Table, ev: Event): Table {
    match ev
    case Requested(id, methodName, expectFinal, sendError) =>
      if sendError.Some? then t.(calls := t.calls[id := [Rejected(sendError.value)]])
      else Registered(t, id, Pending(methodName, expectFinal))
    case Responded(id, accepted, ok, payload, error) =>
      if id !in t.pending || (t.pending[id].expectFinal && accepted) then t
      else Settle(t, id, if ok then Resolved(payload) else Rejected(FailureMessage(t.pending[id], error)))
    case TimedOut(id) =>
      if id !in t.pending then t
      else Settle(t, id, Rejected("gateway request timed out: " + t.pending[id].methodName))
    case SocketClosed => RejectAll(t, "gateway connection closed")
    case Closed => RejectAll(t, "gateway websocket connection closed")
    case _ => t
  }

  function SettleWait(w: Waits, outcome: Outcome): Waits {
    Waits(None, None, w.nonce, if w.waiting.None? then w.calls else Called(w.calls, w.waiting.value, outcome))
  }

  function WaitsAfter(w: Waits, ev: Event): Waits {
    match ev
    case AwaitedChallenge(wait) =>
      var u := SettleWait(w, Rejected("gateway connect challenge wait superseded"));
      Waits(Some(wait), Some(wait), w.nonce, u.calls[wait := []])
    case Challenged(nonce) =>
      if nonce == "" || w.waiting.None? then w else SettleWait(w, Resolved(nonce)).(nonce := nonce)
    case NonceDropped => w.(nonce := "")
    case ChallengeTimedOut(_) =>
      if w.waiting.None? then w.(timer := None) else SettleWait(w, Rejected("gateway connect challenge timed out"))
    case OpenFailed(reason) => SettleWait(w, Rejected(reason))
    case SocketClosed => SettleWait(w, Rejected("gateway connection closed"))
    case Closed => SettleWait(w, Rejected("gateway websocket connection closed"))
    case _ => w
  }

  function Next(s: State, ev: Event): State {
    State(if ev.Disconnected? || ev.SocketClosed? || ev.Closed? then false else s.connected || ev.Opened?,
          TableAfter(s.table, ev), WaitsAfter(s.waits, ev))
  }

  ghost predicate IsRun(events: seq<Event>)
    decreases |events|, 0
  {
    events == [] || (IsRun(events[..|events| - 1]) && Enabled(Run(events[..|events| - 1]), events[|events| - 1]))
  }

  ghost function Run(events: seq<Event>): State
    requires IsRun(events)
    decreases |events|, 1
  {
    if events == [] then INITIAL else Next(Run(events[..|events| - 1]), events[|events| - 1])
  }

  lemma RunSnoc(events: seq<Event>, ev: Event)
    requires IsRun(events) && Enabled(Run(events), ev)
    ensures IsRun(events + [ev]) && Run(events + [ev]) == Next(Run(events), ev)
  {
    assert (events + [ev])[..|events|] == events;
  }
}

/** Every promise is settled exactly once, by the first event that concludes it. */
module GatewayRpcSettlement {
  import opened Wrappers
  import opened GatewayRpc

  // ----- the fate of one request, read off the history alone ---------------------------------------------------

  datatype Fate<P> = NotIssued | Waiting(what: P) | Settled(outcome: Outcome)

  /** What an event does to a request that is waiting: nothing, or its conclusion. */
  function Conclusion(ev: Event, id: nat, p: Pending): Option<Outcome> {
    match ev
    case Responded(i, accepted, ok, payload, error) =>
      if i != id || (accepted && p.expectFinal) then None
      else Some(if ok then Resolved(payload) else Rejected(FailureMessage(p, error)))
    case TimedOut(i) => if i != id then None else Some(Rejected("gateway request timed out: " + p.methodName))
    case SocketClosed => Some(Rejected("gateway connection closed"))
    case Closed => Some(Rejected("gateway websocket connection closed"))
    case _ => None
  }

  function FateAfter(fate: Fate<Pending>, ev: Event, id: nat): Fate<Pending> {
    match fate
    case Settled(_) => fate
    case Waiting(p) => if Conclusion(ev, id, p).Some? then Settled(Conclusion(ev, id, p).value) else fate
    case NotIssued =>
      if ev.Requested? && ev.id == id then
        if ev.sendError.Some? then Settled(Rejected(ev.sendError.value))
        else Waiting(Pending(ev.methodName, ev.expectFinal))
      else fate
  }

  function RequestFate(events: seq<Event>, id: nat): Fate<Pending> {
    if events == [] then NotIssued
    else FateAfter(RequestFate(events[..|events| - 1], id), events[|events| - 1], id)
  }

  ghost predicate Tracks(t: Table, fate: Fate<Pending>, id: nat) {
    match fate
    case NotIssued => id !in t.pending && id !in t.calls
    case Waiting(p) => id in t.pending && t.pending[id] == p && id in t.calls && t.calls[id] == []
    case Settled(outcome) => id !in t.pending && id in t.calls && t.calls[id] == [outcome]
  }

  lemma StepTracks(t: Table, ev: Event, fate: Fate<Pending>, id: nat)
    requires ev.Requested? ==> ev.id !in t.calls
    requires Tracks(t, fate, id)
    ensures Tracks(TableAfter(t, ev), FateAfter(fate, ev, id), id)
  {
  }

  lemma StepKeepsTimers(t: Table, ev: Event)
    requires t.timers == t.pending.Keys
    ensures TableAfter(t, ev).timers == TableAfter(t, ev).pending.Keys
  {
  }

  /** In every run, a request is pending exactly while nothing has concluded it, its promise has been settled by
      exactly one call otherwise, and the running timers are those of the pending requests. */
  lemma {:induction false} SettledExactlyOnce(events: seq<Event>, id: nat)
    requires IsRun(events)
    ensures Tracks(Run(events).table, RequestFate(events, id), id)
    ensures Run(events).table.timers == Run(events).table.pending.Keys
  {
    if events != [] {
      var before := events[..|events| - 1];
      SettledExactlyOnce(before, id);
      StepTracks(Run(before).table, events[|events| - 1], RequestFate(before, id), id);
      StepKeepsTimers(Run(before).table, events[|events| - 1]);
      hide WaitsAfter, TableAfter, FateAfter, Tracks;
    }
  }

  /** The first event after the request that concludes it decides; nothing that comes later matters. */
  lemma {:induction false} FirstConclusionDecides(events: seq<Event>, id: nat, at: nat, k: nat)
    requires IsRun(events) && at < k < |events|
    requires events[at].Requested? && events[at].id == id && events[at].sendError.None?
    requires var p := Pending(events[at].methodName, events[at].expectFinal);
             (forall j :: at < j < k ==> Conclusion(events[j], id, p).None?) && Conclusion(events[k], id, p).Some?
    ensures var p := Pending(events[at].methodName, events[at].expectFinal);
            RequestFate(events, id) == Settled(Conclusion(events[k], id, p).value)
  {
    var before := events[..|events| - 1];
    if k == |events| - 1 {
      StillWaiting(before, id, at);
    } else {
      FirstConclusionDecides(before, id, at, k);
    }
  }

  lemma {:induction false} StillWaiting(events: seq<Event>, id: nat, at: nat)
    requires IsRun(events) && at < |events|
    requires events[at].Requested? && events[at].id == id && events[at].sendError.None?
    requires var p := Pending(events[at].methodName, events[at].expectFinal);
             forall j :: at < j < |events| ==> Conclusion(events[j], id, p).None?
    ensures RequestFate(events, id) == Waiting(Pending(events[at].methodName, events[at].expectFinal))
  {
    var before := events[..|events| - 1];
    if at == |events| - 1 {
      SettledExactlyOnce(before, id);
    } else {
      StillWaiting(before, id, at);
    }
  }

  lemma {:induction false} WaitingSince(events: seq<Event>, id: nat) returns (at: nat)
    requires RequestFate(events, id).Waiting?
    ensures at < |events| && events[at].Requested? && events[at].id == id && events[at].sendError.None?
    ensures var p := Pending(events[at].methodName, events[at].expectFinal);
            RequestFate(events, id) == Waiting(p)
            && forall j :: at < j < |events| ==> Conclusion(events[j], id, p).None?
  {
    var before := events[..|events| - 1];
    if RequestFate(before, id).Waiting? {
      at := WaitingSince(before, id);
    } else {
      at := |events| - 1;
    }
  }

  /** Conversely, whatever settled a request is its send error or the first event that concludes it; in particular
      no `accepted` frame settles a request that expects the final one. */
  lemma {:induction false} SettlementHasCause(events: seq<Event>, id: nat) returns (at: nat, k: nat)
    requires RequestFate(events, id).Settled?
    ensures at <= k < |events| && events[at].Requested? && events[at].id == id
    ensures var p, outcome := Pending(events[at].methodName, events[at].expectFinal), RequestFate(events, id).outcome;
            if at == k then events[at].sendError.Some? && outcome == Rejected(events[at].sendError.value)
            else Conclusion(events[k], id, p) == Some(outcome)
                 && forall j :: at < j < k ==> Conclusion(events[j], id, p).None?
    ensures events[at].expectFinal && events[k].Responded? ==> !events[k].accepted
  {
    var before := events[..|events| - 1];
    match RequestFate(before, id)
    case Settled(_) => at, k := SettlementHasCause(before, id);
    case Waiting(_) =>
      at := WaitingSince(before, id);
      k := |events| - 1;
    case NotIssued => at, k := |events| - 1, |events| - 1;
  }

  /** After `close()`, and after the socket's own close, nothing is pending, no timer is left and every promise
      handed out has been settled by exactly one call. */
  lemma CloseSettlesEverything(events: seq<Event>)
    requires IsRun(events) && events != [] && (events[|events| - 1].Closed? || events[|events| - 1].SocketClosed?)
    ensures var s := Run(events);
            && s.table.pending == map[] && s.table.timers == {} && s.waits.waiting == None && s.waits.timer == None
            && (forall id :: id in s.table.calls ==> |s.table.calls[id]| == 1)
            && (forall wait :: wait in s.waits.calls ==> |s.waits.calls[wait]| == 1)
  {
    var s := Run(events);
    SettledExactlyOnce(events[..|events| - 1], 0);
    forall id | id in s.table.calls ensures |s.table.calls[id]| == 1 {
      SettledExactlyOnce(events, id);
    }
    forall wait | wait in s.waits.calls ensures |s.waits.calls[wait]| == 1 {
      WaitSettledExactlyOnce(events, wait);
    }
  }

  // ----- the fate of one challenge wait -----------------------------------------------------------------------

  function WaitConclusion(ev: Event): Option<Outcome> {
    match ev
    case AwaitedChallenge(_) => Some(Rejected("gateway connect challenge wait superseded"))
    case Challenged(nonce) => if nonce == "" then None else Some(Resolved(nonce))
    case ChallengeTimedOut(_) => Some(Rejected("gateway connect challenge timed out"))
    case OpenFailed(reason) => Some(Rejected(reason))
    case SocketClosed => Some(Rejected("gateway connection closed"))
    case Closed => Some(Rejected("gateway websocket connection closed"))
    case _ => None
  }

  function WaitFateAfter(fate: Fate<()>, ev: Event, wait: nat): Fate<()> {
    match fate
    case Settled(_) => fate
    case Waiting(_) => if WaitConclusion(ev).Some? then Settled(WaitConclusion(ev).value) else fate
    case NotIssued => if ev == AwaitedChallenge(wait) then Waiting(()) else fate
  }

  function WaitFate(events: seq<Event>, wait: nat): Fate<()> {
    if events == [] then NotIssued
    else WaitFateAfter(WaitFate(events[..|events| - 1], wait), events[|events| - 1], wait)
  }

  ghost predicate WaitTracks(w: Waits, fate: Fate<()>, wait: nat) {
    match fate
    case NotIssued => w.waiting != Some(wait) && wait !in w.calls
    case Waiting(_) => w.waiting == Some(wait) && wait in w.calls && w.calls[wait] == []
    case Settled(outcome) => w.waiting != Some(wait) && wait in w.calls && w.calls[wait] == [outcome]
  }

  lemma StepWaitTracks(w: Waits, ev: Event, fate: Fate<()>, wait: nat)
    requires ev.AwaitedChallenge? ==> ev.wait !in w.calls
    requires ev.ChallengeTimedOut? ==> w.timer == Some(ev.wait)
    requires WaitTracks(w, fate, wait) && w.timer == w.waiting
    ensures WaitTracks(WaitsAfter(w, ev), WaitFateAfter(fate, ev, wait), wait)
    ensures WaitsAfter(w, ev).timer == WaitsAfter(w, ev).waiting
  {
  }

  /** Every challenge wait is settled by exactly one call once something concludes it; at most one is waiting, and
      the wait timer runs exactly then. */
  lemma {:induction false} WaitSettledExactlyOnce(events: seq<Event>, wait: nat)
    requires IsRun(events)
    ensures WaitTracks(Run(events).waits, WaitFate(events, wait), wait)
    ensures Run(events).waits.timer == Run(events).waits.waiting
  {
    if events != [] {
      var before := events[..|events| - 1];
      WaitSettledExactlyOnce(before, wait);
      StepWaitTracks(Run(before).waits, events[|events| - 1], WaitFate(before, wait), wait);
    }
  }

  /** A wait was asked for and nothing has concluded it since. */
  predicate SomeWaiting(events: seq<Event>) {
    events != [] &&
    var before, ev := events[..|events| - 1], events[|events| - 1];
    ev.AwaitedChallenge? || (WaitConclusion(ev).None? && SomeWaiting(before))
  }

  /** The nonce of the latest challenge that somebody was waiting for, unless it was dropped since. */
  function LastNonce(events: seq<Event>): string {
    if events == [] then "" else
    var before, ev := events[..|events| - 1], events[|events| - 1];
    if ev.NonceDropped? then ""
    else if ev.Challenged? && ev.nonce != "" && SomeWaiting(before) then ev.nonce
    else LastNonce(before)
  }

  lemma StepWaiting(w: Waits, ev: Event)
    requires w.timer == w.waiting && (ev.ChallengeTimedOut? ==> w.timer == Some(ev.wait))
    ensures WaitsAfter(w, ev).waiting.Some? <==> ev.AwaitedChallenge? || (WaitConclusion(ev).None? && w.waiting.Some?)
    ensures WaitsAfter(w, ev).nonce == if ev.NonceDropped? then ""
                                       else if ev.Challenged? && ev.nonce != "" && w.waiting.Some? then ev.nonce
                                       else w.nonce
  {
  }

  /** The nonce that the connect request is signed over is determined by the history. */
  lemma {:induction false} NonceIsLastAccepted(events: seq<Event>)
    requires IsRun(events)
    ensures Run(events).waits.nonce == LastNonce(events)
    ensures Run(events).waits.waiting.Some? <==> SomeWaiting(events)
  {
    if events != [] {
      var before := events[..|events| - 1];
      NonceIsLastAccepted(before);
      WaitSettledExactlyOnce(before, 0);
      StepWaiting(Run(before).waits, events[|events| - 1]);
      hide WaitsAfter, TableAfter, WaitConclusion;
    }
  }

  // ----- what the promises are settled with --------------------------------------------------------------------

  /** The event leaves the request waiting: it is about another one, or it is an `accepted` frame although the final one
      is expected. */
  predicate LeavesWaiting(ev: Event, id: nat, expectFinal: bool) {
    match ev
    case Responded(i, accepted, _, _, _) => i != id || (accepted && expectFinal)
    case TimedOut(i) => i != id
    case SocketClosed => false
    case Closed => false
    case _ => true
  }

  /** The call that the concluding event makes: an ok frame resolves with its payload, any other rejects with its
      message or, without one, naming the method; a timeout and both kinds of close reject. */
  predicate IsAnsweredBy(call: Outcome, ev: Event, methodName: string) {
    match ev
    case Responded(_, _, true, payload, _) => call == Resolved(payload)
    case Responded(_, _, false, _, Some(message)) =>
      call == Rejected(if |message| > 0 then message else "gateway method failed: " + methodName)
    case Responded(_, _, false, _, None) => call == Rejected("gateway method failed: " + methodName)
    case TimedOut(_) => call == Rejected("gateway request timed out: " + methodName)
    case _ => call.Rejected?
  }

  /** Among all races, the first event that does not leave a request waiting makes the one call on its promise, and
      until then there is none; a request whose `send` throws is rejected with that error. */
  lemma PromiseTellsTheEvents(events: seq<Event>, id: nat, at: nat)
    requires IsRun(events) && at < |events| && events[at].Requested? && events[at].id == id
    ensures var calls := Run(events).table.calls;
            && id in calls
            && match events[at].sendError
               case Some(error) => calls[id] == [Rejected(error)]
               case None =>
                 && ((forall j :: at < j < |events| ==> LeavesWaiting(events[j], id, events[at].expectFinal)) ==>
                       calls[id] == [])
                 && forall k :: at < k < |events| && !LeavesWaiting(events[k], id, events[at].expectFinal)
                                && (forall j :: at < j < k ==> LeavesWaiting(events[j], id, events[at].expectFinal)) ==>
                                  |calls[id]| == 1 && IsAnsweredBy(calls[id][0], events[k], events[at].methodName)
  {
    hide Run, IsRun, LeavesWaiting, IsAnsweredBy, RequestFate;
    if events[at].sendError.Some? {
      SettledExactlyOnce(events, id);
      SendErrorStands(events, id, at);
    } else {
      NothingCalledYet(events, id, at);
      forall k | at < k < |events| && !LeavesWaiting(events[k], id, events[at].expectFinal)
                 && (forall j :: at < j < k ==> LeavesWaiting(events[j], id, events[at].expectFinal))
        ensures var calls := Run(events).table.calls;
                id in calls && |calls[id]| == 1 && IsAnsweredBy(calls[id][0], events[k], events[at].methodName)
      {
        FirstOneCalls(events, id, at, k);
      }
    }
  }

  lemma ConclusionTells(ev: Event, id: nat, p: Pending)
    ensures LeavesWaiting(ev, id, p.expectFinal) <==> Conclusion(ev, id, p).None?
    ensures Conclusion(ev, id, p).Some? ==> IsAnsweredBy(Conclusion(ev, id, p).value, ev, p.methodName)
  {
  }

  lemma NothingCalledYet(events: seq<Event>, id: nat, at: nat)
    requires IsRun(events) && at < |events| && events[at].Requested? && events[at].id == id
    requires events[at].sendError.None?
    ensures id in Run(events).table.calls
    ensures (forall j :: at < j < |events| ==> LeavesWaiting(events[j], id, events[at].expectFinal)) ==>
              Run(events).table.calls[id] == []
  {
    var p := Pending(events[at].methodName, events[at].expectFinal);
    SettledExactlyOnce(events, id);
    Issued(events, id, at);
    hide Run, IsRun, Conclusion, LeavesWaiting;
    if forall j :: at < j < |events| ==> LeavesWaiting(events[j], id, p.expectFinal) {
      forall j | at < j < |events| ensures Conclusion(events[j], id, p).None? {
        ConclusionTells(events[j], id, p);
      }
      StillWaiting(events, id, at);
    }
  }

  lemma {:induction false} Issued(events: seq<Event>, id: nat, at: nat)
    requires IsRun(events) && at < |events| && events[at].Requested? && events[at].id == id
    ensures !RequestFate(events, id).NotIssued?
  {
    var before := events[..|events| - 1];
    if at < |events| - 1 { Issued(before, id, at); }
  }

  lemma FirstOneCalls(events: seq<Event>, id: nat, at: nat, k: nat)
    requires IsRun(events) && at < k < |events| && events[at].Requested? && events[at].id == id
    requires events[at].sendError.None? && !LeavesWaiting(events[k], id, events[at].expectFinal)
    requires forall j :: at < j < k ==> LeavesWaiting(events[j], id, events[at].expectFinal)
    ensures var calls := Run(events).table.calls;
            id in calls && |calls[id]| == 1 && IsAnsweredBy(calls[id][0], events[k], events[at].methodName)
  {
    var p := Pending(events[at].methodName, events[at].expectFinal);
    SettledExactlyOnce(events, id);
    hide Run, IsRun, Conclusion, LeavesWaiting, IsAnsweredBy, RequestFate;
    forall j | at < j <= k ensures LeavesWaiting(events[j], id, p.expectFinal) <==> Conclusion(events[j], id, p).None? {
      ConclusionTells(events[j], id, p);
    }
    ConclusionTells(events[k], id, p);
    FirstConclusionDecides(events, id, at, k);
  }

  lemma {:induction false} SendErrorStands(events: seq<Event>, id: nat, at: nat)
    requires IsRun(events) && at < |events| && events[at].Requested? && events[at].id == id
    requires events[at].sendError.Some?
    ensures RequestFate(events, id) == Settled(Rejected(events[at].sendError.value))
  {
    var before := events[..|events| - 1];
    if at == |events| - 1 {
      SettledExactlyOnce(before, id);
    } else {
      SendErrorStands(before, id, at);
    }
  }

  /** The first event that does not leave a challenge wait waiting settles it: only a challenge with a nonce resolves
      it, with that nonce. */
  lemma {:induction false} WaitTellsTheEvents(events: seq<Event>, wait: nat, at: nat, k: nat)
    requires IsRun(events) && at < k < |events| && events[at] == AwaitedChallenge(wait)
    requires forall j :: at < j < k ==> LeavesWaitWaiting(events[j])
    requires !LeavesWaitWaiting(events[k])
    ensures var calls := Run(events).waits.calls;
            && wait in calls && |calls[wait]| == 1
            && (calls[wait][0].Resolved? <==> events[k].Challenged?)
            && (events[k].Challenged? ==> calls[wait][0] == Resolved(events[k].nonce))
            && (events[k].OpenFailed? ==> calls[wait][0] == Rejected(events[k].reason))
  {
    WaitSettledExactlyOnce(events, wait);
    WaitConcluded(events, wait, at, k);
  }

  predicate LeavesWaitWaiting(ev: Event) {
    match ev
    case AwaitedChallenge(_) => false
    case Challenged(nonce) => nonce == ""
    case ChallengeTimedOut(_) => false
    case OpenFailed(_) => false
    case SocketClosed => false
    case Closed => false
    case _ => true
  }

  lemma {:induction false} WaitConcluded(events: seq<Event>, wait: nat, at: nat, k: nat)
    requires IsRun(events) && at < k < |events| && events[at] == AwaitedChallenge(wait)
    requires (forall j :: at < j < k ==> LeavesWaitWaiting(events[j])) && !LeavesWaitWaiting(events[k])
    ensures WaitConclusion(events[k]).Some? && WaitFate(events, wait) == Settled(WaitConclusion(events[k]).value)
  {
    var before := events[..|events| - 1];
    if k == |events| - 1 {
      WaitOpen(before, wait, at);
    } else {
      WaitConcluded(before, wait, at, k);
    }
  }

  lemma {:induction false} WaitOpen(events: seq<Event>, wait: nat, at: nat)
    requires IsRun(events) && at < |events| && events[at] == AwaitedChallenge(wait)
    requires forall j :: at < j < |events| ==> LeavesWaitWaiting(events[j])
    ensures WaitFate(events, wait) == Waiting(())
  {
    var before := events[..|events| - 1];
    if at == |events| - 1 {
      WaitSettledExactlyOnce(before, wait);
    } else {
      WaitOpen(before, wait, at);
    }
  }
}
