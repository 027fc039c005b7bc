/** The connection object itself: its maps, timers and resolver fields, updated in place (src/executor.ts). */
module GatewayRpcConnections {
  import opened Wrappers
  import opened GatewayRpc
  import GatewayRpcFacts

  /** An inbound websocket message after parsing; the last case is anything that is not JSON, has no id, or is of
      another type. */
  datatype Frame =
    | EventFrame(name: string, nonce: string)
    | ResponseFrame(id: nat, status: string, ok: bool, payload: string, error: Option<string>)
    | OtherFrame

  class GatewayRpcConnection {
    var connected: bool
    var pending: map<nat, Pending>
    var timers: set<nat>
    var challengeResolver: Option<nat>
    var challengeTimer: Option<nat>
    var challengeNonce: string
    /** The settling calls made on the promises handed out, and everything that happened so far. */
    ghost var calls: Calls
    ghost var waitCalls: Calls
    ghost var history: seq<Event>

    ghost function View(): State
      reads this
    {
      State(connected, Table(pending, timers, calls),
            Waits(challengeResolver, challengeTimer, challengeNonce, waitCalls))
    }

    ghost predicate Valid()
      reads this
    {
      IsRun(history) && View() == Run(history)
    }

    constructor ()
      ensures Valid() && history == []
    {
      connected, pending, timers := false, map[], {};
      challengeResolver, challengeTimer, challengeNonce := None, None, "";
      calls, waitCalls, history := map[], map[], [];
    }

    ghost method Happened(before: State, ev: Event)
      requires IsRun(history) && before == Run(history) && Enabled(before, ev) && View() == Next(before, ev)
      modifies this`history
      ensures Valid() && history == old(history) + [ev]
    {
      RunSnoc(history, ev);
      history := history + [ev];
    }

    /** The socket reports that it is open; `connected` stands for `readyState === 1`. */
    method SocketOpens()
      requires Valid()
      modifies this
      ensures Valid() && history == old(history) + [Opened]
    {
      ghost var before := View();
      connected := true;
      Happened(before, Opened);
    }

    /** The socket leaves the open state, before its close event arrives. */
    method SocketLeavesOpen()
      requires Valid()
      modifies this
      ensures Valid() && history == old(history) + [Disconnected]
    {
      ghost var before := View();
      connected := false;
      Happened(before, Disconnected);
    }

    /** The open handshake failed or ran out of time. */
    method FailToOpen(reason: string)
      requires Valid()
      modifies this
      ensures Valid() && history == old(history) + [OpenFailed(reason)]
    {
      ghost var before := View();
      RejectConnectChallenge(reason);
      Happened(before, OpenFailed(reason));
    }

    /** The gateway wants a connect request without a device identity. */
    method DropNonce()
      requires Valid()
      modifies this
      ensures Valid() && history == old(history) + [NonceDropped]
    {
      ghost var before := View();
      challengeNonce := "";
      Happened(before, NonceDropped);
    }

    ghost function TableView(): Table
      reads this
    {
      Table(pending, timers, calls)
    }

    /** A promise is settled: its entry and its timer go. */
    method SettleRequest(id: nat, outcome: Outcome)
      modifies this`pending, this`timers, this`calls
      ensures TableView() == Settle(old(TableView()), id, outcome)
    {
      pending := pending - {id};
      timers := timers - {id};
      calls := Called(calls, id, outcome);
    }

    method Register(id: nat, entry: Pending)
      modifies this`pending, this`timers, this`calls
      ensures TableView() == Registered(old(TableView()), id, entry)
    {
      calls := calls[id := []];
      timers := timers + {id};
      pending := pending[id := entry];
    }

    /** `id` is the fresh uuid; `sendError` is what `socket.send` throws, if it does. */
    method Request(id: nat, methodName: string, expectFinal: bool, sendError: Option<string>) returns (issued: bool)
      requires Valid() && id !in calls
      modifies this
      ensures Valid() && issued == old(connected)
      ensures history == if issued then old(history) + [Requested(id, methodName, expectFinal, sendError)]
                         else old(history)
    {
      if !connected {
        return false;
      }
      ghost var before := View();
      Register(id, Pending(methodName, expectFinal));
      if sendError.Some? {
        GatewayRpcFacts.UnissuedIsAbsent(history, id);
        GatewayRpcFacts.SendErrorIsOneCall(before.table, id, Pending(methodName, expectFinal), sendError.value);
        SettleRequest(id, Rejected(sendError.value));
      }
      Happened(before, Requested(id, methodName, expectFinal, sendError));
      return true;
    }

    /** A request's timer fires. */
    method RequestTimedOut(id: nat)
      requires Valid() && id in timers
      modifies this
      ensures Valid() && history == old(history) + [TimedOut(id)]
    {
      ghost var before := View();
      GatewayRpcFacts.TimersArePending(history);
      SettleRequest(id, Rejected("gateway request timed out: " + pending[id].methodName));
      Happened(before, TimedOut(id));
    }

    method HandleMessage(frame: Frame)
      requires Valid()
      modifies this
      ensures Valid()
      ensures match frame
              case ResponseFrame(id, status, ok, payload, error) =>
                history == old(history) + [Responded(id, status == "accepted", ok, payload, error)]
              case EventFrame(name, nonce) =>
                history == if name == "connect.challenge" then old(history) + [Challenged(nonce)] else old(history)
              case OtherFrame => history == old(history)
    {
      match frame
      case OtherFrame =>
      case EventFrame(name, nonce) =>
        if name == "connect.challenge" {
          HandleChallenge(nonce);
        }
      case ResponseFrame(id, status, ok, payload, error) =>
        ghost var before := View();
        if id in pending && !(pending[id].expectFinal && status == "accepted") {
          var entry := pending[id];
          if ok {
            SettleRequest(id, Resolved(payload));
          } else {
            SettleRequest(id, Rejected(FailureMessage(entry, error)));
          }
        }
        Happened(before, Responded(id, status == "accepted", ok, payload, error));
    }

    method HandleChallenge(nonce: string)
      requires Valid()
      modifies this
      ensures Valid() && history == old(history) + [Challenged(nonce)]
    {
      ghost var before := View();
      if nonce != "" && challengeResolver.Some? {
        var wait := challengeResolver.value;
        challengeNonce := nonce;
        ClearConnectChallengeWait();
        waitCalls := Called(waitCalls, wait, Resolved(nonce));
      }
      Happened(before, Challenged(nonce));
    }

    method RejectAllPending(message: string)
      requires pending.Keys <= calls.Keys
      modifies this`pending, this`timers, this`calls
      ensures TableView() == RejectAll(old(TableView()), message)
    {
      ghost var before := TableView();
      var left := pending.Keys;
      while left != {}
        invariant left <= pending.Keys <= calls.Keys && calls.Keys == before.calls.Keys && pending == before.pending
        invariant timers == before.timers - (pending.Keys - left)
        invariant forall id :: id in calls ==>
                                 calls[id] == before.calls[id] +
                                 if id in pending && id !in left then [Rejected(message)] else []
        decreases |left|
      {
        var id :| id in left;
        timers := timers - {id};
        calls := Called(calls, id, Rejected(message));
        left := left - {id};
      }
      pending := map[];
    }

    method ClearConnectChallengeWait()
      modifies this`challengeResolver, this`challengeTimer
      ensures challengeResolver == None && challengeTimer == None
    {
      challengeTimer := None;
      challengeResolver := None;
    }

    method RejectConnectChallenge(message: string)
      modifies this`challengeResolver, this`challengeTimer, this`waitCalls
      ensures Waits(challengeResolver, challengeTimer, challengeNonce, waitCalls)
           == SettleWait(old(Waits(challengeResolver, challengeTimer, challengeNonce, waitCalls)), Rejected(message))
    {
      if challengeResolver.Some? {
        var wait := challengeResolver.value;
        ClearConnectChallengeWait();
        waitCalls := Called(waitCalls, wait, Rejected(message));
        return;
      }
      ClearConnectChallengeWait();
    }

    method AwaitConnectChallenge(wait: nat)
      requires Valid() && wait !in waitCalls
      modifies this
      ensures Valid() && history == old(history) + [AwaitedChallenge(wait)]
    {
      ghost var before := View();
      if challengeResolver.Some? {
        RejectConnectChallenge("gateway connect challenge wait superseded");
      }
      ClearConnectChallengeWait();
      waitCalls := waitCalls[wait := []];
      challengeResolver := Some(wait);
      challengeTimer := Some(wait);
      Happened(before, AwaitedChallenge(wait));
    }

    method ChallengeTimerFires()
      requires Valid() && challengeTimer.Some?
      modifies this
      ensures Valid() && history == old(history) + [ChallengeTimedOut(old(challengeTimer).value)]
    {
      ghost var before := View();
      ghost var wait := challengeTimer.value;
      if challengeResolver.Some? {
        RejectConnectChallenge("gateway connect challenge timed out");
      } else {
        challengeTimer := None;
      }
      Happened(before, ChallengeTimedOut(wait));
    }

    /** The socket's own close event. */
    method CloseListener()
      requires Valid()
      modifies this
      ensures Valid() && history == old(history) + [SocketClosed]
    {
      ghost var before := View();
      GatewayRpcFacts.TimersArePending(history);
      connected := false;
      RejectConnectChallenge("gateway connection closed");
      RejectAllPending("gateway connection closed");
      Happened(before, SocketClosed);
    }

    method Close()
      requires Valid()
      modifies this
      ensures Valid() && history == old(history) + [Closed]
      ensures pending == map[] && timers == {} && challengeResolver == None && challengeTimer == None
    {
      ghost var before := View();
      GatewayRpcFacts.TimersArePending(history);
      connected := false;
      RejectConnectChallenge("gateway websocket connection closed");
      RejectAllPending("gateway websocket connection closed");
      Happened(before, Closed);
    }
  }
}

/** What the object may rely on between events. */
module GatewayRpcFacts {
  import opened GatewayRpc
  import opened GatewayRpcSettlement

  lemma TimersArePending(events: seq<Event>)
    requires IsRun(events)
    ensures Run(events).table.timers == Run(events).table.pending.Keys
    ensures Run(events).table.pending.Keys <= Run(events).table.calls.Keys
  {
    SettledExactlyOnce(events, 0);
    forall id | id in Run(events).table.pending ensures id in Run(events).table.calls {
      SettledExactlyOnce(events, id);
    }
  }

  lemma UnissuedIsAbsent(events: seq<Event>, id: nat)
    requires IsRun(events) && id !in Run(events).table.calls
    ensures id !in Run(events).table.pending && id !in Run(events).table.timers
  {
    SettledExactlyOnce(events, id);
  }

  /** A failed send leaves the table as if nothing had been registered, with the promise rejected once. */
  lemma SendErrorIsOneCall(t: Table, id: nat, entry: Pending, message: string)
    requires id !in t.pending && id !in t.timers && id !in t.calls
    ensures Settle(Registered(t, id, entry), id, Rejected(message)) == t.(calls := t.calls[id := [Rejected(message)]])
  {
    var r := Registered(t, id, entry);
    assert r.pending - {id} == t.pending && r.timers - {id} == t.timers;
    assert [] + [Rejected(message)] == [Rejected(message)];
    assert Called(r.calls, id, Rejected(message)) == t.calls[id := [Rejected(message)]];
  }
}
