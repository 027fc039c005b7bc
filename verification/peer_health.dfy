/** The per-peer circuit breaker (src/peer-health.ts): the state of one peer as a function of its events,
    and the manager object that keeps one such state per configured peer. */
module PeerHealth {
  import opened Wrappers

  datatype Circuit = Closed | Open | HalfOpen
  datatype Health = NotYetKnown | Healthy | Unhealthy
  datatype CircuitBreakerConfig = CircuitBreakerConfig(failureThreshold: int, resetTimeoutMs: int)

  datatype PeerState = PeerState(
    health: Health, circuit: Circuit, consecutiveFailures: nat,
    lastFailureAt: Option<int>, lastCheckAt: Option<int>)

  /** A peer's record together with its membership in `halfOpenInFlight`. */
  datatype Peer = Peer(state: PeerState, inFlight: bool)

  /** What happens to a peer, stamped with the clock: `isAvailable` is asked, a call succeeds or fails,
      a health probe comes back. */
  datatype Event = Ask(at: int) | Success(at: int) | Failure(at: int) | Probe(healthy: bool, at: int)

  const NEW_PEER_STATE := PeerState(NotYetKnown, Closed, 0, None, None)

  function CooledDown(lastFailureAt: Option<int>, cfg: CircuitBreakerConfig, now: int): bool {
    lastFailureAt.Some? && lastFailureAt.value != 0 && now - lastFailureAt.value >= cfg.resetTimeoutMs
  }

  function Admits(p: Peer, cfg: CircuitBreakerConfig, now: int): bool {
    match p.state.circuit
    case Closed => true
    case Open => CooledDown(p.state.lastFailureAt, cfg, now)
    case HalfOpen => !p.inFlight
  }

  function AfterAsk(p: Peer, cfg: CircuitBreakerConfig, now: int): Peer {
    if p.state.circuit.Closed? || !Admits(p, cfg, now) then p
    else Peer(p.state.(circuit := HalfOpen), true)
  }

  function AfterSuccess(p: Peer): Peer {
    Peer(p.state.(consecutiveFailures := 0, health := Healthy, circuit := Closed), false)
  }

  function AfterFailure(p: Peer, cfg: CircuitBreakerConfig, now: int): Peer {
    var st := p.state.(consecutiveFailures := p.state.consecutiveFailures + 1, lastFailureAt := Some(now));
    if st.circuit.HalfOpen? then Peer(st.(circuit := Open), false)
    else if st.circuit.Closed? && st.consecutiveFailures >= cfg.failureThreshold then
      Peer(st.(circuit := Open, health := Unhealthy), false)
    else Peer(st, false)
  }

  function AfterProbe(p: Peer, cfg: CircuitBreakerConfig, healthy: bool, now: int): Peer {
    var checked := p.state.(lastCheckAt := Some(now));
    if healthy then AfterSuccess(Peer(checked, p.inFlight))
    else AfterFailure(Peer(checked.(health := Unhealthy), p.inFlight), cfg, now)
  }

  function Apply(p: Peer, cfg: CircuitBreakerConfig, ev: Event): Peer {
    match ev
    case Ask(at) => AfterAsk(p, cfg, at)
    case Success(_) => AfterSuccess(p)
    case Failure(at) => AfterFailure(p, cfg, at)
    case Probe(healthy, at) => AfterProbe(p, cfg, healthy, at)
  }

  function Run(cfg: CircuitBreakerConfig, evs: seq<Event>): Peer {
    if evs == [] then Peer(NEW_PEER_STATE, false)
    else Apply(Run(cfg, evs[..|evs| - 1]), cfg, evs[|evs| - 1])
  }

  lemma RunSnoc(cfg: CircuitBreakerConfig, evs: seq<Event>, ev: Event)
    ensures Run(cfg, evs + [ev]) == Apply(Run(cfg, evs), cfg, ev)
  {
    assert (evs + [ev])[..|evs|] == evs;
  }

  // ----- the breaker as a function of history ---------------------------------------------------------

  predicate IsSuccess(ev: Event) {
    ev.Success? || (ev.Probe? && ev.healthy)
  }

  predicate IsFailure(ev: Event) {
    ev.Failure? || (ev.Probe? && !ev.healthy)
  }

  /** Failures since the last success. */
  function TrailingFailures(evs: seq<Event>): nat {
    if evs == [] then 0 else
    var rest, ev := evs[..|evs| - 1], evs[|evs| - 1];
    if IsSuccess(ev) then 0 else TrailingFailures(rest) + if IsFailure(ev) then 1 else 0
  }

  function LastFailureTime(evs: seq<Event>): Option<int> {
    if evs == [] then None else
    var rest, ev := evs[..|evs| - 1], evs[|evs| - 1];
    if IsFailure(ev) then Some(ev.at) else LastFailureTime(rest)
  }

  predicate Tripped(cfg: CircuitBreakerConfig, evs: seq<Event>) {
    TrailingFailures(evs) >= cfg.failureThreshold
  }

  /** A trial call was let through while tripped and no outcome of any kind came after it. */
  predicate TrialOut(cfg: CircuitBreakerConfig, evs: seq<Event>) {
    evs != [] &&
    var rest, ev := evs[..|evs| - 1], evs[|evs| - 1];
    ev.Ask? && Tripped(cfg, rest) && (TrialOut(cfg, rest) || CooledDown(LastFailureTime(rest), cfg, ev.at))
  }

  /** Every reachable breaker state is determined by four readings of the history. */
  lemma {:induction false} BreakerRefinesHistory(cfg: CircuitBreakerConfig, evs: seq<Event>)
    requires cfg.failureThreshold >= 1
    ensures var p := Run(cfg, evs);
            && p.state.consecutiveFailures == TrailingFailures(evs)
            && p.state.lastFailureAt == LastFailureTime(evs)
            && (p.state.circuit.Closed? <==> TrailingFailures(evs) < cfg.failureThreshold)
            && (p.state.circuit.HalfOpen? <==> TrialOut(cfg, evs))
            && (p.inFlight <==> p.state.circuit.HalfOpen?)
            && (Tripped(cfg, evs) ==> LastFailureTime(evs).Some?)
  {
    if evs != [] {
      BreakerRefinesHistory(cfg, evs[..|evs| - 1]);
    }
  }

  /** When exactly a request is let through, in terms of the history alone: below the threshold always, otherwise
      when no trial is out and `resetTimeoutMs` have passed since the last failure. A failure stamped 0 counts as
      none. */
  lemma AdmittedIff(cfg: CircuitBreakerConfig, evs: seq<Event>, now: int)
    requires cfg.failureThreshold >= 1
    ensures var last := LastFailureTime(evs);
            Admits(Run(cfg, evs), cfg, now) <==>
            || TrailingFailures(evs) < cfg.failureThreshold
            || (!TrialOut(cfg, evs) && last.Some? && last.value != 0 && now - last.value >= cfg.resetTimeoutMs)
  {
    BreakerRefinesHistory(cfg, evs);
  }

  /** While nothing but questions reaches a tripped circuit without a trial, it refuses every one of them before
      `resetTimeoutMs` have passed since the last failure, and admits the first one after that. */
  lemma {:induction false} FirstAfterCooldownIsAdmitted(cfg: CircuitBreakerConfig, evs: seq<Event>, asks: seq<Event>,
                                                        t: int, now: int)
    requires cfg.failureThreshold >= 1 && TrailingFailures(evs) >= cfg.failureThreshold && !TrialOut(cfg, evs)
    requires LastFailureTime(evs) == Some(t) && t != 0
    requires forall k :: 0 <= k < |asks| ==> asks[k].Ask? && asks[k].at < t + cfg.resetTimeoutMs
    ensures Admits(Run(cfg, evs + asks), cfg, now) <==> now >= t + cfg.resetTimeoutMs
    ensures Run(cfg, evs + asks) == Run(cfg, evs)
  {
    if asks == [] {
      assert evs + asks == evs;
      AdmittedIff(cfg, evs, now);
    } else {
      var n := |asks| - 1;
      FirstAfterCooldownIsAdmitted(cfg, evs, asks[..n], t, asks[n].at);
      assert evs + asks == (evs + asks[..n]) + [asks[n]];
      RunSnoc(cfg, evs + asks[..n], asks[n]);
      AdmittedIff(cfg, evs, now);
    }
  }

  /** Failures of calls and probes count up, and the last one's time is kept; the circuit is open from the threshold on.
      A success of either kind starts over. Questions change none of this. */
  lemma OutcomesCount(cfg: CircuitBreakerConfig, evs: seq<Event>, ev: Event)
    requires cfg.failureThreshold >= 1
    ensures var p, q := Run(cfg, evs).state, Run(cfg, evs + [ev]).state;
            match ev
            case Ask(_) => q.consecutiveFailures == p.consecutiveFailures && q.lastFailureAt == p.lastFailureAt
                           && q.health == p.health
            case Success(_) => q.consecutiveFailures == 0 && q.circuit.Closed? && q.health.Healthy?
                               && q.lastFailureAt == p.lastFailureAt
            case Failure(at) => q.consecutiveFailures == p.consecutiveFailures + 1 && q.lastFailureAt == Some(at)
                                && (q.circuit.Open? <==> q.consecutiveFailures >= cfg.failureThreshold)
                                && (q.circuit.Closed? <==> q.consecutiveFailures < cfg.failureThreshold)
            case Probe(true, at) => q.consecutiveFailures == 0 && q.circuit.Closed? && q.health.Healthy?
                                    && q.lastFailureAt == p.lastFailureAt && q.lastCheckAt == Some(at)
            case Probe(false, at) => q.consecutiveFailures == p.consecutiveFailures + 1 && q.lastFailureAt == Some(at)
                                     && q.lastCheckAt == Some(at) && q.health.Unhealthy?
                                     && (q.circuit.Open? <==> q.consecutiveFailures >= cfg.failureThreshold)
                                     && (q.circuit.Closed? <==> q.consecutiveFailures < cfg.failureThreshold)
    ensures !Run(cfg, evs + [ev]).inFlight || ev.Ask?
  {
    RunSnoc(cfg, evs, ev);
    BreakerRefinesHistory(cfg, evs);
  }

  /** `isAvailable` said yes at position i although the circuit was not closed. */
  ghost predicate TrialAt(cfg: CircuitBreakerConfig, evs: seq<Event>, i: nat) {
    && i < |evs| && evs[i].Ask?
    && Tripped(cfg, evs[..i])
    && Admits(Run(cfg, evs[..i]), cfg, evs[i].at)
  }

  lemma {:induction false} TrialStaysOut(cfg: CircuitBreakerConfig, evs: seq<Event>, i: nat, j: nat)
    requires cfg.failureThreshold >= 1 && TrialAt(cfg, evs, i) && i < j <= |evs|
    requires forall k :: i < k < j ==> evs[k].Ask?
    ensures TrialOut(cfg, evs[..j])
    decreases j
  {
    assert evs[..j][..j - 1] == evs[..j - 1];
    if j == i + 1 {
      AdmittedIff(cfg, evs[..i], evs[i].at);
    } else {
      TrialStaysOut(cfg, evs, i, j - 1);
      BreakerRefinesHistory(cfg, evs[..j - 1]);
    }
  }

  /** Each half-open period admits one call: between two trial calls some outcome is recorded. */
  lemma OneTrialPerHalfOpen(cfg: CircuitBreakerConfig, evs: seq<Event>, i: nat, j: nat)
    requires cfg.failureThreshold >= 1 && i < j && TrialAt(cfg, evs, i) && TrialAt(cfg, evs, j)
    ensures exists k :: i < k < j && (IsSuccess(evs[k]) || IsFailure(evs[k]))
  {
    if forall k :: i < k < j ==> !IsSuccess(evs[k]) && !IsFailure(evs[k]) {
      TrialStaysOut(cfg, evs, i, j);
      AdmittedIff(cfg, evs[..j], evs[j].at);
      assert false;
    }
  }

  // ----- the probe rate bound --------------------------------------------------------------------------

  ghost predicate Monotone(evs: seq<Event>) {
    forall i, j :: 0 <= i < j < |evs| ==> evs[i].at <= evs[j].at
  }

  function AdmittedSince(cfg: CircuitBreakerConfig, evs: seq<Event>, from: nat): nat {
    if |evs| <= from then 0 else
    var rest, ev := evs[..|evs| - 1], evs[|evs| - 1];
    AdmittedSince(cfg, rest, from) + if ev.Ask? && Admits(Run(cfg, rest), cfg, ev.at) then 1 else 0
  }

  function LastAdmittedSince(cfg: CircuitBreakerConfig, evs: seq<Event>, from: nat): Option<int> {
    if |evs| <= from then None else
    var rest, ev := evs[..|evs| - 1], evs[|evs| - 1];
    if ev.Ask? && Admits(Run(cfg, rest), cfg, ev.at) then Some(ev.at) else LastAdmittedSince(cfg, rest, from)
  }

  lemma {:induction false} LastFailureNotAfter(evs: seq<Event>, now: int)
    requires forall i :: 0 <= i < |evs| ==> evs[i].at <= now
    ensures LastFailureTime(evs).Some? ==> LastFailureTime(evs).value <= now
  {
    if evs != [] { LastFailureNotAfter(evs[..|evs| - 1], now); }
  }

  ghost predicate Paced(p: Peer, cfg: CircuitBreakerConfig, n: nat, last: Option<int>, t0: int) {
    && (n == 0 <==> last.None?)
    && (last.Some? ==> n * cfg.resetTimeoutMs <= last.value - t0)
    && (p.state.circuit.Open? ==> p.state.lastFailureAt.Some?
                                  && n * cfg.resetTimeoutMs <= p.state.lastFailureAt.value - t0)
    && (p.state.circuit.HalfOpen? ==> last.Some? && p.inFlight)
    && !p.state.circuit.Closed?
  }

  lemma PacedStep(p: Peer, cfg: CircuitBreakerConfig, n: nat, last: Option<int>, t0: int, ev: Event)
    requires Paced(p, cfg, n, last, t0) && !IsSuccess(ev)
    requires last.Some? ==> last.value <= ev.at
    requires p.state.lastFailureAt.Some? ==> p.state.lastFailureAt.value <= ev.at
    ensures var admitted := ev.Ask? && Admits(p, cfg, ev.at);
            Paced(Apply(p, cfg, ev), cfg, n + if admitted then 1 else 0, if admitted then Some(ev.at) else last, t0)
  {
    assert (n + 1) * cfg.resetTimeoutMs == n * cfg.resetTimeoutMs + cfg.resetTimeoutMs;
  }

  lemma {:induction false} PacedRun(cfg: CircuitBreakerConfig, evs: seq<Event>, from: nat, t0: int)
    requires cfg.failureThreshold >= 1 && from <= |evs| && Monotone(evs)
    requires Run(cfg, evs[..from]).state.circuit.Open? && Run(cfg, evs[..from]).state.lastFailureAt == Some(t0)
    requires forall k :: from <= k < |evs| ==> !IsSuccess(evs[k])
    ensures Paced(Run(cfg, evs), cfg, AdmittedSince(cfg, evs, from), LastAdmittedSince(cfg, evs, from), t0)
    ensures LastAdmittedSince(cfg, evs, from).Some? ==>
              evs != [] && LastAdmittedSince(cfg, evs, from).value <= evs[|evs| - 1].at
  {
    if |evs| == from {
      assert evs[..from] == evs;
    } else {
      var rest, ev := evs[..|evs| - 1], evs[|evs| - 1];
      assert rest[..from] == evs[..from] && Run(cfg, evs) == Apply(Run(cfg, rest), cfg, ev);
      hide Run, Apply, Admits, Paced, TrailingFailures, TrialOut;
      PacedRun(cfg, rest, from, t0);
      BreakerRefinesHistory(cfg, rest);
      LastFailureNotAfter(rest, ev.at);
      PacedStep(Run(cfg, rest), cfg, AdmittedSince(cfg, rest, from), LastAdmittedSince(cfg, rest, from), t0, ev);
    }
  }

  /** The probe rate bound: after the circuit is found open with its last failure at t0, and until the next success,
      n admissions, the last of them at t1, satisfy n * resetTimeoutMs <= t1 - t0, under any mix of calls,
      late outcomes and health probes. */
  lemma ProbeRateBound(cfg: CircuitBreakerConfig, evs: seq<Event>, from: nat, t0: int)
    requires cfg.failureThreshold >= 1 && from <= |evs| && Monotone(evs)
    requires Run(cfg, evs[..from]).state.circuit.Open? && Run(cfg, evs[..from]).state.lastFailureAt == Some(t0)
    requires forall k :: from <= k < |evs| ==> !IsSuccess(evs[k])
    ensures AdmittedSince(cfg, evs, from) > 0 ==>
              && LastAdmittedSince(cfg, evs, from).Some?
              && AdmittedSince(cfg, evs, from) * cfg.resetTimeoutMs <= LastAdmittedSince(cfg, evs, from).value - t0
  {
    PacedRun(cfg, evs, from, t0);
  }

  /** A half-open circuit whose trial call never reports back refuses every later request. */
  lemma {:induction false} StuckWhileHalfOpen(cfg: CircuitBreakerConfig, evs: seq<Event>, asks: seq<Event>, now: int)
    requires cfg.failureThreshold >= 1 && Run(cfg, evs).state.circuit.HalfOpen?
    requires forall k :: 0 <= k < |asks| ==> asks[k].Ask?
    ensures Run(cfg, evs + asks) == Run(cfg, evs) && !Admits(Run(cfg, evs + asks), cfg, now)
  {
    if asks == [] {
      assert evs + asks == evs;
      BreakerRefinesHistory(cfg, evs);
    } else {
      var n := |asks| - 1;
      StuckWhileHalfOpen(cfg, evs, asks[..n], asks[n].at);
      assert evs + asks == (evs + asks[..n]) + [asks[n]];
      RunSnoc(cfg, evs + asks[..n], asks[n]);
      BreakerRefinesHistory(cfg, evs);
    }
  }

  // ----- the manager --------------------------------------------------------------------------------------

  class PeerHealthManager {
    const config: CircuitBreakerConfig
    var states: map<string, PeerState>
    var halfOpenInFlight: set<string>
    ghost var histories: map<string, seq<Event>>

    ghost function View(name: string): Peer
      requires name in states
      reads this
    {
      Peer(states[name], name in halfOpenInFlight)
    }

    /** Each peer is where its own events alone would have put it. */
    ghost predicate Valid()
      reads this
    {
      && histories.Keys == states.Keys
      && halfOpenInFlight <= states.Keys
      && (forall name :: name in states ==> View(name) == Run(config, histories[name]))
    }

    constructor (peers: seq<string>, config: CircuitBreakerConfig)
      ensures Valid() && this.config == config
      ensures states.Keys == set name | name in peers
      ensures forall name :: name in states ==> histories[name] == []
    {
      this.config := config;
      states, halfOpenInFlight, histories := map[], {}, map[];
      new;
      for i := 0 to |peers|
        invariant states.Keys == histories.Keys == set name | name in peers[..i]
        invariant halfOpenInFlight == {}
        invariant forall name :: name in states ==> states[name] == NEW_PEER_STATE && histories[name] == []
      {
        states := states[peers[i] := NEW_PEER_STATE];
        histories := histories[peers[i] := []];
      }
    }

    method IsAvailable(name: string, now: int) returns (available: bool)
      requires Valid()
      modifies this
      ensures Valid() && histories == old(Logged(name, Ask(now)))
      ensures available <==> name !in states || Admits(Run(config, old(histories)[name]), config, now)
      ensures name in states ==>
                var state := old(states[name]);
                available <==> match state.circuit
                               case Closed => true
                               case Open => state.lastFailureAt.Some? && state.lastFailureAt.value != 0
                                            && now - state.lastFailureAt.value >= config.resetTimeoutMs
                               case HalfOpen => name !in old(halfOpenInFlight)
    {
      if name !in states {
        return true;
      }
      ghost var before := View(name);
      var state := states[name];
      if state.circuit == Closed {
        available := true;
      } else if state.circuit == Open {
        if state.lastFailureAt.Some? && state.lastFailureAt.value != 0
           && now - state.lastFailureAt.value >= config.resetTimeoutMs {
          states := states[name := state.(circuit := HalfOpen)];
          halfOpenInFlight := halfOpenInFlight + {name};
          available := true;
        } else {
          available := false;
        }
      } else if name in halfOpenInFlight {
        available := false;
      } else {
        halfOpenInFlight := halfOpenInFlight + {name};
        available := true;
      }
      Happened(name, before, Ask(now));
    }

    method RecordSuccess(name: string, now: int)
      requires Valid()
      modifies this
      ensures Valid() && histories == old(Logged(name, Success(now)))
      ensures name in states ==>
                && states[name].consecutiveFailures == 0 && states[name].circuit.Closed? && states[name].health.Healthy?
                && name !in halfOpenInFlight
    {
      hide Run;
      if name in states {
        ghost var before := View(name);
        MarkSuccess(name);
        Happened(name, before, Success(now));
      }
    }

    method RecordFailure(name: string, now: int)
      requires Valid()
      modifies this
      ensures Valid() && histories == old(Logged(name, Failure(now)))
      ensures name in states ==>
                && states[name].consecutiveFailures == old(states)[name].consecutiveFailures + 1
                && states[name].lastFailureAt == Some(now) && name !in halfOpenInFlight
    {
      hide Run;
      if name in states {
        ghost var before := View(name);
        MarkFailure(name, now);
        Happened(name, before, Failure(now));
      }
    }

    /** `checkPeer` once the probe has answered. */
    method CheckPeer(name: string, healthy: bool, now: int)
      requires Valid()
      modifies this
      ensures Valid() && histories == old(Logged(name, Probe(healthy, now)))
    {
      hide Run;
      if name in states {
        ghost var before := View(name);
        states := states[name := states[name].(lastCheckAt := Some(now))];
        if healthy {
          MarkSuccess(name);
        } else {
          states := states[name := states[name].(health := Unhealthy)];
          MarkFailure(name, now);
        }
        Happened(name, before, Probe(healthy, now));
      }
    }

    method MarkSuccess(name: string)
      requires name in states
      modifies this`states, this`halfOpenInFlight
      ensures states.Keys == old(states.Keys) && View(name) == AfterSuccess(old(View(name)))
      ensures forall other :: other in states && other != name ==> View(other) == old(View(other))
      ensures halfOpenInFlight <= old(halfOpenInFlight)
    {
      states := states[name := states[name].(consecutiveFailures := 0, health := Healthy)];
      halfOpenInFlight := halfOpenInFlight - {name};
      if states[name].circuit != Closed {
        states := states[name := states[name].(circuit := Closed)];
      }
    }

    method MarkFailure(name: string, now: int)
      requires name in states
      modifies this`states, this`halfOpenInFlight
      ensures states.Keys == old(states.Keys) && View(name) == AfterFailure(old(View(name)), config, now)
      ensures forall other :: other in states && other != name ==> View(other) == old(View(other))
      ensures halfOpenInFlight <= old(halfOpenInFlight)
    {
      states := states[name := states[name].(
      consecutiveFailures := states[name].consecutiveFailures + 1, lastFailureAt := Some(now))];
      halfOpenInFlight := halfOpenInFlight - {name};
      if states[name].circuit == HalfOpen {
        states := states[name := states[name].(circuit := Open)];
        return;
      }
      if states[name].circuit == Closed && states[name].consecutiveFailures >= config.failureThreshold {
        states := states[name := states[name].(circuit := Open, health := Unhealthy)];
      }
    }

    ghost function Logged(name: string, ev: Event): map<string, seq<Event>>
      reads this`histories
    {
      if name in histories then histories[name := histories[name] + [ev]] else histories
    }

    ghost method Happened(name: string, before: Peer, ev: Event)
      requires histories.Keys == states.Keys && halfOpenInFlight <= states.Keys && name in states
      requires before == Run(config, histories[name]) && View(name) == Apply(before, config, ev)
      requires forall other :: other in states && other != name ==> View(other) == Run(config, histories[other])
      modifies this`histories
      ensures Valid() && histories == old(histories)[name := old(histories)[name] + [ev]]
    {
      RunSnoc(config, histories[name], ev);
      histories := histories[name := histories[name] + [ev]];
    }
  }
}
