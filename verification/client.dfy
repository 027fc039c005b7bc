/** Outbound sends: transport fallback inside retry inside the circuit breaker
    (src/client.ts, src/peer-retry.ts, src/transport-fallback.ts). */
module Client {
  import opened Wrappers
  import opened PeerHealth
  import opened Powers
  import Transports

  datatype SendResult = SendResult(ok: bool, statusCode: int, response: string)

  /** How one awaited send ends. `transient` says that the message of the thrown error names a network problem. */
  datatype Attempt = Returned(result: SendResult) | Threw(message: string, transient: bool)

  datatype RetryConfig = RetryConfig(maxRetries: nat, baseDelayMs: real, maxDelayMs: real)

  /** What one call of `doSendMessage` meets: a single transport (or no agent card), or several transports
      with the outcome each of them would produce. */
  datatype Round = Direct(attempt: Attempt) | Fallback(endpoints: seq<string>, outcomes: seq<Attempt>)

  predicate IsRetryableStatus(code: int) {
    code >= 500 || code == 429
  }

  /** Neither loop goes on after such an outcome. */
  predicate Conclusive(a: Attempt) {
    match a
    case Returned(r) => r.ok || !IsRetryableStatus(r.statusCode)
    case Threw(_, transient) => !transient
  }

  function AsResult(a: Attempt): SendResult {
    match a
    case Returned(r) => r
    case Threw(message, _) => SendResult(false, 500, message)
  }

  // ----- retry with backoff ---------------------------------------------------------------------------

  function Backoff(cfg: RetryConfig, attempt: nat): real {
    var exponential := cfg.baseDelayMs * Pow2(attempt);
    if exponential < cfg.maxDelayMs then exponential else cfg.maxDelayMs
  }

  /** Up to 10% of the delay, for a random number in [0, 1) drawn for each wait. */
  function Jitter(delay: real, random: real): real {
    random * delay * 0.1
  }

  function CalcDelay(cfg: RetryConfig, attempt: nat, random: real): real {
    Backoff(cfg, attempt) + Jitter(Backoff(cfg, attempt), random)
  }

  function TotalDelay(cfg: RetryConfig, waits: nat, random: nat -> real): real {
    if waits == 0 then 0.0 else TotalDelay(cfg, waits - 1, random) + CalcDelay(cfg, waits - 1, random(waits - 1))
  }

  function TotalBackoff(cfg: RetryConfig, waits: nat): real {
    if waits == 0 then 0.0 else TotalBackoff(cfg, waits - 1) + Backoff(cfg, waits - 1)
  }

  /** n calls were made, and the n-th is the one whose outcome counts. */
  ghost predicate StopsAfter(fn: nat -> Attempt, maxRetries: nat, n: nat) {
    && 1 <= n <= maxRetries + 1
    && (forall i :: 0 <= i < n - 1 ==> !Conclusive(fn(i)))
    && (Conclusive(fn(n - 1)) || n == maxRetries + 1)
  }

  /** Calls fn until its outcome is conclusive or the retries are used up; returns the last outcome,
      the number of calls and the time spent waiting between them. */
  method WithRetry(fn: nat -> Attempt, cfg: RetryConfig, random: nat -> real)
    returns (result: SendResult, calls: nat, slept: real)
    ensures StopsAfter(fn, cfg.maxRetries, calls)
    ensures result == AsResult(fn(calls - 1))
    ensures match fn(calls - 1)
            case Returned(r) => result == r
            case Threw(message, _) => !result.ok && result.statusCode == 500 && result.response == message
    ensures slept == TotalDelay(cfg, calls - 1, random)
  {
    slept := 0.0;
    var lastResult := None;
    var attempt := 0;
    while attempt <= cfg.maxRetries
      invariant attempt <= cfg.maxRetries + 1
      invariant forall i :: 0 <= i < attempt ==> !Conclusive(fn(i))
      invariant attempt > 0 ==> lastResult == Some(AsResult(fn(attempt - 1)))
      invariant slept == TotalDelay(cfg, if attempt <= cfg.maxRetries then attempt else cfg.maxRetries, random)
    {
      match fn(attempt) {
        case Returned(r) =>
          if r.ok || !IsRetryableStatus(r.statusCode) {
            return r, attempt + 1, slept;
          }
          lastResult := Some(r);
        case Threw(message, transient) =>
          if !transient {
            return SendResult(false, 500, message), attempt + 1, slept;
          }
          lastResult := Some(SendResult(false, 500, message));
      }
      if attempt < cfg.maxRetries {
        slept := slept + CalcDelay(cfg, attempt, random(attempt));
      }
      attempt := attempt + 1;
    }
    return lastResult.value, attempt, slept;
  }

  lemma StopsAfterUnique(fn: nat -> Attempt, maxRetries: nat, n: nat, m: nat)
    requires StopsAfter(fn, maxRetries, n) && StopsAfter(fn, maxRetries, m)
    ensures n == m
  {
  }

  /** After a call the loop goes on if and only if a retry is left and the call failed in a way worth repeating: with
      status 429 or from 500 on, or with an error whose message names a network problem. */
  lemma RetriedIff(fn: nat -> Attempt, maxRetries: nat, calls: nat, i: nat)
    requires StopsAfter(fn, maxRetries, calls) && i < calls
    ensures i + 1 < calls <==>
            && i < maxRetries
            && match fn(i)
               case Returned(r) => !r.ok && (r.statusCode == 429 || r.statusCode > 499)
               case Threw(_, transient) => transient
  {
  }

  /** The first delay is `baseDelayMs`, each next one twice the last, and none is longer than `maxDelayMs`. */
  lemma DelaysDouble(cfg: RetryConfig, i: nat)
    requires cfg.baseDelayMs >= 0.0 && cfg.maxDelayMs >= 0.0
    ensures Backoff(cfg, 0) == if cfg.baseDelayMs < cfg.maxDelayMs then cfg.baseDelayMs else cfg.maxDelayMs
    ensures var twice := Backoff(cfg, i) + Backoff(cfg, i);
            Backoff(cfg, i + 1) == if twice < cfg.maxDelayMs then twice else cfg.maxDelayMs
    ensures 0.0 <= Backoff(cfg, i) <= cfg.maxDelayMs
  {
    Pow2Positive(i);
    ExponentialDoubles(cfg, Pow2(i), cfg.baseDelayMs * Pow2(i), cfg.baseDelayMs * Pow2(i + 1), i);
  }

  lemma ExponentialDoubles(cfg: RetryConfig, p: real, full: real, next: real, i: nat)
    requires cfg.baseDelayMs >= 0.0 && p >= 1.0 && p == Pow2(i)
    requires full == cfg.baseDelayMs * p && next == cfg.baseDelayMs * Pow2(i + 1)
    ensures next == full + full && full >= 0.0
  {
    assert Pow2(i + 1) == p + p;
    assert cfg.baseDelayMs * (p + p) == cfg.baseDelayMs * p + cfg.baseDelayMs * p;
  }

  /** As long as the cap is not reached, all waits so far add up to the next delay less the first one. */
  lemma {:induction false} DelaysAddUp(cfg: RetryConfig, n: nat)
    requires cfg.baseDelayMs >= 0.0 && cfg.maxDelayMs >= 0.0
    requires Backoff(cfg, n) < cfg.maxDelayMs
    ensures TotalBackoff(cfg, n) == Backoff(cfg, n) - Backoff(cfg, 0)
  {
    if n > 0 {
      DelaysDouble(cfg, n - 1);
      hide Backoff;
      DelaysAddUp(cfg, n - 1);
    }
  }

  lemma BackoffSigns(cfg: RetryConfig, i: nat, j: nat)
    ensures Backoff(cfg, i) >= 0.0 <==> Backoff(cfg, j) >= 0.0
  {
    Pow2Positive(i);
    Pow2Positive(j);
    assert cfg.baseDelayMs * Pow2(i) >= 0.0 <==> cfg.baseDelayMs >= 0.0;
    assert cfg.baseDelayMs * Pow2(j) >= 0.0 <==> cfg.baseDelayMs >= 0.0;
  }

  lemma SignOfProduct(a: real, b: real)
    requires a >= 0.0
    ensures if b >= 0.0 then a * b >= 0.0 else a * b <= 0.0
  {
  }

  lemma JitterScales(b: real, u: real)
    requires 0.0 <= u < 1.0
    ensures b >= 0.0 ==> 0.0 <= Jitter(b, u) <= b * 0.1
    ensures b < 0.0 ==> b * 0.1 <= Jitter(b, u) <= 0.0
  {
    SignOfProduct(u, b);
    SignOfProduct(1.0 - u, b);
    assert (1.0 - u) * b == b - u * b;
  }

  lemma DelayBounds(cfg: RetryConfig, attempt: nat, u: real)
    requires 0.0 <= u < 1.0
    ensures var b := Backoff(cfg, attempt);
            if b >= 0.0 then b <= CalcDelay(cfg, attempt, u) <= 1.1 * b
            else 1.1 * b <= CalcDelay(cfg, attempt, u) <= b
  {
    hide Backoff, Jitter;
    JitterScales(Backoff(cfg, attempt), u);
  }

  /** The waits add up to at least the plain exponential backoff and at most 10% more; with a negative
      configuration, where every delay is negative, the two ends change sides. */
  lemma {:induction false} SleepBounds(cfg: RetryConfig, waits: nat, random: nat -> real)
    requires forall i :: 0.0 <= random(i) < 1.0
    ensures if Backoff(cfg, 0) >= 0.0
            then TotalBackoff(cfg, waits) <= TotalDelay(cfg, waits, random) <= 1.1 * TotalBackoff(cfg, waits)
            else 1.1 * TotalBackoff(cfg, waits) <= TotalDelay(cfg, waits, random) <= TotalBackoff(cfg, waits)
  {
    if waits > 0 {
      hide Backoff, CalcDelay;
      SleepBounds(cfg, waits - 1, random);
      BackoffSigns(cfg, 0, waits - 1);
      DelayBounds(cfg, waits - 1, random(waits - 1));
    }
  }

  // ----- transport fallback --------------------------------------------------------------------------------

  function Unsupported(transport: string): Attempt {
    Returned(SendResult(false, 500, "Unsupported transport: " + transport))
  }

  /** The outcome of trying endpoint i of a round: only the three known transports are really contacted. */
  function Tried(round: Round, i: nat): Attempt
    requires round.Fallback? && |round.outcomes| == |round.endpoints| && i < |round.endpoints|
  {
    if round.endpoints[i] in Transports.PRIORITY_ORDER then round.outcomes[i] else Unsupported(round.endpoints[i])
  }

  predicate ValidRound(round: Round) {
    round.Fallback? ==> |round.outcomes| == |round.endpoints| && |round.endpoints| >= 2
  }

  function TransportCount(round: Round): nat {
    if round.Direct? then 1 else |round.endpoints|
  }

  function ErrorText(a: Attempt): string {
    if a.Returned? then a.result.response else a.message
  }

  function AllFailed(lastError: string): Attempt {
    Returned(SendResult(false, 500, "All transports failed: " + lastError))
  }

  /** The outcome of a fallback round from endpoint i on. */
  function FallbackFrom(round: Round, i: nat, lastError: string): (r: (Attempt, nat))
    requires round.Fallback? && |round.outcomes| == |round.endpoints| && i <= |round.endpoints|
    decreases |round.endpoints| - i
  {
    if i == |round.endpoints| then (AllFailed(lastError), i)
    else if Conclusive(Tried(round, i)) then (Returned(AsResult(Tried(round, i))), i + 1)
    else FallbackFrom(round, i + 1, ErrorText(Tried(round, i)))
  }

  function SendOutcome(round: Round): (Attempt, nat)
    requires ValidRound(round)
  {
    if round.Direct? then (round.attempt, 1) else FallbackFrom(round, 0, "undefined")
  }

  /** `doSendMessage`: its outcome and how many transports it tried. */
  method DoSendMessage(round: Round) returns (outcome: Attempt, tried: nat)
    requires ValidRound(round)
    ensures (outcome, tried) == SendOutcome(round)
  {
    if round.Direct? {
      return round.attempt, 1;
    }
    var lastError := "undefined";
    var i := 0;
    while i < |round.endpoints|
      invariant i <= |round.endpoints|
      invariant SendOutcome(round) == FallbackFrom(round, i, lastError)
    {
      match Tried(round, i) {
        case Returned(result) =>
          if result.ok || !IsRetryableStatus(result.statusCode) {
            return Returned(result), i + 1;
          }
          lastError := result.response;
        case Threw(message, transient) =>
          if !transient {
            return Returned(SendResult(false, 500, message)), i + 1;
          }
          lastError := message;
      }
      i := i + 1;
    }
    return AllFailed(lastError), i;
  }

  /** Transports are tried in order up to the first conclusive one, whose outcome is returned without throwing;
      when there is none, all were tried and the result is a fresh 500. */
  lemma {:induction false} FallbackStopsAtFirstConclusive(round: Round, i: nat, lastError: string)
    requires round.Fallback? && |round.outcomes| == |round.endpoints| && i <= |round.endpoints|
    ensures var (outcome, tried) := FallbackFrom(round, i, lastError);
            && outcome.Returned?
            && i <= tried <= |round.endpoints|
            && (forall k :: i <= k < tried - 1 ==> !Conclusive(Tried(round, k)))
            && (if tried > i && Conclusive(Tried(round, tried - 1))
                then outcome.result == AsResult(Tried(round, tried - 1))
                else tried == |round.endpoints| && !outcome.result.ok && outcome.result.statusCode == 500)
    decreases |round.endpoints| - i
  {
    if i < |round.endpoints| && !Conclusive(Tried(round, i)) {
      FallbackStopsAtFirstConclusive(round, i + 1, ErrorText(Tried(round, i)));
    }
  }

  function TotalTried(rounds: nat -> Round, calls: nat): nat
    requires forall i :: ValidRound(rounds(i))
  {
    if calls == 0 then 0 else TotalTried(rounds, calls - 1) + SendOutcome(rounds(calls - 1)).1
  }

  /** At most (maxRetries + 1) times the number of transports are contacted in one send. */
  lemma {:induction false} TransportAttemptsBounded(rounds: nat -> Round, calls: nat, maxRetries: nat, transports: nat)
    requires forall i :: ValidRound(rounds(i)) && TransportCount(rounds(i)) <= transports
    requires calls <= maxRetries + 1
    ensures TotalTried(rounds, calls) <= calls * transports <= (maxRetries + 1) * transports
  {
    if calls > 0 {
      TransportAttemptsBounded(rounds, calls - 1, maxRetries, transports);
      var round := rounds(calls - 1);
      if round.Fallback? { FallbackStopsAtFirstConclusive(round, 0, "undefined"); }
      assert calls * transports == (calls - 1) * transports + transports;
    }
    MulMonotone(calls, maxRetries + 1, transports);
  }

  lemma MulMonotone(a: nat, b: nat, c: nat)
    requires a <= b
    ensures a * c <= b * c
  {
    assert b * c == a * c + (b - a) * c;
  }

  /** The transport tried last in the round threw an error that no other transport could cure (auth, protocol). */
  predicate EndsForGood(round: Round)
    requires ValidRound(round)
  {
    match round
    case Direct(attempt) => attempt.Threw? && !attempt.transient
    case Fallback(_, _) =>
      var tried := SendOutcome(round).1;
      0 < tried <= |round.endpoints| && Tried(round, tried - 1).Threw? && !Tried(round, tried - 1).transient
  }

  /** The comments promise that such an error stops the send at once. Whichever call of a send meets it, that call is
      the last one exactly when it used a single transport or no retries were left: with several transports the error
      is returned as a 500, which is retried. */
  lemma NonTransientErrorRetriedIff(rounds: nat -> Round, maxRetries: nat, calls: nat, c: nat)
    requires forall i :: ValidRound(rounds(i))
    requires StopsAfter(Sends(rounds), maxRetries, calls) && c < calls && EndsForGood(rounds(c))
    ensures c == calls - 1 <==> rounds(c).Direct? || c == maxRetries
  {
    assert Sends(rounds)(c) == SendOutcome(rounds(c)).0;
    if rounds(c).Fallback? {
      FallbackStopsAtFirstConclusive(rounds(c), 0, "undefined");
      assert !Conclusive(Sends(rounds)(c));
    } else {
      assert Conclusive(Sends(rounds)(c));
    }
  }

  /** A send to a peer with two transports that meets the same fatal error on every one of its two calls. */
  lemma FatalErrorRepeated()
    ensures var round := Fallback(["JSONRPC", "GRPC"], [Threw("unauthorized", false), Threw("unauthorized", false)]);
            ValidRound(round) && EndsForGood(round) && StopsAfter(Sends(Always(round)), 1, 2)
  {
    var round := Fallback(["JSONRPC", "GRPC"], [Threw("unauthorized", false), Threw("unauthorized", false)]);
    var fn := Sends(Always(round));
    assert Tried(round, 0) == Threw("unauthorized", false);
    assert SendOutcome(round) == (Returned(SendResult(false, 500, "unauthorized")), 1);
    assert !Conclusive(fn(0)) && !Conclusive(fn(1));
  }

  /** Every call meets the same round. */
  function Always(round: Round): nat -> Round {
    (_: nat) => round
  }

  function Sends(rounds: nat -> Round): nat -> Attempt
    requires forall i :: ValidRound(rounds(i))
  {
    (i: nat) => SendOutcome(rounds(i)).0
  }

  // ----- under the breaker -----------------------------------------------------------------------------------

  /** Something another caller or a health probe does to the manager while a send is in progress. */
  datatype Turn = Turn(name: string, event: Event)

  function EventsOf(turns: seq<Turn>, name: string): seq<Event> {
    if turns == [] then [] else
    var n := |turns| - 1;
    if turns[n].name == name then EventsOf(turns[..n], name) + [turns[n].event] else EventsOf(turns[..n], name)
  }

  method TakeTurn(hm: PeerHealthManager, turn: Turn)
    requires hm.Valid()
    modifies hm
    ensures hm.Valid() && hm.histories == old(hm.Logged(turn.name, turn.event))
  {
    match turn.event {
      case Ask(at) => var _ := hm.IsAvailable(turn.name, at);
      case Success(at) => hm.RecordSuccess(turn.name, at);
      case Failure(at) => hm.RecordFailure(turn.name, at);
      case Probe(healthy, at) => hm.CheckPeer(turn.name, healthy, at);
    }
  }

  method Interleave(hm: PeerHealthManager, turns: seq<Turn>)
    requires hm.Valid()
    modifies hm
    ensures hm.Valid() && hm.histories.Keys == old(hm.histories).Keys
    ensures forall name :: name in hm.histories ==>
                             hm.histories[name] == old(hm.histories)[name] + EventsOf(turns, name)
  {
    hide PeerHealthManager.Valid;
    for i := 0 to |turns|
      invariant hm.Valid() && hm.histories.Keys == old(hm.histories).Keys
      invariant forall name :: name in hm.histories ==>
                                 hm.histories[name] == old(hm.histories)[name] + EventsOf(turns[..i], name)
    {
      assert turns[..i + 1][..i] == turns[..i];
      TakeTurn(hm, turns[i]);
    }
    assert turns[..|turns|] == turns;
  }

  function UsesRetry(retry: Option<RetryConfig>): bool {
    retry.Some? && retry.value.maxRetries > 0
  }

  const CIRCUIT_OPEN := SendResult(false, 503, "Circuit open")

  /** The send proper, with or without retries. */
  method Deliver(rounds: nat -> Round, retry: Option<RetryConfig>, random: nat -> real)
    returns (reply: Attempt, calls: nat)
    requires forall i :: ValidRound(rounds(i))
    ensures Delivered(rounds, retry, reply, calls)
  {
    if UsesRetry(retry) {
      var result, n, _ := WithRetry(Sends(rounds), retry.value, random);
      reply, calls := Returned(result), n;
    } else {
      var outcome, _ := DoSendMessage(rounds(0));
      reply, calls := outcome, 1;
    }
  }

  /** With retries the reply is the one of the stopping call and never an exception; without, it is the first call's. */
  ghost predicate Delivered(rounds: nat -> Round, retry: Option<RetryConfig>, reply: Attempt, calls: nat)
    requires forall i :: ValidRound(rounds(i))
  {
    && calls >= 1
    && (UsesRetry(retry) ==>
          StopsAfter(Sends(rounds), retry.value.maxRetries, calls)
          && reply == Returned(AsResult(Sends(rounds)(calls - 1))))
    && (!UsesRetry(retry) ==> calls == 1 && reply == Sends(rounds)(0))
  }

  /** No health manager, an unknown peer, or a circuit that lets the request through. */
  ghost predicate Passes(hm: PeerHealthManager?, peer: string, askedAt: int)
    reads hm
  {
    hm == null || peer !in hm.histories || Admits(Run(hm.config, hm.histories[peer]), hm.config, askedAt)
  }

  /** `sendMessage`: one question to the breaker, the send while others act, then at most one outcome. An error that
      escapes the send escapes before the outcome is recorded. */
  method SendMessage(hm: PeerHealthManager?, peer: string, rounds: nat -> Round, retry: Option<RetryConfig>,
                     random: nat -> real, askedAt: int, between: seq<Turn>, doneAt: int)
    returns (reply: Attempt, calls: nat)
    requires hm != null ==> hm.Valid()
    requires forall i :: ValidRound(rounds(i))
    modifies hm
    ensures if old(Passes(hm, peer, askedAt)) then Delivered(rounds, retry, reply, calls)
            else reply == Returned(SendResult(false, 503, "Circuit open")) && calls == 0
    ensures hm != null ==>
              && hm.Valid()
              && if old(Passes(hm, peer, askedAt)) then
                   Grown(old(hm.histories), hm.histories, peer, [Ask(askedAt)], between, Recorded(reply, doneAt))
                 else hm.histories == old(hm.Logged(peer, Ask(askedAt)))
    ensures hm != null && peer in old(hm.histories) && old(Passes(hm, peer, askedAt)) ==>
              IsCounted(hm.config, hm.states, peer, old(hm.histories)[peer] + [Ask(askedAt)] + EventsOf(between, peer),
                        reply, doneAt)
  {
    hide Run, Admits, Delivered, EventsOf, Recorded, ValidRound, IsCounted, PeerHealthManager.Valid;
    if hm == null {
      reply, calls := Deliver(rounds, retry, random);
      return;
    }
    reply, calls := SendGuarded(hm, peer, rounds, retry, random, askedAt, between, doneAt);
    if peer in old(hm.histories) && old(Passes(hm, peer, askedAt)) {
      GrownPeer(old(hm.histories), hm.histories, peer, askedAt, between, Recorded(reply, doneAt));
      SentIsCounted(hm, peer, old(hm.histories)[peer] + [Ask(askedAt)] + EventsOf(between, peer), reply, doneAt);
    }
  }

  /** What the manager's record of the peer says after a send, given the peer's events before the reply came back: an ok
      reply closes the circuit and clears the count, any other reply adds one failure at the time of the reply, and an
      error that escapes leaves the record alone. */
  ghost predicate IsCounted(cfg: CircuitBreakerConfig, states: map<string, PeerState>, peer: string, evs: seq<Event>,
                            reply: Attempt, doneAt: int)
  {
    && peer in states
    && match reply
       case Returned(r) =>
         if r.ok then
           && states[peer].consecutiveFailures == 0 && states[peer].circuit.Closed? && states[peer].health.Healthy?
         else
           && states[peer].consecutiveFailures == TrailingFailures(evs) + 1
           && states[peer].lastFailureAt == Some(doneAt)
           && (cfg.failureThreshold >= 1 ==>
                 (states[peer].circuit.Open? <==> TrailingFailures(evs) + 1 >= cfg.failureThreshold))
       case Threw(_, _) =>
         states[peer].consecutiveFailures == TrailingFailures(evs) && states[peer].lastFailureAt == LastFailureTime(evs)
  }

  lemma GrownPeer(before: map<string, seq<Event>>, after: map<string, seq<Event>>, peer: string, askedAt: int,
                  between: seq<Turn>, last: seq<Event>)
    requires Grown(before, after, peer, [Ask(askedAt)], between, last) && peer in before
    ensures peer in after && after[peer] == before[peer] + [Ask(askedAt)] + EventsOf(between, peer) + last
  {
  }

  lemma {:induction false} CountsFollow(cfg: CircuitBreakerConfig, evs: seq<Event>)
    ensures Run(cfg, evs).state.consecutiveFailures == TrailingFailures(evs)
    ensures Run(cfg, evs).state.lastFailureAt == LastFailureTime(evs)
  {
    if evs != [] { CountsFollow(cfg, evs[..|evs| - 1]); }
  }

  lemma SentIsCounted(hm: PeerHealthManager, peer: string, evs: seq<Event>, reply: Attempt, doneAt: int)
    requires hm.Valid() && peer in hm.histories && hm.histories[peer] == evs + Recorded(reply, doneAt)
    ensures IsCounted(hm.config, hm.states, peer, evs, reply, doneAt)
  {
    assert hm.View(peer) == Run(hm.config, evs + Recorded(reply, doneAt));
    hide PeerHealthManager.Valid, Run, TrailingFailures, LastFailureTime;
    match reply
    case Returned(r) => OutcomeIsCounted(hm.config, evs, r.ok, doneAt);
    case Threw(_, _) =>
      assert evs + [] == evs;
      CountsFollow(hm.config, evs);
  }

  lemma OutcomeIsCounted(cfg: CircuitBreakerConfig, evs: seq<Event>, ok: bool, at: int)
    ensures var q := Run(cfg, evs + [Success(at)]).state;
            ok ==> q.consecutiveFailures == 0 && q.circuit.Closed? && q.health.Healthy?
    ensures var q := Run(cfg, evs + [Failure(at)]).state;
            !ok ==> q.consecutiveFailures == TrailingFailures(evs) + 1 && q.lastFailureAt == Some(at)
                    && (cfg.failureThreshold >= 1 ==>
                          (q.circuit.Open? <==> TrailingFailures(evs) + 1 >= cfg.failureThreshold))
  {
    RunSnoc(cfg, evs, Success(at));
    RunSnoc(cfg, evs, Failure(at));
    CountsFollow(cfg, evs);
    if cfg.failureThreshold >= 1 { BreakerRefinesHistory(cfg, evs); }
  }

  method SendGuarded(hm: PeerHealthManager, peer: string, rounds: nat -> Round, retry: Option<RetryConfig>,
                     random: nat -> real, askedAt: int, between: seq<Turn>, doneAt: int)
    returns (reply: Attempt, calls: nat)
    requires hm.Valid()
    requires forall i :: ValidRound(rounds(i))
    modifies hm
    ensures hm.Valid()
    ensures if old(Passes(hm, peer, askedAt)) then
              && Delivered(rounds, retry, reply, calls)
              && Grown(old(hm.histories), hm.histories, peer, [Ask(askedAt)], between, Recorded(reply, doneAt))
            else reply == Returned(CIRCUIT_OPEN) && calls == 0 && hm.histories == old(hm.Logged(peer, Ask(askedAt)))
  {
    assert hm.Valid() ==> hm.states.Keys == hm.histories.Keys;
    hide PeerHealthManager.Valid, Run, Admits, Delivered, EventsOf, Recorded, ValidRound;
    ghost var h0 := hm.histories;
    var available := hm.IsAvailable(peer, askedAt);
    if !available {
      return Returned(CIRCUIT_OPEN), 0;
    }
    ghost var h1 := hm.histories;
    Interleave(hm, between);
    ghost var h2 := hm.histories;
    reply, calls := Deliver(rounds, retry, random);
    Report(hm, peer, reply, doneAt);
    HistoriesGrow(h0, h1, h2, hm.histories, peer, [Ask(askedAt)], between, Recorded(reply, doneAt));
  }

  /** Every peer's history gained what others did to it, and that of `peer` also something first and something last. */
  ghost predicate Grown(before: map<string, seq<Event>>, after: map<string, seq<Event>>, peer: string,
                        first: seq<Event>, between: seq<Turn>, last: seq<Event>)
  {
    && after.Keys == before.Keys
    && forall name :: name in after ==>
                        after[name] == before[name] +
                        if name == peer then first + EventsOf(between, name) + last else EventsOf(between, name)
  }

  lemma HistoriesGrow(h0: map<string, seq<Event>>, h1: map<string, seq<Event>>, h2: map<string, seq<Event>>,
                      h3: map<string, seq<Event>>, peer: string, first: seq<Event>, between: seq<Turn>,
                      last: seq<Event>)
    requires h1 == if peer in h0 then h0[peer := h0[peer] + first] else h0
    requires h2.Keys == h1.Keys && forall name :: name in h2 ==> h2[name] == h1[name] + EventsOf(between, name)
    requires h3.Keys == h2.Keys
    requires forall name :: name in h3 ==> h3[name] == h2[name] + if name == peer then last else []
    ensures Grown(h0, h3, peer, first, between, last)
  {
    hide EventsOf;
    forall name | name in h3
      ensures h3[name] == h0[name] +
                          if name == peer then first + EventsOf(between, name) + last else EventsOf(between, name)
    {
      if name == peer {
        assert h0[name] + first + EventsOf(between, name) + last == h0[name] + (first + EventsOf(between, name) + last);
      }
    }
  }

  method Report(hm: PeerHealthManager, peer: string, reply: Attempt, doneAt: int)
    requires hm.Valid()
    modifies hm
    ensures hm.Valid() && hm.histories.Keys == old(hm.histories.Keys)
    ensures forall name :: name in hm.histories ==>
                             hm.histories[name] == old(hm.histories)[name] +
                             if name == peer then Recorded(reply, doneAt) else []
  {
    hide PeerHealthManager.Valid;
    if reply.Threw? {
      return;
    }
    if reply.result.ok {
      hm.RecordSuccess(peer, doneAt);
    } else {
      hm.RecordFailure(peer, doneAt);
    }
  }

  /** An error escapes a send exactly when there are no retries and its only transport throws. */
  lemma EscapesIff(rounds: nat -> Round, retry: Option<RetryConfig>, reply: Attempt, calls: nat)
    requires forall i :: ValidRound(rounds(i))
    requires Delivered(rounds, retry, reply, calls)
    ensures reply.Threw? <==> !UsesRetry(retry) && rounds(0).Direct? && rounds(0).attempt.Threw?
  {
    if rounds(0).Fallback? { FallbackStopsAtFirstConclusive(rounds(0), 0, "undefined"); }
  }

  /** What an admitted send leaves in the peer's history. */
  function Recorded(reply: Attempt, doneAt: int): seq<Event> {
    match reply
    case Returned(r) => [if r.ok then Success(doneAt) else Failure(doneAt)]
    case Threw(_, _) => []
  }

  /** A send leaves the circuit half-open exactly when its error escaped and a trial call is out: its own, or one that
      another request started meanwhile. */
  lemma HalfOpenAfterSendIff(cfg: CircuitBreakerConfig, evs: seq<Event>, askedAt: int, between: seq<Event>,
                             reply: Attempt, doneAt: int)
    requires cfg.failureThreshold >= 1
    ensures Run(cfg, evs + [Ask(askedAt)] + between + Recorded(reply, doneAt)).state.circuit.HalfOpen? <==>
            reply.Threw? && TrialOut(cfg, evs + [Ask(askedAt)] + between)
  {
    hide Run, TrailingFailures, LastFailureTime, TrialOut;
    var before := evs + [Ask(askedAt)] + between;
    if reply.Returned? {
      OutcomeEndsHalfOpen(cfg, before, reply, doneAt);
    } else {
      assert before + [] == before;
      BreakerRefinesHistory(cfg, before);
    }
  }

  /** While others only ask, the trial that is out after an admitted question is the send's own. */
  lemma {:induction false} TrialOutWhenQuietIff(cfg: CircuitBreakerConfig, evs: seq<Event>, askedAt: int,
                                                between: seq<Event>)
    requires cfg.failureThreshold >= 1 && Admits(Run(cfg, evs), cfg, askedAt)
    requires forall k :: 0 <= k < |between| ==> between[k].Ask?
    ensures TrialOut(cfg, evs + [Ask(askedAt)] + between) <==> Tripped(cfg, evs)
    ensures Tripped(cfg, evs + [Ask(askedAt)] + between) <==> Tripped(cfg, evs)
  {
    var asked := evs + [Ask(askedAt)];
    var all := asked + between;
    if between == [] {
      assert all == asked && asked[..|asked| - 1] == evs;
      AdmittedIff(cfg, evs, askedAt);
      BreakerRefinesHistory(cfg, evs);
    } else {
      var n := |between| - 1;
      TrialOutWhenQuietIff(cfg, evs, askedAt, between[..n]);
      assert all[..|all| - 1] == asked + between[..n] && all[|all| - 1] == between[n];
      BreakerRefinesHistory(cfg, asked + between[..n]);
    }
  }

  /** A send during which nothing but questions reaches the peer leaves the circuit half-open exactly when it was a
      trial call whose error escaped. */
  lemma HalfOpenAfterQuietSendIff(cfg: CircuitBreakerConfig, evs: seq<Event>, askedAt: int, between: seq<Event>,
                                  reply: Attempt, doneAt: int)
    requires cfg.failureThreshold >= 1 && Admits(Run(cfg, evs), cfg, askedAt)
    requires forall k :: 0 <= k < |between| ==> between[k].Ask?
    ensures Run(cfg, evs + [Ask(askedAt)] + between + Recorded(reply, doneAt)).state.circuit.HalfOpen? <==>
            reply.Threw? && Tripped(cfg, evs)
  {
    hide Run, Admits, TrialOut, Tripped, Recorded;
    HalfOpenAfterSendIff(cfg, evs, askedAt, between, reply, doneAt);
    TrialOutWhenQuietIff(cfg, evs, askedAt, between);
  }

  /** A trial send without retries whose only transport throws: it is admitted, its error escapes, and no later
      request is admitted at any time. */
  lemma TrialErrorShutsOut(now: int)
    ensures var cfg, reply := CircuitBreakerConfig(1, 10), Threw("fetch failed", true);
            && Admits(Run(cfg, [Failure(1)]), cfg, 20) && Delivered(Always(Direct(reply)), None, reply, 1)
            && !Admits(Run(cfg, [Failure(1)] + [Ask(20)] + [] + Recorded(reply, 21)), cfg, now)
  {
    var cfg := CircuitBreakerConfig(1, 10);
    assert [Failure(1)][..0] == [];
    assert Tripped(cfg, [Failure(1)]);
    AdmittedIff(cfg, [Failure(1)], 20);
    HalfOpenAfterQuietSendIff(cfg, [Failure(1)], 20, [], Threw("fetch failed", true), 21);
    BreakerRefinesHistory(cfg, [Failure(1)] + [Ask(20)] + [] + Recorded(Threw("fetch failed", true), 21));
  }

  /** Right after any recorded outcome the circuit is not half-open, whatever happened meanwhile. */
  lemma OutcomeEndsHalfOpen(cfg: CircuitBreakerConfig, evs: seq<Event>, reply: Attempt, doneAt: int)
    requires reply.Returned?
    ensures !Run(cfg, evs + Recorded(reply, doneAt)).state.circuit.HalfOpen?
    ensures !Run(cfg, evs + Recorded(reply, doneAt)).inFlight
  {
    RunSnoc(cfg, evs, Recorded(reply, doneAt)[0]);
  }
}
