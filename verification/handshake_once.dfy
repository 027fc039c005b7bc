/** At-most-once answers. A poll marks a message as processed only after the hub has confirmed its consumption, so
    a second poll can pull the same message in between: an offer is answered at most once exactly when no message
    is pulled while it is still being consumed. */
module HandshakeOnce {
  import opened Wrappers
  import opened GatewayConfigs
  import opened Handshake
  import opened HandshakeAgreement

  predicate IsPulled(job: Job) {
    job.Consuming? || job.Ignoring?
  }

  /** Some poll of this agent has pulled the message and waits for the hub to confirm its consumption. */
  ghost predicate InFlight(s: System, agent: nat, message: nat) {
    exists job :: job in s.jobs && s.jobs[job].0 == agent && s.jobs[job].1.message == message && IsPulled(s.jobs[job].1)
  }

  ghost predicate NoOverlap(start: System, steps: seq<Step>)
    requires IsRun(start, steps)
  {
    steps == [] ||
    var before, last := steps[..|steps| - 1], steps[|steps| - 1];
    NoOverlap(start, before) && (last.Pull? ==> !InFlight(Run(start, before), last.agent, last.message))
  }

  predicate SameOffer(f: Fact, g: Fact) {
    f.Issued? && g.Issued? && f.agent == g.agent && f.forOffer.Some? && f.forOffer == g.forOffer
  }

  /** No offer has been answered with two tokens. */
  ghost predicate AtMostOnce(log: seq<Fact>) {
    forall i, j :: 0 <= i < j < |log| ==> !SameOffer(log[i], log[j])
  }

  predicate SamePull(a: (nat, Job), b: (nat, Job)) {
    IsPulled(a.1) && IsPulled(b.1) && a.0 == b.0 && a.1.message == b.1.message
  }

  ghost predicate OnePullEach(s: System) {
    forall i, j :: i in s.jobs && j in s.jobs && SamePull(s.jobs[i], s.jobs[j]) ==> i == j
  }

  ghost predicate PulledIsUnprocessed(s: System) {
    forall i :: i in s.jobs && IsPulled(s.jobs[i].1) ==>
                  s.jobs[i].0 in s.agents && s.jobs[i].1.message !in s.agents[s.jobs[i].0].processed
  }

  ghost predicate AnsweredIsProcessed(s: System) {
    forall f :: f in s.log && f.Issued? && f.forOffer.Some? ==>
                  f.agent in s.agents && f.forOffer.value in s.agents[f.agent].processed
  }

  ghost predicate Solo(s: System) {
    OnePullEach(s) && PulledIsUnprocessed(s) && AnsweredIsProcessed(s) && AtMostOnce(s.log)
  }

  // ----- without overlap -----------------------------------------------------------------------------------

  /** Which jobs a step may leave pulled: those that were, and the one it pulls. */
  lemma PulledAfter(s: System, step: Step, job: nat)
    requires Enabled(s, step) && job in Next(s, step).jobs && IsPulled(Next(s, step).jobs[job].1)
    ensures (job in s.jobs && Next(s, step).jobs[job] == s.jobs[job] && !(step.Consume? && step.job == job))
            || (step.Pull? && step.job == job && Next(s, step).jobs[job].0 == step.agent
                && Next(s, step).jobs[job].1.message == step.message && step.message !in s.agents[step.agent].processed)
  {
    hide IsValidToken, HexOf, Upsert;
  }

  /** Only consuming a message marks it as processed. */
  lemma ProcessedAfter(s: System, step: Step, agent: nat)
    requires Enabled(s, step) && agent in s.agents
    ensures var t := Next(s, step);
            && agent in t.agents && s.agents[agent].processed <= t.agents[agent].processed
            && forall message :: message in t.agents[agent].processed && message !in s.agents[agent].processed ==>
                                   step.Consume? && s.jobs[step.job].0 == agent && s.jobs[step.job].1.message == message
  {
    hide IsValidToken, HexOf, Upsert;
  }

  lemma StepKeepsPulls(s: System, step: Step)
    requires OnePullEach(s) && PulledIsUnprocessed(s) && Enabled(s, step)
    requires step.Pull? ==> !InFlight(s, step.agent, step.message)
    ensures OnePullEach(Next(s, step)) && PulledIsUnprocessed(Next(s, step))
  {
    var t := Next(s, step);
    hide Next;
    forall i, j | i in t.jobs && j in t.jobs && SamePull(t.jobs[i], t.jobs[j]) ensures i == j
    {
      PulledAfter(s, step, i);
      PulledAfter(s, step, j);
    }
    forall i | i in t.jobs && IsPulled(t.jobs[i].1)
      ensures t.jobs[i].0 in t.agents && t.jobs[i].1.message !in t.agents[t.jobs[i].0].processed
    {
      PulledAfter(s, step, i);
      ProcessedAfter(s, step, t.jobs[i].0);
    }
  }

  /** The one step that answers an offer does so for a message nobody had processed, and marks it. */
  lemma AnsweringStep(s: System, step: Step, k: nat)
    requires Enabled(s, step) && |s.log| <= k < |Next(s, step).log|
    requires var f := Next(s, step).log[k]; f.Issued? && f.forOffer.Some?
    ensures var f, t := Next(s, step).log[k], Next(s, step);
            && step.Consume? && IsPulled(s.jobs[step.job].1) && f.agent == s.jobs[step.job].0
            && f.forOffer.value == s.jobs[step.job].1.message && k == |t.log| - 1
            && f.agent in t.agents && f.forOffer.value in t.agents[f.agent].processed
  {
    hide IsValidToken, HexOf, Upsert;
  }

  lemma StepKeepsAnswers(s: System, step: Step)
    requires PulledIsUnprocessed(s) && AnsweredIsProcessed(s) && AtMostOnce(s.log) && Enabled(s, step)
    ensures AnsweredIsProcessed(Next(s, step)) && AtMostOnce(Next(s, step).log)
  {
    var t := Next(s, step);
    StepExtends(s, step);
    hide Next, Enabled;
    forall f | f in t.log && f.Issued? && f.forOffer.Some?
      ensures f.agent in t.agents && f.forOffer.value in t.agents[f.agent].processed
    {
      if f in s.log {
        ProcessedAfter(s, step, f.agent);
      } else {
        var k :| 0 <= k < |t.log| && t.log[k] == f;
        AnsweringStep(s, step, k);
      }
    }
    forall i, j | 0 <= i < j < |t.log| ensures !SameOffer(t.log[i], t.log[j]) {
      assert i < |s.log| ==> t.log[i] == s.log[i] && t.log[i] in s.log;
      assert j < |s.log| ==> t.log[j] == s.log[j];
      if SameOffer(t.log[i], t.log[j]) && |s.log| <= j {
        AnsweringStep(s, step, j);
        if |s.log| <= i { AnsweringStep(s, step, i); }
      }
    }
  }

  lemma {:induction false} NoOverlapIsSolo(start: System, steps: seq<Step>)
    requires Solo(start) && IsRun(start, steps) && NoOverlap(start, steps)
    ensures Solo(Run(start, steps))
  {
    if steps != [] {
      var s, step := Run(start, steps[..|steps| - 1]), steps[|steps| - 1];
      NoOverlapIsSolo(start, steps[..|steps| - 1]);
      StepKeepsPulls(s, step);
      StepKeepsAnswers(s, step);
    }
  }

  /** In every run in which no message is pulled while it is being consumed, no offer is answered twice. */
  lemma AnsweredAtMostOnce(start: System, steps: seq<Step>)
    requires IsStart(start) && IsRun(start, steps) && NoOverlap(start, steps)
    ensures AtMostOnce(Run(start, steps).log)
  {
    NoOverlapIsSolo(start, steps);
  }

  // ----- with overlap --------------------------------------------------------------------------------------

  predicate CanConsume(s: System, job: nat, agent: nat, message: nat) {
    && job in s.jobs && s.jobs[job] == (agent, Consuming(message)) && agent in s.agents
    && message in s.messages && s.messages[message].kind.Offer? && s.messages[message].matchId in s.matches
  }

  /** Consuming an offer whose answer can be addressed issues a token for it and touches no other job. */
  lemma ConsumeIssues(s: System, job: nat, agent: nat, message: nat, bytes: seq<Byte>)
    requires CanConsume(s, job, agent, message) && FreshToken(s, bytes)
    ensures Enabled(s, Consume(job, true, true, true, bytes))
    ensures var t := Next(s, Consume(job, true, true, true, bytes));
            && |t.log| == |s.log| + 2 && s.log <= t.log
            && t.log[|s.log| + 1] == Issued(agent, HexOf(bytes), s.messages[message].matchId, s.clock, Some(message))
            && t.usedTokens == s.usedTokens + {HexOf(bytes)}
            && forall other :: other != job && CanConsume(s, other, agent, message)
                               ==> CanConsume(t, other, agent, message)
  {
    hide HexOf, IsValidToken, Upsert;
  }

  lemma OneStepMore(s: System, steps: seq<Step>, last: Step)
    requires IsRun(s, steps) && NoOverlap(s, steps) && Enabled(Run(s, steps), last) && !last.Pull?
    ensures var more := steps + [last];
            IsRun(s, more) && NoOverlap(s, more) && Run(s, more) == Next(Run(s, steps), last)
  {
    hide Enabled, Next;
    var more := steps + [last];
    assert more[..|more| - 1] == steps && more[|more| - 1] == last;
  }

  /** The run in which two polls have pulled the same offer and both consume it. */
  lemma ConsumedTwice(s: System, first: nat, second: nat, agent: nat, message: nat, b1: seq<Byte>, b2: seq<Byte>)
    requires first != second && CanConsume(s, first, agent, message) && CanConsume(s, second, agent, message)
    requires FreshToken(s, b1) && FreshToken(s, b2) && HexOf(b1) != HexOf(b2)
    ensures var both := [Consume(first, true, true, true, b1), Consume(second, true, true, true, b2)];
            IsRun(s, both) && NoOverlap(s, both) && !AtMostOnce(Run(s, both).log)
  {
    var one, two := Consume(first, true, true, true, b1), Consume(second, true, true, true, b2);
    ConsumeIssues(s, first, agent, message, b1);
    var t := Next(s, one);
    assert CanConsume(t, second, agent, message) && FreshToken(t, b2);
    ConsumeIssues(t, second, agent, message, b2);
    var u := Next(t, two);
    hide CanConsume, Enabled, Next, HexOf, FreshToken;
    assert [] + [one] == [one] && [one] + [two] == [one, two];
    OneStepMore(s, [], one);
    OneStepMore(s, [one], two);
    hide IsRun, Run, NoOverlap;
    assert u.log[|s.log| + 1] == t.log[|s.log| + 1];
    assert SameOffer(u.log[|s.log| + 1], u.log[|s.log| + 3]);
  }

  lemma PullEffect(s: System, job: nat, agent: nat, message: nat)
    requires Enabled(s, Pull(job, agent, message)) && IsValidToken(s.messages[message].token)
    ensures job !in s.jobs && agent in s.agents && message in s.messages && s.messages[message].matchId in s.matches
    ensures Next(s, Pull(job, agent, message)) == s.(jobs := s.jobs[job := (agent, Consuming(message))])
  {
    hide IsValidToken;
  }

  lemma PulledIsConsuming(s: System, job: nat)
    requires JobsOk(s) && job in s.jobs && IsPulled(s.jobs[job].1)
    ensures s.jobs[job].1.Consuming?
  {
    assert JobOk(s, s.jobs[job].0, s.jobs[job].1);
  }

  lemma PulledCanConsume(s: System, first: nat, job: nat, agent: nat, message: nat)
    requires Enabled(s, Pull(job, agent, message)) && s.messages[message].kind.Offer?
             && IsValidToken(s.messages[message].token)
    requires first in s.jobs && s.jobs[first] == (agent, Consuming(message))
    ensures var t := Next(s, Pull(job, agent, message));
            first != job && CanConsume(t, first, agent, message) && CanConsume(t, job, agent, message)
            && t.usedTokens == s.usedTokens
  {
    PullEffect(s, job, agent, message);
    hide IsValidToken, Next, Enabled;
  }

  lemma OverlapAnswersTwice(s: System, job: nat, agent: nat, message: nat, b1: seq<Byte>, b2: seq<Byte>)
    requires Inv(s) && Enabled(s, Pull(job, agent, message)) && s.messages[message].kind.Offer?
    requires InFlight(s, agent, message) && FreshToken(s, b1) && FreshToken(s, b2) && b1 != b2
    ensures var t := Next(s, Pull(job, agent, message));
            exists more :: IsRun(t, more) && NoOverlap(t, more) && !AtMostOnce(Run(t, more).log)
  {
    hide IssuesOk, MatchesOk, MessagesOk, JobsOk, SessionsOk;
    assert JobsOk(s) && message in s.messages;
    hide Inv, Enabled, Next, HexOf, CanConsume, IsRun, Run, NoOverlap, AtMostOnce;
    var first :| first in s.jobs && s.jobs[first].0 == agent && s.jobs[first].1.message == message
                 && IsPulled(s.jobs[first].1);
    PulledIsConsuming(s, first);
    MessageTokensAreValid(s, message);
    PulledCanConsume(s, first, job, agent, message);
    if HexOf(b1) == HexOf(b2) { HexIsInjective(b1, b2); }
    ConsumedTwice(Next(s, Pull(job, agent, message)), first, job, agent, message, b1, b2);
  }

  /** From then on every offer is answered at most once, as long as no later pull overlaps, if and only if this
      pull does not find the message already being consumed. */
  lemma PullIsSafeIff(start: System, steps: seq<Step>, job: nat, agent: nat, message: nat, b1: seq<Byte>, b2: seq<Byte>)
    requires IsStart(start) && IsRun(start, steps) && NoOverlap(start, steps)
    requires var s := Run(start, steps);
             && Enabled(s, Pull(job, agent, message)) && s.messages[message].kind.Offer?
             && FreshToken(s, b1) && FreshToken(s, b2) && b1 != b2
    ensures var s := Run(start, steps);
            var t := Next(s, Pull(job, agent, message));
            !InFlight(s, agent, message) <==>
            (forall more :: IsRun(t, more) && NoOverlap(t, more) ==> AtMostOnce(Run(t, more).log))
  {
    NoOverlapIsSolo(start, steps);
    RunKeepsInv(start, steps);
    hide AtMostOnce, NoOverlap, IsRun, Run, HexOf, Inv, Next, Enabled, FreshToken, InFlight;
    var s, pull := Run(start, steps), Pull(job, agent, message);
    var t := Next(s, pull);
    if InFlight(s, agent, message) {
      OverlapAnswersTwice(s, job, agent, message, b1, b2);
    } else {
      StepKeepsPulls(s, pull);
      StepKeepsAnswers(s, pull);
      forall more | IsRun(t, more) && NoOverlap(t, more) ensures AtMostOnce(Run(t, more).log) {
        NoOverlapIsSolo(t, more);
      }
    }
  }

  // ----- a run that answers twice ---------------------------------------------------------------------------

  function Bytes(b: Byte): (r: seq<Byte>)
    ensures |r| == TOKEN_LENGTH / 2
  {
    seq(TOKEN_LENGTH / 2, _ => b)
  }

  lemma BytesDiffer(a: Byte, b: Byte)
    requires a != b
    ensures Bytes(a) != Bytes(b) && HexOf(Bytes(a)) != HexOf(Bytes(b))
  {
    hide HexOf;
    assert Bytes(a)[0] != Bytes(b)[0];
    if HexOf(Bytes(a)) == HexOf(Bytes(b)) { HexIsInjective(Bytes(a), Bytes(b)); }
  }

  /** Agents 0 and 1 before anything happened. */
  function TwoAgents(): System {
    var nobody := Agent([], {}, map[], {});
    System(map[0 := nobody, 1 := nobody], map[], map[], map[], map[], {}, [], 0)
  }

  /** Agent 0 has asked for a match with agent 1 and its offer, message 0, is at the hub. */
  lemma OfferAtHub() returns (steps: seq<Step>)
    ensures steps == [CreateMatch(0, 0, 1, "requester", "provider", Bytes(0)), SendOffer(0, 0, "", true, true)]
    ensures IsRun(TwoAgents(), steps) && NoOverlap(TwoAgents(), steps)
    ensures var s := Run(TwoAgents(), steps);
            && s.jobs == map[] && s.usedTokens == {HexOf(Bytes(0))} && 1 in s.agents && s.agents[1].processed == {}
            && 0 in s.matches && s.matches[0].provider == 1
            && 0 in s.messages && s.messages[0] == Message(0, Offer, 0, 1, HexOf(Bytes(0)), "")
  {
    hide HexOf, Bytes;
    var create, send := CreateMatch(0, 0, 1, "requester", "provider", Bytes(0)), SendOffer(0, 0, "", true, true);
    OneStepMore(TwoAgents(), [], create);
    OneStepMore(TwoAgents(), [create], send);
    assert [] + [create] == [create] && [create] + [send] == [create, send];
    steps := [create, send];
  }

  lemma PullTwice(s: System)
    requires s.jobs == map[] && 1 in s.agents && s.agents[1].processed == {} && 0 in s.matches
             && s.matches[0].provider == 1
    requires 0 in s.messages && s.messages[0] == Message(0, Offer, 0, 1, HexOf(Bytes(0)), "")
    ensures IsRun(s, [Pull(0, 1, 0), Pull(1, 1, 0)]) && InFlight(Run(s, [Pull(0, 1, 0)]), 1, 0)
    ensures var t := Run(s, [Pull(0, 1, 0), Pull(1, 1, 0)]);
            CanConsume(t, 0, 1, 0) && CanConsume(t, 1, 1, 0) && t.usedTokens == s.usedTokens
  {
    IssuedTokensAreValid(Bytes(0));
    hide HexOf, Bytes, IsValidToken;
    var one, two := Pull(0, 1, 0), Pull(1, 1, 0);
    assert Enabled(s, one);
    PullEffect(s, 0, 1, 0);
    var t := Next(s, one);
    assert Enabled(t, two);
    PulledCanConsume(t, 0, 1, 1, 0);
    TwoSteps(s, one, two);
    hide Enabled, Next, CanConsume, IsRun, Run;
    assert InFlight(t, 1, 0);
  }

  /** A reachable state in which a message is being consumed and a second poll pulls it, and what comes of it: the run
      from the start in which agent 1 answers one offer with two tokens. */
  lemma OneOfferTwoTokens() returns (steps: seq<Step>)
    ensures steps == [CreateMatch(0, 0, 1, "requester", "provider", Bytes(0)), SendOffer(0, 0, "", true, true),
                      Pull(0, 1, 0), Pull(1, 1, 0),
                      Consume(0, true, true, true, Bytes(1)), Consume(1, true, true, true, Bytes(2))]
    ensures IsStart(TwoAgents()) && IsRun(TwoAgents(), steps) && !AtMostOnce(Run(TwoAgents(), steps).log)
  {
    hide HexOf, Bytes, Next, Enabled, IsRun, Run, CanConsume, AtMostOnce;
    var sent := OfferAtHub();
    var s := Run(TwoAgents(), sent);
    PullTwice(s);
    var pulls := [Pull(0, 1, 0), Pull(1, 1, 0)];
    var consumptions := [Consume(0, true, true, true, Bytes(1)), Consume(1, true, true, true, Bytes(2))];
    RunAppend(TwoAgents(), sent, pulls);
    BytesDiffer(0, 1);
    BytesDiffer(0, 2);
    BytesDiffer(1, 2);
    ConsumedTwice(Run(s, pulls), 0, 1, 1, 0, Bytes(1), Bytes(2));
    RunAppend(TwoAgents(), sent + pulls, consumptions);
    steps := sent + pulls + consumptions;
  }
}
