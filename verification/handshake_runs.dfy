/** The gateway's code takes the steps of the protocol: what a poll and a match request compute is what runs of the
    handshake leave behind. */
module HandshakeRuns {
  import opened Wrappers
  import opened GatewayConfigs
  import opened Handshake
  import opened HandshakeAgreement
  import opened HandshakePoll

  // ----- one message -------------------------------------------------------------------------------------------

  /** The steps of one message, as a job with the given number. */
  function MessageSteps(job: nat, agent: nat, id: nat, m: Message, r: Replies): seq<Step> {
    [Pull(job, agent, id), Tick(r.now), Consume(job, r.consumed, r.canAnswer, r.keyKnown, r.bytes)]
    + AnswerSteps(job, m, r)
  }

  /** The steps after the consumption: an answer is reported, an offer answered and then reported. */
  function AnswerSteps(job: nat, m: Message, r: Replies): seq<Step> {
    if !r.consumed || !IsValidToken(m.token) then []
    else if m.kind.Answer? then [EndJob(job)]
    else if !r.canAnswer || !r.keyKnown then []
    else [SendAnswer(job, r.answerId, r.url, r.stored, r.sent)] + if r.sent then [EndJob(job)] else []
  }

  /** The message is at the hub for this agent, who is the provider of its match. */
  predicate IsPending(s: System, agent: nat, name: string, id: nat, m: Message) {
    && id in s.messages && s.messages[id] == m && m.receiver == agent
    && m.matchId in s.matches && s.matches[m.matchId].provider == agent && s.matches[m.matchId].requesterName == name
  }

  /** The hub keeps all messages and at most adds this agent's answer. */
  predicate OnlyAnswers(s: System, t: System, r: Replies) {
    t.messages == s.messages || (r.answerId in t.messages
                                 && t.messages == s.messages[r.answerId := t.messages[r.answerId]])
  }

  lemma PulledAndTicked(s: System, job: nat, agent: nat, id: nat, now: int)
    requires Enabled(s, Pull(job, agent, id)) && s.clock <= now
    ensures var steps := [Pull(job, agent, id), Tick(now)];
            var work := if IsValidToken(s.messages[id].token) then Consuming(id) else Ignoring(id);
            IsRun(s, steps) && Run(s, steps) == s.(jobs := s.jobs[job := (agent, work)], clock := now)
  {
    hide IsValidToken;
    TwoSteps(s, Pull(job, agent, id), Tick(now));
    hide IsRun, Run;
  }

  /** Where a job stands after the consumption, None when it is over. */
  function WorkAfter(id: nat, m: Message, r: Replies): Option<Job> {
    if !r.consumed || !IsValidToken(m.token) then None
    else if m.kind.Answer? then Some(Reporting(id))
    else if !r.canAnswer || !r.keyKnown then None
    else Some(Answering(id, HexOf(r.bytes)))
  }

  lemma ConsumeIsAfterMessage(s: System, job: nat, agent: nat, name: string, id: nat, m: Message, r: Replies)
    requires agent in s.agents && IsPending(s, agent, name, id, m) && WellFormedReplies(r) && s.clock == r.now
    requires job in s.jobs && s.jobs[job] == (agent, if IsValidToken(m.token) then Consuming(id) else Ignoring(id))
    requires HexOf(r.bytes) !in s.usedTokens
    ensures var consume := Consume(job, r.consumed, r.canAnswer, r.keyKnown, r.bytes);
            && Enabled(s, consume)
            && var t := Next(s, consume);
            && t.agents == s.agents[agent := AfterMessage(s.agents[agent], id, m, name, r)]
            && t.jobs == (match WorkAfter(id, m, r) case None => s.jobs - {job}
                                                    case Some(work) => s.jobs[job := (agent, work)])
            && t.matches == s.matches && t.messages == s.messages && t.sessions == s.sessions && t.clock == s.clock
            && s.log <= t.log && s.usedTokens <= t.usedTokens <= s.usedTokens + {HexOf(r.bytes)}
  {
    hide IsValidToken, HexOf, Upsert, Issue, Install;
    assert s.agents == s.agents[agent := s.agents[agent]];
  }

  lemma AnswerIsARun(s: System, job: nat, agent: nat, id: nat, m: Message, r: Replies)
    requires WorkAfter(id, m, r).Some? ==> job in s.jobs && s.jobs[job] == (agent, WorkAfter(id, m, r).value)
    requires id in s.messages && s.messages[id] == m && m.matchId in s.matches && r.answerId !in s.messages
    ensures IsRun(s, AnswerSteps(job, m, r))
    ensures var t := Run(s, AnswerSteps(job, m, r));
            && t == s.(jobs := t.jobs, messages := t.messages)
            && t.jobs == (if WorkAfter(id, m, r).Some? then s.jobs - {job} else s.jobs)
            && OnlyAnswers(s, t, r)
  {
    hide IsValidToken, HexOf;
    if m.kind.Answer? && WorkAfter(id, m, r).Some? {
      OneStep(s, EndJob(job));
    } else if WorkAfter(id, m, r).Some? {
      var send := SendAnswer(job, r.answerId, r.url, r.stored, r.sent);
      if r.sent {
        TwoSteps(s, send, EndJob(job));
        assert AnswerSteps(job, m, r) == [send, EndJob(job)];
      } else {
        OneStep(s, send);
        assert AnswerSteps(job, m, r) == [send];
      }
    }
  }

  lemma ConsumptionIsARun(s: System, job: nat, agent: nat, name: string, id: nat, m: Message, r: Replies)
    requires job !in s.jobs && agent in s.agents && id !in s.agents[agent].processed && IsPending(s, agent, name, id, m)
    requires WellFormedReplies(r) && HexOf(r.bytes) !in s.usedTokens && s.clock <= r.now
    ensures var steps := [Pull(job, agent, id), Tick(r.now),
                          Consume(job, r.consumed, r.canAnswer, r.keyKnown, r.bytes)];
            && IsRun(s, steps)
            && var t := Run(s, steps);
            && t.agents == s.agents[agent := AfterMessage(s.agents[agent], id, m, name, r)]
            && t.jobs == (match WorkAfter(id, m, r) case None => s.jobs case Some(work) => s.jobs[job := (agent, work)])
            && t.matches == s.matches && t.messages == s.messages && t.sessions == s.sessions && t.clock == r.now
            && s.log <= t.log && s.usedTokens <= t.usedTokens <= s.usedTokens + {HexOf(r.bytes)}
  {
    PulledAndTicked(s, job, agent, id, r.now);
    var first, consume := [Pull(job, agent, id), Tick(r.now)],
                          Consume(job, r.consumed, r.canAnswer, r.keyKnown, r.bytes);
    var s2 := Run(s, first);
    hide IsValidToken, HexOf, AfterMessage, WorkAfter, Next, Enabled, IsRun, Run;
    ConsumeIsAfterMessage(s2, job, agent, name, id, m, r);
    OneStep(s2, consume);
    RunAppend(s, first, [consume]);
    assert first + [consume] == [Pull(job, agent, id), Tick(r.now), consume];
    assert s.jobs[job := s2.jobs[job]] - {job} == s.jobs;
  }

  /** Handling one message is a run of the protocol that moves the agent as the code does and finishes the job. */
  lemma MessageIsARun(s: System, job: nat, agent: nat, name: string, id: nat, m: Message, r: Replies)
    requires job !in s.jobs && agent in s.agents && id !in s.agents[agent].processed && IsPending(s, agent, name, id, m)
    requires WellFormedReplies(r) && HexOf(r.bytes) !in s.usedTokens && s.clock <= r.now && r.answerId !in s.messages
    ensures IsRun(s, MessageSteps(job, agent, id, m, r))
    ensures var t := Run(s, MessageSteps(job, agent, id, m, r));
            && t.agents == s.agents[agent := AfterMessage(s.agents[agent], id, m, name, r)]
            && t.matches == s.matches && t.sessions == s.sessions && t.jobs == s.jobs && t.clock == r.now
            && OnlyAnswers(s, t, r) && s.log <= t.log && s.usedTokens <= t.usedTokens <= s.usedTokens + {HexOf(r.bytes)}
  {
    hide IsValidToken, HexOf, AfterMessage, WorkAfter, AnswerSteps, Next, Enabled, IsRun, Run;
    ConsumptionIsARun(s, job, agent, name, id, m, r);
    var steps := [Pull(job, agent, id), Tick(r.now), Consume(job, r.consumed, r.canAnswer, r.keyKnown, r.bytes)];
    AnswerIsARun(Run(s, steps), job, agent, id, m, r);
    RunAppend(s, steps, AnswerSteps(job, m, r));
    var work := WorkAfter(id, m, r);
    assert work.Some? ==> s.jobs[job := (agent, work.value)] - {job} == s.jobs;
  }

  // ----- a whole poll ------------------------------------------------------------------------------------------

  /** Tokens and message ids are new, and the clock does not go back. */
  predicate IsFresh(s: System, r: Replies) {
    WellFormedReplies(r) && HexOf(r.bytes) !in s.usedTokens && s.clock <= r.now && r.answerId !in s.messages
  }

  predicate AreOrdered(r: Replies, later: Replies) {
    HexOf(r.bytes) != HexOf(later.bytes) && r.now <= later.now && r.answerId != later.answerId
  }

  ghost predicate AllBefore(replies: seq<Replies>, later: Replies) {
    forall i :: 0 <= i < |replies| ==> AreOrdered(replies[i], later)
  }

  ghost predicate IsLater(before: seq<Replies>, replies: seq<Replies>) {
    forall i :: 0 <= i < |replies| ==> AllBefore(before, replies[i])
  }

  /** The messages of one match are at the hub, and the replies are new to the system and to each other. */
  ghost predicate CanHandle(s: System, agent: nat, name: string, inbox: seq<(nat, Message)>, replies: seq<Replies>)
    requires |inbox| == |replies|
  {
    && (forall i :: 0 <= i < |inbox| ==> IsPending(s, agent, name, inbox[i].0, inbox[i].1))
    && (forall i :: 0 <= i < |replies| ==> IsFresh(s, replies[i]))
    && (forall i, j :: 0 <= i < j < |replies| ==> AreOrdered(replies[i], replies[j]))
  }

  /** What is fresh after all the replies, or pending, stays so. */
  ghost predicate KeepsRest(s: System, t: System, agent: nat, replies: seq<Replies>) {
    && (forall r :: IsFresh(s, r) && AllBefore(replies, r) ==> IsFresh(t, r))
    && (forall name, id, m :: IsPending(s, agent, name, id, m) ==> IsPending(t, agent, name, id, m))
  }

  lemma KeepsRestTwice(s: System, t: System, u: System, agent: nat, before: seq<Replies>, after: seq<Replies>)
    requires KeepsRest(s, t, agent, before) && KeepsRest(t, u, agent, after)
    ensures KeepsRest(s, u, agent, before + after)
  {
    hide IsPending, IsFresh, AreOrdered;
    forall r | IsFresh(s, r) && AllBefore(before + after, r) ensures IsFresh(u, r) {
      assert forall i :: 0 <= i < |before| ==> (before + after)[i] == before[i];
      assert forall i :: 0 <= i < |after| ==> (before + after)[|before| + i] == after[i];
      assert AllBefore(before, r) && AllBefore(after, r);
    }
  }

  lemma KeepsRestMore(s: System, t: System, agent: nat, replies: seq<Replies>, more: seq<Replies>)
    requires KeepsRest(s, t, agent, replies)
    ensures KeepsRest(s, t, agent, replies + more) && KeepsRest(s, t, agent, more + replies)
  {
    assert KeepsRest(s, s, agent, more) && KeepsRest(t, t, agent, more);
    hide KeepsRest;
    KeepsRestTwice(s, t, t, agent, replies, more);
    KeepsRestTwice(s, s, t, agent, more, replies);
  }

  lemma MessageKeepsRest(s: System, t: System, agent: nat, r: Replies)
    requires IsFresh(s, r) && OnlyAnswers(s, t, r) && t.matches == s.matches && t.clock == r.now
    requires t.usedTokens <= s.usedTokens + {HexOf(r.bytes)}
    ensures KeepsRest(s, t, agent, [r])
  {
    hide HexOf;
    forall later | IsFresh(s, later) && AllBefore([r], later) ensures IsFresh(t, later) {
      assert AreOrdered([r][0], later);
    }
  }

  lemma RestCanBeHandled(s: System, t: System, agent: nat, before: seq<Replies>, name: string,
                         inbox: seq<(nat, Message)>, replies: seq<Replies>)
    requires |inbox| == |replies| && CanHandle(s, agent, name, inbox, replies) && KeepsRest(s, t, agent, before)
    requires IsLater(before, replies)
    ensures CanHandle(t, agent, name, inbox, replies)
  {
    hide IsPending, IsFresh, AreOrdered, AllBefore;
  }

  lemma FirstCanBeHandled(s: System, agent: nat, name: string, inbox: seq<(nat, Message)>, replies: seq<Replies>)
    requires |inbox| == |replies| && CanHandle(s, agent, name, inbox, replies) && inbox != []
    ensures IsPending(s, agent, name, inbox[0].0, inbox[0].1) && IsFresh(s, replies[0])
    ensures CanHandle(s, agent, name, inbox[1..], replies[1..])
    ensures IsLater([replies[0]], replies[1..])
  {
    hide IsFresh, IsPending, AreOrdered;
  }

  /** Polling one match is a run of the protocol: the agent ends as the code leaves it, no other agent, match or session
      changes, and no job is left behind. */
  lemma {:induction false} PollIsARun(s: System, job: nat, agent: nat, name: string, inbox: seq<(nat, Message)>,
                                      replies: seq<Replies>) returns (steps: seq<Step>)
    requires |inbox| == |replies| && CanHandle(s, agent, name, inbox, replies) && agent in s.agents && job !in s.jobs
    ensures IsRun(s, steps)
    ensures var t := Run(s, steps);
            && t.agents == s.agents[agent := AfterPoll(s.agents[agent], name, inbox, replies)]
            && t.matches == s.matches && t.sessions == s.sessions && t.jobs == s.jobs && s.log <= t.log
            && KeepsRest(s, t, agent, replies)
    decreases |inbox|
  {
    hide AfterMessage, GoesOn, IsPending, AreOrdered, CanHandle, HexOf, Next, Enabled;
    assert s.agents == s.agents[agent := s.agents[agent]] && IsRun(s, []) && Run(s, []) == s
           && KeepsRest(s, s, agent, replies);
    hide IsRun, Run, KeepsRest;
    steps := [];
    if inbox != [] {
      var (id, m) := inbox[0];
      var r := replies[0];
      assert replies == [r] + replies[1..];
      FirstCanBeHandled(s, agent, name, inbox, replies);
      if id in s.agents[agent].processed {
        steps := PollIsARun(s, job, agent, name, inbox[1..], replies[1..]);
        KeepsRestMore(s, Run(s, steps), agent, replies[1..], [r]);
      } else {
        MessageIsARun(s, job, agent, name, id, m, r);
        steps := MessageSteps(job, agent, id, m, r);
        var t := Run(s, steps);
        MessageKeepsRest(s, t, agent, r);
        if GoesOn(m, r) {
          RestCanBeHandled(s, t, agent, [r], name, inbox[1..], replies[1..]);
          var more := PollIsARun(t, job, agent, name, inbox[1..], replies[1..]);
          RunAppend(s, steps, more);
          steps := steps + more;
          KeepsRestTwice(s, t, Run(s, steps), agent, [r], replies[1..]);
        } else {
          KeepsRestMore(s, t, agent, [r], replies[1..]);
        }
      }
    }
  }

  /** The messages a poll handles for a match, with the replies to them: none if this agent is not its provider. */
  function Handled(p: PendingMatch): seq<(nat, Message)> {
    if p.isProvider && p.inbox.Some? then p.inbox.value else []
  }

  function Received(p: PendingMatch): seq<Replies> {
    if p.isProvider && p.inbox.Some? then p.replies else []
  }

  function AllReceived(matches: seq<PendingMatch>): seq<Replies> {
    if matches == [] then [] else AllReceived(matches[..|matches| - 1]) + Received(matches[|matches| - 1])
  }

  /** Each match can be handled, and its replies are new also to those of the matches before it. */
  ghost predicate CanHandleAll(s: System, agent: nat, matches: seq<PendingMatch>) {
    forall i :: 0 <= i < |matches| ==>
                  && WellFormedMatch(matches[i])
                  && CanHandle(s, agent, matches[i].requesterName, Handled(matches[i]), Received(matches[i]))
                  && IsLater(AllReceived(matches[..i]), Received(matches[i]))
  }

  lemma PrefixCanBeHandled(s: System, agent: nat, matches: seq<PendingMatch>)
    requires CanHandleAll(s, agent, matches) && matches != []
    ensures var n := |matches| - 1;
            && CanHandleAll(s, agent, matches[..n]) && WellFormedMatch(matches[n])
            && CanHandle(s, agent, matches[n].requesterName, Handled(matches[n]), Received(matches[n]))
            && IsLater(AllReceived(matches[..n]), Received(matches[n]))
  {
    var n := |matches| - 1;
    hide CanHandle, IsLater, WellFormedMatch, Handled, Received;
    assert forall i :: 0 <= i < n ==> matches[..n][..i] == matches[..i];
  }

  lemma NothingPolled(a: Agent, name: string)
    ensures AfterPoll(a, name, [], []) == a
  {
  }

  /** A whole poll is a run of the protocol, whichever matches fail on the way. */
  lemma {:induction false} PollsAreARun(s: System, job: nat, agent: nat, matches: seq<PendingMatch>)
    returns (steps: seq<Step>)
    requires CanHandleAll(s, agent, matches) && agent in s.agents && job !in s.jobs
    ensures forall i :: 0 <= i < |matches| ==> WellFormedMatch(matches[i])
    ensures IsRun(s, steps)
    ensures var t := Run(s, steps);
            && t.agents == s.agents[agent := AfterMatches(s.agents[agent], matches)]
            && t.matches == s.matches && t.sessions == s.sessions && t.jobs == s.jobs && s.log <= t.log
            && KeepsRest(s, t, agent, AllReceived(matches))
  {
    steps := [];
    if matches != [] {
      var n := |matches| - 1;
      var p := matches[n];
      PrefixCanBeHandled(s, agent, matches);
      hide AfterPoll, IsPending, IsFresh, CanHandle, CanHandleAll, KeepsRest, IsLater, AllBefore;
      hide Next, Enabled, IsRun, Run;
      steps := PollsAreARun(s, job, agent, matches[..n]);
      var t := Run(s, steps);
      RestCanBeHandled(s, t, agent, AllReceived(matches[..n]), p.requesterName, Handled(p), Received(p));
      var more := PollIsARun(t, job, agent, p.requesterName, Handled(p), Received(p));
      RunAppend(s, steps, more);
      steps := steps + more;
      KeepsRestTwice(s, t, Run(s, steps), agent, AllReceived(matches[..n]), Received(p));
      NothingPolled(t.agents[agent], p.requesterName);
    } else {
      assert s.agents == s.agents[agent := s.agents[agent]] && IsRun(s, []) && Run(s, []) == s;
      assert KeepsRest(s, s, agent, []);
    }
  }

  // ----- a whole request ---------------------------------------------------------------------------------------

  /** Where the session of a created match stands, or ends. */
  function AfterSending(offerSent: bool): Session {
    if offerSent then WaitingForAnswer else Failed
  }

  lemma RequestBegins(s: System, create: Step, send: Step)
    requires create.CreateMatch? && Enabled(s, create) && send.SendOffer? && send.id == create.id
             && send.message !in s.messages
    ensures IsRun(s, [create, send])
    ensures var t := Run(s, [create, send]);
            && t.agents == s.agents[create.requester := Issue(s.agents[create.requester], HexOf(create.bytes), s.clock)]
            && t.sessions == s.sessions[create.id := AfterSending(send.acknowledged)] && create.id in t.matches
            && t.matches[create.id].requester == create.requester
            && t.matches[create.id].providerName == create.providerName
  {
    hide HexOf, Issue;
    TwoSteps(s, create, send);
    hide IsRun, Run;
  }

  lemma {:induction false} MatchStays(s: System, steps: seq<Step>, id: nat)
    requires IsRun(s, steps) && id in s.matches
    ensures var t := Run(s, steps); id in t.matches && t.matches[id] == s.matches[id] && t.agents.Keys == s.agents.Keys
  {
    hide Enabled, Next;
    if steps != [] {
      MatchStays(s, steps[..|steps| - 1], id);
      StepExtends(Run(s, steps[..|steps| - 1]), steps[|steps| - 1]);
    }
  }

  /** The message is an answer to the match and at the hub for its requester. */
  predicate IsAnswer(s: System, id: nat, answer: (nat, Message)) {
    && answer.0 in s.messages && s.messages[answer.0] == answer.1 && id in s.matches
    && answer.1.matchId == id && answer.1.kind.Answer? && answer.1.receiver == s.matches[id].requester
  }

  /** The steps after the wait. */
  function EndSteps(id: nat, offerSent: bool, answer: Option<(nat, Message)>, consumed: bool, marked: bool): seq<Step> {
    if !offerSent then []
    else if answer.None? then [GiveUp(id)]
    else if !IsValidToken(answer.value.1.token) then [FindAnswer(id, answer.value.0)]
    else
      [FindAnswer(id, answer.value.0), ConsumeAnswer(id, consumed)] +
      if consumed then [MarkRequesterReady(id, marked)] else []
  }

  lemma RequestEnds(s: System, id: nat, offerSent: bool, answer: Option<(nat, Message)>, consumed: bool, marked: bool)
    requires id in s.matches && s.matches[id].requester in s.agents
    requires id in s.sessions && s.sessions[id] == AfterSending(offerSent)
    requires answer.Some? ==> IsAnswer(s, id, answer.value)
    ensures IsRun(s, EndSteps(id, offerSent, answer, consumed, marked))
    ensures var t, m := Run(s, EndSteps(id, offerSent, answer, consumed, marked)), s.matches[id];
            var accepted := IsAccepted(offerSent, answer, consumed);
            && t == s.(agents := t.agents, sessions := t.sessions, log := t.log) && s.log <= t.log
            && t.sessions == s.sessions[id := if accepted && marked then Ready(answer.value.0) else Failed]
            && t.agents == if accepted
                           then s.agents[m.requester := Install(s.agents[m.requester], m.providerName,
                                                                answer.value.1.url, answer.value.1.token)]
                           else s.agents
  {
    hide IsValidToken, Install;
    assert s.sessions == s.sessions[id := s.sessions[id]];
    if offerSent && answer.None? {
      OneStep(s, GiveUp(id));
    } else if offerSent && !IsValidToken(answer.value.1.token) {
      OneStep(s, FindAnswer(id, answer.value.0));
    } else if offerSent {
      AnswerIsConsumed(s, id, answer.value, consumed, marked);
    }
  }

  lemma AnswerIsConsumed(s: System, id: nat, answer: (nat, Message), consumed: bool, marked: bool)
    requires id in s.matches && s.matches[id].requester in s.agents && id in s.sessions
             && s.sessions[id].WaitingForAnswer?
    requires IsAnswer(s, id, answer) && IsValidToken(answer.1.token)
    ensures var steps := EndSteps(id, true, Some(answer), consumed, marked);
            var m := s.matches[id];
            && IsRun(s, steps)
            && var t := Run(s, steps);
            && t == s.(agents := t.agents, sessions := t.sessions, log := t.log) && s.log <= t.log
            && t.sessions == s.sessions[id := if consumed && marked then Ready(answer.0) else Failed]
            && t.agents == if consumed
                           then s.agents[m.requester := Install(s.agents[m.requester], m.providerName, answer.1.url,
                                                                answer.1.token)]
                           else s.agents
  {
    hide IsValidToken, Install;
    var find, consume, mark := FindAnswer(id, answer.0), ConsumeAnswer(id, consumed), MarkRequesterReady(id, marked);
    TwoSteps(s, find, consume);
    hide IsRun, Run;
    if consumed {
      var t := Next(Next(s, find), consume);
      OneStep(t, mark);
      RunAppend(s, [find, consume], [mark]);
    }
  }

  /** A match request is a run of the protocol: its two opening steps, whatever others do meanwhile without touching
      the requester's record or this match's session, and the steps after the wait. The session ends as ready exactly
      when the method says so, and the requester's record is the one the method leaves. */
  lemma RequestIsARun(s: System, create: Step, send: Step, meanwhile: seq<Step>, answer: Option<(nat, Message)>,
                      consumed: bool, marked: bool)
    requires create.CreateMatch? && Enabled(s, create) && send.SendOffer? && send.id == create.id
             && send.message !in s.messages
    requires IsRun(s, [create, send]) && IsRun(Run(s, [create, send]), meanwhile)
    requires var s1 := Run(s, [create, send]);
             var s2 := Run(s1, meanwhile);
             && create.requester in s1.agents && create.requester in s2.agents && create.id in s2.sessions
             && s2.agents[create.requester] == s1.agents[create.requester]
             && s2.sessions[create.id] == AfterSending(send.acknowledged)
             && (answer.Some? ==> IsAnswer(s2, create.id, answer.value))
    ensures var tail := EndSteps(create.id, send.acknowledged, answer, consumed, marked);
            var s2 := Run(Run(s, [create, send]), meanwhile);
            && IsRun(s, [create, send] + meanwhile + tail)
            && var t := Run(s, [create, send] + meanwhile + tail);
            && t.sessions == s2.sessions[create.id := if IsAccepted(send.acknowledged, answer, consumed) && marked
                             then Ready(answer.value.0) else Failed]
            && t.agents == s2.agents[create.requester := AfterRequest(s.agents[create.requester], create.providerName,
                                                                      HexOf(create.bytes), s.clock, send.acknowledged,
                                                                      answer, consumed)]
            && t.messages == s2.messages && t.matches == s2.matches && t.jobs == s2.jobs
  {
    var begin := [create, send];
    var s1 := Run(s, begin);
    RequestBegins(s, create, send);
    hide HexOf, Install, Issue, Next, Enabled, IsRun, Run, EndSteps, IsAnswer;
    MatchStays(s1, meanwhile, create.id);
    var s2 := Run(s1, meanwhile);
    RequestEnds(s2, create.id, send.acknowledged, answer, consumed, marked);
    RunAppend(s, begin, meanwhile);
    RunAppend(s, begin + meanwhile, EndSteps(create.id, send.acknowledged, answer, consumed, marked));
    assert s2.agents == s2.agents[create.requester := s2.agents[create.requester]];
  }
}
