/** The encrypted hub handshake as a distributed protocol (index.ts: performMatchRequest, waitForHandshakeAnswer,
    processPendingHubMatches). Any number of agents, matches and polls interleave; every step is the code between
    two awaits. Encryption is ideal and the hub relays messages unchanged under unique ids; calls to it may fail,
    also after they took effect. */
module Handshake {
  import opened Wrappers
  import opened GatewayConfigs

  datatype Agent = Agent(peers: seq<Peer>, validTokens: set<string>, timers: map<string, int>, processed: set<nat>)

  /** A match as the hub reports it, with the token its requester issued for it. */
  datatype Match = Match(requester: nat, provider: nat, requesterName: string, providerName: string, offerToken: string)

  datatype Kind = Offer | Answer
  datatype Message = Message(matchId: nat, kind: Kind, sender: nat, receiver: nat, token: string, url: string)

  /** Where `performMatchRequest` stands for a match. */
  datatype Session =
    | SendingOffer
    | WaitingForAnswer
    | ConsumingAnswer(answer: nat)
    | MarkingReady(answer: nat)
    | Ready(answer: nat)
    | Failed

  /** Where a provider's poll stands with one message. */
  datatype Job =
    | Ignoring(message: nat)
    | Consuming(message: nat)
    | Answering(message: nat, token: string)
    | Reporting(message: nat)

  /** Facts in the order in which they happened. */
  datatype Fact =
    | Issued(agent: nat, token: string, matchId: nat, at: int, forOffer: Option<nat>)
    | Installed(agent: nat, token: string, matchId: nat, name: string)

  datatype System = System(
    agents: map<nat, Agent>, matches: map<nat, Match>, messages: map<nat, Message>,
    sessions: map<nat, Session>, jobs: map<nat, (nat, Job)>,
    usedTokens: set<string>, log: seq<Fact>, clock: int)

  datatype Step =
    | CreateMatch(id: nat, requester: nat, provider: nat, requesterName: string, providerName: string, bytes: seq<Byte>)
    | SendOffer(id: nat, message: nat, url: string, stored: bool, acknowledged: bool)
    | FindAnswer(id: nat, message: nat)
    | GiveUp(id: nat)
    | ConsumeAnswer(id: nat, ok: bool)
    | MarkRequesterReady(id: nat, ok: bool)
    | Pull(job: nat, agent: nat, message: nat)
    | Consume(job: nat, ok: bool, canAnswer: bool, keyKnown: bool, bytes: seq<Byte>)
    | SendAnswer(job: nat, message: nat, url: string, stored: bool, acknowledged: bool)
    | EndJob(job: nat)
    | TimerFires(agent: nat, token: string)
    | Tick(now: int)

  predicate FreshToken(s: System, bytes: seq<Byte>) {
    |bytes| == TOKEN_LENGTH / 2 && HexOf(bytes) !in s.usedTokens
  }

  predicate Enabled(s: System, step: Step) {
    match step
    case CreateMatch(id, requester, provider, _, _, bytes) =>
      id !in s.matches && requester in s.agents && provider in s.agents && FreshToken(s, bytes)
    case SendOffer(id, message, _, _, _) =>
      id in s.sessions && id in s.matches && s.sessions[id].SendingOffer? && message !in s.messages
    case FindAnswer(id, message) =>
      && id in s.sessions && id in s.matches && s.sessions[id].WaitingForAnswer?
      && message in s.messages && s.messages[message].matchId == id && s.messages[message].kind.Answer?
      && s.messages[message].receiver == s.matches[id].requester
    case GiveUp(id) => id in s.sessions && s.sessions[id].WaitingForAnswer?
    case ConsumeAnswer(id, _) =>
      && id in s.sessions && id in s.matches && s.sessions[id].ConsumingAnswer? && s.sessions[id].answer in s.messages
      && s.matches[id].requester in s.agents
    case MarkRequesterReady(id, _) => id in s.sessions && s.sessions[id].MarkingReady?
    case Pull(job, agent, message) =>
      && job !in s.jobs && agent in s.agents && message in s.messages && message !in s.agents[agent].processed
      && s.messages[message].receiver == agent && s.messages[message].matchId in s.matches
      && s.matches[s.messages[message].matchId].provider == agent
    case Consume(job, _, _, _, bytes) =>
      && job in s.jobs && (s.jobs[job].1.Consuming? || s.jobs[job].1.Ignoring?)
      && s.jobs[job].0 in s.agents && s.jobs[job].1.message in s.messages
      && s.messages[s.jobs[job].1.message].matchId in s.matches && FreshToken(s, bytes)
    case SendAnswer(job, message, _, _, _) =>
      && job in s.jobs && s.jobs[job].1.Answering? && message !in s.messages
      && s.jobs[job].1.message in s.messages && s.messages[s.jobs[job].1.message].matchId in s.matches
    case EndJob(job) => job in s.jobs && s.jobs[job].1.Reporting?
    case TimerFires(agent, token) =>
      agent in s.agents && token in s.agents[agent].timers && s.agents[agent].timers[token] <= s.clock
    case Tick(now) => s.clock <= now
  }

  function Issue(a: Agent, token: string, now: int): Agent {
    a.(validTokens := a.validTokens + {token}, timers := a.timers[token := now + TOKEN_TTL_MS])
  }

  function Install(a: Agent, name: string, url: string, token: string): Agent {
    a.(peers := Upsert(a.peers, name, url, token))
  }

  function Next(s: System, step: Step): System
    requires Enabled(s, step)
  {
    match step
    case CreateMatch(id, requester, provider, requesterName, providerName, bytes) =>
      var token := HexOf(bytes);
      s.(matches := s.matches[id := Match(requester, provider, requesterName, providerName, token)],
      sessions := s.sessions[id := SendingOffer],
      agents := s.agents[requester := Issue(s.agents[requester], token, s.clock)],
      usedTokens := s.usedTokens + {token},
      log := s.log + [Issued(requester, token, id, s.clock, None)])
    case SendOffer(id, message, url, stored, acknowledged) =>
      var m := s.matches[id];
      var offer := Message(id, Offer, m.requester, m.provider, m.offerToken, url);
      s.(messages := if stored then s.messages[message := offer] else s.messages,
      sessions := s.sessions[id := if acknowledged then WaitingForAnswer else Failed])
    case FindAnswer(id, message) =>
      var wellFormed := IsValidToken(s.messages[message].token);
      s.(sessions := s.sessions[id := if wellFormed then ConsumingAnswer(message) else Failed])
    case GiveUp(id) => s.(sessions := s.sessions[id := Failed])
    case ConsumeAnswer(id, ok) =>
      if !ok then s.(sessions := s.sessions[id := Failed])
      else
        var m, answer := s.matches[id], s.messages[s.sessions[id].answer];
        s.(sessions := s.sessions[id := MarkingReady(s.sessions[id].answer)],
        agents := s.agents[m.requester := Install(s.agents[m.requester], m.providerName, answer.url, answer.token)],
        log := s.log + [Installed(m.requester, answer.token, id, m.providerName)])
    case MarkRequesterReady(id, ok) =>
      s.(sessions := s.sessions[id := if ok then Ready(s.sessions[id].answer) else Failed])
    case Pull(job, agent, message) =>
      var work := if IsValidToken(s.messages[message].token) then Consuming(message) else Ignoring(message);
      s.(jobs := s.jobs[job := (agent, work)])
    case Consume(job, ok, canAnswer, keyKnown, bytes) => Consumed(s, job, ok, canAnswer, keyKnown, HexOf(bytes))
    case SendAnswer(job, message, url, stored, acknowledged) =>
      var offer := s.messages[s.jobs[job].1.message];
      var answer := Message(offer.matchId, Answer, s.jobs[job].0, s.matches[offer.matchId].requester,
                            s.jobs[job].1.token, url);
      s.(messages := if stored then s.messages[message := answer] else s.messages,
      jobs := if acknowledged then s.jobs[job := (s.jobs[job].0, Reporting(s.jobs[job].1.message))] else s.jobs - {job})
    case EndJob(job) => s.(jobs := s.jobs - {job})
    case TimerFires(agent, token) =>
      var a := s.agents[agent];
      s.(agents := s.agents[agent := a.(validTokens := a.validTokens - {token}, timers := a.timers - {token})])
    case Tick(now) => s.(clock := now)
  }

  /** What consuming a message does to the agent: it counts as processed, its token becomes the sender's credentials,
      and an offer that can be answered makes the agent issue a token of its own. */
  function AfterConsume(a: Agent, id: nat, message: Message, wellFormed: bool, name: string, canAnswer: bool,
                        token: string, now: int): Agent
  {
    var seen := a.(processed := a.processed + {id});
    if !wellFormed then seen
    else
      var installed := Install(seen, name, message.url, message.token);
      if message.kind.Answer? || !canAnswer then installed else Issue(installed, token, now)
  }

  /** What the poll does once the hub has confirmed, or refused, the consumption of a message. */
  function Consumed(s: System, job: nat, ok: bool, canAnswer: bool, keyKnown: bool, token: string): System
    requires job in s.jobs && (s.jobs[job].1.Consuming? || s.jobs[job].1.Ignoring?)
    requires s.jobs[job].0 in s.agents && s.jobs[job].1.message in s.messages
    requires s.messages[s.jobs[job].1.message].matchId in s.matches
  {
    var (agent, work) := s.jobs[job];
    var done := s.(jobs := s.jobs - {job});
    if !ok then done
    else
      var message := s.messages[work.message];
      var name := s.matches[message.matchId].requesterName;
      var after := AfterConsume(s.agents[agent], work.message, message, work.Consuming?, name, canAnswer, token,
                                s.clock);
      var log := s.log + [Installed(agent, message.token, message.matchId, name)];
      if work.Ignoring? then done.(agents := s.agents[agent := after])
      else if message.kind.Answer? then
        s.(agents := s.agents[agent := after], log := log, jobs := s.jobs[job := (agent, Reporting(work.message))])
      else if !canAnswer then
        done.(agents := s.agents[agent := after], log := log)
      else
        s.(agents := s.agents[agent := after],
        usedTokens := s.usedTokens + {token},
        log := log + [Issued(agent, token, message.matchId, s.clock, Some(work.message))],
        jobs := if keyKnown then s.jobs[job := (agent, Answering(work.message, token))] else s.jobs - {job})
  }

  ghost predicate IsStart(s: System) {
    && s.matches == map[] && s.messages == map[] && s.sessions == map[] && s.jobs == map[] && s.log == []
    && (forall a :: a in s.agents ==> s.agents[a].timers == map[])
  }

  ghost predicate IsRun(s: System, steps: seq<Step>)
    decreases |steps|, 0
  {
    steps == [] || (IsRun(s, steps[..|steps| - 1]) && Enabled(Run(s, steps[..|steps| - 1]), steps[|steps| - 1]))
  }

  ghost function Run(s: System, steps: seq<Step>): System
    requires IsRun(s, steps)
    decreases |steps|, 1
  {
    if steps == [] then s else Next(Run(s, steps[..|steps| - 1]), steps[|steps| - 1])
  }

  lemma {:induction false} RunAppend(s: System, steps: seq<Step>, more: seq<Step>)
    requires IsRun(s, steps) && IsRun(Run(s, steps), more)
    ensures IsRun(s, steps + more) && Run(s, steps + more) == Run(Run(s, steps), more)
  {
    hide Enabled, Next;
    if more == [] {
      assert steps + more == steps;
    } else {
      var n := |more| - 1;
      RunAppend(s, steps, more[..n]);
      assert (steps + more)[..|steps| + n] == steps + more[..n] && (steps + more)[|steps| + n] == more[n];
    }
  }

  lemma OneStep(s: System, step: Step)
    requires Enabled(s, step)
    ensures IsRun(s, [step]) && Run(s, [step]) == Next(s, step)
  {
    hide Enabled, Next;
    assert [step][..0] == [];
    assert IsRun(s, []) && Run(s, []) == s;
  }

  lemma TwoSteps(s: System, one: Step, two: Step)
    requires Enabled(s, one) && Enabled(Next(s, one), two)
    ensures IsRun(s, [one]) && Run(s, [one]) == Next(s, one)
    ensures IsRun(s, [one, two]) && Run(s, [one, two]) == Next(Next(s, one), two)
  {
    hide Enabled, Next;
    OneStep(s, one);
    assert [one, two][..1] == [one];
  }
}
