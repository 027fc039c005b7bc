/** What the log of installations says about the peer lists: in every run the credentials an agent holds for a name are
    the ones it installed last. */
module HandshakeCredentials {
  import opened Wrappers
  import opened GatewayConfigs
  import opened Handshake
  import opened HandshakeAgreement

  /** What looking a name up in a peer list finds. */
  function Found(peers: seq<Peer>, name: string): Option<Peer> {
    var i := PeerIndex(peers, name);
    if i < |peers| then Some(peers[i]) else None
  }

  lemma {:induction false} FirstIsFound(peers: seq<Peer>, name: string, i: nat)
    requires i < |peers| && peers[i].name == name && forall j :: 0 <= j < i ==> peers[j].name != name
    ensures Found(peers, name) == Some(peers[i])
  {
  }

  lemma AbsentIsNotFound(peers: seq<Peer>, name: string)
    requires forall j :: 0 <= j < |peers| ==> peers[j].name != name
    ensures Found(peers, name) == None
  {
  }

  /** An upsert changes what one name finds, and nothing else. */
  lemma UpsertFinds(peers: seq<Peer>, name: string, url: string, token: string, other: string)
    ensures Found(Upsert(peers, name, url, token), other)
         == if other == name then Some(Peer(name, url, Some(token))) else Found(peers, other)
  {
    var r := Upsert(peers, name, url, token);
    UpsertInstalls(peers, name, url, token);
    if other != name {
      var i := PeerIndex(peers, other);
      if i < |peers| {
        FirstIsFound(r, other, i);
      } else {
        AbsentIsNotFound(r, other);
      }
    }
  }

  // ----- consuming a message ---------------------------------------------------------------------------------

  /** Once the hub has confirmed the consumption of a well-formed message, looking its sender up finds the address and
      the token of the message, and every other name finds what it found before. */
  lemma ConsumedMessageIsCredential(s: System, job: nat, canAnswer: bool, keyKnown: bool, bytes: seq<Byte>,
                                    name: string)
    requires Enabled(s, Consume(job, true, canAnswer, keyKnown, bytes)) && s.jobs[job].1.Consuming?
    ensures var t := Next(s, Consume(job, true, canAnswer, keyKnown, bytes));
            var agent, message := s.jobs[job].0, s.messages[s.jobs[job].1.message];
            var sender := s.matches[message.matchId].requesterName;
            && agent in t.agents
            && Found(t.agents[agent].peers, name)
               == if name == sender then Some(Peer(sender, message.url, Some(message.token)))
                  else Found(s.agents[agent].peers, name)
  {
    var agent, message := s.jobs[job].0, s.messages[s.jobs[job].1.message];
    UpsertFinds(s.agents[agent].peers, s.matches[message.matchId].requesterName, message.url, message.token, name);
    hide HexOf, Upsert, Found;
  }

  /** The message counts as processed exactly when the hub confirms its consumption; a token of the agent's own becomes
      valid exactly for a well-formed offer it can answer. */
  lemma ConsumptionMarks(s: System, job: nat, ok: bool, canAnswer: bool, keyKnown: bool, bytes: seq<Byte>)
    requires Enabled(s, Consume(job, ok, canAnswer, keyKnown, bytes))
    ensures var t := Next(s, Consume(job, ok, canAnswer, keyKnown, bytes));
            var (agent, work) := s.jobs[job];
            var answers := ok && work.Consuming? && s.messages[work.message].kind.Offer? && canAnswer;
            && agent in t.agents
            && t.agents[agent].processed == s.agents[agent].processed + (if ok then {work.message} else {})
            && t.agents[agent].validTokens == s.agents[agent].validTokens + (if answers then {HexOf(bytes)} else {})
            && (answers ==> t.agents[agent].timers == s.agents[agent].timers[HexOf(bytes) := s.clock + 300000])
            && (!answers ==> t.agents[agent].timers == s.agents[agent].timers)
            && (!ok || work.Ignoring? ==> t.agents[agent].peers == s.agents[agent].peers)
  {
    hide HexOf, Upsert;
  }

  lemma OnlyConsumerMoves(s: System, job: nat, ok: bool, canAnswer: bool, keyKnown: bool, bytes: seq<Byte>, other: nat)
    requires Enabled(s, Consume(job, ok, canAnswer, keyKnown, bytes)) && other in s.agents && other != s.jobs[job].0
    ensures var t := Next(s, Consume(job, ok, canAnswer, keyKnown, bytes));
            other in t.agents && t.agents[other] == s.agents[other]
  {
    hide HexOf, AfterConsume;
  }

  // ----- over whole runs -------------------------------------------------------------------------------------

  /** The token of the last installation under a name. */
  function LastInstalled(log: seq<Fact>, agent: nat, name: string): Option<string> {
    if log == [] then None
    else
      var n := |log| - 1;
      if log[n].Installed? && log[n].agent == agent && log[n].name == name then Some(log[n].token)
      else LastInstalled(log[..n], agent, name)
  }

  /** What the agent has for the name, given what it had at the start. */
  ghost predicate HoldsLast(s: System, before: Option<Peer>, agent: nat, name: string) {
    && agent in s.agents
    && var found := Found(s.agents[agent].peers, name);
    match LastInstalled(s.log, agent, name)
    case None => found == before
    case Some(token) => found.Some? && found.value.name == name && found.value.token == Some(token)
  }

  lemma LastInstalledSnoc(log: seq<Fact>, f: Fact, agent: nat, name: string)
    ensures LastInstalled(log + [f], agent, name)
         == if f.Installed? && f.agent == agent
               && f.name == name then Some(f.token) else LastInstalled(log, agent, name)
  {
    assert (log + [f])[..|log|] == log;
  }

  /** Nothing was installed: the peer list and the last installation are as before. */
  lemma QuietStep(s: System, step: Step, agent: nat, name: string)
    requires Enabled(s, step) && agent in s.agents
    requires !(step.Consume? && step.ok && s.jobs[step.job].1.Consuming?) && !(step.ConsumeAnswer? && step.ok)
    ensures agent in Next(s, step).agents && Next(s, step).agents[agent].peers == s.agents[agent].peers
    ensures LastInstalled(Next(s, step).log, agent, name) == LastInstalled(s.log, agent, name)
  {
    hide HexOf, IsValidToken, Upsert, LastInstalled;
    if step.CreateMatch? {
      LastInstalledSnoc(s.log, Issued(step.requester, HexOf(step.bytes), step.id, s.clock, None), agent, name);
    }
  }

  /** Consuming a well-formed message logs its installation, and after that at most an issue. */
  lemma ConsumptionLogs(s: System, step: Step) returns (issued: seq<Fact>)
    requires Enabled(s, step) && step.Consume? && step.ok && s.jobs[step.job].1.Consuming?
    ensures var message := s.messages[s.jobs[step.job].1.message];
            Next(s, step).log == s.log + [Installed(s.jobs[step.job].0, message.token, message.matchId,
                                                    s.matches[message.matchId].requesterName)] + issued
    ensures |issued| <= 1 && forall i :: 0 <= i < |issued| ==> issued[i].Issued?
  {
    hide HexOf, AfterConsume;
      var (agent, work) := s.jobs[step.job];
    var message := s.messages[work.message];
    issued := if message.kind.Offer? && step.canAnswer
    then [Issued(agent, HexOf(step.bytes), message.matchId, s.clock, Some(work.message))] else [];
  }

  lemma LastInstalledAfter(log: seq<Fact>, installed: Fact, issued: seq<Fact>, agent: nat, name: string)
    requires installed.Installed? && |issued| <= 1 && forall i :: 0 <= i < |issued| ==> issued[i].Issued?
    ensures LastInstalled(log + [installed] + issued, agent, name)
         == if installed.agent == agent && installed.name == name then Some(installed.token)
            else LastInstalled(log, agent, name)
  {
    LastInstalledSnoc(log, installed, agent, name);
    if issued == [] {
      assert log + [installed] + issued == log + [installed];
    } else {
      assert issued == [issued[0]];
      LastInstalledSnoc(log + [installed], issued[0], agent, name);
    }
  }

  /** The provider's installation: the fact in the log and the entry in the peer list are the same. */
  lemma ProviderInstalls(s: System, step: Step, agent: nat, name: string)
    requires Enabled(s, step) && step.Consume? && step.ok && s.jobs[step.job].1.Consuming? && agent in s.agents
    ensures var t, message := Next(s, step), s.messages[s.jobs[step.job].1.message];
            var hit := agent == s.jobs[step.job].0 && name == s.matches[message.matchId].requesterName;
            && agent in t.agents
            && Found(t.agents[agent].peers, name)
               == (if hit then Some(Peer(name, message.url, Some(message.token)))
                   else Found(s.agents[agent].peers, name))
            && LastInstalled(t.log, agent, name)
               == if hit then Some(message.token) else LastInstalled(s.log, agent, name)
  {
    var who := s.jobs[step.job].0;
    var message := s.messages[s.jobs[step.job].1.message];
    var installed := Installed(who, message.token, message.matchId, s.matches[message.matchId].requesterName);
    hide HexOf, LastInstalled, Found, Next;
    ConsumedMessageIsCredential(s, step.job, step.canAnswer, step.keyKnown, step.bytes, name);
    if agent != who { OnlyConsumerMoves(s, step.job, true, step.canAnswer, step.keyKnown, step.bytes, agent); }
    var issued := ConsumptionLogs(s, step);
    LastInstalledAfter(s.log, installed, issued, agent, name);
  }

  lemma RequesterInstalls(s: System, id: nat, agent: nat, name: string)
    requires Enabled(s, ConsumeAnswer(id, true)) && agent in s.agents
    ensures var t, message := Next(s, ConsumeAnswer(id, true)), s.messages[s.sessions[id].answer];
            var hit := agent == s.matches[id].requester && name == s.matches[id].providerName;
            && agent in t.agents
            && Found(t.agents[agent].peers, name)
               == (if hit then Some(Peer(name, message.url, Some(message.token)))
                   else Found(s.agents[agent].peers, name))
            && LastInstalled(t.log, agent, name)
               == if hit then Some(message.token) else LastInstalled(s.log, agent, name)
  {
    var m, message := s.matches[id], s.messages[s.sessions[id].answer];
    UpsertFinds(s.agents[m.requester].peers, m.providerName, message.url, message.token, name);
    hide LastInstalled, Found, Upsert;
    LastInstalledSnoc(s.log, Installed(m.requester, message.token, id, m.providerName), agent, name);
  }

  lemma StepKeepsCredentials(s: System, step: Step, before: Option<Peer>, agent: nat, name: string)
    requires Enabled(s, step) && HoldsLast(s, before, agent, name)
    ensures HoldsLast(Next(s, step), before, agent, name)
  {
    hide Next, Found, LastInstalled, HexOf;
    if step.Consume? && step.ok && s.jobs[step.job].1.Consuming? {
      ProviderInstalls(s, step, agent, name);
    } else if step.ConsumeAnswer? && step.ok {
      RequesterInstalls(s, step.id, agent, name);
    } else {
      QuietStep(s, step, agent, name);
    }
  }

  /** In every run the credentials an agent finds under a name are those of its last installation under that name, and
      without one those it started with. */
  lemma {:induction false} CredentialsAreLastInstalled(start: System, steps: seq<Step>, agent: nat, name: string)
    requires IsStart(start) && IsRun(start, steps) && agent in start.agents
    ensures HoldsLast(Run(start, steps), Found(start.agents[agent].peers, name), agent, name)
  {
    hide HoldsLast, Next, Enabled;
    if steps == [] {
      NothingInstalled(start, agent, name);
    } else {
      var n := |steps| - 1;
      CredentialsAreLastInstalled(start, steps[..n], agent, name);
      StepKeepsCredentials(Run(start, steps[..n]), steps[n], Found(start.agents[agent].peers, name), agent, name);
    }
  }

  lemma NothingInstalled(start: System, agent: nat, name: string)
    requires IsStart(start) && agent in start.agents
    ensures HoldsLast(start, Found(start.agents[agent].peers, name), agent, name)
  {
  }

  // ----- what readiness means for the two peer lists -----------------------------------------------------------

  lemma {:induction false} LastInstalledAmong(log: seq<Fact>, agent: nat, name: string, k: nat)
    requires k < |log| && log[k].Installed? && log[k].agent == agent && log[k].name == name
    ensures LastInstalled(log, agent, name).Some?
    ensures exists f :: f in log && f.Installed? && f.agent == agent && f.name == name
                        && LastInstalled(log, agent, name) == Some(f.token)
  {
    var n := |log| - 1;
    if log[n].Installed? && log[n].agent == agent && log[n].name == name {
      assert log[n] in log;
    } else {
      LastInstalledAmong(log[..n], agent, name, k);
    }
  }

  /** All that the agent ever installed under this name was this token. */
  ghost predicate OnlyInstalled(log: seq<Fact>, agent: nat, name: string, token: string) {
    forall f :: f in log && f.Installed? && f.agent == agent && f.name == name ==> f.token == token
  }

  lemma HeldAfterInstall(start: System, steps: seq<Step>, agent: nat, name: string, token: string, k: nat)
    requires IsStart(start) && IsRun(start, steps) && agent in start.agents
    requires var log := Run(start, steps).log;
             && k < |log| && log[k].Installed? && log[k].agent == agent && log[k].name == name
             && OnlyInstalled(log, agent, name, token)
    ensures var s := Run(start, steps);
            && agent in s.agents && Found(s.agents[agent].peers, name).Some?
            && Found(s.agents[agent].peers, name).value.token == Some(token)
  {
    hide LastInstalled, Found, IsRun, Run;
    CredentialsAreLastInstalled(start, steps, agent, name);
    LastInstalledAmong(Run(start, steps).log, agent, name, k);
  }

  lemma InstalledOffer(log: seq<Fact>, m: Match, id: nat) returns (i: nat)
    requires OfferInstalled(log, m, id)
    ensures i < |log| && log[i] == Installed(m.provider, m.offerToken, id, m.requesterName)
  {
    i :| 0 <= i < |log| && log[i] == Installed(m.provider, m.offerToken, id, m.requesterName);
  }

  lemma AnsweredOffer(log: seq<Fact>, m: Match, id: nat, token: string) returns (i: nat)
    requires Answered(log, m, id, token)
    ensures i < |log| && log[i] == Installed(m.provider, m.offerToken, id, m.requesterName)
  {
    hide OfferInstalled;
    var j :| 0 <= j < |log| && IsIssue(log[j], m.provider, token, id) && OfferInstalled(log[..j], m, id);
    i := InstalledOffer(log[..j], m, id);
  }

  /** The two installations behind readiness, by their place in the log. */
  lemma CompletedFacts(log: seq<Fact>, m: Match, id: nat, token: string) returns (i: nat, k: nat)
    requires Completed(log, m, id, token)
    ensures i < |log| && log[i] == Installed(m.provider, m.offerToken, id, m.requesterName)
    ensures k < |log| && log[k] == Installed(m.requester, token, id, m.providerName)
  {
    hide Answered;
    k :| 0 <= k < |log| && log[k] == Installed(m.requester, token, id, m.providerName)
         && Answered(log[..k], m, id, token);
    i := AnsweredOffer(log[..k], m, id, token);
  }

  /** Mutual credentials: once the requester reports a match ready, and unless one of the two has installed something
      else under the other's name, each finds under the other's name exactly the token the other issued for the match,
      and until their time is up both tokens are accepted by their issuers. */
  lemma ReadyMeansMutualCredentials(start: System, steps: seq<Step>, id: nat)
    requires IsStart(start) && IsRun(start, steps)
    requires var s := Run(start, steps);
             && id in s.sessions && s.sessions[id].Ready? && id in s.matches && s.sessions[id].answer in s.messages
             && var m, token := s.matches[id], s.messages[s.sessions[id].answer].token;
             && OnlyInstalled(s.log, m.provider, m.requesterName, m.offerToken)
             && OnlyInstalled(s.log, m.requester, m.providerName, token)
    ensures var s := Run(start, steps);
            var m, token := s.matches[id], s.messages[s.sessions[id].answer].token;
            && m.provider in s.agents && m.requester in s.agents
            && var held := Found(s.agents[m.provider].peers, m.requesterName);
            var answered := Found(s.agents[m.requester].peers, m.providerName);
            && held.Some? && held.value.token == Some(m.offerToken)
            && answered.Some? && answered.value.token == Some(token)
            && forall f :: f in s.log && f.Issued? && s.clock < f.at + 300000 ==>
                             f.agent in s.agents && f.token in s.agents[f.agent].validTokens
  {
    var s := Run(start, steps);
    Agreement(start, steps, id);
    RunKeepsInv(start, steps);
    var m, token := s.matches[id], s.messages[s.sessions[id].answer].token;
    assert MatchOk(s, id, m);
    AgentsStay(start, steps);
    hide Completed, Found, IsRun, Run, IsStart, Inv;
    var i, k := CompletedFacts(s.log, m, id, token);
    HeldAfterInstall(start, steps, m.provider, m.requesterName, m.offerToken, i);
    HeldAfterInstall(start, steps, m.requester, m.providerName, token, k);
  }

  lemma {:induction false} AgentsStay(start: System, steps: seq<Step>)
    requires IsRun(start, steps)
    ensures Run(start, steps).agents.Keys == start.agents.Keys
  {
    hide Enabled, Next;
    if steps != [] {
      AgentsStay(start, steps[..|steps| - 1]);
      StepExtends(Run(start, steps[..|steps| - 1]), steps[|steps| - 1]);
    }
  }
}
