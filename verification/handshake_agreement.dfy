/** Handshake agreement: what holds whenever the requester reports a match ready, in every run. */
module HandshakeAgreement {
  import opened Wrappers
  import opened GatewayConfigs
  import opened Handshake

  // ----- what the log shows, one link of the chain at a time -----------------------------------------------

  predicate IsIssue(f: Fact, agent: nat, token: string, id: nat) {
    f.Issued? && f.agent == agent && f.token == token && f.matchId == id
  }

  /** The requester issued the match's token for this match. */
  ghost predicate Offered(log: seq<Fact>, m: Match, id: nat) {
    exists k :: 0 <= k < |log| && IsIssue(log[k], m.requester, m.offerToken, id)
  }

  /** After that, the provider installed it as the requester's credentials. */
  ghost predicate OfferInstalled(log: seq<Fact>, m: Match, id: nat) {
    exists k :: 0 <= k < |log| && log[k] == Installed(m.provider, m.offerToken, id, m.requesterName)
                && Offered(log[..k], m, id)
  }

  /** After that, the provider issued `token` in answer to this match. */
  ghost predicate Answered(log: seq<Fact>, m: Match, id: nat, token: string) {
    exists k :: 0 <= k < |log| && IsIssue(log[k], m.provider, token, id) && log[k].forOffer.Some?
                && OfferInstalled(log[..k], m, id)
  }

  /** After that, the requester installed `token` as the provider's credentials. */
  ghost predicate Completed(log: seq<Fact>, m: Match, id: nat, token: string) {
    exists k :: 0 <= k < |log| && log[k] == Installed(m.requester, token, id, m.providerName)
                && Answered(log[..k], m, id, token)
  }

  lemma LogGrows(log: seq<Fact>, log': seq<Fact>, m: Match, id: nat, token: string)
    requires log <= log'
    ensures Offered(log, m, id) ==> Offered(log', m, id)
    ensures OfferInstalled(log, m, id) ==> OfferInstalled(log', m, id)
    ensures Answered(log, m, id, token) ==> Answered(log', m, id, token)
    ensures Completed(log, m, id, token) ==> Completed(log', m, id, token)
  {
    assert forall k :: 0 <= k < |log| ==> log'[k] == log[k];
    assert forall k :: 0 <= k <= |log| ==> log'[..k] == log[..k];
  }

  // ----- the invariant ----------------------------------------------------------------------------------------

  /** Before its time is up an issued token is accepted by its issuer, and its timer is set for that time. */
  ghost predicate TokenAlive(a: Agent, token: string, at: int, clock: int) {
    && (clock < at + TOKEN_TTL_MS ==> token in a.validTokens && token in a.timers)
    && (token in a.timers ==> a.timers[token] == at + TOKEN_TTL_MS)
  }

  ghost predicate IssueOk(s: System, f: Fact)
    requires f.Issued?
  {
    && f.agent in s.agents && f.at <= s.clock && IsValidToken(f.token) && f.token in s.usedTokens
    && TokenAlive(s.agents[f.agent], f.token, f.at, s.clock)
  }

  ghost predicate IssuesOk(s: System) {
    forall f :: f in s.log && f.Issued? ==> IssueOk(s, f)
  }

  ghost predicate MatchOk(s: System, id: nat, m: Match) {
    m.requester in s.agents && m.provider in s.agents && Offered(s.log, m, id)
  }

  ghost predicate MatchesOk(s: System) {
    forall id :: id in s.matches ==> MatchOk(s, id, s.matches[id])
  }

  ghost predicate MessageOk(s: System, message: Message) {
    && message.matchId in s.matches
    && var m := s.matches[message.matchId];
    match message.kind
    case Offer => message.sender == m.requester && message.receiver == m.provider && message.token == m.offerToken
    case Answer => message.sender == m.provider && message.receiver == m.requester
                   && Answered(s.log, m, message.matchId, message.token)
  }

  ghost predicate MessagesOk(s: System) {
    forall id :: id in s.messages ==> MessageOk(s, s.messages[id])
  }

  ghost predicate JobOk(s: System, agent: nat, job: Job) {
    && agent in s.agents && !job.Ignoring?
    && job.message in s.messages && s.messages[job.message].matchId in s.matches
    && s.matches[s.messages[job.message].matchId].provider == agent
    && s.messages[job.message].receiver == agent
    && (job.Answering? ==>
          Answered(s.log, s.matches[s.messages[job.message].matchId], s.messages[job.message].matchId, job.token))
  }

  ghost predicate JobsOk(s: System) {
    forall job :: job in s.jobs ==> JobOk(s, s.jobs[job].0, s.jobs[job].1)
  }

  predicate HasAnswer(session: Session) {
    session.ConsumingAnswer? || session.MarkingReady? || session.Ready?
  }

  ghost predicate SessionOk(s: System, id: nat, session: Session) {
    && id in s.matches
    && (HasAnswer(session) ==>
          && session.answer in s.messages && s.messages[session.answer].matchId == id
          && s.messages[session.answer].kind.Answer? && s.messages[session.answer].receiver == s.matches[id].requester)
    && (session.MarkingReady? || session.Ready? ==>
          Completed(s.log, s.matches[id], id, s.messages[session.answer].token))
  }

  ghost predicate SessionsOk(s: System) {
    forall id :: id in s.sessions ==> SessionOk(s, id, s.sessions[id])
  }

  ghost predicate Inv(s: System) {
    IssuesOk(s) && MatchesOk(s) && MessagesOk(s) && JobsOk(s) && SessionsOk(s)
  }

  lemma OfferTokensAreValid(s: System, id: nat)
    requires Inv(s) && id in s.matches
    ensures IsValidToken(s.matches[id].offerToken)
  {
    var m := s.matches[id];
    assert MatchOk(s, id, m);
    var k :| 0 <= k < |s.log| && IsIssue(s.log[k], m.requester, m.offerToken, id);
    assert IssueOk(s, s.log[k]);
  }

  lemma MessageTokensAreValid(s: System, message: nat)
    requires Inv(s) && message in s.messages
    ensures IsValidToken(s.messages[message].token)
  {
    var msg := s.messages[message];
    assert MessageOk(s, msg);
    if msg.kind.Offer? {
      OfferTokensAreValid(s, msg.matchId);
    } else {
      var k :| 0 <= k < |s.log| && IsIssue(s.log[k], s.matches[msg.matchId].provider, msg.token, msg.matchId);
      assert IssueOk(s, s.log[k]);
    }
  }

  // ----- what a step leaves alone ------------------------------------------------------------------------------

  /** Nothing that is already there is lost or altered by a step, apart from jobs, sessions and agents. */
  ghost predicate Extends(s: System, t: System) {
    && s.log <= t.log
    && t.agents.Keys == s.agents.Keys
    && (forall id :: id in s.matches ==> id in t.matches && t.matches[id] == s.matches[id])
    && (forall id :: id in s.messages ==> id in t.messages && t.messages[id] == s.messages[id])
  }

  lemma StepExtends(s: System, step: Step)
    requires Enabled(s, step)
    ensures Extends(s, Next(s, step))
  {
  }

  lemma MatchKept(s: System, t: System, id: nat, m: Match)
    requires Extends(s, t) && MatchOk(s, id, m)
    ensures MatchOk(t, id, m)
  {
    LogGrows(s.log, t.log, m, id, "");
    hide Offered;
  }

  lemma MessageKept(s: System, t: System, message: Message)
    requires Extends(s, t) && MessageOk(s, message)
    ensures MessageOk(t, message)
  {
    LogGrows(s.log, t.log, s.matches[message.matchId], message.matchId, message.token);
    hide Answered;
  }

  lemma JobKept(s: System, t: System, agent: nat, job: Job)
    requires Extends(s, t) && JobOk(s, agent, job)
    ensures JobOk(t, agent, job)
  {
    if job.Answering? {
      var id := s.messages[job.message].matchId;
      LogGrows(s.log, t.log, s.matches[id], id, job.token);
    }
    hide Answered;
  }

  lemma SessionKept(s: System, t: System, id: nat, session: Session)
    requires Extends(s, t) && SessionOk(s, id, session)
    ensures SessionOk(t, id, session)
  {
    if session.MarkingReady? || session.Ready? {
      LogGrows(s.log, t.log, s.matches[id], id, s.messages[session.answer].token);
    }
    hide Completed;
  }

  // ----- every step keeps the invariant ------------------------------------------------------------------------

  lemma FreshIssueKeeps(a: Agent, token: string, at: int, now: int, other: string, otherAt: int)
    requires other != token ==> TokenAlive(a, other, otherAt, now)
    requires other == token ==> otherAt == now
    ensures TokenAlive(Issue(a, token, now), other, otherAt, now)
  {
  }

  lemma IssueKept(s: System, step: Step, f: Fact)
    requires IssuesOk(s) && Enabled(s, step) && f.Issued? && f in s.log
    ensures IssueOk(Next(s, step), f)
  {
    hide IsValidToken, HexOf, Upsert;
    assert IssueOk(s, f);
  }

  lemma NewIssueOk(s: System, step: Step, f: Fact)
    requires Enabled(s, step) && f.Issued? && f in Next(s, step).log && f !in s.log
    ensures IssueOk(Next(s, step), f)
  {
    hide IsValidToken, HexOf, Upsert;
    match step
    case CreateMatch(_, _, _, _, _, bytes) => IssuedTokensAreValid(bytes);
    case Consume(_, _, _, _, bytes) => IssuedTokensAreValid(bytes);
    case ConsumeAnswer(_, _) =>
    case _ =>
  }

  lemma StepKeepsIssues(s: System, step: Step)
    requires IssuesOk(s) && Enabled(s, step)
    ensures IssuesOk(Next(s, step))
  {
    hide IssueOk, Next;
    forall f | f in Next(s, step).log && f.Issued? ensures IssueOk(Next(s, step), f) {
      if f in s.log { IssueKept(s, step, f); } else { NewIssueOk(s, step, f); }
    }
  }

  lemma StepKeepsMatches(s: System, step: Step)
    requires MatchesOk(s) && Enabled(s, step)
    ensures MatchesOk(Next(s, step))
  {
    var t := Next(s, step);
    StepExtends(s, step);
    forall id | id in t.matches ensures MatchOk(t, id, t.matches[id]) {
      if id in s.matches {
        assert MatchOk(s, id, s.matches[id]);
        MatchKept(s, t, id, s.matches[id]);
      } else {
        assert IsIssue(t.log[|s.log|], t.matches[id].requester, t.matches[id].offerToken, id);
      }
    }
  }

  lemma SentOfferOk(s: System, id: nat, message: nat, url: string, stored: bool, acknowledged: bool)
    requires Enabled(s, SendOffer(id, message, url, stored, acknowledged))
    ensures var t := Next(s, SendOffer(id, message, url, stored, acknowledged));
            message in t.messages ==> MessageOk(t, t.messages[message])
  {
    hide Answered;
  }

  lemma SentAnswerOk(s: System, job: nat, message: nat, url: string, stored: bool, acknowledged: bool)
    requires JobsOk(s) && Enabled(s, SendAnswer(job, message, url, stored, acknowledged))
    ensures var t := Next(s, SendAnswer(job, message, url, stored, acknowledged));
            message in t.messages ==> MessageOk(t, t.messages[message])
  {
    assert JobOk(s, s.jobs[job].0, s.jobs[job].1);
    hide Answered, JobsOk;
  }

  /** Only sending puts a message on the hub. */
  lemma OnlySendsAdd(s: System, step: Step, id: nat)
    requires Enabled(s, step) && id in Next(s, step).messages && id !in s.messages
    ensures (step.SendOffer? || step.SendAnswer?) && step.message == id
  {
    hide IsValidToken, HexOf, AfterConsume, Issue, Install;
  }

  lemma NewMessageOk(s: System, step: Step, id: nat)
    requires JobsOk(s) && Enabled(s, step) && id in Next(s, step).messages && id !in s.messages
    ensures MessageOk(Next(s, step), Next(s, step).messages[id])
  {
    hide Next, Enabled, JobsOk, MessageOk;
    OnlySendsAdd(s, step, id);
    match step
    case SendOffer(m, message, url, stored, acknowledged) => SentOfferOk(s, m, message, url, stored, acknowledged);
    case SendAnswer(job, message, url, stored, acknowledged) =>
      SentAnswerOk(s, job, message, url, stored, acknowledged);
  }

  lemma StepKeepsMessages(s: System, step: Step)
    requires MatchesOk(s) && MessagesOk(s) && JobsOk(s) && Enabled(s, step)
    ensures MessagesOk(Next(s, step))
  {
    var t := Next(s, step);
    StepExtends(s, step);
    hide MessageOk, Next, Enabled;
    forall id | id in t.messages ensures MessageOk(t, t.messages[id]) {
      if id in s.messages { MessageKept(s, t, s.messages[id]); } else { NewMessageOk(s, step, id); }
    }
  }

  /** The heart of the provider's side: consuming an offer installs its token and only then issues the answer's. */
  lemma ConsumingAnswers(s: System, job: nat, keyKnown: bool, token: string)
    requires MatchesOk(s) && MessagesOk(s) && JobsOk(s)
    requires job in s.jobs && s.jobs[job].1.Consuming? && s.jobs[job].0 in s.agents
    requires s.jobs[job].1.message in s.messages && s.messages[s.jobs[job].1.message].kind.Offer?
    requires s.messages[s.jobs[job].1.message].matchId in s.matches
    ensures var message := s.messages[s.jobs[job].1.message];
            Answered(Consumed(s, job, true, true, keyKnown, token).log, s.matches[message.matchId], message.matchId,
                     token)
  {
    var message := s.messages[s.jobs[job].1.message];
    var m := s.matches[message.matchId];
    assert JobOk(s, s.jobs[job].0, s.jobs[job].1) && MessageOk(s, message) && MatchOk(s, message.matchId, m);
    var log := Consumed(s, job, true, true, keyKnown, token).log;
    var n := |s.log|;
    assert log[..n] == s.log && log[..n + 1][..n] == s.log;
    assert log[..n + 1][n] == Installed(m.provider, m.offerToken, message.matchId, m.requesterName);
    assert OfferInstalled(log[..n + 1], m, message.matchId);
    assert IsIssue(log[n + 1], m.provider, token, message.matchId);
  }

  lemma PulledJobOk(s: System, job: nat, agent: nat, message: nat)
    requires Inv(s) && Enabled(s, Pull(job, agent, message))
    ensures var t := Next(s, Pull(job, agent, message)); JobOk(t, t.jobs[job].0, t.jobs[job].1)
  {
    MessageTokensAreValid(s, message);
    hide Answered, IsValidToken, Inv;
  }

  lemma ConsumedJobOk(s: System, job: nat, ok: bool, canAnswer: bool, keyKnown: bool, token: string)
    requires MatchesOk(s) && MessagesOk(s) && JobsOk(s)
    requires job in s.jobs && (s.jobs[job].1.Consuming? || s.jobs[job].1.Ignoring?)
    requires s.jobs[job].0 in s.agents && s.jobs[job].1.message in s.messages
    requires s.messages[s.jobs[job].1.message].matchId in s.matches
    requires job in Consumed(s, job, ok, canAnswer, keyKnown, token).jobs
    ensures var t := Consumed(s, job, ok, canAnswer, keyKnown, token); JobOk(t, t.jobs[job].0, t.jobs[job].1)
  {
    assert JobOk(s, s.jobs[job].0, s.jobs[job].1);
    hide MatchesOk, MessagesOk, JobsOk;
    if s.messages[s.jobs[job].1.message].kind.Offer? { ConsumingAnswers(s, job, keyKnown, token); }
    hide Answered, Upsert, IsValidToken;
  }

  lemma NewJobOk(s: System, step: Step, job: nat)
    requires Inv(s) && Enabled(s, step) && Extends(s, Next(s, step))
    requires var t := Next(s, step); job in t.jobs && (job !in s.jobs || t.jobs[job] != s.jobs[job])
    ensures var t := Next(s, step); JobOk(t, t.jobs[job].0, t.jobs[job].1)
  {
    hide Answered, Upsert, IsValidToken, IssuesOk, MatchesOk, MessagesOk, SessionsOk, Consumed, Extends, Issue, Install;
    match step
    case Pull(j, agent, message) =>
      hide JobOk, JobsOk;
        PulledJobOk(s, j, agent, message);
    case Consume(j, ok, canAnswer, keyKnown, bytes) =>
      if job != j { ConsumedOtherJobs(s, j, ok, canAnswer, keyKnown, HexOf(bytes), job); }
      ConsumedJobOk(s, j, ok, canAnswer, keyKnown, HexOf(bytes));
    case SendAnswer(j, _, _, _, _) =>
      assert JobOk(s, s.jobs[j].0, s.jobs[j].1);
    case _ =>
  }

  lemma ConsumedOtherJobs(s: System, job: nat, ok: bool, canAnswer: bool, keyKnown: bool, token: string, other: nat)
    requires job in s.jobs && (s.jobs[job].1.Consuming? || s.jobs[job].1.Ignoring?)
    requires s.jobs[job].0 in s.agents && s.jobs[job].1.message in s.messages
    requires s.messages[s.jobs[job].1.message].matchId in s.matches
    requires other != job
    ensures var t := Consumed(s, job, ok, canAnswer, keyKnown, token);
            (other in t.jobs <==> other in s.jobs) && (other in t.jobs ==> t.jobs[other] == s.jobs[other])
  {
  }

  lemma StepKeepsJobs(s: System, step: Step)
    requires Inv(s) && Enabled(s, step)
    ensures JobsOk(Next(s, step))
  {
    var t := Next(s, step);
    StepExtends(s, step);
    hide JobOk, Next, Extends, IssuesOk, MatchesOk, MessagesOk, SessionsOk;
    forall job | job in t.jobs ensures JobOk(t, t.jobs[job].0, t.jobs[job].1) {
      if job in s.jobs && t.jobs[job] == s.jobs[job] {
        JobKept(s, t, s.jobs[job].0, s.jobs[job].1);
      } else {
        NewJobOk(s, step, job);
      }
    }
  }

  /** The heart of the requester's side: it installs the token of an answer that was sent for this match. */
  lemma ConsumingCompletes(s: System, id: nat)
    requires MessagesOk(s) && SessionsOk(s) && Enabled(s, ConsumeAnswer(id, true))
    ensures Completed(Next(s, ConsumeAnswer(id, true)).log, s.matches[id], id, s.messages[s.sessions[id].answer].token)
  {
    assert SessionOk(s, id, s.sessions[id]) && MessageOk(s, s.messages[s.sessions[id].answer]);
    var log := Next(s, ConsumeAnswer(id, true)).log;
    assert log[..|s.log|] == s.log;
    assert log[|s.log|] == Installed(s.matches[id].requester, s.messages[s.sessions[id].answer].token, id,
                                     s.matches[id].providerName);
  }

  lemma ConsumedKeepsSessions(s: System, job: nat, ok: bool, canAnswer: bool, keyKnown: bool, token: string)
    requires job in s.jobs && (s.jobs[job].1.Consuming? || s.jobs[job].1.Ignoring?)
    requires s.jobs[job].0 in s.agents && s.jobs[job].1.message in s.messages
    requires s.messages[s.jobs[job].1.message].matchId in s.matches
    ensures Consumed(s, job, ok, canAnswer, keyKnown, token).sessions == s.sessions
  {
    hide AfterConsume;
  }

  lemma FoundSessionOk(s: System, id: nat, message: nat)
    requires Enabled(s, FindAnswer(id, message))
    ensures var t := Next(s, FindAnswer(id, message)); SessionOk(t, id, t.sessions[id])
  {
    hide IsValidToken, Completed;
  }

  lemma ConsumedSessionOk(s: System, id: nat, ok: bool)
    requires MessagesOk(s) && SessionsOk(s) && Enabled(s, ConsumeAnswer(id, ok))
    ensures var t := Next(s, ConsumeAnswer(id, ok)); SessionOk(t, id, t.sessions[id])
  {
    assert SessionOk(s, id, s.sessions[id]);
    if ok { ConsumingCompletes(s, id); }
    hide Completed, Install, MessagesOk, SessionsOk;
  }

  lemma MarkedSessionOk(s: System, id: nat, ok: bool)
    requires SessionsOk(s) && Enabled(s, MarkRequesterReady(id, ok))
    ensures var t := Next(s, MarkRequesterReady(id, ok)); SessionOk(t, id, t.sessions[id])
  {
    assert SessionOk(s, id, s.sessions[id]);
    hide Completed;
  }

  /** The other steps leave sessions alone, or put them where no answer is involved. */
  lemma QuietSessions(s: System, step: Step, id: nat)
    requires Enabled(s, step) && !step.FindAnswer? && !step.ConsumeAnswer? && !step.MarkRequesterReady?
    requires var t := Next(s, step); id in t.sessions && (id !in s.sessions || t.sessions[id] != s.sessions[id])
    ensures var t := Next(s, step); !HasAnswer(t.sessions[id]) && (id in s.sessions || id in t.matches)
  {
    hide IsValidToken, HexOf, Consumed, Issue, Install;
    if step.Consume? {
      ConsumedKeepsSessions(s, step.job, step.ok, step.canAnswer, step.keyKnown, HexOf(step.bytes));
    }
  }

  /** Which session a step may give an answer to, or take further with one. */
  lemma AnswerSessions(s: System, step: Step, id: nat)
    requires Enabled(s, step) && (step.FindAnswer? || step.ConsumeAnswer? || step.MarkRequesterReady?)
    requires var t := Next(s, step); id in t.sessions && (id !in s.sessions || t.sessions[id] != s.sessions[id])
    ensures step.id == id
  {
    hide IsValidToken, Install;
  }

  lemma NewSessionOk(s: System, step: Step, id: nat)
    requires MessagesOk(s) && SessionsOk(s) && Enabled(s, step) && Extends(s, Next(s, step))
    requires var t := Next(s, step); id in t.sessions && (id !in s.sessions || t.sessions[id] != s.sessions[id])
    ensures var t := Next(s, step); SessionOk(t, id, t.sessions[id])
  {
    hide Next, Enabled, Completed, MessagesOk;
    match step
    case FindAnswer(_, message) =>
      AnswerSessions(s, step, id);
      FoundSessionOk(s, id, message);
    case ConsumeAnswer(_, ok) =>
      AnswerSessions(s, step, id);
      ConsumedSessionOk(s, id, ok);
    case MarkRequesterReady(_, ok) =>
      AnswerSessions(s, step, id);
      MarkedSessionOk(s, id, ok);
    case _ =>
      QuietSessions(s, step, id);
      if id in s.sessions { assert SessionOk(s, id, s.sessions[id]); }
  }

  lemma StepKeepsSessions(s: System, step: Step)
    requires MessagesOk(s) && SessionsOk(s) && Enabled(s, step)
    ensures SessionsOk(Next(s, step))
  {
    var t := Next(s, step);
    StepExtends(s, step);
    hide SessionOk, Next, Extends;
    forall id | id in t.sessions ensures SessionOk(t, id, t.sessions[id]) {
      if id in s.sessions && t.sessions[id] == s.sessions[id] {
        SessionKept(s, t, id, s.sessions[id]);
      } else {
        NewSessionOk(s, step, id);
      }
    }
  }

  lemma StepKeepsInv(s: System, step: Step)
    requires Inv(s) && Enabled(s, step)
    ensures Inv(Next(s, step))
  {
    StepKeepsIssues(s, step);
    StepKeepsMatches(s, step);
    StepKeepsMessages(s, step);
    StepKeepsJobs(s, step);
    StepKeepsSessions(s, step);
    hide IssuesOk, MatchesOk, MessagesOk, JobsOk, SessionsOk, Next, Enabled;
  }

  lemma {:induction false} RunKeepsInv(start: System, steps: seq<Step>)
    requires IsStart(start) && IsRun(start, steps)
    ensures Inv(Run(start, steps))
  {
    if steps != [] {
      RunKeepsInv(start, steps[..|steps| - 1]);
      StepKeepsInv(Run(start, steps[..|steps| - 1]), steps[|steps| - 1]);
    }
  }

  // ----- the theorems --------------------------------------------------------------------------------------------

  /** In every run, once the requester reports match `id` ready: it issued its token first, then the provider
      installed that token, then the provider issued the answer's token, and last the requester installed that one;
      both are well formed, and whoever issued one of them still accepts it until its time is up. */
  lemma Agreement(start: System, steps: seq<Step>, id: nat)
    requires IsStart(start) && IsRun(start, steps)
    requires var s := Run(start, steps); id in s.sessions && s.sessions[id].Ready?
    ensures var s := Run(start, steps);
            && id in s.matches && s.sessions[id].answer in s.messages
            && var m, token := s.matches[id], s.messages[s.sessions[id].answer].token;
            && Completed(s.log, m, id, token)
            && IsValidToken(m.offerToken) && IsValidToken(token)
            && forall f :: f in s.log && f.Issued? && s.clock < f.at + TOKEN_TTL_MS ==>
                             f.agent in s.agents && f.token in s.agents[f.agent].validTokens
  {
    RunKeepsInv(start, steps);
    var s := Run(start, steps);
    assert SessionOk(s, id, s.sessions[id]);
    var m, answer := s.matches[id], s.messages[s.sessions[id].answer];
    MessageTokensAreValid(s, s.sessions[id].answer);
    OfferTokensAreValid(s, id);
    forall f | f in s.log && f.Issued? && s.clock < f.at + TOKEN_TTL_MS
      ensures f.agent in s.agents && f.token in s.agents[f.agent].validTokens
    {
      assert IssueOk(s, f);
    }
  }

  /** No handshake message between gateways is ever ignored, or given up on, as malformed. */
  lemma NothingIsMalformed(start: System, steps: seq<Step>, step: Step)
    requires IsStart(start) && IsRun(start, steps) && Enabled(Run(start, steps), step)
    ensures var t := Next(Run(start, steps), step);
            && (step.Pull? ==> t.jobs[step.job].1 == Consuming(step.message))
            && (step.FindAnswer? ==> t.sessions[step.id] == ConsumingAnswer(step.message))
  {
    RunKeepsInv(start, steps);
    if step.Pull? || step.FindAnswer? {
      MessageTokensAreValid(Run(start, steps), step.message);
    }
  }

  // ----- the peer lists ------------------------------------------------------------------------------------------

  ghost predicate NamesDistinct(s: System) {
    forall a :: a in s.agents ==> DistinctNames(s.agents[a].peers)
  }

  /** A step changes a peer list, if at all, by one upsert. */
  lemma OneUpsert(s: System, step: Step, agent: nat) returns (name: string, url: string, token: string)
    requires Enabled(s, step) && agent in s.agents
    ensures agent in Next(s, step).agents
    ensures var before, after := s.agents[agent].peers, Next(s, step).agents[agent].peers;
            after == before || after == Upsert(before, name, url, token)
  {
    hide Upsert, HexOf, IsValidToken;
    name, url, token := "", "", "";
    match step
    case ConsumeAnswer(id, _) =>
      var answer := s.messages[s.sessions[id].answer];
      name, url, token := s.matches[id].providerName, answer.url, answer.token;
    case Consume(job, _, _, _, _) =>
      var message := s.messages[s.jobs[job].1.message];
      name, url, token := s.matches[message.matchId].requesterName, message.url, message.token;
    case _ =>
  }

  lemma StepKeepsNames(s: System, step: Step)
    requires Enabled(s, step) && NamesDistinct(s)
    ensures NamesDistinct(Next(s, step))
  {
    StepExtends(s, step);
    hide Next, Enabled, Upsert, DistinctNames;
    forall a | a in Next(s, step).agents ensures DistinctNames(Next(s, step).agents[a].peers) {
      var name, url, token := OneUpsert(s, step, a);
      UpsertInstalls(s.agents[a].peers, name, url, token);
    }
  }

  lemma {:induction false} PeerNamesStayDistinct(start: System, steps: seq<Step>)
    requires IsRun(start, steps) && NamesDistinct(start)
    ensures NamesDistinct(Run(start, steps))
  {
    if steps != [] {
      PeerNamesStayDistinct(start, steps[..|steps| - 1]);
      StepKeepsNames(Run(start, steps[..|steps| - 1]), steps[|steps| - 1]);
    }
  }

  /** Right after the requester has consumed an answer, looking the provider up finds the answer's token. */
  lemma ConsumedAnswerIsCredential(s: System, id: nat)
    requires Enabled(s, ConsumeAnswer(id, true))
    ensures var t := Next(s, ConsumeAnswer(id, true));
            var m, answer := s.matches[id], s.messages[s.sessions[id].answer];
            var peers := t.agents[m.requester].peers;
            && PeerIndex(peers, m.providerName) < |peers|
            && peers[PeerIndex(peers, m.providerName)] == Peer(m.providerName, answer.url, Some(answer.token))
  {
    var m, answer := s.matches[id], s.messages[s.sessions[id].answer];
    UpsertInstalls(s.agents[m.requester].peers, m.providerName, answer.url, answer.token);
  }
}
