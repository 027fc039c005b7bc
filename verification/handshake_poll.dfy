/** The two handshake functions of one gateway as code over its own state (index.ts): a poll of the pending matches and
    a match request, each run through without anything else happening at its awaits. What the hub answers is an input;
    a call that throws ends the match. */
module HandshakePoll {
  import opened Wrappers
  import opened GatewayConfigs
  import opened Handshake

  const ANSWER_TIMEOUT_MS := 45000
  const ANSWER_PAUSE_MS := 1500

  /** What happens at the awaits while one message is handled. The last three say what the hub does with the answer:
      its id, the address in it, and whether it is kept (it may be, even when the call fails). */
  datatype Replies = Replies(consumed: bool, canAnswer: bool, keyKnown: bool, bytes: seq<Byte>,
                             sent: bool, marked: bool, now: int, answerId: nat, url: string, stored: bool)

  /** A match as one poll sees it; `inbox` is None when the hub does not hand out its messages. */
  datatype PendingMatch = PendingMatch(isProvider: bool, requesterName: string, inbox: Option<seq<(nat, Message)>>,
                                       replies: seq<Replies>)

  predicate WellFormedReplies(r: Replies) {
    |r.bytes| == TOKEN_LENGTH / 2
  }

  predicate WellFormedMatch(p: PendingMatch) {
    && (p.inbox.Some? ==> |p.inbox.value| == |p.replies|)
    && forall i :: 0 <= i < |p.replies| ==> WellFormedReplies(p.replies[i])
  }

  /** No call throws while this message is handled. */
  predicate GoesOn(m: Message, r: Replies) {
    && r.consumed
    && (IsValidToken(m.token) ==>
          match m.kind
          case Offer => r.canAnswer && r.keyKnown ==> r.sent && r.marked
          case Answer => r.marked)
  }

  function AfterMessage(a: Agent, id: nat, m: Message, name: string, r: Replies): Agent {
    if !r.consumed then a else AfterConsume(a, id, m, IsValidToken(m.token), name, r.canAnswer, HexOf(r.bytes), r.now)
  }

  /** The messages of one match in order, skipping those processed before, up to the first call that throws. */
  function AfterPoll(a: Agent, name: string, inbox: seq<(nat, Message)>, replies: seq<Replies>): Agent
    requires |inbox| == |replies|
    decreases |inbox|
  {
    if inbox == [] then a
    else
      var (id, m) := inbox[0];
      if id in a.processed then AfterPoll(a, name, inbox[1..], replies[1..])
      else if GoesOn(m, replies[0])
      then AfterPoll(AfterMessage(a, id, m, name, replies[0]), name, inbox[1..], replies[1..])
      else AfterMessage(a, id, m, name, replies[0])
  }

  /** The matches in order; one that fails does not keep the next from being handled. */
  function AfterMatches(a: Agent, matches: seq<PendingMatch>): Agent
    requires forall i :: 0 <= i < |matches| ==> WellFormedMatch(matches[i])
  {
    if matches == [] then a
    else
      var before, p := AfterMatches(a, matches[..|matches| - 1]), matches[|matches| - 1];
      assert WellFormedMatch(p);
      if p.isProvider && p.inbox.Some? then AfterPoll(before, p.requesterName, p.inbox.value, p.replies) else before
  }

  function FirstAnswer(inbox: seq<(nat, Message)>): Option<(nat, Message)> {
    if inbox == [] then None else if inbox[0].1.kind.Answer? then Some(inbox[0]) else FirstAnswer(inbox[1..])
  }

  /** One round of waiting: the clock at its start, and the pending messages unless the hub's call throws. */
  datatype Round = Round(asked: int, inbox: Option<seq<(nat, Message)>>)

  /** The round asks the hub in time, gets its messages, and finds no answer among them. */
  predicate IsBarren(round: Round, deadline: int) {
    round.asked < deadline && round.inbox.Some? && FirstAnswer(round.inbox.value).None?
  }

  predicate Finds(round: Round, deadline: int, answer: (nat, Message)) {
    round.asked < deadline && round.inbox.Some? && FirstAnswer(round.inbox.value) == Some(answer)
  }

  /** Where waiting ends: at the first round that is not barren. */
  predicate EndsAt(rounds: seq<Round>, deadline: int, k: nat) {
    k <= |rounds| && (forall i :: 0 <= i < k ==> IsBarren(rounds[i], deadline))
    && (k < |rounds| ==> !IsBarren(rounds[k], deadline))
  }

  /** What waiting returns: the answer of the first round that is not barren, if it was asked in time and has one. */
  function Waited(rounds: seq<Round>, deadline: int): Option<(nat, Message)> {
    if rounds == [] then None
    else if IsBarren(rounds[0], deadline) then Waited(rounds[1..], deadline)
    else if rounds[0].asked < deadline && rounds[0].inbox.Some? then FirstAnswer(rounds[0].inbox.value)
    else None
  }

  /** What comes before a token is issued: whether the hub client, the identity and an address are there, and the
      provider of the created match, None when the hub refuses, and without a name when the provider or its key is
      missing. */
  datatype Setup = Setup(registered: bool, hasIdentity: bool, hasAddress: bool, created: Option<Option<string>>)

  datatype RequestOutcome =
    | NotRegistered | NoIdentity | NoAddress | NotCreated | NoProviderKey
    | OfferFailed | NoAnswer | AnswerFailed | MatchReady

  predicate IsPrepared(setup: Setup) {
    setup.registered && setup.hasIdentity && setup.hasAddress && setup.created.Some? && setup.created.value.Some?
  }

  predicate IsAccepted(offerSent: bool, answer: Option<(nat, Message)>, consumed: bool) {
    offerSent && answer.Some? && IsValidToken(answer.value.1.token) && consumed
  }

  /** The requester's record after a request whose match was created. */
  function AfterRequest(a: Agent, providerName: string, token: string, now: int, offerSent: bool,
                        answer: Option<(nat, Message)>, consumed: bool): Agent
  {
    var issued := Issue(a, token, now);
    if IsAccepted(offerSent, answer, consumed)
    then Install(issued, providerName, answer.value.1.url, answer.value.1.token)
    else issued
  }

  /** Looking the peer's name up finds this peer. */
  predicate Holds(peers: seq<Peer>, peer: Peer) {
    PeerIndex(peers, peer.name) < |peers| && peers[PeerIndex(peers, peer.name)] == peer
  }

  class Gateway {
    const config: GatewayConfig
    var processedMessages: set<nat>

    function View(): Agent
      reads this, config
    {
      Agent(config.peers, config.validTokens, config.timers, processedMessages)
    }

    constructor (config: GatewayConfig)
      ensures this.config == config && processedMessages == {}
    {
      this.config := config;
      processedMessages := {};
    }

    /** `listed` says whether the hub client, the identity and the list of matches could be had. */
    method ProcessPendingHubMatches(listed: bool, matches: seq<PendingMatch>)
      requires forall i :: 0 <= i < |matches| ==> WellFormedMatch(matches[i])
      modifies this, config
      ensures View() == if listed then AfterMatches(old(View()), matches) else old(View())
    {
      if !listed {
        return;
      }
      for i := 0 to |matches|
        invariant View() == AfterMatches(old(View()), matches[..i])
      {
        assert matches[..i + 1][..i] == matches[..i];
        if !matches[i].isProvider {
          continue;
        }
        if matches[i].inbox.Some? {
          ProcessPendingMatch(matches[i].requesterName, matches[i].inbox.value, matches[i].replies);
        }
      }
      assert matches[..|matches|] == matches;
    }

    /** The `try` block of one match in which this agent is the provider. */
    method ProcessPendingMatch(requesterName: string, inbox: seq<(nat, Message)>, replies: seq<Replies>)
      requires |inbox| == |replies| && forall i :: 0 <= i < |replies| ==> WellFormedReplies(replies[i])
      modifies this, config
      ensures View() == AfterPoll(old(View()), requesterName, inbox, replies)
    {
      for i := 0 to |inbox|
        invariant AfterPoll(View(), requesterName, inbox[i..], replies[i..])
               == AfterPoll(old(View()), requesterName, inbox, replies)
      {
        var (id, message) := inbox[i];
        assert inbox[i..][1..] == inbox[i + 1..] && replies[i..][1..] == replies[i + 1..];
        if id in processedMessages {
          continue;
        }
        var goesOn := HandleMessage(requesterName, id, message, replies[i]);
        if !goesOn {
          return;
        }
      }
    }

    /** One message; the result says whether the loop goes on. */
    method HandleMessage(remoteName: string, id: nat, message: Message, r: Replies) returns (goesOn: bool)
      requires WellFormedReplies(r)
      modifies this, config
      ensures View() == AfterMessage(old(View()), id, message, remoteName, r)
      ensures goesOn <==> GoesOn(message, r)
      ensures processedMessages == old(processedMessages) + if r.consumed then {id} else {}
      ensures if r.consumed && IsValidToken(message.token)
              then Holds(config.peers, Peer(remoteName, message.url, Some(message.token)))
              else config.peers == old(config.peers)
      ensures var answers := r.consumed && IsValidToken(message.token) && message.kind.Offer? && r.canAnswer;
              && config.validTokens == old(config.validTokens) + (if answers then {HexOf(r.bytes)} else {})
              && (answers ==> HexOf(r.bytes) in config.timers && config.timers[HexOf(r.bytes)] == r.now + TOKEN_TTL_MS)
    {
      if !r.consumed {
        return false;
      }
      processedMessages := processedMessages + {id};
      if !IsValidToken(message.token) {
        return true;
      }
      config.UpsertEphemeralPeer(remoteName, message.url, message.token);
      if message.kind.Answer? {
        return r.marked;
      }
      if !r.canAnswer {
        return true;
      }
      var _, _ := config.IssueEphemeralInboundToken(r.bytes, r.now);
      if !r.keyKnown {
        return true;
      }
      return r.sent && r.marked;
    }

    /** `waitForHandshakeAnswer` asked at `now`, over the rounds up to the deadline; without an answer it throws. */
    method WaitForHandshakeAnswer(now: int, rounds: seq<Round>) returns (answer: Option<(nat, Message)>)
      ensures answer == Waited(rounds, now + ANSWER_TIMEOUT_MS)
    {
      var deadline := now + ANSWER_TIMEOUT_MS;
      var i := 0;
      while i < |rounds| && rounds[i].asked < deadline
        invariant 0 <= i <= |rounds|
        invariant Waited(rounds, deadline) == Waited(rounds[i..], deadline)
      {
        if rounds[i].inbox.None? {
          return None;
        }
        var found := FindAnswer(rounds[i].inbox.value);
        if found.Some? {
          return found;
        }
        assert rounds[i..][1..] == rounds[i + 1..];
        i := i + 1;
      }
      return None;
    }

    method FindAnswer(inbox: seq<(nat, Message)>) returns (answer: Option<(nat, Message)>)
      ensures answer == FirstAnswer(inbox)
    {
      for i := 0 to |inbox|
        invariant FirstAnswer(inbox) == FirstAnswer(inbox[i..])
      {
        if inbox[i].1.kind.Answer? {
          return Some(inbox[i]);
        }
        assert inbox[i..][1..] == inbox[i + 1..];
      }
      return None;
    }

    /** `performMatchRequest`: the token is issued at `now`, waiting begins at `sentAt`; `consumed` and `marked` say
        whether the hub takes the consumption and the ready mark. */
    method PerformMatchRequest(setup: Setup, bytes: seq<Byte>, now: int, offerSent: bool, sentAt: int,
                               rounds: seq<Round>, consumed: bool, marked: bool) returns (outcome: RequestOutcome)
      requires |bytes| == TOKEN_LENGTH / 2
      modifies this, config
      ensures var answer := Waited(rounds, sentAt + ANSWER_TIMEOUT_MS);
              && (outcome.MatchReady? <==> IsPrepared(setup) && IsAccepted(offerSent, answer, consumed) && marked)
              && (outcome.MatchReady? ==>
                    Holds(config.peers, Peer(setup.created.value.value, answer.value.1.url,
                                             Some(answer.value.1.token))))
              && (outcome.OfferFailed? <==> IsPrepared(setup) && !offerSent)
              && (outcome.NoAnswer? <==> IsPrepared(setup) && offerSent && answer.None?)
              && (outcome.AnswerFailed? <==>
                  IsPrepared(setup) && offerSent && answer.Some?
                  && !(IsAccepted(offerSent, answer, consumed) && marked))
              && View() == if IsPrepared(setup)
                           then AfterRequest(old(View()), setup.created.value.value, HexOf(bytes), now, offerSent,
                                             answer, consumed)
                           else old(View())
    {
      if !setup.registered {
        return NotRegistered;
      }
      if !setup.hasIdentity {
        return NoIdentity;
      }
      if !setup.hasAddress {
        return NoAddress;
      }
      if setup.created.None? {
        return NotCreated;
      }
      if setup.created.value.None? {
        return NoProviderKey;
      }
      var _, _ := config.IssueEphemeralInboundToken(bytes, now);
      if !offerSent {
        return OfferFailed;
      }
      var answer := WaitForHandshakeAnswer(sentAt, rounds);
      if answer.None? {
        return NoAnswer;
      }
      var remote := answer.value.1;
      if !IsValidToken(remote.token) || !consumed {
        return AnswerFailed;
      }
      config.UpsertEphemeralPeer(setup.created.value.value, remote.url, remote.token);
      return if marked then MatchReady else AnswerFailed;
    }
  }

  /** The answer found is the first message that is one; nothing is found if and only if none is. */
  lemma {:induction false} FirstAnswerIsFirst(inbox: seq<(nat, Message)>)
    ensures forall i :: (0 <= i < |inbox| && inbox[i].1.kind.Answer?
                         && forall j :: 0 <= j < i ==> !inbox[j].1.kind.Answer?)
                        ==> FirstAnswer(inbox) == Some(inbox[i])
    ensures FirstAnswer(inbox).None? <==> forall j :: 0 <= j < |inbox| ==> !inbox[j].1.kind.Answer?
  {
    if inbox != [] {
      var rest := inbox[1..];
      assert forall j :: 0 <= j < |rest| ==> rest[j] == inbox[j + 1];
      FirstAnswerIsFirst(rest);
    }
  }

  // ----- waiting ends --------------------------------------------------------------------------------------------

  lemma EndsAtTail(rounds: seq<Round>, deadline: int, k: nat)
    requires rounds != [] && IsBarren(rounds[0], deadline)
    ensures EndsAt(rounds[1..], deadline, k) <==> EndsAt(rounds, deadline, k + 1)
  {
    hide IsBarren;
    assert forall i :: 0 <= i < |rounds| - 1 ==> rounds[1..][i] == rounds[i + 1];
    if EndsAt(rounds[1..], deadline, k) {
      assert forall i :: 0 < i <= k ==> rounds[i] == rounds[1..][i - 1];
    }
  }

  /** Waiting returns an answer if and only if the round at which it ends was asked in time and has that answer
      first. */
  lemma {:induction false} WaitedIff(rounds: seq<Round>, deadline: int, answer: (nat, Message))
    ensures Waited(rounds, deadline) == Some(answer) <==>
            exists k :: 0 <= k < |rounds| && EndsAt(rounds, deadline, k) && Finds(rounds[k], deadline, answer)
  {
    if rounds != [] {
      if IsBarren(rounds[0], deadline) {
        WaitedIff(rounds[1..], deadline, answer);
        forall k: nat ensures EndsAt(rounds[1..], deadline, k) <==> EndsAt(rounds, deadline, k + 1) {
          EndsAtTail(rounds, deadline, k);
        }
        if k :| 0 <= k < |rounds[1..]| && EndsAt(rounds[1..], deadline, k) && Finds(rounds[1..][k], deadline, answer) {
          assert EndsAt(rounds, deadline, k + 1) && Finds(rounds[k + 1], deadline, answer);
        }
        if k :| 0 <= k < |rounds| && EndsAt(rounds, deadline, k) && Finds(rounds[k], deadline, answer) {
          assert k > 0 && EndsAt(rounds[1..], deadline, k - 1) && Finds(rounds[1..][k - 1], deadline, answer);
        }
      } else {
        assert EndsAt(rounds, deadline, 0);
      }
    }
  }

  /** With the pause between two rounds the hub is asked at most 30 times. */
  lemma WaitingIsBounded(rounds: seq<Round>, now: int, k: nat)
    requires forall i :: 0 < i < |rounds| ==> rounds[i].asked >= rounds[i - 1].asked + 1500
    requires rounds != [] ==> rounds[0].asked >= now
    requires EndsAt(rounds, now + ANSWER_TIMEOUT_MS, k)
    ensures k <= 30 && (k < |rounds| && k == 30 ==> rounds[k].asked >= now + ANSWER_TIMEOUT_MS)
  {
    if k > 0 {
      RoundsAreApart(rounds, now, k - 1);
      assert IsBarren(rounds[k - 1], now + ANSWER_TIMEOUT_MS);
      if k < |rounds| { RoundsAreApart(rounds, now, k); }
    }
  }

  lemma {:induction false} RoundsAreApart(rounds: seq<Round>, now: int, i: nat)
    requires forall j :: 0 < j < |rounds| ==> rounds[j].asked >= rounds[j - 1].asked + ANSWER_PAUSE_MS
    requires i < |rounds| && rounds[0].asked >= now
    ensures rounds[i].asked >= now + i * ANSWER_PAUSE_MS
  {
    if i > 0 { RoundsAreApart(rounds, now, i - 1); }
  }
}
