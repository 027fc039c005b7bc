/** Rule-based routing (src/routing-rules.ts): parsing drops invalid entries and sorts by descending priority, and
    matching takes the first rule that applies. Strings arrive trimmed; the regular-expression engine is a parameter
    that answers None for an invalid pattern. */
module RoutingRules {
  import opened Wrappers
  import opened StableSorting

  const MAX_PATTERN_LENGTH := 500
  const MAX_TEXT_LENGTH := 10000

  /** One configured entry; None stands for anything that is not of the expected type. */
  datatype RawMatch = RawMatch(pattern: Option<string>, tags: Option<seq<string>>, skills: Option<seq<string>>)
  datatype RawTarget = RawTarget(peer: Option<string>, agentId: Option<string>)
  datatype RawRule = RawRule(name: Option<string>, condition: Option<RawMatch>, target: Option<RawTarget>,
                             priority: Option<real>)

  datatype RoutingRule = RoutingRule(
    name: string, pattern: Option<string>, tags: seq<string>, skills: seq<string>,
    peer: string, agentId: Option<string>, priority: real)

  datatype Inquiry = Inquiry(text: string, tags: seq<string>)
  datatype RoutingMatch = RoutingMatch(peer: string, agentId: Option<string>)

  function NonEmpty(s: Option<string>): Option<string> {
    if s.Some? && s.value == "" then None else s
  }

  function NonEmptyOnes(strings: Option<seq<string>>): seq<string> {
    if strings.None? then [] else Filter(strings.value, (s: string) => s != "")
  }

  function Parse(raw: RawRule): Option<RoutingRule> {
    if NonEmpty(raw.name).None? || raw.condition.None? then None
    else
      var pattern := NonEmpty(raw.condition.value.pattern);
      var tags, skills := NonEmptyOnes(raw.condition.value.tags), NonEmptyOnes(raw.condition.value.skills);
      if pattern.None? && tags == [] && skills == [] then None
      else if raw.target.None? || NonEmpty(raw.target.value.peer).None? then None
      else
        Some(RoutingRule(raw.name.value, pattern, tags, skills, raw.target.value.peer.value,
                         NonEmpty(raw.target.value.agentId), if raw.priority.Some? then raw.priority.value else 0.0))
  }

  function Parsed(raws: seq<RawRule>): seq<RoutingRule> {
    if raws == [] then []
    else (if Parse(raws[0]).Some? then [Parse(raws[0]).value] else []) + Parsed(raws[1..])
  }

  /** The comparator subtracts the other way round: higher priorities first. */
  function Descending(rule: RoutingRule): real {
    -rule.priority
  }

  predicate Overlap(a: seq<string>, b: seq<string>) {
    exists s :: s in a && s in b
  }

  function Truncated(text: string): string {
    if |text| <= MAX_TEXT_LENGTH then text else text[..MAX_TEXT_LENGTH]
  }

  predicate MatchesRule(rule: RoutingRule, m: Inquiry, peerSkills: map<string, seq<string>>,
                        test: (string, string) -> Option<bool>)
  {
    && (rule.pattern.Some? ==> |rule.pattern.value| <= MAX_PATTERN_LENGTH
                               && test(rule.pattern.value, Truncated(m.text)) == Some(true))
    && (rule.tags != [] ==> Overlap(rule.tags, m.tags))
    && (rule.skills != [] ==> rule.peer in peerSkills && Overlap(rule.skills, peerSkills[rule.peer]))
  }

  function Applies(m: Inquiry, peerSkills: map<string, seq<string>>,
                   test: (string, string) -> Option<bool>): RoutingRule -> bool
  {
    (rule: RoutingRule) => MatchesRule(rule, m, peerSkills, test)
  }

  function TargetOf(rule: Option<RoutingRule>): Option<RoutingMatch> {
    if rule.None? then None else Some(RoutingMatch(rule.value.peer, rule.value.agentId))
  }

  // ----- the code ----------------------------------------------------------------------------------------------

  method ParseRoutingRules(raws: seq<RawRule>) returns (rules: seq<RoutingRule>)
    ensures rules == Sort(Parsed(raws), Descending)
  {
    rules := [];
    for i := 0 to |raws|
      invariant rules == Parsed(raws[..i])
    {
      ParsedSnoc(raws[..i], raws[i]);
      assert raws[..i + 1] == raws[..i] + [raws[i]];
      var rule := Parse(raws[i]);
      if rule.None? {
        continue;
      }
      rules := rules + [rule.value];
    }
    assert raws[..|raws|] == raws;
    rules := Sort(rules, Descending);
  }

  method MatchRule(rules: seq<RoutingRule>, m: Inquiry, peerSkills: map<string, seq<string>>,
                   test: (string, string) -> Option<bool>) returns (r: Option<RoutingMatch>)
    ensures r == TargetOf(FirstHit(rules, Applies(m, peerSkills, test)))
  {
    for i := 0 to |rules|
      invariant FirstHit(rules, Applies(m, peerSkills, test)) == FirstHit(rules[i..], Applies(m, peerSkills, test))
    {
      if !MatchesRule(rules[i], m, peerSkills, test) {
        assert rules[i..][1..] == rules[i + 1..];
        continue;
      }
      return Some(RoutingMatch(rules[i].peer, rules[i].agentId));
    }
    return None;
  }

  // ----- what is chosen -------------------------------------------------------------------------------------------

  lemma {:induction false} ParsedSnoc(raws: seq<RawRule>, raw: RawRule)
    ensures Parsed(raws + [raw]) == Parsed(raws) + if Parse(raw).Some? then [Parse(raw).value] else []
  {
    if raws == [] {
      assert [raw][1..] == [];
    } else {
      ParsedSnoc(raws[1..], raw);
      assert (raws + [raw])[1..] == raws[1..] + [raw];
      var head, rest := if Parse(raws[0]).Some? then [Parse(raws[0]).value] else [], Parsed(raws[1..]);
      var last := if Parse(raw).Some? then [Parse(raw).value] else [];
      assert head + (rest + last) == (head + rest) + last;
    }
  }

  predicate IsCandidate(raw: RawRule, hit: RoutingRule -> bool) {
    Parse(raw).Some? && hit(Parse(raw).value)
  }

  /** Entry `k` is valid and applies, no valid entry that applies has a higher priority, and none as high comes
      first. */
  ghost predicate IsChosen(raws: seq<RawRule>, k: nat, hit: RoutingRule -> bool) {
    && k < |raws| && IsCandidate(raws[k], hit)
    && (forall j :: 0 <= j < |raws| && IsCandidate(raws[j], hit) ==>
                      Parse(raws[j]).value.priority <= Parse(raws[k]).value.priority)
    && (forall j :: 0 <= j < k && IsCandidate(raws[j], hit) ==>
                      Parse(raws[j]).value.priority < Parse(raws[k]).value.priority)
  }

  lemma {:induction false} BestIsChosen(raws: seq<RawRule>, hit: RoutingRule -> bool)
    ensures var best := Best(Parsed(raws), hit, Descending);
            && (best.None? <==> forall j :: 0 <= j < |raws| ==> !IsCandidate(raws[j], hit))
            && (best.Some? ==> exists k: nat :: IsChosen(raws, k, hit) && Parse(raws[k]) == best)
  {
    if raws != [] {
      var rest := raws[1..];
      BestIsChosen(rest, hit);
      assert forall j :: 0 < j < |raws| ==> raws[j] == rest[j - 1];
      var best := Best(Parsed(rest), hit, Descending);
      if Parse(raws[0]).Some? {
        assert ([Parse(raws[0]).value] + Parsed(rest))[1..] == Parsed(rest);
      } else {
        assert [] + Parsed(rest) == Parsed(rest);
      }
      if best.Some? {
        var k: nat :| IsChosen(rest, k, hit) && Parse(rest[k]) == best;
        ChosenAfterCons(raws, k, hit);
      } else if IsCandidate(raws[0], hit) {
        assert forall j :: 0 < j < |raws| ==> !IsCandidate(raws[j], hit);
        assert IsChosen(raws, 0, hit);
      }
    }
  }

  lemma ChosenAfterCons(raws: seq<RawRule>, k: nat, hit: RoutingRule -> bool)
    requires raws != [] && IsChosen(raws[1..], k, hit)
    ensures if IsCandidate(raws[0], hit) && Parse(raws[0]).value.priority >= Parse(raws[k + 1]).value.priority
            then IsChosen(raws, 0, hit) else IsChosen(raws, k + 1, hit)
  {
    assert forall j :: 0 < j < |raws| ==> raws[1..][j - 1] == raws[j];
  }

  /** Parsing and then matching yields the target of the applicable valid entry of greatest priority, the earliest in
      the configuration among equals; nothing if no valid entry applies. */
  lemma RoutingIsOptimal(raws: seq<RawRule>, m: Inquiry, peerSkills: map<string, seq<string>>,
                         test: (string, string) -> Option<bool>)
    ensures var hit := Applies(m, peerSkills, test);
            var r := TargetOf(FirstHit(Sort(Parsed(raws), Descending), hit));
            if forall j :: 0 <= j < |raws| ==> !IsCandidate(raws[j], hit) then r == None
            else exists k: nat :: IsChosen(raws, k, hit) && r == TargetOf(Parse(raws[k]))
  {
    var hit := Applies(m, peerSkills, test);
    SortThenScanIsBest(Parsed(raws), hit, Descending);
    BestIsChosen(raws, hit);
  }

  // ----- in the configuration's own terms ------------------------------------------------------------------------

  predicate HasText(s: Option<string>) {
    s.Some? && |s.value| > 0
  }

  /** Some non-empty string is listed. */
  predicate Lists(strings: Option<seq<string>>) {
    strings.Some? && exists s :: s in strings.value && |s| > 0
  }

  /** Some non-empty string is listed that is also among the others. */
  predicate ListsOneOf(strings: Option<seq<string>>, others: seq<string>) {
    strings.Some? && exists s :: s in strings.value && |s| > 0 && s in others
  }

  /** The entry has a name, a peer and some condition, and every condition it has is met: its pattern, at most 500
      characters long, matches the first 10000 characters of the text; one of its tags is among the message's; one of
      its skills is among those known of its peer. */
  predicate EntryApplies(raw: RawRule, m: Inquiry, peerSkills: map<string, seq<string>>,
                         test: (string, string) -> Option<bool>)
  {
    && HasText(raw.name) && raw.condition.Some? && raw.target.Some? && HasText(raw.target.value.peer)
    && var c, peer := raw.condition.value, raw.target.value.peer.value;
    && (HasText(c.pattern) || Lists(c.tags) || Lists(c.skills))
    && (HasText(c.pattern) ==>
          && |c.pattern.value| <= 500
          && test(c.pattern.value, if |m.text| > 10000 then m.text[..10000] else m.text) == Some(true))
    && (Lists(c.tags) ==> ListsOneOf(c.tags, m.tags))
    && (Lists(c.skills) ==> peer in peerSkills && ListsOneOf(c.skills, peerSkills[peer]))
  }

  function PriorityOf(raw: RawRule): real {
    if raw.priority.Some? then raw.priority.value else 0.0
  }

  /** Entry `k` applies, none that applies has a higher priority, and none before it has as high a one. */
  ghost predicate IsFirstChoice(raws: seq<RawRule>, k: nat, m: Inquiry, peerSkills: map<string, seq<string>>,
                                test: (string, string) -> Option<bool>)
  {
    && k < |raws| && EntryApplies(raws[k], m, peerSkills, test)
    && (forall j :: 0 <= j < |raws| && EntryApplies(raws[j], m, peerSkills, test) ==>
                      PriorityOf(raws[j]) <= PriorityOf(raws[k]))
    && (forall j :: 0 <= j < k && EntryApplies(raws[j], m, peerSkills, test) ==>
                      PriorityOf(raws[j]) < PriorityOf(raws[k]))
  }

  lemma OverlapIff(strings: Option<seq<string>>, others: seq<string>)
    ensures NonEmptyOnes(strings) != [] <==> Lists(strings)
    ensures Overlap(NonEmptyOnes(strings), others) <==> ListsOneOf(strings, others)
  {
    if strings.Some? {
      FilterMembers(strings.value, (s: string) => s != "");
      var found := NonEmptyOnes(strings);
      assert found != [] ==> found[0] in found;
    }
  }

  /** Parsing an entry and matching the rule it becomes is testing the entry as configured. */
  lemma EntryAppliesIff(raw: RawRule, m: Inquiry, peerSkills: map<string, seq<string>>,
                        test: (string, string) -> Option<bool>)
    ensures IsCandidate(raw, Applies(m, peerSkills, test)) <==> EntryApplies(raw, m, peerSkills, test)
    ensures Parse(raw).Some? ==>
              && Parse(raw).value.priority == PriorityOf(raw)
              && raw.target.Some? && Some(Parse(raw).value.peer) == raw.target.value.peer
              && (HasText(raw.target.value.agentId) ==> Parse(raw).value.agentId == raw.target.value.agentId)
              && (!HasText(raw.target.value.agentId) ==> Parse(raw).value.agentId == None)
  {
    if raw.condition.Some? {
      var c := raw.condition.value;
      OverlapIff(c.tags, m.tags);
      if raw.target.Some? && HasText(raw.target.value.peer) && raw.target.value.peer.value in peerSkills {
        OverlapIff(c.skills, peerSkills[raw.target.value.peer.value]);
      } else {
        OverlapIff(c.skills, []);
      }
      hide NonEmptyOnes, Overlap, Lists, ListsOneOf;
    }
  }

  lemma ChosenIsFirstChoice(raws: seq<RawRule>, k: nat, m: Inquiry, peerSkills: map<string, seq<string>>,
                            test: (string, string) -> Option<bool>)
    requires IsChosen(raws, k, Applies(m, peerSkills, test))
    ensures IsFirstChoice(raws, k, m, peerSkills, test)
  {
    forall j | 0 <= j < |raws|
      ensures IsCandidate(raws[j], Applies(m, peerSkills, test)) <==> EntryApplies(raws[j], m, peerSkills, test)
      ensures IsCandidate(raws[j], Applies(m, peerSkills, test))
              ==> Parse(raws[j]).value.priority == PriorityOf(raws[j])
    {
      EntryAppliesIff(raws[j], m, peerSkills, test);
    }
    hide Parse, MatchesRule, EntryApplies, PriorityOf, Applies;
  }

  /** The target of the entry. */
  predicate LeadsTo(raw: RawRule, r: RoutingMatch) {
    && raw.target.Some? && raw.target.value.peer == Some(r.peer)
    && r.agentId == if HasText(raw.target.value.agentId) then raw.target.value.agentId else None
  }

  lemma ChosenLeads(raw: RawRule)
    requires Parse(raw).Some?
    ensures TargetOf(Parse(raw)).Some? && LeadsTo(raw, TargetOf(Parse(raw)).value)
  {
  }

  /** Routing in the configuration's own terms: the message goes to the peer and agent of the entry that is the first
      choice, and nowhere if no entry applies. */
  lemma RoutingFollowsConfiguration(raws: seq<RawRule>, m: Inquiry, peerSkills: map<string, seq<string>>,
                                    test: (string, string) -> Option<bool>)
    ensures var r := TargetOf(FirstHit(Sort(Parsed(raws), Descending), Applies(m, peerSkills, test)));
            if forall j :: 0 <= j < |raws| ==> !EntryApplies(raws[j], m, peerSkills, test) then r == None
            else exists k: nat :: IsFirstChoice(raws, k, m, peerSkills, test) && r.Some? && LeadsTo(raws[k], r.value)
  {
    var hit := Applies(m, peerSkills, test);
    var r := TargetOf(FirstHit(Sort(Parsed(raws), Descending), hit));
    RoutingIsOptimal(raws, m, peerSkills, test);
    forall j | 0 <= j < |raws| ensures IsCandidate(raws[j], hit) <==> EntryApplies(raws[j], m, peerSkills, test) {
      EntryAppliesIff(raws[j], m, peerSkills, test);
    }
    hide Parse, EntryApplies, Sort, FirstHit, LeadsTo, IsFirstChoice, Applies, TargetOf;
    if !(forall j :: 0 <= j < |raws| ==> !EntryApplies(raws[j], m, peerSkills, test)) {
      var k: nat :| IsChosen(raws, k, hit) && r == TargetOf(Parse(raws[k]));
      ChosenIsFirstChoice(raws, k, m, peerSkills, test);
      ChosenLeads(raws[k]);
    }
  }
}
