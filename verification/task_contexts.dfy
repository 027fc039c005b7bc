/** The executor's memory of which context a task belongs to (src/executor.ts, rememberTaskContext and cancelTask):
    an insertion-ordered map that forgets the oldest task when it grows beyond its limit. */
module TaskContexts {
  import opened Wrappers
  import opened Recency

  const TASK_CONTEXT_CACHE_LIMIT := 10000

  datatype Event = Remember(taskId: string, contextId: string) | Cancel(taskId: string)

  /** The map with its keys in insertion order, newest first. */
  datatype Cache = Cache(order: seq<string>, contexts: map<string, string>)

  function Entered(c: Cache, taskId: string, contextId: string): Cache {
    Cache([taskId] + Without(c.order, taskId), c.contexts[taskId := contextId])
  }

  /** The oldest entry goes once there are too many. */
  function Evicted(c: Cache): Cache {
    if |c.order| > TASK_CONTEXT_CACHE_LIMIT && c.order[|c.order| - 1] != "" then
      Cache(c.order[..|c.order| - 1], c.contexts - {c.order[|c.order| - 1]})
    else c
  }

  function AfterRemember(c: Cache, taskId: string, contextId: string): Cache {
    Evicted(Entered(c, taskId, contextId))
  }

  /** A task whose context is unknown, or is the empty string, is left alone. */
  function AfterCancel(c: Cache, taskId: string): Cache {
    if taskId in c.contexts && c.contexts[taskId] != "" then Cache(Without(c.order, taskId), c.contexts - {taskId})
    else c
  }

  /** The cache after a history, newest event first. */
  function After(history: seq<Event>): Cache {
    if history == [] then Cache([], map[])
    else match history[0]
         case Remember(taskId, contextId) => AfterRemember(After(history[1..]), taskId, contextId)
         case Cancel(taskId) => AfterCancel(After(history[1..]), taskId)
  }

  // ----- the memory without a limit ------------------------------------------------------------------------------

  /** The context of the latest mention of a task, unless it was cancelled since. */
  function ContextOf(history: seq<Event>, taskId: string): Option<string> {
    if history == [] then None
    else match history[0]
         case Remember(t, c) => if t == taskId then Some(c) else ContextOf(history[1..], taskId)
         case Cancel(t) => if t == taskId then None else ContextOf(history[1..], taskId)
  }

  /** All tasks remembered and not cancelled since, newest first. */
  function Remembered(history: seq<Event>): seq<string> {
    if history == [] then []
    else match history[0]
         case Remember(t, _) => [t] + Without(Remembered(history[1..]), t)
         case Cancel(t) => Without(Remembered(history[1..]), t)
  }

  predicate Named(ev: Event) {
    ev.taskId != "" && (ev.Remember? ==> ev.contextId != "")
  }

  lemma PrefixWithout(p: seq<string>, s: seq<string>, t: string)
    requires p <= s
    ensures Without(p, t) <= Without(s, t)
  {
    assert s == p + s[|p|..];
    WithoutConcat(p, s[|p|..], t);
  }

  ghost predicate KeysMatch(c: Cache) {
    forall t :: t in c.order <==> t in c.contexts
  }

  ghost predicate ContextsMatch(c: Cache, history: seq<Event>) {
    forall t :: t in c.contexts ==> t != "" && c.contexts[t] != "" && ContextOf(history, t) == Some(c.contexts[t])
  }

  ghost predicate Refines(c: Cache, history: seq<Event>) {
    && KeysMatch(c) && ContextsMatch(c, history)
    && c.order <= Remembered(history) && |c.order| <= TASK_CONTEXT_CACHE_LIMIT
  }

  lemma {:induction false} RememberedIsDistinct(history: seq<Event>)
    ensures Distinct(Remembered(history))
    ensures forall t :: t in Remembered(history) <==> ContextOf(history, t).Some?
  {
    if history != [] {
      RememberedIsDistinct(history[1..]);
      WithoutDistinct(Remembered(history[1..]), history[0].taskId);
      WithoutMembers(Remembered(history[1..]), history[0].taskId);
    }
  }

  lemma EnterKeeps(c: Cache, older: seq<Event>, id: string, contextId: string)
    requires KeysMatch(c) && ContextsMatch(c, older) && c.order <= Remembered(older) && id != "" && contextId != ""
    ensures var d, history := Entered(c, id, contextId), [Remember(id, contextId)] + older;
            && KeysMatch(d) && ContextsMatch(d, history) && d.order <= Remembered(history)
            && |d.order| <= |c.order| + 1
  {
    assert ([Remember(id, contextId)] + older)[1..] == older;
    PrefixWithout(c.order, Remembered(older), id);
    WithoutMembers(c.order, id);
  }

  lemma EvictKeepsKeys(c: Cache)
    requires KeysMatch(c) && Distinct(c.order)
    ensures KeysMatch(Evicted(c)) && Evicted(c).order <= c.order
  {
    if Evicted(c) != c {
      var rest, last := c.order[..|c.order| - 1], c.order[|c.order| - 1];
      assert c.order == rest + [last] && last !in rest;
    }
  }

  lemma PrefixDistinct(p: seq<string>, s: seq<string>)
    requires p <= s && Distinct(s)
    ensures Distinct(p)
  {
    assert forall i :: 0 <= i < |p| ==> p[i] == s[i];
  }

  lemma StepRemember(c: Cache, older: seq<Event>, id: string, contextId: string)
    requires Refines(c, older) && id != "" && contextId != ""
    ensures Refines(AfterRemember(c, id, contextId), [Remember(id, contextId)] + older)
  {
    var d, history := Entered(c, id, contextId), [Remember(id, contextId)] + older;
    EnterKeeps(c, older, id, contextId);
    RememberedIsDistinct(history);
    PrefixDistinct(d.order, Remembered(history));
    EvictKeepsKeys(d);
    if |d.order| > TASK_CONTEXT_CACHE_LIMIT {
      assert d.order[|d.order| - 1] in d.order && d.order[|d.order| - 1] in d.contexts;
    }
    hide Entered, Remembered, Without;
  }

  lemma StepCancel(c: Cache, older: seq<Event>, id: string)
    requires Refines(c, older)
    ensures Refines(AfterCancel(c, id), [Cancel(id)] + older)
  {
    assert ([Cancel(id)] + older)[1..] == older;
    PrefixWithout(c.order, Remembered(older), id);
    WithoutMembers(c.order, id);
  }

  /** In every run the cache holds the most recent tasks remembered and not cancelled since, in order, each
      with its latest context, and never exceeds its limit. */
  lemma {:induction false} CacheRefinesHistory(history: seq<Event>)
    requires forall k :: 0 <= k < |history| ==> Named(history[k])
    ensures Refines(After(history), history)
  {
    if history != [] {
      CacheRefinesHistory(history[1..]);
      assert Named(history[0]) && history == [history[0]] + history[1..];
      if history[0].Remember? {
        StepRemember(After(history[1..]), history[1..], history[0].taskId, history[0].contextId);
      } else {
        StepCancel(After(history[1..]), history[1..], history[0].taskId);
      }
    }
  }

  /** Without cancellations the limit is the only reason to forget: exactly the newest ones are there. */
  lemma {:induction false} OnlyTheLimitForgets(history: seq<Event>)
    requires forall k :: 0 <= k < |history| ==> Named(history[k]) && history[k].Remember?
    ensures After(history).order == Take(10000, Remembered(history))
  {
    if history != [] {
      OnlyTheLimitForgets(history[1..]);
      CacheRefinesHistory(history[1..]);
      assert Named(history[0]) && history[0].Remember?;
      EntersAtTheFront(After(history[1..]), history[1..], history[0].taskId, history[0].contextId);
    }
  }

  lemma EntersAtTheFront(c: Cache, older: seq<Event>, id: string, contextId: string)
    requires Refines(c, older) && id != "" && c.order == Take(TASK_CONTEXT_CACHE_LIMIT, Remembered(older))
    ensures AfterRemember(c, id, contextId).order
         == Take(TASK_CONTEXT_CACHE_LIMIT, [id] + Without(Remembered(older), id))
  {
    RememberedIsDistinct(older);
    PrefixDistinct(c.order, Remembered(older));
    assert Take(TASK_CONTEXT_CACHE_LIMIT, c.order) == c.order;
    SamePrefixSameMove(TASK_CONTEXT_CACHE_LIMIT, c.order, Remembered(older), id);
    WithoutMembers(c.order, id);
    assert forall t :: t in c.order ==> t in c.contexts && t != "";
    assert forall t :: t in Without(c.order, id) ==> t in c.order;
    hide Remembered, Without, Distinct, Take, KeysMatch, ContextsMatch, Evicted;
    EvictedIsTaken(Entered(c, id, contextId));
  }

  lemma EvictedIsTaken(c: Cache)
    requires |c.order| <= TASK_CONTEXT_CACHE_LIMIT + 1 && forall t :: t in c.order ==> t != ""
    ensures Evicted(c).order == Take(TASK_CONTEXT_CACHE_LIMIT, c.order)
  {
    if |c.order| > 0 { assert c.order[|c.order| - 1] in c.order; }
  }

  lemma {:induction false} WithoutShorter(s: seq<string>, x: string)
    requires x in s
    ensures |Without(s, x)| < |s|
  {
    if s[0] == x {
      WithoutMembers(s[1..], x);
    } else {
      assert s == [s[0]] + s[1..];
      WithoutShorter(s[1..], x);
    }
  }

  lemma RememberKeepsShape(c: Cache, id: string, contextId: string)
    requires KeysMatch(c) && Distinct(c.order)
    ensures var d := AfterRemember(c, id, contextId); KeysMatch(d) && Distinct(d.order)
    ensures id !in c.contexts ==> Without(c.order, id) == c.order
  {
    WithoutMembers(c.order, id);
    WithoutDistinct(c.order, id);
    var d := Entered(c, id, contextId);
    assert KeysMatch(d) && Distinct(d.order);
    EvictKeepsKeys(d);
    PrefixDistinct(Evicted(d).order, d.order);
  }

  lemma {:induction false} AfterHasShape(history: seq<Event>)
    ensures KeysMatch(After(history)) && Distinct(After(history).order)
  {
    if history != [] {
      AfterHasShape(history[1..]);
      var c, id := After(history[1..]), history[0].taskId;
      if history[0].Remember? {
        RememberKeepsShape(c, id, history[0].contextId);
      } else {
        WithoutMembers(c.order, id);
        WithoutDistinct(c.order, id);
      }
    }
  }

  /** The eviction skips the empty task id: after any history that left the cache within its limit, one more remembered
      task pushes it over if and only if the cache is full, this task is new and the oldest entry is the empty id. */
  lemma OverflowIff(history: seq<Event>, id: string, contextId: string)
    requires |After(history).order| <= TASK_CONTEXT_CACHE_LIMIT
    ensures var c := After(history);
            |After([Remember(id, contextId)] + history).order| > TASK_CONTEXT_CACHE_LIMIT
            <==> |c.order| == TASK_CONTEXT_CACHE_LIMIT && id !in c.contexts && c.order[|c.order| - 1] == ""
  {
    var c := After(history);
    AfterHasShape(history);
    assert ([Remember(id, contextId)] + history)[1..] == history;
    WithoutMembers(c.order, id);
    if id in c.order { WithoutShorter(c.order, id); }
  }

  function NameOf(n: nat): (name: string)
    ensures |name| == n
  {
    seq(n, _ => 'x')
  }

  /** The empty id first, then n others. */
  function Flood(n: nat): seq<Event> {
    if n == 0 then [Remember("", "context")] else [Remember(NameOf(n), "context")] + Flood(n - 1)
  }

  lemma FloodSnoc(n: nat)
    requires n > 0
    ensures After(Flood(n)) == AfterRemember(After(Flood(n - 1)), NameOf(n), "context")
  {
    hide AfterRemember, NameOf;
    assert Flood(n)[1..] == Flood(n - 1);
  }

  /** n + 1 entries, the oldest of them the empty id. */
  ghost predicate IsFlooded(order: seq<string>, n: nat) {
    |order| == n + 1 && order[n] == "" && forall t :: t in order ==> |t| <= n
  }

  lemma EntersBeforeEmpty(c: Cache, id: string, contextId: string)
    requires c.order != [] && c.order[|c.order| - 1] == "" && id !in c.order
    ensures AfterRemember(c, id, contextId).order == [id] + c.order
  {
    WithoutMembers(c.order, id);
  }

  lemma FloodStarts()
    ensures After(Flood(0)).order == [""]
  {
    assert Flood(0)[1..] == [] && After([]) == Cache([], map[]);
    assert Without([], "") == [] && [""] + [] == [""];
  }

  lemma FloodRises(order: seq<string>, n: nat)
    requires n > 0 && IsFlooded(order, n - 1)
    ensures NameOf(n) !in order && IsFlooded([NameOf(n)] + order, n)
  {
    hide NameOf;
  }

  /** With the empty id at its end the cache grows without bound. */
  lemma {:induction false} EmptyIdBlocksEviction(n: nat)
    ensures IsFlooded(After(Flood(n)).order, n)
  {
    if n == 0 {
      FloodStarts();
    } else {
      EmptyIdBlocksEviction(n - 1);
      var order := After(Flood(n - 1)).order;
      assert order != [] && order[|order| - 1] == "";
      hide After, Flood, AfterRemember, NameOf, IsFlooded;
      FloodSnoc(n);
      FloodRises(order, n);
      EntersBeforeEmpty(After(Flood(n - 1)), NameOf(n), "context");
    }
  }

  class OpenClawAgentExecutor {
    /** The keys of `contexts`, newest first. */
    var order: seq<string>
    var contexts: map<string, string>
    ghost var history: seq<Event>

    ghost predicate Valid()
      reads this
    {
      KeysMatch(Cache(order, contexts)) && Distinct(order) && Cache(order, contexts) == After(history)
    }

    constructor ()
      ensures Valid() && history == []
    {
      order, contexts, history := [], map[], [];
    }

    method RememberTaskContext(taskId: string, contextId: string)
      requires Valid()
      modifies this
      ensures Valid() && history == [Remember(taskId, contextId)] + old(history)
    {
      ghost var before := Cache(order, contexts);
      RememberKeepsShape(before, taskId, contextId);
      hide Without, Distinct, KeysMatch;
      if taskId in contexts {
        order := Without(order, taskId);
        contexts := contexts - {taskId};
      }
      order := [taskId] + order;
      contexts := contexts[taskId := contextId];
      assert contexts == before.contexts[taskId := contextId];
      if |order| > TASK_CONTEXT_CACHE_LIMIT {
        var oldestTaskId := order[|order| - 1];
        if oldestTaskId != "" {
          order := order[..|order| - 1];
          contexts := contexts - {oldestTaskId};
        }
      }
      assert Cache(order, contexts) == AfterRemember(before, taskId, contextId);
      assert ([Remember(taskId, contextId)] + history)[1..] == history;
      history := [Remember(taskId, contextId)] + history;
    }

    /** Says with which context the cancellation is published, if it is. */
    method CancelTask(taskId: string) returns (published: Option<string>)
      requires Valid()
      modifies this
      ensures Valid() && history == [Cancel(taskId)] + old(history)
      ensures published ==
              if taskId in old(contexts) && old(contexts)[taskId] != "" then Some(old(contexts)[taskId]) else None
    {
      assert ([Cancel(taskId)] + history)[1..] == history;
      history := [Cancel(taskId)] + history;
      if taskId !in contexts || contexts[taskId] == "" {
        return None;
      }
      published := Some(contexts[taskId]);
      WithoutMembers(order, taskId);
      WithoutDistinct(order, taskId);
      order := Without(order, taskId);
      contexts := contexts - {taskId};
    }
  }
}
