/** Delivery: what the relay's record of offers and outcomes says about an entry, and that the store agrees with it. */
module OutboxDelivery {
  import opened Powers
  import opened Wrappers
  import opened Recency
  import opened StableSorting
  import opened Outboxes

  // ----- the life of an entry, read off the acts -----------------------------------------------------------------

  datatype Stage = Waiting(failures: nat) | InFlight(failures: nat) | Delivered | GivenUp(failures: nat)

  function StageAfter(cfg: OutboxConfig, stage: Stage, act: Act, id: nat): Stage {
    if act.id != id then stage
    else match act
         case Offered(_) => if stage.Waiting? then InFlight(stage.failures) else stage
         case Succeeded(_) => if stage.InFlight? then Delivered else stage
         case Refused(_) =>
           if !stage.InFlight? then stage
           else if stage.failures + 1 >= cfg.maxRetries then GivenUp(stage.failures + 1)
           else Waiting(stage.failures + 1)
  }

  function StageOf(cfg: OutboxConfig, acts: seq<Act>, id: nat): Stage {
    if acts == [] then Waiting(0) else StageAfter(cfg, StageOf(cfg, acts[..|acts| - 1], id), acts[|acts| - 1], id)
  }

  function Offers(acts: seq<Act>, id: nat): nat {
    if acts == [] then 0 else Offers(acts[..|acts| - 1], id) + if acts[|acts| - 1] == Offered(id) then 1 else 0
  }

  predicate AnOfferIsOut(acts: seq<Act>) {
    acts != [] && acts[|acts| - 1].Offered?
  }

  /** Entries are offered only while they wait, one at a time, and every outcome is that of the offer before it. */
  predicate IsProper(cfg: OutboxConfig, acts: seq<Act>) {
    acts == [] ||
    var before, act := acts[..|acts| - 1], acts[|acts| - 1];
    && IsProper(cfg, before)
    && match act
       case Offered(id) => StageOf(cfg, before, id).Waiting? && !AnOfferIsOut(before)
       case _ => before != [] && before[|before| - 1] == Offered(act.id)
  }

  function Budget(cfg: OutboxConfig): nat {
    if cfg.maxRetries < 1 then 1 else cfg.maxRetries
  }

  /** In a proper record the number of offers is fixed by the stage, an entry that is given up was offered exactly
      max(1, maxRetries) times, and the entry in flight is the one offered last. */
  lemma {:induction false} OffersByStage(cfg: OutboxConfig, acts: seq<Act>, id: nat)
    requires IsProper(cfg, acts)
    ensures match StageOf(cfg, acts, id)
            case Waiting(f) => Offers(acts, id) == f < Budget(cfg)
            case InFlight(f) => Offers(acts, id) == f + 1 <= Budget(cfg)
            case Delivered => 1 <= Offers(acts, id) <= Budget(cfg)
            case GivenUp(f) => Offers(acts, id) == f == Budget(cfg)
    ensures StageOf(cfg, acts, id).InFlight? <==> AnOfferIsOut(acts) && acts[|acts| - 1].id == id
  {
    if acts != [] {
      OffersByStage(cfg, acts[..|acts| - 1], id);
    }
  }

  /** Nothing leads out of delivery or giving up, so such an entry is never offered again. */
  lemma {:induction false} NoOfferAfterTheEnd(cfg: OutboxConfig, acts: seq<Act>, k: nat, j: nat)
    requires IsProper(cfg, acts) && k <= j < |acts| && acts[j].Offered?
    ensures var stage := StageOf(cfg, acts[..k], acts[j].id); !stage.Delivered? && !stage.GivenUp?
  {
    ProperPrefix(cfg, acts, j + 1);
    assert acts[..j + 1][..j] == acts[..j];
    TheEndIsFinal(cfg, acts[..j], k, acts[j].id);
    assert acts[..j][..k] == acts[..k];
  }

  lemma {:induction false} ProperPrefix(cfg: OutboxConfig, acts: seq<Act>, n: nat)
    requires IsProper(cfg, acts) && n <= |acts|
    ensures IsProper(cfg, acts[..n])
  {
    if n < |acts| {
      ProperPrefix(cfg, acts[..|acts| - 1], n);
      assert acts[..|acts| - 1][..n] == acts[..n];
    } else {
      assert acts[..n] == acts;
    }
  }

  lemma {:induction false} TheEndIsFinal(cfg: OutboxConfig, acts: seq<Act>, k: nat, id: nat)
    requires k <= |acts|
    ensures var stage := StageOf(cfg, acts[..k], id);
            stage.Delivered? || stage.GivenUp? ==> StageOf(cfg, acts, id) == stage
  {
    if k < |acts| {
      TheEndIsFinal(cfg, acts[..|acts| - 1], k, id);
      assert acts[..|acts| - 1][..k] == acts[..k];
    } else {
      assert acts[..k] == acts;
    }
  }

  // ----- the invariant ----------------------------------------------------------------------------------------

  predicate Agrees(e: Entry, stage: Stage) {
    match e.status
    case Pending => stage == Waiting(e.retryCount)
    case Sending => stage == InFlight(e.retryCount)
    case Sent => stage == Delivered
    case Dead => stage == GivenUp(e.retryCount)
    case Failed => false
  }

  ghost predicate StoreAgrees(cfg: OutboxConfig, s: State) {
    forall id :: id in s.store ==> Agrees(s.store[id], StageOf(cfg, s.acts, id))
  }

  ghost predicate BatchWaits(cfg: OutboxConfig, s: State) {
    Distinct(s.batch) && forall id :: id in s.batch ==> id in s.used && StageOf(cfg, s.acts, id).Waiting?
  }

  predicate PassAgrees(s: State) {
    && (s.isFlushing <==> s.current.Some?)
    && (s.current.Some? <==> AnOfferIsOut(s.acts))
    && (s.current.Some? ==> s.acts[|s.acts| - 1].id == s.current.value)
    && (s.current.None? ==> s.batch == [])
  }

  ghost predicate UnusedIsNew(cfg: OutboxConfig, s: State) {
    && (forall id :: id in s.store ==> id in s.used)
    && (forall id :: id !in s.used ==> StageOf(cfg, s.acts, id) == Waiting(0))
  }

  ghost predicate KeysAgree(s: State) {
    Distinct(s.keys) && forall id :: id in s.keys <==> id in s.store
  }

  ghost predicate InOrder(keys: seq<nat>, store: map<nat, Entry>) {
    forall i, j :: 0 <= i < j < |keys| ==> Created(store, keys[i]) <= Created(store, keys[j])
  }

  ghost predicate TimesOk(cfg: OutboxConfig, s: State) {
    && InOrder(s.keys, s.store)
    && forall id :: id in s.store ==>
                      && s.store[id].createdAt <= s.clock
                      && s.store[id].nextRetryAt <= s.clock + if cfg.maxDelayMs < 0.0 then 0.0 else cfg.maxDelayMs
  }

  ghost predicate Inv(cfg: OutboxConfig, s: State) {
    && IsProper(cfg, s.acts) && StoreAgrees(cfg, s) && BatchWaits(cfg, s) && PassAgrees(s) && UnusedIsNew(cfg, s)
    && KeysAgree(s) && TimesOk(cfg, s)
  }

  /** What holds right before the pass goes on: as above, but no offer is out. */
  ghost predicate Ready(cfg: OutboxConfig, s: State) {
    && IsProper(cfg, s.acts) && StoreAgrees(cfg, s) && BatchWaits(cfg, s) && UnusedIsNew(cfg, s)
    && KeysAgree(s) && TimesOk(cfg, s) && s.isFlushing && !AnOfferIsOut(s.acts)
  }

  lemma {:induction false} StageSnoc(cfg: OutboxConfig, acts: seq<Act>, act: Act, id: nat)
    ensures StageOf(cfg, acts + [act], id) == StageAfter(cfg, StageOf(cfg, acts, id), act, id)
  {
    assert (acts + [act])[..|acts|] == acts;
  }

  lemma {:induction false} ProperSnoc(cfg: OutboxConfig, acts: seq<Act>, act: Act)
    requires IsProper(cfg, acts)
    requires match act
             case Offered(id) => StageOf(cfg, acts, id).Waiting? && !AnOfferIsOut(acts)
             case _ => acts != [] && acts[|acts| - 1] == Offered(act.id)
    ensures IsProper(cfg, acts + [act])
  {
    assert (acts + [act])[..|acts|] == acts;
  }

  lemma SameOrder(keys: seq<nat>, store: map<nat, Entry>, store': map<nat, Entry>)
    requires InOrder(keys, store)
    requires forall id :: id in keys ==> id in store && id in store' && store'[id].createdAt == store[id].createdAt
    ensures InOrder(keys, store')
  {
  }

  lemma FilterInOrder(keys: seq<nat>, store: map<nat, Entry>, keep: nat -> bool)
    requires InOrder(keys, store)
    ensures InOrder(Filter(keys, keep), store)
  {
    var key := CreatedAt(store);
    assert forall id :: key(id) == Created(store, id);
    assert Sorted(keys, key);
    FilterSorted(keys, keep, key);
  }

  lemma SortInOrder(keys: seq<nat>, store: map<nat, Entry>)
    requires InOrder(keys, store)
    ensures Sort(keys, CreatedAt(store)) == keys
  {
    var key := CreatedAt(store);
    assert forall id :: key(id) == Created(store, id);
    SortOfSorted(keys, key);
  }

  lemma OfferedAgrees(cfg: OutboxConfig, s: State)
    requires StoreAgrees(cfg, s) && BatchWaits(cfg, s) && s.batch != []
    ensures StoreAgrees(cfg, OfferNext(s))
  {
    hide StageOf, Distinct;
    var id, t := s.batch[0], OfferNext(s);
    assert id in s.batch;
    forall other | other in t.store ensures Agrees(t.store[other], StageOf(cfg, t.acts, other)) {
      assert Agrees(s.store[other], StageOf(cfg, s.acts, other));
      StageSnoc(cfg, s.acts, Offered(id), other);
    }
  }

  lemma OfferedBatchWaits(cfg: OutboxConfig, s: State)
    requires BatchWaits(cfg, s) && s.batch != []
    ensures BatchWaits(cfg, OfferNext(s))
  {
    hide StageOf;
    var id, t := s.batch[0], OfferNext(s);
    assert id in s.batch;
    forall other | other in t.batch ensures other in t.used && StageOf(cfg, t.acts, other).Waiting? {
      assert other in s.batch && other != id;
      StageSnoc(cfg, s.acts, Offered(id), other);
    }
  }

  lemma OfferedUnusedIsNew(cfg: OutboxConfig, s: State)
    requires UnusedIsNew(cfg, s) && BatchWaits(cfg, s) && s.batch != []
    ensures UnusedIsNew(cfg, OfferNext(s))
  {
    hide StageOf, Distinct;
    var id, t := s.batch[0], OfferNext(s);
    assert id in s.batch;
    forall other | other !in t.used ensures StageOf(cfg, t.acts, other) == Waiting(0) {
      StageSnoc(cfg, s.acts, Offered(id), other);
    }
  }

  lemma OfferedKeysAndTimes(cfg: OutboxConfig, s: State)
    requires KeysAgree(s) && TimesOk(cfg, s) && s.batch != []
    ensures KeysAgree(OfferNext(s)) && TimesOk(cfg, OfferNext(s))
  {
    SameOrder(s.keys, s.store, OfferNext(s).store);
    hide InOrder, Distinct;
  }

  lemma OfferNextKeeps(cfg: OutboxConfig, s: State)
    requires Ready(cfg, s)
    ensures Inv(cfg, OfferNext(s))
  {
    hide StageOf, IsProper, StoreAgrees, UnusedIsNew, KeysAgree, TimesOk, Distinct;
    if s.batch != [] {
      assert s.batch[0] in s.batch;
      ProperSnoc(cfg, s.acts, Offered(s.batch[0]));
      hide BatchWaits;
      OfferedAgrees(cfg, s);
      OfferedBatchWaits(cfg, s);
      OfferedUnusedIsNew(cfg, s);
      OfferedKeysAndTimes(cfg, s);
    } else {
      NothingOffered(cfg, s);
    }
  }

  lemma NothingOffered(cfg: OutboxConfig, s: State)
    requires Ready(cfg, s) && s.batch == []
    ensures Inv(cfg, OfferNext(s))
  {
    hide StageOf, IsProper, InOrder;
  }

  lemma OutcomeReady(cfg: OutboxConfig, s: State, id: nat, ok: bool, random: real, at: real)
    requires Inv(cfg, s) && s.current == Some(id) && s.clock <= at
    ensures Ready(cfg, Recorded(cfg, s, id, ok, random, at))
  {
    hide StageOf, IsProper, Pow2;
    var act := if ok then Succeeded(id) else Refused(id);
    var t := Recorded(cfg, s, id, ok, random, at);
    ProperSnoc(cfg, s.acts, act);
    OffersByStage(cfg, s.acts, id);
    forall other ensures StageOf(cfg, s.acts + [act], other)
                      == StageAfter(cfg, StageOf(cfg, s.acts, other), act, other) {
      StageSnoc(cfg, s.acts, act, other);
    }
    SameOrder(s.keys, s.store, t.store);
    hide InOrder, Distinct;
  }

  lemma TickReady(cfg: OutboxConfig, s: State, at: real)
    requires Inv(cfg, s) && !s.isFlushing && s.clock <= at
    ensures Ready(cfg, PassBegun(s, at))
    ensures GetPending(s, at) == Filter(s.keys, IsDue(s.store, at))
  {
    hide StageOf, IsProper, Filter, Sort;
    var due := Filter(s.keys, IsDue(s.store, at));
    FilterMembers(s.keys, IsDue(s.store, at));
    FilterDistinct(s.keys, IsDue(s.store, at));
    FilterInOrder(s.keys, s.store, IsDue(s.store, at));
    SortInOrder(due, s.store);
  }

  lemma EnqueueKeeps(cfg: OutboxConfig, s: State, id: nat, at: real)
    requires Inv(cfg, s) && Enabled(s, Enqueue(id, at))
    ensures Inv(cfg, Next(cfg, s, Enqueue(id, at)))
  {
    hide StageOf, IsProper;
  }

  /** Dropping entries, and nothing else, is harmless at any time. */
  lemma ShrinkKeeps(cfg: OutboxConfig, s: State, t: State, keep: nat -> bool)
    requires Inv(cfg, s) && s.clock <= t.clock
    requires t == s.(keys := Filter(s.keys, keep), store := t.store, clock := t.clock)
    requires forall id :: id in t.store <==> id in s.store && keep(id)
    requires forall id :: id in t.store ==> t.store[id] == s.store[id]
    ensures Inv(cfg, t)
  {
    hide StageOf, IsProper, Filter;
    FilterMembers(s.keys, keep);
    FilterDistinct(s.keys, keep);
    FilterInOrder(s.keys, s.store, keep);
    SameOrder(t.keys, s.store, t.store);
    hide InOrder, Distinct;
  }

  lemma RemoveKeeps(cfg: OutboxConfig, s: State, id: nat)
    requires Inv(cfg, s)
    ensures Inv(cfg, Next(cfg, s, Remove(id)))
  {
    hide Inv, Filter;
    ShrinkKeeps(cfg, s, Next(cfg, s, Remove(id)), IsNot(id));
  }

  lemma CleanupKeeps(cfg: OutboxConfig, s: State, maxAgeMs: real, at: real)
    requires Inv(cfg, s) && s.clock <= at
    ensures Inv(cfg, Next(cfg, s, Cleanup(maxAgeMs, at)))
  {
    hide Inv, Filter;
    ShrinkKeeps(cfg, s, Next(cfg, s, Cleanup(maxAgeMs, at)), IsKept(s.store, at - maxAgeMs));
  }

  lemma StepKeepsInv(cfg: OutboxConfig, s: State, ev: Event)
    requires Inv(cfg, s) && Enabled(s, ev)
    ensures Inv(cfg, Next(cfg, s, ev))
  {
    hide Ready;
    match ev
    case Enqueue(id, at) => EnqueueKeeps(cfg, s, id, at);
    case Remove(id) => RemoveKeeps(cfg, s, id);
    case Cleanup(maxAgeMs, at) => CleanupKeeps(cfg, s, maxAgeMs, at);
    case Tick(at) =>
      if !s.isFlushing {
        TickReady(cfg, s, at);
        OfferNextKeeps(cfg, PassBegun(s, at));
      }
    case Outcome(ok, random, at) =>
      OutcomeReady(cfg, s, s.current.value, ok, random, at);
      OfferNextKeeps(cfg, Recorded(cfg, s, s.current.value, ok, random, at));
  }

  lemma {:induction false} RunKeepsInv(cfg: OutboxConfig, events: seq<Event>)
    requires IsRun(cfg, events)
    ensures Inv(cfg, Run(cfg, events))
  {
    if events != [] {
      RunKeepsInv(cfg, events[..|events| - 1]);
      StepKeepsInv(cfg, Run(cfg, events[..|events| - 1]), events[|events| - 1]);
    }
  }

  // ----- the theorems -----------------------------------------------------------------------------------------

  /** In every run, whatever is enqueued, removed or cleaned up in between: an entry is offered at most
      max(1, maxRetries) times, exactly that often if it is given up, and never once it was delivered or given up. */
  lemma OffersAreBounded(cfg: OutboxConfig, events: seq<Event>, id: nat)
    requires IsRun(cfg, events)
    ensures var acts := Run(cfg, events).acts;
            && Offers(acts, id) <= Budget(cfg)
            && (StageOf(cfg, acts, id).GivenUp? ==> Offers(acts, id) == Budget(cfg))
            && forall k, j :: 0 <= k <= j < |acts| && acts[j].Offered? ==>
                                !StageOf(cfg, acts[..k], acts[j].id).Delivered?
                                && !StageOf(cfg, acts[..k], acts[j].id).GivenUp?
  {
    RunKeepsInv(cfg, events);
    var acts := Run(cfg, events).acts;
    OffersByStage(cfg, acts, id);
    forall k, j | 0 <= k <= j < |acts| && acts[j].Offered?
      ensures !StageOf(cfg, acts[..k], acts[j].id).Delivered? && !StageOf(cfg, acts[..k], acts[j].id).GivenUp?
    {
      NoOfferAfterTheEnd(cfg, acts, k, j);
    }
  }

  /** In every run the store tells what the acts tell; at most one entry is sending, the one the pass waits for; and
      no entry has to wait longer than maxDelayMs from now. */
  lemma StoreTellsTheActs(cfg: OutboxConfig, events: seq<Event>, id: nat)
    requires IsRun(cfg, events) && id in Run(cfg, events).store
    ensures var s := Run(cfg, events);
            && Agrees(s.store[id], StageOf(cfg, s.acts, id))
            && (s.store[id].status == Sending ==> s.current == Some(id))
            && s.store[id].nextRetryAt <= s.clock + if cfg.maxDelayMs < 0.0 then 0.0 else cfg.maxDelayMs
  {
    RunKeepsInv(cfg, events);
    OffersByStage(cfg, Run(cfg, events).acts, id);
  }

  /** A pass offers the entries that are due in the order in which they were enqueued. */
  lemma PassKeepsEnqueueOrder(cfg: OutboxConfig, events: seq<Event>, now: real)
    requires IsRun(cfg, events) && Run(cfg, events).clock <= now
    ensures GetPending(Run(cfg, events), now) == Filter(Run(cfg, events).keys, IsDue(Run(cfg, events).store, now))
  {
    RunKeepsInv(cfg, events);
    var s := Run(cfg, events);
    FilterInOrder(s.keys, s.store, IsDue(s.store, now));
    SortInOrder(Filter(s.keys, IsDue(s.store, now)), s.store);
  }
}
