/** Retention and retries: nothing undelivered leaves the store by itself, what a pass offers is due, and a refused
    entry waits before it is due again. */
module OutboxRetention {
  import opened Powers
  import opened Wrappers
  import opened Recency
  import opened StableSorting
  import opened Outboxes
  import opened OutboxDelivery

  /** A cleanup deletes exactly the sent entries created before the cutoff; every other entry stays as it is. */
  lemma CleanupKeepsTheRest(cfg: OutboxConfig, s: State, maxAgeMs: real, at: real)
    requires Enabled(s, Cleanup(maxAgeMs, at))
    ensures var t := Next(cfg, s, Cleanup(maxAgeMs, at));
            && (forall id :: id in t.store <==>
                             id in s.store && !(s.store[id].status == Sent && s.store[id].createdAt < at - maxAgeMs))
            && (forall id :: id in t.store ==> t.store[id] == s.store[id])
            && (KeysAgree(s) ==> KeysAgree(t))
  {
    FilterMembers(s.keys, IsKept(s.store, at - maxAgeMs));
    if KeysAgree(s) { FilterDistinct(s.keys, IsKept(s.store, at - maxAgeMs)); }
    hide Filter, Distinct;
  }

  /** The entry was removed by its id. */
  ghost predicate WasRemoved(events: seq<Event>, id: nat) {
    exists k :: 0 <= k < |events| && events[k] == Remove(id)
  }

  /** Some cleanup found it sent and older than its limit. */
  ghost predicate WasOutdated(cfg: OutboxConfig, events: seq<Event>, id: nat)
    requires IsRun(cfg, events)
  {
    exists k :: 0 <= k < |events| && OutdatedAt(cfg, events, id, k)
  }

  ghost predicate OutdatedAt(cfg: OutboxConfig, events: seq<Event>, id: nat, k: nat)
    requires k < |events|
  {
    && IsRun(cfg, events[..k]) && events[k].Cleanup?
    && var store := Run(cfg, events[..k]).store;
    id in store && store[id].status == Sent && store[id].createdAt < events[k].at - events[k].maxAgeMs
  }

  /** Which turns take an entry out of the store. */
  lemma LeavesBy(cfg: OutboxConfig, s: State, ev: Event, id: nat)
    requires Enabled(s, ev) && id in s.used
    ensures var t := Next(cfg, s, ev);
            && id in t.used
            && (id in s.store && id !in t.store ==>
                  || ev == Remove(id)
                  || (ev.Cleanup? && s.store[id].status == Sent && s.store[id].createdAt < ev.at - ev.maxAgeMs))
  {
    hide GetPending, Filter;
    if ev.Cleanup? { CleanupKeepsTheRest(cfg, s, ev.maxAgeMs, ev.at); }
  }

  lemma LeftBefore(cfg: OutboxConfig, events: seq<Event>, id: nat)
    requires events != [] && IsRun(cfg, events) && IsRun(cfg, events[..|events| - 1])
    requires WasRemoved(events[..|events| - 1], id) || WasOutdated(cfg, events[..|events| - 1], id)
    ensures WasRemoved(events, id) || WasOutdated(cfg, events, id)
  {
    hide Run, IsRun;
    var before := events[..|events| - 1];
    if WasRemoved(before, id) {
      var k :| 0 <= k < |before| && before[k] == Remove(id);
      assert events[k] == Remove(id);
    } else {
      var k :| 0 <= k < |before| && OutdatedAt(cfg, before, id, k);
      assert before[..k] == events[..k];
      assert OutdatedAt(cfg, events, id, k);
    }
  }

  /** In every run an entry that was enqueued is still in the store, unless it was removed by its id, or delivered and
      swept up after its time. */
  lemma {:induction false} NothingIsDropped(cfg: OutboxConfig, events: seq<Event>, id: nat)
    requires IsRun(cfg, events) && id in Run(cfg, events).used && id !in Run(cfg, events).store
    ensures WasRemoved(events, id) || WasOutdated(cfg, events, id)
  {
    if events != [] {
      var n := |events| - 1;
      var s := Run(cfg, events[..n]);
      assert Run(cfg, events) == Next(cfg, s, events[n]);
      EnqueuedIsStored(cfg, s, events[n], id);
      hide Run, IsRun, Next, WasRemoved, WasOutdated;
      if id in s.store {
        LeavesBy(cfg, s, events[n], id);
        LeftNow(cfg, events, id);
      } else {
        NothingIsDropped(cfg, events[..n], id);
        LeftBefore(cfg, events, id);
      }
    }
  }

  lemma EnqueuedIsStored(cfg: OutboxConfig, s: State, ev: Event, id: nat)
    requires Enabled(s, ev) && id in Next(cfg, s, ev).used && id !in Next(cfg, s, ev).store
    ensures id in s.used
  {
    hide GetPending, Filter;
  }

  lemma LeftNow(cfg: OutboxConfig, events: seq<Event>, id: nat)
    requires events != [] && IsRun(cfg, events) && IsRun(cfg, events[..|events| - 1])
    requires var store, ev := Run(cfg, events[..|events| - 1]).store, events[|events| - 1];
             && id in store
             && (ev == Remove(id)
                 || (ev.Cleanup? && store[id].status == Sent && store[id].createdAt < ev.at - ev.maxAgeMs))
    ensures WasRemoved(events, id) || WasOutdated(cfg, events, id)
  {
    var n := |events| - 1;
    if events[n] != Remove(id) { assert OutdatedAt(cfg, events, id, n); }
  }

  // ----- what a pass offers --------------------------------------------------------------------------------------

  /** A pass takes up an entry exactly if it is in the store, pending, and its time has come. */
  lemma OfferedIffDue(s: State, now: real, id: nat)
    requires KeysAgree(s)
    ensures id in GetPending(s, now) <==>
            id in s.store && s.store[id].status == Pending && s.store[id].nextRetryAt <= now
  {
    var due := Filter(s.keys, IsDue(s.store, now));
    FilterMembers(s.keys, IsDue(s.store, now));
    SortIsStable(due, CreatedAt(s.store));
    WithKeyMembers(due, CreatedAt(s.store), Created(s.store, id));
    WithKeyMembers(Sort(due, CreatedAt(s.store)), CreatedAt(s.store), Created(s.store, id));
    hide Filter, Sort, WithKey;
  }

  /** A fresh entry is due at once. */
  lemma EnqueuedIsDue(cfg: OutboxConfig, events: seq<Event>, id: nat, at: real)
    requires IsRun(cfg, events) && Enabled(Run(cfg, events), Enqueue(id, at))
    ensures var t := Next(cfg, Run(cfg, events), Enqueue(id, at));
            && id in t.store && t.store[id].retryCount == 0 && t.store[id].createdAt == at
            && id in GetPending(t, at)
  {
    RunKeepsInv(cfg, events);
    var s := Run(cfg, events);
    hide Run, IsRun, GetPending;
    EnqueueKeeps(cfg, s, id, at);
    hide Inv;
    assert KeysAgree(Next(cfg, s, Enqueue(id, at))) by { InvKeys(cfg, Next(cfg, s, Enqueue(id, at))); }
    OfferedIffDue(Next(cfg, s, Enqueue(id, at)), at, id);
  }

  lemma InvKeys(cfg: OutboxConfig, s: State)
    requires Inv(cfg, s)
    ensures KeysAgree(s)
  {
  }

  // ----- retries ---------------------------------------------------------------------------------------------

  function Smaller(a: real, b: real): real {
    if a <= b then a else b
  }

  /** The delay before retry n: `baseDelayMs` doubled n times. */
  function Doubled(cfg: OutboxConfig, n: nat): real {
    cfg.baseDelayMs * Pow2(n)
  }

  /** Refused for the last time the entry is dead; otherwise it is pending, and due after the doubled delay, at most one
      `baseDelayMs` later, and never later than `maxDelayMs`. */
  ghost predicate IsPostponed(before: Entry, after: Entry, cfg: OutboxConfig, at: real) {
    var n := after.retryCount;
    && n == before.retryCount + 1 && after.createdAt == before.createdAt
    && if n >= cfg.maxRetries then after.status == Dead && after.nextRetryAt == before.nextRetryAt
       else
         && after.status == Pending
         && (cfg.baseDelayMs >= 0.0 ==>
               at + Smaller(Doubled(cfg, n), cfg.maxDelayMs) <= after.nextRetryAt
            <= at + Smaller(Doubled(cfg, n) + cfg.baseDelayMs, cfg.maxDelayMs))
  }

  lemma RefusedIsPostponed(e: Entry, cfg: OutboxConfig, random: real, at: real)
    requires 0.0 <= random < 1.0
    ensures IsPostponed(e, AfterFailure(e, cfg, random, at), cfg, at)
  {
    hide Smaller, Delay, Doubled;
    if cfg.baseDelayMs >= 0.0 { DelayBounds(cfg, e.retryCount + 1, random); }
  }

  lemma DelayBounds(cfg: OutboxConfig, n: nat, random: real)
    requires 0.0 <= random < 1.0 && cfg.baseDelayMs >= 0.0
    ensures Smaller(Doubled(cfg, n), cfg.maxDelayMs) <= Delay(cfg, n, random)
    ensures Delay(cfg, n, random) <= Smaller(Doubled(cfg, n) + cfg.baseDelayMs, cfg.maxDelayMs)
  {
    JitterBounds(cfg.baseDelayMs, random);
    DelayIsCapped(cfg, n, random, Doubled(cfg, n), random * cfg.baseDelayMs);
  }

  lemma DelayIsCapped(cfg: OutboxConfig, n: nat, random: real, full: real, jitter: real)
    requires full == Doubled(cfg, n) && jitter == random * cfg.baseDelayMs && 0.0 <= jitter <= cfg.baseDelayMs
    ensures Smaller(full, cfg.maxDelayMs) <= Delay(cfg, n, random) <= Smaller(full + cfg.baseDelayMs, cfg.maxDelayMs)
  {
    hide Smaller;
    CapKeepsBounds(full, jitter, cfg.baseDelayMs, cfg.maxDelayMs);
    var delay := if full + jitter <= cfg.maxDelayMs then full + jitter else cfg.maxDelayMs;
    assert delay == Delay(cfg, n, random);
  }

  lemma CapKeepsBounds(full: real, jitter: real, most: real, cap: real)
    requires 0.0 <= jitter <= most
    ensures Smaller(full, cap) <= (if full + jitter <= cap then full + jitter else cap) <= Smaller(full + most, cap)
  {
  }

  lemma JitterBounds(base: real, random: real)
    requires 0.0 <= random < 1.0 && base >= 0.0
    ensures 0.0 <= random * base <= base
  {
    assert base - random * base == (1.0 - random) * base;
  }

  /** In every run a refusal postpones the entry that was out, if it is still in the store, while the pass goes on with
      another one. */
  lemma RefusalPostpones(cfg: OutboxConfig, events: seq<Event>, random: real, at: real)
    requires IsRun(cfg, events) && Enabled(Run(cfg, events), Outcome(false, random, at))
    ensures var s := Run(cfg, events);
            var t, id := Next(cfg, s, Outcome(false, random, at)), s.current.value;
            && (id in t.store <==> id in s.store)
            && (id in s.store ==> IsPostponed(s.store[id], t.store[id], cfg, at))
  {
    RunKeepsInv(cfg, events);
    var s := Run(cfg, events);
    var id := s.current.value;
    hide Run, IsRun;
    CurrentIsNotAhead(cfg, s);
    hide Inv, IsPostponed, AfterFailure, IsDue;
    if id in s.store { RefusedIsPostponed(s.store[id], cfg, random, at); }
  }

  lemma CurrentIsNotAhead(cfg: OutboxConfig, s: State)
    requires Inv(cfg, s) && s.current.Some?
    ensures s.current.value !in s.batch
  {
    OffersByStage(cfg, s.acts, s.current.value);
  }
}
