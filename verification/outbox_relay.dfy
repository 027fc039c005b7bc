/** The outbox object: its map of entries updated in place, and the relay loop (src/internal/outbox.ts). */
module OutboxRelay {
  import opened Powers
  import opened Wrappers
  import opened Recency
  import opened StableSorting
  import opened Outboxes
  import opened OutboxDelivery

  datatype Stats = Stats(pending: nat, sending: nat, sent: nat, failed: nat, dead: nat)

  function CountOf(keys: seq<nat>, store: map<nat, Entry>, status: Status): nat {
    if keys == [] then 0
    else CountOf(keys[..|keys| - 1], store, status)
         + if keys[|keys| - 1] in store && store[keys[|keys| - 1]].status == status then 1 else 0
  }

  class Outbox {
    const config: OutboxConfig
    var keys: seq<nat>
    var store: map<nat, Entry>
    var isFlushing: bool
    /** What the running pass waits for, and what it has yet to offer. */
    var current: Option<nat>
    var batch: seq<nat>
    ghost var history: seq<Event>

    ghost predicate Valid()
      reads this
    {
      IsRun(config, history) &&
      var s := Run(config, history);
      s.keys == keys && s.store == store && s.isFlushing == isFlushing && s.current == current && s.batch == batch
    }

    ghost function Before(): State
      requires IsRun(config, history)
      reads this
    {
      Run(config, history)
    }

    constructor (config: OutboxConfig)
      ensures Valid() && this.config == config && history == []
    {
      this.config := config;
      keys, store, isFlushing, current, batch, history := [], map[], false, None, [], [];
    }

    ghost method Happened(ev: Event)
      requires IsRun(config, history) && Enabled(Before(), ev)
      requires var t := Next(config, Before(), ev);
               t.keys == keys && t.store == store && t.isFlushing == isFlushing && t.current == current
               && t.batch == batch
      modifies this`history
      ensures Valid() && history == old(history) + [ev]
    {
      assert (history + [ev])[..|history|] == history;
      history := history + [ev];
    }

    /** `id` is the fresh uuid. */
    method Enqueue(id: nat, now: real)
      requires Valid() && id !in Before().used && Before().clock <= now
      modifies this
      ensures Valid() && history == old(history) + [Event.Enqueue(id, now)]
    {
      store := store[id := Entry(Pending, 0, now, now)];
      keys := keys + [id];
      Happened(Event.Enqueue(id, now));
    }

    method DueEntries(now: real) returns (entries: seq<nat>)
      ensures entries == Filter(keys, IsDue(store, now))
    {
      entries := [];
      ghost var due := IsDue(store, now);
      for i := 0 to |keys|
        invariant entries == Filter(keys[..i], due)
      {
        var id := keys[i];
        FilterSnoc(keys[..i], id, due);
        assert keys[..i + 1] == keys[..i] + [id];
        if id in store && store[id].status == Pending && store[id].nextRetryAt <= now {
          entries := entries + [id];
        }
      }
      assert keys[..|keys|] == keys;
    }

    method GetPending(now: real) returns (entries: seq<nat>)
      requires Valid() && Before().clock <= now
      ensures entries == Outboxes.GetPending(Before(), now)
    {
      entries := DueEntries(now);
      entries := Sort(entries, CreatedAt(store));
    }

    method MarkSending(id: nat)
      modifies this`store
      ensures store == Marked(old(store), id, Sending)
    {
      if id in store { store := store[id := store[id].(status := Sending)]; }
    }

    method MarkSent(id: nat)
      modifies this`store
      ensures store == Marked(old(store), id, Sent)
    {
      if id in store { store := store[id := store[id].(status := Sent)]; }
    }

    method MarkFailed(id: nat, random: real, now: real)
      modifies this`store
      ensures store == MarkedFailed(old(store), config, id, random, now)
    {
      if id !in store {
        return;
      }
      var entry := store[id].(retryCount := store[id].retryCount + 1);
      if entry.retryCount >= config.maxRetries {
        store := store[id := entry.(status := Dead)];
        return;
      }
      var expDelay := config.baseDelayMs * Pow2(entry.retryCount);
      var jitter := random * config.baseDelayMs;
      var delay := if expDelay + jitter <= config.maxDelayMs then expDelay + jitter else config.maxDelayMs;
      assert delay == Delay(config, entry.retryCount, random);
      store := store[id := entry.(status := Pending, nextRetryAt := now + delay)];
    }

    method Remove(id: nat)
      requires Valid()
      modifies this
      ensures Valid() && history == old(history) + [Event.Remove(id)]
    {
      store := store - {id};
      keys := Filter(keys, IsNot(id));
      Happened(Event.Remove(id));
    }

    /** Visits every entry and deletes the sent ones created before `cutoff`; their keys go with them. */
    method SweepSent(cutoff: real)
      requires Distinct(keys) && forall id :: id in keys <==> id in store
      modifies this`keys, this`store
      ensures keys == Filter(old(keys), IsKept(old(store), cutoff)) && store == Swept(old(store), cutoff)
      ensures forall id :: id in store <==> id in old(store) &&
                                            !(old(store)[id].status == Sent && old(store)[id].createdAt < cutoff)
      ensures forall id :: id in store ==> store[id] == old(store)[id]
    {
      var before := store;
      ghost var visited: set<nat> := {};
      for i := 0 to |keys|
        invariant keys == old(keys)
        invariant forall j :: 0 <= j < |keys| ==> (keys[j] in visited <==> j < i)
        invariant store == map id | id in before && !(id in visited && IsStale(before[id], cutoff)) :: before[id]
      {
        var id := keys[i];
        visited := visited + {id};
        assert id in keys && id in store;
        if store[id].status == Sent && store[id].createdAt < cutoff {
          store := store - {id};
        }
      }
      assert forall id :: id in before ==> id in keys;
      keys := Filter(keys, IsKept(before, cutoff));
    }

    method Cleanup(maxAgeMs: real, now: real)
      requires Valid() && Before().clock <= now
      modifies this
      ensures Valid() && history == old(history) + [Event.Cleanup(maxAgeMs, now)]
    {
      assert Distinct(keys) && forall id :: id in keys <==> id in store by { NothingIsFailed(config, history); }
      ghost var before := Before();
      SweepSent(now - maxAgeMs);
      assert keys == Next(config, before, Event.Cleanup(maxAgeMs, now)).keys;
      Happened(Event.Cleanup(maxAgeMs, now));
    }

    method CountEntries() returns (stats: Stats)
      requires forall id :: id in keys ==> id in store && store[id].status != Failed
      ensures stats == Stats(CountOf(keys, store, Pending), CountOf(keys, store, Sending), CountOf(keys, store, Sent),
                             0, CountOf(keys, store, Dead))
      ensures stats.pending + stats.sending + stats.sent + stats.failed + stats.dead == |keys|
    {
      stats := Stats(0, 0, 0, 0, 0);
      for i := 0 to |keys|
        invariant stats == Stats(CountOf(keys[..i], store, Pending), CountOf(keys[..i], store, Sending),
                                 CountOf(keys[..i], store, Sent), 0, CountOf(keys[..i], store, Dead))
        invariant stats.pending + stats.sending + stats.sent + stats.dead == i
      {
        assert keys[..i + 1][..i] == keys[..i] && keys[i] in keys;
        match store[keys[i]].status
        case Pending => stats := stats.(pending := stats.pending + 1);
        case Sending => stats := stats.(sending := stats.sending + 1);
        case Sent => stats := stats.(sent := stats.sent + 1);
        case Failed => assert false;
        case Dead => stats := stats.(dead := stats.dead + 1);
      }
      assert keys[..|keys|] == keys;
    }

    /** The statistics add up to the size of the store, and nothing is ever counted as failed. */
    method GetStats() returns (stats: Stats)
      requires Valid()
      ensures stats == Stats(CountOf(keys, store, Pending), CountOf(keys, store, Sending), CountOf(keys, store, Sent),
                             0, CountOf(keys, store, Dead))
      ensures stats.pending + stats.sending + stats.sent + stats.failed + stats.dead == |store|
    {
      NothingIsFailed(config, history);
      KeysCountTheStore(keys, store);
      stats := CountEntries();
    }

    /** The pass takes up its next entry and calls `sendFn`, or ends. */
    method OfferNextEntry()
      modifies this`store, this`isFlushing, this`current, this`batch
      ensures var t := OfferNext(State(keys, old(store), old(isFlushing), old(current), old(batch), [], {}, 0.0));
              t.store == store && t.isFlushing == isFlushing && t.current == current && t.batch == batch
    {
      if batch == [] {
        isFlushing, current := false, None;
        return;
      }
      var id := batch[0];
      batch := batch[1..];
      MarkSending(id);
      current := Some(id);
    }

    /** The relay's interval fires. */
    method RelayTick(now: real)
      requires Valid() && Before().clock <= now
      modifies this
      ensures Valid() && history == old(history) + [Tick(now)]
    {
      if !isFlushing {
        batch := GetPending(now);
        isFlushing := true;
        OfferNextEntry();
      }
      Happened(Tick(now));
    }

    /** `sendFn` has settled for the entry the pass waits for: `ok` if it resolved to true. */
    method RelayContinues(ok: bool, random: real, now: real)
      requires Valid() && current.Some? && Before().clock <= now && 0.0 <= random < 1.0
      modifies this
      ensures Valid() && history == old(history) + [Outcome(ok, random, now)]
    {
      if ok {
        MarkSent(current.value);
      } else {
        MarkFailed(current.value, random, now);
      }
      OfferNextEntry();
      Happened(Outcome(ok, random, now));
    }
  }

  lemma NothingIsFailed(cfg: OutboxConfig, events: seq<Event>)
    requires IsRun(cfg, events)
    ensures var s := Run(cfg, events);
            && Distinct(s.keys) && (forall id :: id in s.keys <==> id in s.store)
            && forall id :: id in s.keys ==> id in s.store && s.store[id].status != Failed
  {
    RunKeepsInv(cfg, events);
    var s := Run(cfg, events);
    forall id | id in s.keys ensures s.store[id].status != Failed {
      assert Agrees(s.store[id], StageOf(cfg, s.acts, id));
    }
  }

  lemma {:induction false} KeysCountTheStore(keys: seq<nat>, store: map<nat, Entry>)
    requires Distinct(keys) && forall id :: id in keys <==> id in store
    ensures |keys| == |store|
  {
    DistinctCount(keys, store.Keys);
  }

  lemma {:induction false} DistinctCount(keys: seq<nat>, ids: set<nat>)
    requires Distinct(keys) && forall id :: id in ids <==> id in keys
    ensures |keys| == |ids|
  {
    if keys == [] {
      assert ids == {};
    } else {
      var rest, last := keys[..|keys| - 1], keys[|keys| - 1];
      assert keys == rest + [last] && last !in rest;
      DistinctCount(rest, ids - {last});
    }
  }
}
