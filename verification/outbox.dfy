/** The in-memory outbox and its relay (src/internal/outbox.ts). One relay pass is cut into the steps between its
    awaits: a tick starts a pass and offers its first entry, the outcome of an offer is recorded and the next entry
    is offered at once. Enqueueing, removal and cleanup may happen in between. */
module Outboxes {
  import opened Powers
  import opened Wrappers
  import opened StableSorting

  datatype Status = Pending | Sending | Sent | Failed | Dead

  datatype Entry = Entry(status: Status, retryCount: nat, nextRetryAt: real, createdAt: real)

  datatype OutboxConfig = OutboxConfig(maxRetries: int, baseDelayMs: real, maxDelayMs: real)

  /** What the relay did, in order. */
  datatype Act = Offered(id: nat) | Succeeded(id: nat) | Refused(id: nat)

  /** The store with its keys in insertion order; the rest of the running pass and the entry it waits for. */
  datatype State = State(
    keys: seq<nat>, store: map<nat, Entry>,
    isFlushing: bool, current: Option<nat>, batch: seq<nat>,
    acts: seq<Act>, used: set<nat>, clock: real)

  const EMPTY := State([], map[], false, None, [], [], {}, 0.0)

  datatype Event =
    | Enqueue(id: nat, at: real)
    | Remove(id: nat)
    | Cleanup(maxAgeMs: real, at: real)
    | Tick(at: real)
    | Outcome(ok: bool, random: real, at: real)

  function IsDue(store: map<nat, Entry>, now: real): nat -> bool {
    (id: nat) => id in store && store[id].status == Pending && store[id].nextRetryAt <= now
  }

  function Created(store: map<nat, Entry>, id: nat): real {
    if id in store then store[id].createdAt else 0.0
  }

  function CreatedAt(store: map<nat, Entry>): nat -> real {
    (id: nat) => Created(store, id)
  }

  function GetPending(s: State, now: real): seq<nat> {
    Sort(Filter(s.keys, IsDue(s.store, now)), CreatedAt(s.store))
  }

  function Marked(store: map<nat, Entry>, id: nat, status: Status): map<nat, Entry> {
    if id in store then store[id := store[id].(status := status)] else store
  }

  function Delay(cfg: OutboxConfig, retryCount: nat, random: real): real {
    var full := cfg.baseDelayMs * Pow2(retryCount) + random * cfg.baseDelayMs;
    if full <= cfg.maxDelayMs then full else cfg.maxDelayMs
  }

  function AfterFailure(e: Entry, cfg: OutboxConfig, random: real, now: real): Entry {
    var counted := e.(retryCount := e.retryCount + 1);
    if counted.retryCount >= cfg.maxRetries then counted.(status := Dead)
    else counted.(status := Pending, nextRetryAt := now + Delay(cfg, counted.retryCount, random))
  }

  function MarkedFailed(store: map<nat, Entry>, cfg: OutboxConfig, id: nat, random: real, now: real): map<nat, Entry> {
    if id in store then store[id := AfterFailure(store[id], cfg, random, now)] else store
  }

  predicate IsStale(e: Entry, cutoff: real) {
    e.status == Sent && e.createdAt < cutoff
  }

  function IsKept(store: map<nat, Entry>, cutoff: real): nat -> bool {
    (id: nat) => id in store && !IsStale(store[id], cutoff)
  }

  function Swept(store: map<nat, Entry>, cutoff: real): map<nat, Entry> {
    map id | id in store && !IsStale(store[id], cutoff) :: store[id]
  }

  function IsNot(id: nat): nat -> bool {
    (other: nat) => other != id
  }

  /** The pass goes on with its next entry, or ends. */
  function OfferNext(s: State): State {
    if s.batch == [] then s.(isFlushing := false, current := None)
    else
      var id := s.batch[0];
      s.(current := Some(id), batch := s.batch[1..], store := Marked(s.store, id, Sending),
      acts := s.acts + [Offered(id)])
  }

  /** The outcome of the offer that was out is written down. */
  function Recorded(cfg: OutboxConfig, s: State, id: nat, ok: bool, random: real, at: real): State {
    if ok then s.(store := Marked(s.store, id, Sent), acts := s.acts + [Succeeded(id)], clock := at)
    else s.(store := MarkedFailed(s.store, cfg, id, random, at), acts := s.acts + [Refused(id)], clock := at)
  }

  /** A pass begins with the entries that are due. */
  function PassBegun(s: State, at: real): State {
    s.(isFlushing := true, batch := GetPending(s, at), clock := at)
  }

  predicate Enabled(s: State, ev: Event) {
    match ev
    case Enqueue(id, at) => id !in s.used && s.clock <= at
    case Remove(_) => true
    case Cleanup(_, at) => s.clock <= at
    case Tick(at) => s.clock <= at
    case Outcome(_, random, at) => s.current.Some? && s.clock <= at && 0.0 <= random < 1.0
  }

  function Next(cfg: OutboxConfig, s: State, ev: Event): State
    requires Enabled(s, ev)
  {
    match ev
    case Enqueue(id, at) =>
      s.(keys := s.keys + [id], store := s.store[id := Entry(Pending, 0, at, at)], used := s.used + {id}, clock := at)
    case Remove(id) => s.(keys := Filter(s.keys, IsNot(id)), store := s.store - {id})
    case Cleanup(maxAgeMs, at) =>
      var cutoff := at - maxAgeMs;
      s.(keys := Filter(s.keys, IsKept(s.store, cutoff)), store := Swept(s.store, cutoff), clock := at)
    case Tick(at) =>
      if s.isFlushing then s.(clock := at)
      else OfferNext(PassBegun(s, at))
    case Outcome(ok, random, at) => OfferNext(Recorded(cfg, s, s.current.value, ok, random, at))
  }

  ghost predicate IsRun(cfg: OutboxConfig, events: seq<Event>)
    decreases |events|, 0
  {
    events == [] ||
    (IsRun(cfg, events[..|events| - 1]) && Enabled(Run(cfg, events[..|events| - 1]), events[|events| - 1]))
  }

  ghost function Run(cfg: OutboxConfig, events: seq<Event>): State
    requires IsRun(cfg, events)
    decreases |events|, 1
  {
    if events == [] then EMPTY else Next(cfg, Run(cfg, events[..|events| - 1]), events[|events| - 1])
  }
}
