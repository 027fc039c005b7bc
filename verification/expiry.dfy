/** Lazy expiry against periodic cleanup: the idempotency store (src/internal/idempotency.ts) and the nonce cache
    (src/internal/security.ts). Both answer as if nothing were ever deleted. Histories are newest first. */
module Idempotency {
  import opened Wrappers

  datatype Entry = Entry(payloadFingerprint: string, response: string, createdAt: real, expiresAt: real)

  datatype CheckResult = New | Duplicate(response: string) | Conflict

  datatype Event =
    | Store(key: string, fingerprint: string, response: string, ttlSeconds: Option<real>, at: real)
    | Check(key: string, fingerprint: string, at: real)
    | Cleanup(at: real)

  datatype State = State(entries: map<string, Entry>, expiredCleaned: nat)

  function NewEntry(fingerprint: string, response: string, ttlSeconds: Option<real>, defaultTtl: real,
                    now: real): Entry
  {
    Entry(fingerprint, response, now, now + (if ttlSeconds.Some? then ttlSeconds.value else defaultTtl) * 1000.0)
  }

  function Kept(entries: map<string, Entry>, now: real): map<string, Entry> {
    map key | key in entries && now < entries[key].expiresAt :: entries[key]
  }

  function Answer(entry: Option<Entry>, fingerprint: string, now: real): CheckResult {
    if entry.None? || entry.value.expiresAt <= now then New
    else if entry.value.payloadFingerprint == fingerprint then Duplicate(entry.value.response)
    else Conflict
  }

  function Lookup(entries: map<string, Entry>, key: string): Option<Entry> {
    if key in entries then Some(entries[key]) else None
  }

  function Next(s: State, ev: Event, defaultTtl: real): State {
    match ev
    case Store(key, fingerprint, response, ttlSeconds, at) =>
      s.(entries := s.entries[key := NewEntry(fingerprint, response, ttlSeconds, defaultTtl, at)])
    case Check(key, _, at) =>
      if key in s.entries && s.entries[key].expiresAt <= at then State(s.entries - {key}, s.expiredCleaned + 1) else s
    case Cleanup(at) =>
      var kept := Kept(s.entries, at);
      State(kept, s.expiredCleaned + |s.entries.Keys - kept.Keys|)
  }

  function After(history: seq<Event>, defaultTtl: real): State {
    if history == [] then State(map[], 0) else Next(After(history[1..], defaultTtl), history[0], defaultTtl)
  }

  ghost predicate Monotone(history: seq<Event>) {
    forall i, j :: 0 <= i < j < |history| ==> history[j].at <= history[i].at
  }

  lemma MonotoneCons(ev: Event, older: seq<Event>)
    requires Monotone(older) && (older != [] ==> older[0].at <= ev.at)
    ensures var history := [ev] + older; history[1..] == older && history[0] == ev && Monotone(history)
  {
  }

  // ----- the store that never deletes ----------------------------------------------------------------------------

  /** What was stored last under the key, ever. */
  function Latest(history: seq<Event>, key: string, defaultTtl: real): Option<Entry> {
    if history == [] then None
    else if history[0].Store? && history[0].key == key then
      Some(NewEntry(history[0].fingerprint, history[0].response, history[0].ttlSeconds, defaultTtl, history[0].at))
    else Latest(history[1..], key, defaultTtl)
  }

  /** An entry is missing only if it has expired. */
  ghost predicate Faithful(s: State, history: seq<Event>, key: string, defaultTtl: real, now: real) {
    var latest := Latest(history, key, defaultTtl);
    if key in s.entries then latest == Some(s.entries[key]) else latest.None? || latest.value.expiresAt <= now
  }

  lemma {:induction false} StaysFaithful(history: seq<Event>, key: string, defaultTtl: real, now: real)
    requires Monotone(history) && (history != [] ==> history[0].at <= now)
    ensures Faithful(After(history, defaultTtl), history, key, defaultTtl, now)
  {
    if history != [] {
      var older := history[1..];
      assert forall i :: 0 <= i < |older| ==> older[i] == history[i + 1];
      StaysFaithful(older, key, defaultTtl, history[0].at);
    }
  }

  /** With a monotone clock, `check` answers from the latest store of the key in the whole history, if it has not
      expired, wherever cleanups and other checks ran in between. */
  lemma {:induction false} CheckRefinesHistory(history: seq<Event>, key: string, fingerprint: string,
                                               defaultTtl: real, now: real)
    requires Monotone(history) && (history != [] ==> history[0].at <= now)
    ensures Answer(Lookup(After(history, defaultTtl).entries, key), fingerprint, now)
         == Answer(Latest(history, key, defaultTtl), fingerprint, now)
  {
    StaysFaithful(history, key, defaultTtl, now);
  }

  /** The latest store of the key, newest events first. */
  ghost predicate IsLatestStore(history: seq<Event>, key: string, k: nat) {
    && k < |history| && history[k].Store? && history[k].key == key
    && forall j :: 0 <= j < k ==> !(history[j].Store? && history[j].key == key)
  }

  /** When what this event stored expires, in milliseconds. */
  function ExpiryOf(ev: Event, defaultTtl: real): real
    requires ev.Store?
  {
    match ev.ttlSeconds
    case None => ev.at + 1000.0 * defaultTtl
    case Some(ttl) => ev.at + 1000.0 * ttl
  }

  lemma {:induction false} LatestIsStored(history: seq<Event>, key: string, defaultTtl: real)
    ensures Latest(history, key, defaultTtl).None? <==>
            forall j :: 0 <= j < |history| ==> !(history[j].Store? && history[j].key == key)
    ensures forall k: nat :: IsLatestStore(history, key, k) ==>
                               Latest(history, key, defaultTtl)
                               == Some(Entry(history[k].fingerprint, history[k].response, history[k].at,
                                             ExpiryOf(history[k], defaultTtl)))
  {
    if history != [] {
      var older := history[1..];
      LatestIsStored(older, key, defaultTtl);
      assert forall j :: 0 <= j < |older| ==> older[j] == history[j + 1];
      forall k: nat | IsLatestStore(history, key, k)
        ensures Latest(history, key, defaultTtl)
             == Some(Entry(history[k].fingerprint, history[k].response, history[k].at,
                           ExpiryOf(history[k], defaultTtl)))
      {
        if k > 0 { assert IsLatestStore(older, key, k - 1); }
      }
    }
  }

  /** With a monotone clock, an answer is a duplicate if and only if the latest store of the key has not expired and had
      the same fingerprint, and then it carries that store's response; a conflict if and only if it has not expired and
      had another fingerprint; and new if there was none, or it has expired. */
  lemma AnswerTellsTheStores(history: seq<Event>, key: string, fingerprint: string, defaultTtl: real, now: real)
    requires Monotone(history) && (history != [] ==> history[0].at <= now)
    ensures var answer := Answer(Lookup(After(history, defaultTtl).entries, key), fingerprint, now);
            && ((forall j :: 0 <= j < |history| ==> !(history[j].Store? && history[j].key == key)) ==> answer.New?)
            && forall k: nat :: IsLatestStore(history, key, k) ==>
                                  var runs := now < ExpiryOf(history[k], defaultTtl);
                                  && (answer == Duplicate(history[k].response) <==>
                                      runs && history[k].fingerprint == fingerprint)
                                  && (answer.Conflict? <==> runs && history[k].fingerprint != fingerprint)
                                  && (answer.New? <==> !runs)
  {
    CheckRefinesHistory(history, key, fingerprint, defaultTtl, now);
    LatestIsStored(history, key, defaultTtl);
    hide Latest, After;
  }

  function StoresOnly(history: seq<Event>): seq<Event> {
    if history == [] then []
    else (if history[0].Store? then [history[0]] else []) + StoresOnly(history[1..])
  }

  lemma {:induction false} LatestIgnoresTheRest(history: seq<Event>, key: string, defaultTtl: real)
    ensures Latest(StoresOnly(history), key, defaultTtl) == Latest(history, key, defaultTtl)
  {
    if history != [] {
      LatestIgnoresTheRest(history[1..], key, defaultTtl);
      var rest := StoresOnly(history[1..]);
      assert ([history[0]] + rest)[1..] == rest && [] + rest == rest;
    }
  }

  lemma {:induction false} StoresOnlyMonotone(history: seq<Event>)
    requires Monotone(history)
    ensures Monotone(StoresOnly(history))
    ensures forall i :: 0 <= i < |StoresOnly(history)| ==> StoresOnly(history)[i] in history
  {
    if history != [] {
      var older, rest := history[1..], StoresOnly(history[1..]);
      assert forall i :: 0 <= i < |older| ==> older[i] == history[i + 1];
      StoresOnlyMonotone(older);
      forall i | 0 <= i < |rest| ensures rest[i] in history && rest[i].at <= history[0].at {
        assert rest[i] in older;
        var k :| 0 <= k < |older| && older[k] == rest[i];
        assert history[k + 1] == rest[i];
      }
    }
  }

  /** Cleanups and checks are unobservable: leaving them all out changes no answer. */
  lemma CleanupIsUnobservable(history: seq<Event>, key: string, fingerprint: string, defaultTtl: real, now: real)
    requires Monotone(history) && (history != [] ==> history[0].at <= now)
    ensures Answer(Lookup(After(history, defaultTtl).entries, key), fingerprint, now)
         == Answer(Lookup(After(StoresOnly(history), defaultTtl).entries, key), fingerprint, now)
  {
    var stores := StoresOnly(history);
    StoresOnlyMonotone(history);
    if stores != [] {
      var k :| 0 <= k < |history| && history[k] == stores[0];
      assert stores[0].at <= now;
    }
    CheckRefinesHistory(history, key, fingerprint, defaultTtl, now);
    CheckRefinesHistory(stores, key, fingerprint, defaultTtl, now);
    LatestIgnoresTheRest(history, key, defaultTtl);
  }

  class IdempotencyStore {
    const defaultTtlSeconds: real
    var entries: map<string, Entry>
    var expiredCleaned: nat
    ghost var history: seq<Event>

    ghost predicate Valid()
      reads this
    {
      State(entries, expiredCleaned) == After(history, defaultTtlSeconds)
    }

    ghost predicate ClockAt(now: real)
      reads this
    {
      Monotone(history) && (history != [] ==> history[0].at <= now)
    }

    constructor (defaultTtlSeconds: real)
      ensures Valid() && history == [] && this.defaultTtlSeconds == defaultTtlSeconds
    {
      this.defaultTtlSeconds := defaultTtlSeconds;
      entries, expiredCleaned, history := map[], 0, [];
    }

    method Check(key: string, payloadFingerprint: string, now: real) returns (result: CheckResult)
      requires Valid() && ClockAt(now)
      modifies this
      ensures Valid() && history == [Event.Check(key, payloadFingerprint, now)] + old(history) && ClockAt(now)
      ensures result == Answer(Latest(old(history), key, defaultTtlSeconds), payloadFingerprint, now)
    {
      CheckRefinesHistory(history, key, payloadFingerprint, defaultTtlSeconds, now);
      MonotoneCons(Event.Check(key, payloadFingerprint, now), history);
      hide Monotone;
      history := [Event.Check(key, payloadFingerprint, now)] + history;
      if key !in entries {
        return New;
      }
      var entry := entries[key];
      if entry.expiresAt <= now {
        entries := entries - {key};
        expiredCleaned := expiredCleaned + 1;
        return New;
      }
      if entry.payloadFingerprint == payloadFingerprint {
        return Duplicate(entry.response);
      }
      return Conflict;
    }

    method Store(key: string, payloadFingerprint: string, response: string, ttlSeconds: Option<real>, now: real)
      requires Valid() && ClockAt(now)
      modifies this
      ensures Valid() && history == [Event.Store(key, payloadFingerprint, response, ttlSeconds, now)] + old(history)
      ensures ClockAt(now) && expiredCleaned == old(expiredCleaned)
    {
      MonotoneCons(Event.Store(key, payloadFingerprint, response, ttlSeconds, now), history);
      hide Monotone;
      history := [Event.Store(key, payloadFingerprint, response, ttlSeconds, now)] + history;
      var ttl := if ttlSeconds.Some? then ttlSeconds.value else defaultTtlSeconds;
      entries := entries[key := Entry(payloadFingerprint, response, now, now + ttl * 1000.0)];
    }

    /** Deletes what has expired and counts it. */
    method Sweep(now: real)
      modifies this`entries, this`expiredCleaned
      ensures entries == Kept(old(entries), now)
      ensures expiredCleaned == old(expiredCleaned) + |old(entries).Keys - entries.Keys|
    {
      var left := entries.Keys;
      ghost var before, gone: set<string> := entries, {};
      while left != {}
        invariant gone <= before.Keys && entries.Keys == before.Keys - gone && left <= entries.Keys
        invariant forall key :: key in entries ==> entries[key] == before[key]
        invariant forall key :: key in gone ==> before[key].expiresAt <= now
        invariant forall key :: key in entries && key !in left ==> now < before[key].expiresAt
        invariant expiredCleaned == old(expiredCleaned) + |gone|
        decreases |left|
      {
        var key :| key in left;
        left := left - {key};
        if entries[key].expiresAt <= now {
          entries := entries - {key};
          gone := gone + {key};
          expiredCleaned := expiredCleaned + 1;
        }
      }
      assert gone == before.Keys - entries.Keys;
    }

    /** Everything deleted is counted. */
    method Cleanup(now: real)
      requires Valid() && ClockAt(now)
      modifies this
      ensures Valid() && history == [Event.Cleanup(now)] + old(history) && ClockAt(now)
      ensures expiredCleaned + |entries| == old(expiredCleaned + |entries|)
    {
      MonotoneCons(Event.Cleanup(now), history);
      hide Monotone;
      ghost var before := entries;
      Sweep(now);
      assert before.Keys == entries.Keys + (before.Keys - entries.Keys);
      history := [Event.Cleanup(now)] + history;
    }
  }
}

module Nonces {
  import opened Wrappers

  datatype Event = Add(nonce: string, ttlMs: real, at: real) | Cleanup(at: real)

  function Admits(cache: map<string, real>, nonce: string, now: real): bool {
    nonce !in cache || cache[nonce] <= now
  }

  function Kept(cache: map<string, real>, now: real): map<string, real> {
    map nonce | nonce in cache && now < cache[nonce] :: cache[nonce]
  }

  /** The cache maps each nonce to the time at which it expires. */
  function Next(cache: map<string, real>, ev: Event): map<string, real> {
    match ev
    case Add(nonce, ttlMs, at) => if Admits(cache, nonce, at) then cache[nonce := at + ttlMs] else cache
    case Cleanup(at) => Kept(cache, at)
  }

  function After(history: seq<Event>): map<string, real> {
    if history == [] then map[] else Next(After(history[1..]), history[0])
  }

  ghost predicate Monotone(history: seq<Event>) {
    forall i, j :: 0 <= i < j < |history| ==> history[j].at <= history[i].at
  }

  lemma MonotoneCons(ev: Event, older: seq<Event>)
    requires Monotone(older) && (older != [] ==> older[0].at <= ev.at)
    ensures var history := [ev] + older; history[1..] == older && history[0] == ev && Monotone(history)
  {
  }

  /** When the nonce that was accepted last expires, if any was: an addition is accepted once that time has come. */
  function LastExpiry(history: seq<Event>, nonce: string): Option<real> {
    if history == [] then None
    else
      var before := LastExpiry(history[1..], nonce);
      if history[0].Add? && history[0].nonce == nonce && (before.None? || before.value <= history[0].at) then
        Some(history[0].at + history[0].ttlMs)
      else before
  }

  predicate Accepted(history: seq<Event>, nonce: string, now: real) {
    LastExpiry(history, nonce).None? || LastExpiry(history, nonce).value <= now
  }

  lemma {:induction false} StaysFaithful(history: seq<Event>, nonce: string, now: real)
    requires Monotone(history) && (history != [] ==> history[0].at <= now)
    ensures if nonce in After(history) then LastExpiry(history, nonce) == Some(After(history)[nonce])
            else Accepted(history, nonce, now)
  {
    if history != [] {
      var older := history[1..];
      assert forall i :: 0 <= i < |older| ==> older[i] == history[i + 1];
      StaysFaithful(older, nonce, history[0].at);
    }
  }

  /** Whether a nonce is accepted depends on the additions alone; cleanups cannot be told. */
  lemma {:induction false} AddRefinesHistory(history: seq<Event>, nonce: string, now: real)
    requires Monotone(history) && (history != [] ==> history[0].at <= now)
    ensures Admits(After(history), nonce, now) <==> Accepted(history, nonce, now)
  {
    StaysFaithful(history, nonce, now);
  }

  /** A nonce accepted at one time with a ttl is not accepted again before that time plus the ttl, whatever is added
      or cleaned up in between. */
  lemma {:induction false} NoReplayWithinTtl(history: seq<Event>, k: nat, now: real)
    requires k < |history| && history[k].Add? && Accepted(history[k + 1..], history[k].nonce, history[k].at)
    requires Monotone(history) && history[0].at <= now < history[k].at + history[k].ttlMs
    ensures !Admits(After(history), history[k].nonce, now)
  {
    LastExpiryStands(history, k, now);
    AddRefinesHistory(history, history[k].nonce, now);
  }

  lemma {:induction false} LastExpiryStands(history: seq<Event>, k: nat, now: real)
    requires k < |history| && history[k].Add? && Accepted(history[k + 1..], history[k].nonce, history[k].at)
    requires Monotone(history) && history[0].at <= now < history[k].at + history[k].ttlMs
    ensures LastExpiry(history, history[k].nonce) == Some(history[k].at + history[k].ttlMs)
  {
    if k > 0 {
      var older := history[1..];
      assert forall i :: 0 <= i < |older| ==> older[i] == history[i + 1];
      assert older[k - 1] == history[k] && older[k..] == history[k + 1..];
      LastExpiryStands(older, k - 1, now);
    }
  }

  /** The nonce was added and accepted at k, and its time is not up. */
  ghost predicate StillBlocks(history: seq<Event>, k: nat, nonce: string, now: real) {
    && k < |history| && history[k].Add? && history[k].nonce == nonce
    && Admits(After(history[k + 1..]), nonce, history[k].at) && now < history[k].at + history[k].ttlMs
  }

  /** A nonce is accepted if and only if no earlier acceptance of it is still within its ttl, whatever was added or
      cleaned up in between. */
  lemma AcceptedIffNothingBlocks(history: seq<Event>, nonce: string, now: real)
    requires Monotone(history) && (history != [] ==> history[0].at <= now)
    ensures Admits(After(history), nonce, now) <==> forall k: nat :: !StillBlocks(history, k, nonce, now)
  {
    hide Admits, After, LastExpiry, Accepted;
    forall k: nat | StillBlocks(history, k, nonce, now) ensures !Admits(After(history), nonce, now) {
      SuffixMonotone(history, k + 1, history[k].at);
      AddRefinesHistory(history[k + 1..], nonce, history[k].at);
      NoReplayWithinTtl(history, k, now);
    }
    if !Admits(After(history), nonce, now) {
      AddRefinesHistory(history, nonce, now);
      var k := BlockedBySomething(history, nonce, now);
      SuffixMonotone(history, k + 1, history[k].at);
      AddRefinesHistory(history[k + 1..], nonce, history[k].at);
      assert StillBlocks(history, k, nonce, now);
    }
  }

  lemma SuffixMonotone(history: seq<Event>, i: nat, now: real)
    requires Monotone(history) && 0 < i <= |history| && history[i - 1].at == now
    ensures Monotone(history[i..]) && (history[i..] != [] ==> history[i..][0].at <= now)
  {
  }

  lemma {:induction false} BlockedBySomething(history: seq<Event>, nonce: string, now: real) returns (k: nat)
    requires !Accepted(history, nonce, now)
    ensures k < |history| && history[k].Add? && history[k].nonce == nonce
    ensures Accepted(history[k + 1..], nonce, history[k].at) && now < history[k].at + history[k].ttlMs
  {
    if history[0].Add? && history[0].nonce == nonce && Accepted(history[1..], nonce, history[0].at) {
      k := 0;
    } else {
      k := BlockedBySomething(history[1..], nonce, now);
      assert history[1..][k + 1..] == history[k + 2..];
      k := k + 1;
    }
  }

  class NonceCache {
    var cache: map<string, real>
    ghost var history: seq<Event>

    ghost predicate Valid()
      reads this
    {
      cache == After(history)
    }

    ghost predicate ClockAt(now: real)
      reads this
    {
      Monotone(history) && (history != [] ==> history[0].at <= now)
    }

    constructor ()
      ensures Valid() && history == []
    {
      cache, history := map[], [];
    }

    method AddNonce(nonce: string, ttlMs: real, now: real) returns (isNew: bool)
      requires Valid() && ClockAt(now)
      modifies this
      ensures Valid() && ClockAt(now) && history == [Add(nonce, ttlMs, now)] + old(history)
      ensures isNew <==> Accepted(old(history), nonce, now)
    {
      AddRefinesHistory(history, nonce, now);
      MonotoneCons(Add(nonce, ttlMs, now), history);
      hide Monotone;
      ghost var before := cache;
      history := [Add(nonce, ttlMs, now)] + history;
      if nonce in cache {
        if cache[nonce] <= now {
          cache := cache - {nonce};
        } else {
          return false;
        }
      }
      cache := cache[nonce := now + ttlMs];
      assert cache == before[nonce := now + ttlMs];
      return true;
    }

    method CleanupExpired(now: real)
      requires Valid() && ClockAt(now)
      modifies this
      ensures Valid() && ClockAt(now) && history == [Cleanup(now)] + old(history)
    {
      var left := cache.Keys;
      ghost var before := cache;
      while left != {}
        invariant left <= before.Keys && history == old(history)
        invariant cache == map nonce | nonce in before && (nonce in left || now < before[nonce]) :: before[nonce]
        decreases |left|
      {
        var nonce :| nonce in left;
        left := left - {nonce};
        if cache[nonce] <= now {
          cache := cache - {nonce};
        }
      }
      MonotoneCons(Cleanup(now), history);
      history := [Cleanup(now)] + history;
    }
  }
}
