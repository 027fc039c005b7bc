/** One SharedContextStore under arbitrarily interleaved operations (src/shared-context.ts): every operation first
    loads, later queues a batch computed from what it loaded, and the write queue appends batches in order or loses
    them. */
module SharedContextRuns {
  import opened Wrappers
  import opened SharedContext

  /** An operation that has loaded: its room, and how many batches the file held at that moment. */
  datatype Loaded = Loaded(roomId: string, seen: nat)

  /** The file is the concatenation of the batches appended so far. */
  datatype Store = Store(
    maxMessageChars: nat, done: seq<Batch>, writeQueue: seq<Batch>, loads: map<nat, Loaded>, roomIds: set<string>,
    clock: int)

  datatype Turn =
    | Create(roomId: string, details: string, now: int)
    | Load(op: nat, roomId: string)
    | Submit(op: nat, request: Request, now: int)
    | Flush(ok: bool)

  function Flatten(batches: seq<Batch>): seq<Event> {
    if batches == [] then [] else Flatten(batches[..|batches| - 1]) + batches[|batches| - 1].Events()
  }

  function StateAfter(batches: seq<Batch>): State {
    Replay(Flatten(batches))
  }

  function Current(s: Store): State {
    StateAfter(s.done)
  }

  function Init(maxMessageChars: nat): Store {
    Store(maxMessageChars, [], [], map[], {}, 0)
  }

  /** Room ids are fresh, the clock does not go back, an operation loads once and then submits for the room it
      loaded. */
  predicate Enabled(s: Store, t: Turn) {
    match t
    case Create(roomId, _, now) => roomId !in s.roomIds && s.clock <= now
    case Load(op, _) => op !in s.loads
    case Submit(op, request, now) => op in s.loads && s.loads[op].roomId == request.roomId && s.clock <= now
    case Flush(_) => true
  }

  function Step(s: Store, t: Turn): Store
    requires Enabled(s, t)
  {
    match t
    case Create(roomId, details, now) =>
      s.(writeQueue := s.writeQueue + [CreateBatch(Room(roomId, details, RoomOpen, now, now))],
      roomIds := s.roomIds + {roomId}, clock := now)
    case Load(op, roomId) => s.(loads := s.loads[op := Loaded(roomId, |s.done|)])
    case Submit(op, request, now) =>
      var s1 := s.(loads := s.loads - {op}, clock := now);
      (match Prepare(Snapshot(s, op), s.maxMessageChars, request, now)
       case None => s1
       case Some(batch) => s1.(writeQueue := s.writeQueue + [batch]))
    case Flush(ok) =>
      if s.writeQueue == [] then s
      else s.(writeQueue := s.writeQueue[1..], done := if ok then s.done + [s.writeQueue[0]] else s.done)
  }

  function Snapshot(s: Store, op: nat): State
    requires op in s.loads
  {
    var seen := s.loads[op].seen;
    StateAfter(if seen <= |s.done| then s.done[..seen] else s.done)
  }

  ghost predicate IsRun(s: Store, turns: seq<Turn>)
    decreases |turns|, 0
  {
    turns == [] || (IsRun(s, turns[..|turns| - 1]) && Enabled(Run(s, turns[..|turns| - 1]), turns[|turns| - 1]))
  }

  ghost function Run(s: Store, turns: seq<Turn>): Store
    requires IsRun(s, turns)
    decreases |turns|, 1
  {
    if turns == [] then s else Step(Run(s, turns[..|turns| - 1]), turns[|turns| - 1])
  }

  // ----- log integrity ------------------------------------------------------------------------------------

  /** The batch refers to things that exist in this state. */
  ghost predicate Grounded(s: State, b: Batch) {
    && WellFormed(b)
    && (!b.CreateBatch? ==> b.RoomId() in s.rooms)
    && (b.AttachBatch? && b.artifact.messageId.Some? ==> HasMessage(s, b.RoomId(), b.artifact.messageId.value))
  }

  ghost predicate LogGrounded(done: seq<Batch>) {
    forall k :: 0 <= k < |done| ==> Grounded(StateAfter(done[..k]), done[k])
  }

  function Embedded(messages: seq<Message>): nat {
    if messages == [] then 0 else Embedded(messages[..|messages| - 1]) + |messages[|messages| - 1].artifacts|
  }

  function AttachCount(done: seq<Batch>, roomId: string): nat {
    if done == [] then 0 else
    var b := done[|done| - 1];
    AttachCount(done[..|done| - 1], roomId) + if b.AttachBatch? && b.RoomId() == roomId then 1 else 0
  }

  ghost predicate MessageOk(s: State, r: string, m: Message) {
    r in s.rooms && m.roomId == r
  }

  ghost predicate ArtifactOk(s: State, r: string, a: Artifact) {
    && r in s.rooms && a.roomId == r
    && (a.messageId.Some? ==> HasMessage(s, r, a.messageId.value))
  }

  /** Every message lies in an existing room; every artifact too, and any message it names is in that room. */
  ghost predicate RoomIntegrity(s: State, r: string) {
    && (forall m :: m in s.MessagesOf(r) ==> MessageOk(s, r, m))
    && (forall a :: a in s.ArtifactsOf(r) ==> ArtifactOk(s, r, a))
  }

  lemma StateAfterSnoc(done: seq<Batch>, b: Batch)
    requires WellFormed(b)
    ensures Extends(StateAfter(done), StateAfter(done + [b]), b)
  {
    assert (done + [b])[..|done|] == done;
    BatchEffect(Flatten(done), b);
  }

  lemma HasMessageGrows(s: State, t: State, b: Batch, r: string, id: string)
    requires Extends(s, t, b) && HasMessage(s, r, id)
    ensures HasMessage(t, r, id)
  {
    var i :| 0 <= i < |s.MessagesOf(r)| && s.MessagesOf(r)[i].id == id;
    assert t.MessagesOf(r)[i].id == id;
  }

  lemma ArtifactStep(s: State, t: State, b: Batch, r: string, a: Artifact)
    requires Grounded(s, b) && Extends(s, t, b) && RoomIntegrity(s, r) && a in t.ArtifactsOf(r)
    ensures ArtifactOk(t, r, a)
  {
    if a in s.ArtifactsOf(r) {
      assert ArtifactOk(s, r, a);
      if a.messageId.Some? { HasMessageGrows(s, t, b, r, a.messageId.value); }
    } else {
      assert r == b.RoomId() && a in NewArtifacts(b);
      if b.PostBatch? {
        assert t.MessagesOf(r)[|s.MessagesOf(r)|] == b.message;
      } else if a.messageId.Some? {
        HasMessageGrows(s, t, b, r, a.messageId.value);
      }
    }
  }

  lemma IntegrityStep(s: State, t: State, b: Batch, r: string)
    requires Grounded(s, b) && Extends(s, t, b) && RoomIntegrity(s, r)
    ensures RoomIntegrity(t, r)
  {
    forall m | m in t.MessagesOf(r) ensures MessageOk(t, r, m) {
      assert m in s.MessagesOf(r) ==> MessageOk(s, r, m);
    }
    forall a | a in t.ArtifactsOf(r) ensures ArtifactOk(t, r, a) {
      ArtifactStep(s, t, b, r, a);
    }
  }

  lemma EmbeddedSnoc(messages: seq<Message>, m: Message)
    ensures Embedded(messages + [m]) == Embedded(messages) + |m.artifacts|
  {
    assert (messages + [m])[..|messages|] == messages;
  }

  /** A room's artifacts are those embedded in its messages plus this many attached later. */
  ghost predicate Counted(s: State, r: string, attached: nat) {
    |s.ArtifactsOf(r)| == Embedded(s.MessagesOf(r)) + attached
  }

  lemma CountStep(s: State, t: State, b: Batch, r: string, attached: nat)
    requires Extends(s, t, b) && Counted(s, r, attached)
    ensures Counted(t, r, attached + if b.AttachBatch? && b.RoomId() == r then 1 else 0)
  {
    if b.PostBatch? && r == b.RoomId() {
      EmbeddedSnoc(s.MessagesOf(r), b.message);
    } else {
      assert s.MessagesOf(r) + [] == s.MessagesOf(r);
    }
  }

  lemma NothingStored(r: string)
    ensures RoomIntegrity(StateAfter([]), r) && Counted(StateAfter([]), r, 0)
  {
    assert StateAfter([]) == EMPTY;
    assert EMPTY.MessagesOf(r) == [] && EMPTY.ArtifactsOf(r) == [];
  }

  /** Any log whose batches were grounded when appended replays to a sound state with exact artifact counts. */
  lemma {:induction false} GroundedLogIsSound(done: seq<Batch>, r: string)
    requires LogGrounded(done)
    ensures RoomIntegrity(StateAfter(done), r) && Counted(StateAfter(done), r, AttachCount(done, r))
  {
    hide StateAfter, Extends, Counted, RoomIntegrity, Grounded;
    if done == [] {
      NothingStored(r);
    } else {
      var n := |done| - 1;
      assert forall k :: 0 <= k < n ==> done[..n][..k] == done[..k];
      assert LogGrounded(done[..n]);
      GroundedLogIsSound(done[..n], r);
      SnocGrounded(done[..n], done[n]);
      assert done[..n] + [done[n]] == done;
      IntegrityStep(StateAfter(done[..n]), StateAfter(done), done[n], r);
      CountStep(StateAfter(done[..n]), StateAfter(done), done[n], r, AttachCount(done[..n], r));
    }
  }

  lemma SnocGrounded(done: seq<Batch>, b: Batch)
    requires Grounded(StateAfter(done), b)
    ensures Extends(StateAfter(done), StateAfter(done + [b]), b)
  {
    StateAfterSnoc(done, b);
  }

  /** What an earlier state contains, later states contain. */
  lemma {:induction false} LaterKeeps(done: seq<Batch>, k: nat, b: Batch)
    requires k <= |done| && (forall i :: 0 <= i < |done| ==> WellFormed(done[i]))
    requires Grounded(StateAfter(done[..k]), b)
    ensures Grounded(StateAfter(done), b)
  {
    hide StateAfter, Extends, Grounded;
    if k == |done| {
      assert done[..k] == done;
    } else {
      var n := |done| - 1;
      assert done[..n][..k] == done[..k];
      LaterKeeps(done[..n], k, b);
      assert done[..n] + [done[n]] == done;
      StateAfterSnoc(done[..n], done[n]);
      GroundedStep(StateAfter(done[..n]), StateAfter(done), done[n], b);
    }
  }

  lemma GroundedStep(s: State, t: State, next: Batch, b: Batch)
    requires Extends(s, t, next) && Grounded(s, b)
    ensures Grounded(t, b)
  {
    if b.AttachBatch? && b.artifact.messageId.Some? {
      HasMessageGrows(s, t, next, b.RoomId(), b.artifact.messageId.value);
    }
  }

  function Stamp(b: Batch): int {
    match b
    case CreateBatch(room) => room.updatedAt
    case ArchiveBatch(room) => room.updatedAt
    case PostBatch(message, _) => message.ts
    case AttachBatch(artifact) => artifact.createdAt
  }

  ghost predicate Stamped(batches: seq<Batch>, clock: int) {
    && (forall i :: 0 <= i < |batches| ==> Stamp(batches[i]) <= clock)
    && (forall i, j :: 0 <= i < j < |batches| ==> Stamp(batches[i]) <= Stamp(batches[j]))
  }

  ghost predicate QueueGrounded(s: Store) {
    forall i :: 0 <= i < |s.writeQueue| ==> Grounded(Current(s), s.writeQueue[i])
  }

  ghost predicate LoadsInPast(s: Store) {
    forall op :: op in s.loads ==> s.loads[op].seen <= |s.done|
  }

  /** Reachable stores: whatever is in the file or on its way there refers to existing things, in time order. */
  ghost predicate Inv(s: Store) {
    LogGrounded(s.done) && QueueGrounded(s) && LoadsInPast(s) && Stamped(s.done + s.writeQueue, s.clock)
  }

  lemma PreparedIsGrounded(loaded: State, maxMessageChars: nat, r: Request, now: int)
    requires Prepare(loaded, maxMessageChars, r, now).Some?
    requires forall id :: id in loaded.rooms ==> loaded.rooms[id].id == id
    ensures Grounded(loaded, Prepare(loaded, maxMessageChars, r, now).value)
    ensures Stamp(Prepare(loaded, maxMessageChars, r, now).value) == now
    ensures Prepare(loaded, maxMessageChars, r, now).value.RoomId() == r.roomId
  {
  }

  lemma {:induction false} RoomKeys(done: seq<Batch>)
    requires forall i :: 0 <= i < |done| ==> WellFormed(done[i])
    ensures forall id :: id in StateAfter(done).rooms ==> StateAfter(done).rooms[id].id == id
  {
    if done != [] {
      var n := |done| - 1;
      RoomKeys(done[..n]);
      assert done[..n] + [done[n]] == done;
      StateAfterSnoc(done[..n], done[n]);
    }
  }

  lemma QueueOne(s: Store, r: Store, b: Batch)
    requires Inv(s) && Grounded(Current(s), b) && Stamp(b) == r.clock && s.clock <= r.clock
    requires r.done == s.done && r.writeQueue == s.writeQueue + [b] && r.loads.Keys <= s.loads.Keys
    requires forall op :: op in r.loads ==> r.loads[op] == s.loads[op]
    ensures Inv(r)
  {
    hide Grounded, StateAfter;
    assert r.done + r.writeQueue == (s.done + s.writeQueue) + [b];
  }

  lemma StepKeepsInv(s: Store, t: Turn)
    requires Inv(s) && Enabled(s, t)
    ensures Inv(Step(s, t))
  {
    match t
    case Create(roomId, details, now) =>
      QueueOne(s, Step(s, t), CreateBatch(Room(roomId, details, RoomOpen, now, now)));
    case Load(op, roomId) => LoadKeepsInv(s, op, roomId);
    case Submit(op, request, now) => SubmitKeepsInv(s, op, request, now);
    case Flush(ok) => FlushKeepsInv(s, ok);
  }

  lemma LoadKeepsInv(s: Store, op: nat, roomId: string)
    requires Inv(s) && op !in s.loads
    ensures Inv(Step(s, Load(op, roomId)))
  {
    hide Grounded, StateAfter;
  }

  lemma PreparedInPast(s: Store, op: nat, request: Request, now: int)
    requires LogGrounded(s.done) && LoadsInPast(s) && op in s.loads && s.loads[op].roomId == request.roomId
    ensures var prepared := Prepare(Snapshot(s, op), s.maxMessageChars, request, now);
            prepared.Some? ==> Grounded(Current(s), prepared.value) && Stamp(prepared.value) == now
  {
    hide StateAfter;
    var seen := s.loads[op].seen;
    var prepared := Prepare(Snapshot(s, op), s.maxMessageChars, request, now);
    if prepared.Some? {
      RoomKeys(s.done[..seen]);
      hide Prepare, Stamp;
      PreparedIsGrounded(Snapshot(s, op), s.maxMessageChars, request, now);
      LaterKeeps(s.done, seen, prepared.value);
    }
  }

  lemma SubmitKeepsInv(s: Store, op: nat, request: Request, now: int)
    requires Inv(s) && Enabled(s, Submit(op, request, now))
    ensures Inv(Step(s, Submit(op, request, now)))
  {
    PreparedInPast(s, op, request, now);
    hide Grounded, StateAfter, Prepare, Stamp, Snapshot;
    var r := Step(s, Submit(op, request, now));
    var prepared := Prepare(Snapshot(s, op), s.maxMessageChars, request, now);
    if prepared.Some? {
      QueueOne(s, r, prepared.value);
    } else {
      assert r.done + r.writeQueue == s.done + s.writeQueue;
    }
  }

  lemma LogGroundedSnoc(done: seq<Batch>, b: Batch)
    requires LogGrounded(done) && Grounded(StateAfter(done), b)
    ensures LogGrounded(done + [b])
  {
    hide Grounded, StateAfter;
    assert forall k :: 0 <= k <= |done| ==> (done + [b])[..k] == done[..k];
    assert done[..|done|] == done;
  }

  lemma AppendKeepsQueue(s: Store, r: Store)
    requires QueueGrounded(s) && s.writeQueue != []
    requires r.done == s.done + [s.writeQueue[0]] && r.writeQueue == s.writeQueue[1..]
    ensures QueueGrounded(r)
  {
    assert Grounded(Current(s), s.writeQueue[0]);
    StateAfterSnoc(s.done, s.writeQueue[0]);
    hide Grounded, StateAfter, Extends;
    forall i | 0 <= i < |r.writeQueue| ensures Grounded(Current(r), r.writeQueue[i]) {
      assert Grounded(Current(s), s.writeQueue[i + 1]);
      GroundedStep(Current(s), Current(r), s.writeQueue[0], s.writeQueue[i + 1]);
    }
  }

  lemma DropKeepsStamps(before: seq<Batch>, k: nat, clock: int)
    requires Stamped(before, clock) && k < |before|
    ensures Stamped(before[..k] + before[k + 1..], clock)
  {
  }

  lemma FlushKeepsInv(s: Store, ok: bool)
    requires Inv(s)
    ensures Inv(Step(s, Flush(ok)))
  {
    hide Grounded, StateAfter, Stamp;
    if s.writeQueue != [] {
      var r := Step(s, Flush(ok));
      if ok {
        assert r.done + r.writeQueue == s.done + s.writeQueue;
        assert Grounded(StateAfter(s.done), s.writeQueue[0]);
        LogGroundedSnoc(s.done, s.writeQueue[0]);
        AppendKeepsQueue(s, r);
      } else {
        var before := s.done + s.writeQueue;
        DropKeepsStamps(before, |s.done|, s.clock);
        assert r.done + r.writeQueue == before[..|s.done|] + before[|s.done| + 1..];
      }
    }
  }

  lemma {:induction false} RunKeepsInv(s: Store, turns: seq<Turn>)
    requires Inv(s) && IsRun(s, turns)
    ensures Inv(Run(s, turns))
  {
    if turns != [] {
      RunKeepsInv(s, turns[..|turns| - 1]);
      StepKeepsInv(Run(s, turns[..|turns| - 1]), turns[|turns| - 1]);
    }
  }

  /** Log integrity: for every interleaving, including overlapping operations and lost appends, the file replays to
      rooms whose messages and artifacts all refer to existing things, with exact artifact counts. */
  lemma LogIntegrity(maxMessageChars: nat, turns: seq<Turn>, r: string)
    requires IsRun(Init(maxMessageChars), turns)
    ensures var s := Run(Init(maxMessageChars), turns);
            && RoomIntegrity(Current(s), r)
            && Counted(Current(s), r, AttachCount(s.done, r))
  {
    RunKeepsInv(Init(maxMessageChars), turns);
    GroundedLogIsSound(Run(Init(maxMessageChars), turns).done, r);
  }

  // ----- log order ---------------------------------------------------------------------------------------------

  ghost predicate InOrderUpTo(messages: seq<Message>, clock: int) {
    InTimeOrder(messages) && (forall i :: 0 <= i < |messages| ==> messages[i].ts <= clock)
  }

  lemma OrderStep(s: State, t: State, b: Batch, r: string, clock: int)
    requires Extends(s, t, b) && InOrderUpTo(s.MessagesOf(r), Stamp(b)) && Stamp(b) <= clock
    ensures InOrderUpTo(t.MessagesOf(r), clock)
  {
    assert s.MessagesOf(r) + [] == s.MessagesOf(r);
    hide Embedded;
  }

  lemma {:induction false} StampedLogInOrder(done: seq<Batch>, r: string, clock: int)
    requires (forall i :: 0 <= i < |done| ==> WellFormed(done[i])) && Stamped(done, clock)
    ensures InOrderUpTo(StateAfter(done).MessagesOf(r), clock)
  {
    if done == [] {
      assert StateAfter([]) == EMPTY;
    } else {
      hide StateAfter, Extends, InOrderUpTo, WellFormed, Stamp;
      var n := |done| - 1;
      StampedLogInOrder(done[..n], r, Stamp(done[n]));
      assert done[..n] + [done[n]] == done;
      StateAfterSnoc(done[..n], done[n]);
      OrderStep(StateAfter(done[..n]), StateAfter(done), done[n], r, clock);
    }
  }

  lemma RunInOrder(maxMessageChars: nat, turns: seq<Turn>, r: string)
    requires IsRun(Init(maxMessageChars), turns)
    ensures InTimeOrder(Current(Run(Init(maxMessageChars), turns)).MessagesOf(r))
  {
    hide Run, IsRun, StateAfter;
    var s := Run(Init(maxMessageChars), turns);
    RunKeepsInv(Init(maxMessageChars), turns);
    assert forall i :: 0 <= i < |s.done| ==> (s.done + s.writeQueue)[i] == s.done[i];
    StampedLogInOrder(s.done, r, s.clock);
  }

  /** Log order: despite overlapping posts each room's messages stay in time order, so a read returns the newest
      messages in order: as many as asked for, 50 if nothing is asked, at least one and at most `maxPerRead`; with
      `after` only newer ones, and fewer than wanted only if there are no more. */
  lemma ReadsNewestInOrder(maxMessageChars: nat, turns: seq<Turn>, r: string, after: Option<int>, count: Option<int>,
                           maxPerRead: nat)
    requires IsRun(Init(maxMessageChars), turns) && maxPerRead >= 1
    requires r in Current(Run(Init(maxMessageChars), turns)).rooms
    ensures InTimeOrder(Current(Run(Init(maxMessageChars), turns)).MessagesOf(r))
    ensures ReadsSuffix(Current(Run(Init(maxMessageChars), turns)), r, after, count, maxPerRead)
  {
    RunInOrder(maxMessageChars, turns, r);
    OrderedReadsSuffix(Current(Run(Init(maxMessageChars), turns)), r, after, count, maxPerRead);
  }

  ghost predicate ReadsSuffix(s: State, r: string, after: Option<int>, count: Option<int>, maxPerRead: nat)
    requires maxPerRead >= 1
  {
    var all := s.MessagesOf(r);
    var asked := if count.Some? then count.value else 50;
    var wanted := if asked < 1 then 1 else if asked > maxPerRead then maxPerRead else asked;
    var read := ReadMessages(s, r, after, count, maxPerRead);
    && read.Some? && |read.value| <= wanted && |read.value| <= |all|
    && var first := |all| - |read.value|;
    && read.value == all[first..]
    && (after.Some? ==> forall i :: first <= i < |all| ==> all[i].ts > after.value)
    && (|read.value| < wanted ==> forall i :: 0 <= i < first ==> after.Some? && all[i].ts <= after.value)
  }

  lemma LastOfSuffix(all: seq<Message>, first: nat, wanted: nat)
    requires first <= |all| && wanted >= 1
    ensures var read := LastOf(all[first..], wanted);
            && |read| <= wanted && |read| <= |all| - first && read == all[|all| - |read|..]
            && (|read| < wanted ==> |read| == |all| - first)
  {
  }

  lemma OrderedReadsSuffix(s: State, r: string, after: Option<int>, count: Option<int>, maxPerRead: nat)
    requires maxPerRead >= 1 && r in s.rooms && InTimeOrder(s.MessagesOf(r))
    ensures ReadsSuffix(s, r, after, count, maxPerRead)
  {
    var all := s.MessagesOf(r);
    var wanted := NormalizeCount(count, 50, maxPerRead);
    hide NewerThan, LastOf, InTimeOrder;
    if after.Some? {
      NewerIsSuffix(all, after.value);
      LastOfSuffix(all, |all| - |NewerThan(all, after.value)|, wanted);
    } else {
      LastOfSuffix(all, 0, wanted);
      assert all[0..] == all;
    }
  }
}
