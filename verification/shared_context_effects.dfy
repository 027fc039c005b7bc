/** What the operations leave in the file: the replay gains exactly what was asked for, and nothing in it was
    invented. */
module SharedContextEffects {
  import opened Wrappers
  import opened SharedContext
  import opened SharedContextRuns

  /** Some character is not white space. */
  predicate HasText(text: string) {
    exists i :: 0 <= i < |text| && text[i] !in " \t\r\n"
  }

  predicate IsUsable(a: ArtifactInput) {
    HasText(a.kind) && (|a.uri| > 0 || |a.digest| > 0 || |a.name| > 0)
  }

  /** What the operation finds in the copy it loaded. */
  ghost predicate IsOpenAtLoad(s: Store, op: nat, roomId: string)
    requires op in s.loads
  {
    roomId in Snapshot(s, op).rooms && Snapshot(s, op).rooms[roomId].status == RoomOpen
  }

  /** The request meets every condition of its operation. */
  ghost predicate IsAcceptable(s: Store, op: nat, request: Request)
    requires op in s.loads
  {
    match request
    case Archive(roomId) => roomId in Snapshot(s, op).rooms
    case Post(roomId, _, content, artifacts) =>
      IsOpenAtLoad(s, op, roomId) && HasText(content) && |content| <= s.maxMessageChars
      && forall i :: 0 <= i < |artifacts| ==> IsUsable(artifacts[i])
    case Attach(roomId, about, artifact) =>
      && IsOpenAtLoad(s, op, roomId) && IsUsable(artifact)
      && (about.Some? ==> exists m :: m in Snapshot(s, op).MessagesOf(roomId) && m.id == about.value)
  }

  /** From s to t one room gained these messages and artifacts; every other room kept its own. */
  ghost predicate Gains(s: State, t: State, roomId: string, messages: seq<Message>, artifacts: seq<Artifact>) {
    && t.MessagesOf(roomId) == s.MessagesOf(roomId) + messages
    && t.ArtifactsOf(roomId) == s.ArtifactsOf(roomId) + artifacts
    && forall r :: r != roomId ==> t.MessagesOf(r) == s.MessagesOf(r) && t.ArtifactsOf(r) == s.ArtifactsOf(r)
  }

  /** The message and its artifacts say what the request says. */
  predicate SaysPost(m: Message, roomId: string, messageId: string, content: string, artifacts: seq<ArtifactInput>,
                     now: int)
  {
    && m.roomId == roomId && m.id == messageId && m.content == content && m.ts == now
    && |m.artifacts| == |artifacts|
    && forall i :: 0 <= i < |artifacts| ==> m.artifacts[i] == Artifact(roomId, Some(messageId), artifacts[i], now)
  }

  /** What one batch, written after any others, does to the replayed state on behalf of a request; `room` is the record
      of the room as the operation loaded it. */
  ghost predicate Fulfills(s: State, t: State, request: Request, room: Room, now: int) {
    var r := request.roomId;
    match request
    case Archive(_) =>
      Gains(s, t, r, [], []) && t.rooms == s.rooms[r := room.(status := RoomArchived, updatedAt := now)]
    case Post(_, messageId, content, artifacts) =>
      && |t.MessagesOf(r)| == |s.MessagesOf(r)| + 1
      && var m := t.MessagesOf(r)[|s.MessagesOf(r)|];
      && SaysPost(m, r, messageId, content, artifacts, now)
      && Gains(s, t, r, [m], m.artifacts) && t.rooms == s.rooms[r := room.(updatedAt := now)]
    case Attach(_, about, artifact) =>
      Gains(s, t, r, [], [Artifact(r, about, artifact, now)]) && t.rooms == s.rooms
  }

  lemma AcceptedIff(s: Store, op: nat, request: Request, now: int)
    requires Enabled(s, Submit(op, request, now))
    ensures Prepare(Snapshot(s, op), s.maxMessageChars, request, now).Some? <==> IsAcceptable(s, op, request)
  {
    var loaded := Snapshot(s, op);
    hide Snapshot;
    match request
    case Archive(_) =>
    case Post(roomId, _, content, artifacts) =>
      assert IsBlank(content) <==> !HasText(content);
      UsableIff(artifacts);
    case Attach(roomId, about, artifact) =>
      UsableIff([artifact]);
      assert [artifact][0] == artifact;
      if about.Some? {
        var messages := loaded.MessagesOf(roomId);
        assert HasMessage(loaded, roomId, about.value) ==> exists m :: m in messages && m.id == about.value;
        if m :| m in messages && m.id == about.value {
          var i :| 0 <= i < |messages| && messages[i] == m;
        }
      }
  }

  lemma UsableIff(artifacts: seq<ArtifactInput>)
    ensures forall i :: 0 <= i < |artifacts| ==> (Acceptable(artifacts[i]) <==> IsUsable(artifacts[i]))
  {
    forall i | 0 <= i < |artifacts| ensures Acceptable(artifacts[i]) <==> IsUsable(artifacts[i]) {
      assert IsBlank(artifacts[i].kind) <==> !HasText(artifacts[i].kind);
    }
  }

  /** A batch with at most one message, as the replay sees it. */
  lemma ExtendsGains(s: State, t: State, b: Batch)
    requires Extends(s, t, b)
    ensures Gains(s, t, b.RoomId(), NewMessages(b), NewArtifacts(b))
    ensures t.rooms == if b.AttachBatch? then s.rooms else s.rooms[b.room.id := b.room]
  {
    assert !b.AttachBatch? ==> s.rooms + map[b.room.id := b.room] == s.rooms[b.room.id := b.room];
    assert s.rooms + map[] == s.rooms;
  }

  /** What the batch of a request says. */
  lemma PreparedBatch(loaded: State, maxMessageChars: nat, request: Request, now: int)
    requires Prepare(loaded, maxMessageChars, request, now).Some?
    ensures request.roomId in loaded.rooms
    ensures var b, room := Prepare(loaded, maxMessageChars, request, now).value, loaded.rooms[request.roomId];
            match request
            case Archive(_) => b == ArchiveBatch(room.(status := RoomArchived, updatedAt := now))
            case Post(roomId, messageId, content, artifacts) =>
              && b.PostBatch? && SaysPost(b.message, roomId, messageId, content, artifacts, now)
              && b.room == room.(updatedAt := now)
            case Attach(roomId, about, artifact) => b == AttachBatch(Artifact(roomId, about, artifact, now))
  {
  }

  lemma BatchFulfills(done: seq<Batch>, loaded: State, maxMessageChars: nat, request: Request, now: int)
    requires Prepare(loaded, maxMessageChars, request, now).Some?
    requires forall id :: id in loaded.rooms ==> loaded.rooms[id].id == id
    ensures request.roomId in loaded.rooms
    ensures var b := Prepare(loaded, maxMessageChars, request, now).value;
            Fulfills(StateAfter(done), StateAfter(done + [b]), request, loaded.rooms[request.roomId], now)
  {
    var b := Prepare(loaded, maxMessageChars, request, now).value;
    PreparedIsGrounded(loaded, maxMessageChars, request, now);
    PreparedBatch(loaded, maxMessageChars, request, now);
    hide StateAfter, Prepare, Extends, SaysPost;
    StateAfterSnoc(done, b);
    ExtendsGains(StateAfter(done), StateAfter(done + [b]), b);
  }

  /** An operation that loaded a room queues one batch if and only if its request is acceptable, and nothing otherwise.
      Whatever else has reached the file by then, appending that batch stores exactly what was requested: for a post one
      message with the request's id, text, time and artifacts, in the request's order. */
  lemma RequestIsStored(s: Store, op: nat, request: Request, now: int, done: seq<Batch>)
    requires Inv(s) && Enabled(s, Submit(op, request, now))
    ensures var queue, queue' := s.writeQueue, Step(s, Submit(op, request, now)).writeQueue;
            if IsAcceptable(s, op, request) then
              && |queue'| == |queue| + 1 && queue <= queue'
              && request.roomId in Snapshot(s, op).rooms
              && Fulfills(StateAfter(done), StateAfter(done + [queue'[|queue|]]), request,
                          Snapshot(s, op).rooms[request.roomId], now)
            else queue' == queue
  {
    AcceptedIff(s, op, request, now);
    var seen := s.loads[op].seen;
    RoomKeys(s.done[..seen]);
    assert forall id :: id in Snapshot(s, op).rooms ==> Snapshot(s, op).rooms[id].id == id;
    hide IsAcceptable, Fulfills, StateAfter, Snapshot, Prepare;
    if IsAcceptable(s, op, request) {
      BatchFulfills(done, Snapshot(s, op), s.maxMessageChars, request, now);
    }
  }

  /** Creating a room queues one batch that stores exactly that room, open and stamped with the time of the call. */
  lemma CreationIsStored(s: Store, roomId: string, details: string, now: int, done: seq<Batch>)
    requires Enabled(s, Create(roomId, details, now))
    ensures var queue, queue' := s.writeQueue, Step(s, Create(roomId, details, now)).writeQueue;
            && |queue'| == |queue| + 1 && queue <= queue'
            && var before, after := StateAfter(done), StateAfter(done + [queue'[|queue|]]);
            && Gains(before, after, roomId, [], [])
            && after.rooms.Keys == before.rooms.Keys + {roomId}
            && (forall r :: r in before.rooms && r != roomId ==> after.rooms[r] == before.rooms[r])
            && var room := after.rooms[roomId];
            && room.id == roomId && room.details == details && room.status == RoomOpen
            && room.createdAt == now == room.updatedAt
  {
    var b := CreateBatch(Room(roomId, details, RoomOpen, now, now));
    assert Step(s, Create(roomId, details, now)).writeQueue == s.writeQueue + [b];
    hide StateAfter, Step, Enabled, Extends;
    StateAfterSnoc(done, b);
    ExtendsGains(StateAfter(done), StateAfter(done + [b]), b);
  }

  // ----- whole runs --------------------------------------------------------------------------------------------

  ghost predicate WasCreated(turns: seq<Turn>, room: Room) {
    exists k :: 0 <= k < |turns| && turns[k] == Create(room.id, room.details, room.createdAt)
  }

  /** This turn of the run asked for the message. */
  predicate AsksForMessage(turn: Turn, m: Message) {
    turn.Submit? && turn.request.Post? &&
    SaysPost(m, turn.request.roomId, turn.request.messageId, turn.request.content, turn.request.artifacts, turn.now)
  }

  predicate AsksForAttachment(turn: Turn, a: Artifact) {
    turn.Submit? && turn.request == Attach(a.roomId, a.messageId, a.content) && turn.now == a.createdAt
  }

  ghost predicate WasPosted(turns: seq<Turn>, m: Message) {
    exists k :: 0 <= k < |turns| && AsksForMessage(turns[k], m)
  }

  ghost predicate WasAttached(turns: seq<Turn>, a: Artifact) {
    exists k :: 0 <= k < |turns| && AsksForAttachment(turns[k], a)
  }

  /** Everything in the batch was asked for by some turn of the run. */
  ghost predicate WasAsked(turns: seq<Turn>, b: Batch) {
    match b
    case CreateBatch(room) => WasCreated(turns, room)
    case ArchiveBatch(room) => WasCreated(turns, room)
    case PostBatch(m, room) => WasCreated(turns, room) && WasPosted(turns, m)
    case AttachBatch(a) => WasAttached(turns, a)
  }

  ghost predicate AllAsked(turns: seq<Turn>, batches: seq<Batch>) {
    forall i :: 0 <= i < |batches| ==> WasAsked(turns, batches[i])
  }

  lemma AskedBefore(turns: seq<Turn>, turn: Turn, b: Batch)
    requires WasAsked(turns, b)
    ensures WasAsked(turns + [turn], b)
  {
    hide AsksForMessage, AsksForAttachment;
    var more := turns + [turn];
    assert forall k :: 0 <= k < |turns| ==> more[k] == turns[k];
    if !b.AttachBatch? {
      var k :| 0 <= k < |turns| && turns[k] == Create(b.room.id, b.room.details, b.room.createdAt);
      assert more[k] == Create(b.room.id, b.room.details, b.room.createdAt);
    }
    if b.PostBatch? {
      var k :| 0 <= k < |turns| && AsksForMessage(turns[k], b.message);
      assert AsksForMessage(more[k], b.message);
    } else if b.AttachBatch? {
      var k :| 0 <= k < |turns| && AsksForAttachment(turns[k], b.artifact);
      assert AsksForAttachment(more[k], b.artifact);
    }
  }

  /** Every record of a room in the replay was written by a batch. */
  lemma {:induction false} RoomsWereCreated(turns: seq<Turn>, done: seq<Batch>, id: string)
    requires AllAsked(turns, done) && (forall i :: 0 <= i < |done| ==> WellFormed(done[i]))
    requires id in StateAfter(done).rooms
    ensures WasCreated(turns, StateAfter(done).rooms[id])
  {
    hide WasCreated, WasPosted, WasAttached, StateAfter;
    if done == [] {
      assert StateAfter([]) == EMPTY by { NoBatches(); }
    } else {
      var n := |done| - 1;
      assert done[..n] + [done[n]] == done;
      StateAfterSnoc(done[..n], done[n]);
      assert WasAsked(turns, done[n]);
      if id in StateAfter(done[..n]).rooms { RoomsWereCreated(turns, done[..n], id); }
    }
  }

  lemma NoBatches()
    ensures StateAfter([]) == EMPTY
  {
  }

  lemma PreparedWasAsked(turns: seq<Turn>, s: Store, op: nat, request: Request, now: int)
    requires Inv(s) && Enabled(s, Submit(op, request, now)) && AllAsked(turns, s.done)
    ensures var prepared := Prepare(Snapshot(s, op), s.maxMessageChars, request, now);
            prepared.Some? ==> WasAsked(turns + [Submit(op, request, now)], prepared.value)
  {
    var loaded, more := Snapshot(s, op), turns + [Submit(op, request, now)];
    var seen := s.loads[op].seen;
    assert more[|turns|] == Submit(op, request, now);
    if request.roomId in loaded.rooms {
      RoomsWereCreated(turns, s.done[..seen], request.roomId);
      var room := loaded.rooms[request.roomId];
      hide Snapshot, Inv, StateAfter;
      var k :| 0 <= k < |turns| && turns[k] == Create(room.id, room.details, room.createdAt);
      assert more[k] == Create(room.id, room.details, room.createdAt);
      PreparedSays(loaded, s.maxMessageChars, request, now, op);
      hide SaysPost;
    }
  }

  lemma PreparedSays(loaded: State, maxMessageChars: nat, request: Request, now: int, op: nat)
    requires request.roomId in loaded.rooms
    ensures var prepared := Prepare(loaded, maxMessageChars, request, now);
            prepared.Some? ==>
              match prepared.value
              case PostBatch(m, _) => AsksForMessage(Submit(op, request, now), m)
              case AttachBatch(a) => AsksForAttachment(Submit(op, request, now), a)
              case _ => true
  {
  }

  lemma AllAskedBefore(turns: seq<Turn>, turn: Turn, batches: seq<Batch>)
    requires AllAsked(turns, batches)
    ensures AllAsked(turns + [turn], batches)
  {
    hide WasAsked;
    forall i | 0 <= i < |batches| ensures WasAsked(turns + [turn], batches[i]) {
      AskedBefore(turns, turn, batches[i]);
    }
  }

  lemma CreationWasAsked(turns: seq<Turn>, roomId: string, details: string, now: int)
    ensures WasAsked(turns + [Create(roomId, details, now)], CreateBatch(Room(roomId, details, RoomOpen, now, now)))
  {
    assert (turns + [Create(roomId, details, now)])[|turns|] == Create(roomId, details, now);
  }

  lemma TurnKeepsAsked(turns: seq<Turn>, s: Store, turn: Turn)
    requires Inv(s) && Enabled(s, turn) && AllAsked(turns, s.done) && AllAsked(turns, s.writeQueue)
    ensures var t := Step(s, turn);
            AllAsked(turns + [turn], t.done) && AllAsked(turns + [turn], t.writeQueue)
  {
    hide Inv, WasAsked, StateAfter, Prepare, Snapshot;
    AllAskedBefore(turns, turn, s.done);
    AllAskedBefore(turns, turn, s.writeQueue);
    match turn
    case Create(roomId, details, now) => CreationWasAsked(turns, roomId, details, now);
    case Submit(op, request, now) => PreparedWasAsked(turns, s, op, request, now);
    case _ =>
  }

  lemma {:induction false} EverythingWasAsked(maxMessageChars: nat, turns: seq<Turn>)
    requires IsRun(Init(maxMessageChars), turns)
    ensures var s := Run(Init(maxMessageChars), turns); AllAsked(turns, s.done) && AllAsked(turns, s.writeQueue)
  {
    if turns != [] {
      var n := |turns| - 1;
      EverythingWasAsked(maxMessageChars, turns[..n]);
      RunKeepsInv(Init(maxMessageChars), turns[..n]);
      hide Inv, AllAsked, Enabled, Step;
      TurnKeepsAsked(turns[..n], Run(Init(maxMessageChars), turns[..n]), turns[n]);
      assert turns[..n] + [turns[n]] == turns;
    }
  }

  lemma {:induction false} MessagesWerePosted(turns: seq<Turn>, done: seq<Batch>, r: string, m: Message)
    requires AllAsked(turns, done) && (forall i :: 0 <= i < |done| ==> WellFormed(done[i]))
    requires m in StateAfter(done).MessagesOf(r)
    ensures WasPosted(turns, m)
  {
    hide WasCreated, WasPosted, WasAttached, StateAfter;
    if done == [] {
      NoBatches();
    } else {
      var n := |done| - 1;
      assert done[..n] + [done[n]] == done;
      StateAfterSnoc(done[..n], done[n]);
      assert WasAsked(turns, done[n]);
      if m in StateAfter(done[..n]).MessagesOf(r) { MessagesWerePosted(turns, done[..n], r, m); }
    }
  }

  ghost predicate ArtifactWasAsked(turns: seq<Turn>, a: Artifact) {
    WasAttached(turns, a) || exists m :: WasPosted(turns, m) && a in m.artifacts
  }

  lemma {:induction false} ArtifactsWereAsked(turns: seq<Turn>, done: seq<Batch>, r: string, a: Artifact)
    requires AllAsked(turns, done) && (forall i :: 0 <= i < |done| ==> WellFormed(done[i]))
    requires a in StateAfter(done).ArtifactsOf(r)
    ensures ArtifactWasAsked(turns, a)
  {
    hide WasCreated, WasPosted, WasAttached, StateAfter;
    if done == [] {
      NoBatches();
    } else {
      var n := |done| - 1;
      assert done[..n] + [done[n]] == done;
      StateAfterSnoc(done[..n], done[n]);
      assert WasAsked(turns, done[n]);
      if a in StateAfter(done[..n]).ArtifactsOf(r) { ArtifactsWereAsked(turns, done[..n], r, a); }
    }
  }

  /** For every interleaving, with operations overlapping and appends lost: each message in the replay was posted
      with this very id, text, time and list of artifacts, each artifact was attached or came with such a post, and
      each room has the details and the creation time it was created with, whatever archived, posted to or reopened
      it since. */
  lemma NothingIsInvented(maxMessageChars: nat, turns: seq<Turn>, r: string)
    requires IsRun(Init(maxMessageChars), turns)
    ensures var t := Current(Run(Init(maxMessageChars), turns));
            && (forall m :: m in t.MessagesOf(r) ==> WasPosted(turns, m))
            && (forall a :: a in t.ArtifactsOf(r) ==> ArtifactWasAsked(turns, a))
            && (r in t.rooms ==> WasCreated(turns, t.rooms[r]))
  {
    var s := Run(Init(maxMessageChars), turns);
    RunKeepsInv(Init(maxMessageChars), turns);
    EverythingWasAsked(maxMessageChars, turns);
    assert forall i :: 0 <= i < |s.done| ==> Grounded(StateAfter(s.done[..i]), s.done[i]) && WellFormed(s.done[i]);
    hide Run, IsRun, StateAfter, WasPosted, WasCreated, ArtifactWasAsked, Inv;
    forall m | m in Current(s).MessagesOf(r) ensures WasPosted(turns, m) {
      MessagesWerePosted(turns, s.done, r, m);
    }
    forall a | a in Current(s).ArtifactsOf(r) ensures ArtifactWasAsked(turns, a) {
      ArtifactsWereAsked(turns, s.done, r, a);
    }
    if r in Current(s).rooms { RoomsWereCreated(turns, s.done, r); }
  }
}
