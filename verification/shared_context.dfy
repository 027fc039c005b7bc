/** Shared rooms as an append-only event log (src/shared-context.ts): the events, their replay, and the batches
    that each operation computes from the state it loaded. */
module SharedContext {
  import opened Wrappers

  datatype RoomStatus = RoomOpen | RoomArchived

  /** `details` stands for title, topic, participants, tags, creator and metadata, which no operation changes. */
  datatype Room = Room(id: string, details: string, status: RoomStatus, createdAt: int, updatedAt: int)

  datatype ArtifactInput = ArtifactInput(kind: string, name: string, uri: string, digest: string)
  datatype Artifact = Artifact(roomId: string, messageId: Option<string>, content: ArtifactInput, createdAt: int)
  datatype Message = Message(id: string, roomId: string, ts: int, content: string, artifacts: seq<Artifact>)

  datatype Event =
    | RoomCreated(room: Room)
    | RoomUpdated(room: Room)
    | MessagePosted(message: Message)
    | ArtifactAttached(artifact: Artifact)

  datatype State = State(rooms: map<string, Room>, messages: map<string, seq<Message>>,
                         artifacts: map<string, seq<Artifact>>)
  {
    function MessagesOf(roomId: string): seq<Message> {
      if roomId in messages then messages[roomId] else []
    }

    function ArtifactsOf(roomId: string): seq<Artifact> {
      if roomId in artifacts then artifacts[roomId] else []
    }
  }

  const EMPTY := State(map[], map[], map[])

  function ApplyEvent(s: State, e: Event): State {
    match e
    case RoomCreated(room) => s.(rooms := s.rooms[room.id := room])
    case RoomUpdated(room) => s.(rooms := s.rooms[room.id := room])
    case MessagePosted(m) => s.(messages := s.messages[m.roomId := s.MessagesOf(m.roomId) + [m]])
    case ArtifactAttached(a) => s.(artifacts := s.artifacts[a.roomId := s.ArtifactsOf(a.roomId) + [a]])
  }

  function ApplyAll(s: State, log: seq<Event>): State {
    if log == [] then s else ApplyEvent(ApplyAll(s, log[..|log| - 1]), log[|log| - 1])
  }

  function Replay(log: seq<Event>): State {
    ApplyAll(EMPTY, log)
  }

  lemma {:induction false} ApplyAllAppend(s: State, a: seq<Event>, b: seq<Event>)
    ensures ApplyAll(s, a + b) == ApplyAll(ApplyAll(s, a), b)
  {
    if b == [] {
      assert a + b == a;
    } else {
      var n := |b| - 1;
      assert (a + b)[..|a| + n] == a + b[..n];
      ApplyAllAppend(s, a, b[..n]);
    }
  }

  /** `loadState`: three maps updated in place while the log is read line by line. */
  class SharedState {
    var rooms: map<string, Room>
    var messages: map<string, seq<Message>>
    var artifacts: map<string, seq<Artifact>>

    function View(): State
      reads this
    {
      State(rooms, messages, artifacts)
    }

    constructor ()
      ensures View() == EMPTY
    {
      rooms, messages, artifacts := map[], map[], map[];
    }

    method Apply(e: Event)
      modifies this
      ensures View() == ApplyEvent(old(View()), e)
    {
      match e {
        case RoomCreated(room) => rooms := rooms[room.id := room];
        case RoomUpdated(room) => rooms := rooms[room.id := room];
        case MessagePosted(m) =>
          var known := if m.roomId in messages then messages[m.roomId] else [];
          messages := messages[m.roomId := known + [m]];
        case ArtifactAttached(a) =>
          var known := if a.roomId in artifacts then artifacts[a.roomId] else [];
          artifacts := artifacts[a.roomId := known + [a]];
      }
    }
  }

  method LoadState(file: seq<Event>) returns (state: SharedState)
    ensures fresh(state) && state.View() == Replay(file)
  {
    state := new SharedState();
    for i := 0 to |file|
      invariant state.View() == Replay(file[..i])
    {
      state.Apply(file[i]);
      assert file[..i + 1][..i] == file[..i];
    }
    assert file[..|file|] == file;
  }

  // ----- the batches ------------------------------------------------------------------------------------

  /** What one operation hands to `appendMany`. */
  datatype Batch =
    | CreateBatch(room: Room)
    | ArchiveBatch(room: Room)
    | PostBatch(message: Message, room: Room)
    | AttachBatch(artifact: Artifact)
  {
    function RoomId(): string {
      match this
      case CreateBatch(room) => room.id
      case ArchiveBatch(room) => room.id
      case PostBatch(message, _) => message.roomId
      case AttachBatch(artifact) => artifact.roomId
    }

    function Events(): seq<Event> {
      match this
      case CreateBatch(room) => [RoomCreated(room)]
      case ArchiveBatch(room) => [RoomUpdated(room)]
      case PostBatch(message, room) => [MessagePosted(message)] + Attachments(message.artifacts) + [RoomUpdated(room)]
      case AttachBatch(artifact) => [ArtifactAttached(artifact)]
    }
  }

  function Attachments(artifacts: seq<Artifact>): seq<Event> {
    if artifacts == [] then [] else
    var n := |artifacts| - 1;
    Attachments(artifacts[..n]) + [ArtifactAttached(artifacts[n])]
  }

  datatype Request =
    | Archive(roomId: string)
    | Post(roomId: string, messageId: string, content: string, artifacts: seq<ArtifactInput>)
    | Attach(roomId: string, about: Option<string>, artifact: ArtifactInput)

  predicate IsBlank(text: string) {
    forall i :: 0 <= i < |text| ==> text[i] in " \t\r\n"
  }

  predicate Acceptable(a: ArtifactInput) {
    !IsBlank(a.kind) && (a.uri != "" || a.digest != "" || a.name != "")
  }

  function StampAll(inputs: seq<ArtifactInput>, roomId: string, messageId: string, now: int): (r: seq<Artifact>)
    ensures |r| == |inputs|
    ensures forall i :: 0 <= i < |r| ==> r[i] == Artifact(roomId, Some(messageId), inputs[i], now)
  {
    seq(|inputs|, i requires 0 <= i < |inputs| => Artifact(roomId, Some(messageId), inputs[i], now))
  }

  /** The part of `archiveRoom`, `postMessage` and `attachArtifact` between the load and the append;
      None is one of the errors they throw. */
  function Prepare(loaded: State, maxMessageChars: nat, r: Request, now: int): Option<Batch> {
    if r.roomId !in loaded.rooms then None
    else
      var room := loaded.rooms[r.roomId];
      match r
      case Archive(_) => Some(ArchiveBatch(room.(status := RoomArchived, updatedAt := now)))
      case Post(roomId, messageId, content, artifacts) =>
        if room.status.RoomArchived? || IsBlank(content) || |content| > maxMessageChars then None
        else if exists i :: 0 <= i < |artifacts| && !Acceptable(artifacts[i]) then None
        else
          Some(PostBatch(Message(messageId, roomId, now, content, StampAll(artifacts, roomId, messageId, now)),
                         room.(updatedAt := now)))
      case Attach(roomId, about, artifact) =>
        if room.status.RoomArchived? then None
        else if about.Some? && !HasMessage(loaded, roomId, about.value) then None
        else if !Acceptable(artifact) then None
        else Some(AttachBatch(Artifact(roomId, about, artifact, now)))
  }

  predicate HasMessage(s: State, roomId: string, messageId: string) {
    exists i :: 0 <= i < |s.MessagesOf(roomId)| && s.MessagesOf(roomId)[i].id == messageId
  }

  // ----- what a batch does to the replayed state -------------------------------------------------------------

  /** From s to t one room gained these records, messages and artifacts, and nothing else changed. */
  ghost predicate Grows(s: State, t: State, roomId: string, rooms: map<string, Room>, messages: seq<Message>,
                        artifacts: seq<Artifact>)
  {
    && t.rooms == s.rooms + rooms
    && (forall r :: t.MessagesOf(r) == if r == roomId then s.MessagesOf(r) + messages else s.MessagesOf(r))
    && (forall r :: t.ArtifactsOf(r) == if r == roomId then s.ArtifactsOf(r) + artifacts else s.ArtifactsOf(r))
  }

  lemma GrowsThenGrows(s: State, t: State, u: State, roomId: string, rooms: map<string, Room>, messages: seq<Message>,
                       artifacts: seq<Artifact>, artifacts': seq<Artifact>)
    requires Grows(s, t, roomId, map[], messages, artifacts) && Grows(t, u, roomId, rooms, [], artifacts')
    ensures Grows(s, u, roomId, rooms, messages, artifacts + artifacts')
  {
    assert s.rooms + map[] == s.rooms;
    assert s.MessagesOf(roomId) + messages + [] == s.MessagesOf(roomId) + messages;
    assert s.ArtifactsOf(roomId) + artifacts + artifacts' == s.ArtifactsOf(roomId) + (artifacts + artifacts');
  }

  lemma RoomEventGrows(s: State, e: Event)
    requires e.RoomCreated? || e.RoomUpdated?
    ensures Grows(s, ApplyAll(s, [e]), e.room.id, map[e.room.id := e.room], [], [])
  {
    assert [e][..0] == [];
    assert ApplyAll(s, [e]) == ApplyEvent(s, e);
  }

  lemma MessageEventGrows(s: State, m: Message)
    ensures Grows(s, ApplyAll(s, [MessagePosted(m)]), m.roomId, map[], [m], [])
  {
    assert [MessagePosted(m)][..0] == [];
    assert ApplyAll(s, [MessagePosted(m)]) == ApplyEvent(s, MessagePosted(m));
  }

  lemma ArtifactEventGrows(s: State, a: Artifact)
    ensures Grows(s, ApplyAll(s, [ArtifactAttached(a)]), a.roomId, map[], [], [a])
  {
    assert [ArtifactAttached(a)][..0] == [];
    assert ApplyAll(s, [ArtifactAttached(a)]) == ApplyEvent(s, ArtifactAttached(a));
  }

  lemma NothingGrows(s: State, roomId: string)
    ensures Grows(s, s, roomId, map[], [], [])
  {
  }

  lemma {:induction false} AttachmentsGrow(s: State, artifacts: seq<Artifact>, roomId: string)
    requires forall i :: 0 <= i < |artifacts| ==> artifacts[i].roomId == roomId
    ensures Grows(s, ApplyAll(s, Attachments(artifacts)), roomId, map[], [], artifacts)
  {
    if artifacts == [] {
      NothingGrows(s, roomId);
    } else {
      var n := |artifacts| - 1;
      var before, last := Attachments(artifacts[..n]), [ArtifactAttached(artifacts[n])];
      assert Attachments(artifacts) == before + last;
      AttachmentsGrow(s, artifacts[..n], roomId);
      hide Grows, ApplyAll, Attachments;
      ApplyAllAppend(s, before, last);
      ArtifactEventGrows(ApplyAll(s, before), artifacts[n]);
      GrowsThenGrows(s, ApplyAll(s, before), ApplyAll(s, before + last), roomId, map[], [], artifacts[..n],
                     [artifacts[n]]);
      assert artifacts[..n] + [artifacts[n]] == artifacts;
    }
  }

  /** Batches as the operations build them. */
  predicate WellFormed(b: Batch) {
    match b
    case PostBatch(message, room) =>
      && room.id == message.roomId
      && (forall i :: 0 <= i < |message.artifacts| ==>
                        message.artifacts[i].roomId == message.roomId
                        && message.artifacts[i].messageId == Some(message.id))
    case _ => true
  }

  function NewRooms(b: Batch): map<string, Room> {
    if b.AttachBatch? then map[] else map[b.room.id := b.room]
  }

  function NewMessages(b: Batch): seq<Message> {
    if b.PostBatch? then [b.message] else []
  }

  function NewArtifacts(b: Batch): seq<Artifact> {
    match b
    case PostBatch(message, _) => message.artifacts
    case AttachBatch(artifact) => [artifact]
    case _ => []
  }

  /** t is s with one batch applied. */
  ghost predicate Extends(s: State, t: State, b: Batch) {
    Grows(s, t, b.RoomId(), NewRooms(b), NewMessages(b), NewArtifacts(b))
  }

  /** A batch is one step on its own room and nothing else. */
  lemma BatchEffect(log: seq<Event>, b: Batch)
    requires WellFormed(b)
    ensures Extends(Replay(log), Replay(log + b.Events()), b)
  {
    hide Grows;
    var s := Replay(log);
    ApplyAllAppend(EMPTY, log, b.Events());
    match b
    case PostBatch(message, room) => PostGrows(s, message, room);
    case CreateBatch(room) => RoomEventGrows(s, RoomCreated(room));
    case ArchiveBatch(room) => RoomEventGrows(s, RoomUpdated(room));
    case AttachBatch(artifact) => ArtifactEventGrows(s, artifact);
  }

  lemma PostGrows(s: State, m: Message, room: Room)
    requires WellFormed(PostBatch(m, room))
    ensures Extends(s, ApplyAll(s, PostBatch(m, room).Events()), PostBatch(m, room))
  {
    var first, middle, last := [MessagePosted(m)], Attachments(m.artifacts), [RoomUpdated(room)];
    hide Grows, ApplyAll, Attachments;
    var s1 := ApplyAll(s, first);
    var s2 := ApplyAll(s1, middle);
    var s3 := ApplyAll(s2, last);
    ApplyAllAppend(s, first + middle, last);
    ApplyAllAppend(s, first, middle);
    MessageEventGrows(s, m);
    AttachmentsGrow(s1, m.artifacts, m.roomId);
    RoomEventGrows(s2, RoomUpdated(room));
    GrowsThenGrows(s, s1, s2, m.roomId, map[], [m], [], m.artifacts);
    assert [] + m.artifacts == m.artifacts == m.artifacts + [];
    GrowsThenGrows(s, s2, s3, m.roomId, map[room.id := room], [m], m.artifacts, []);
  }

  // ----- reading ---------------------------------------------------------------------------------------------

  function NormalizeCount(value: Option<int>, fallback: int, max: int): int {
    var v := if value.Some? then value.value else fallback;
    var atLeastOne := if v < 1 then 1 else v;
    if atLeastOne < max then atLeastOne else max
  }

  function NewerThan(messages: seq<Message>, after: int): seq<Message> {
    if messages == [] then [] else
    var n := |messages| - 1;
    NewerThan(messages[..n], after) + if messages[n].ts > after then [messages[n]] else []
  }

  function LastOf(messages: seq<Message>, count: int): seq<Message>
    requires count >= 1
  {
    if count >= |messages| then messages else messages[|messages| - count..]
  }

  function ReadMessages(s: State, roomId: string, after: Option<int>, count: Option<int>,
                        maxPerRead: nat): Option<seq<Message>>
    requires maxPerRead >= 1
  {
    if roomId !in s.rooms then None
    else
      var all := s.MessagesOf(roomId);
      var messages := if after.Some? then NewerThan(all, after.value) else all;
      Some(LastOf(messages, NormalizeCount(count, 50, maxPerRead)))
  }

  ghost predicate InTimeOrder(messages: seq<Message>) {
    forall i, j :: 0 <= i < j < |messages| ==> messages[i].ts <= messages[j].ts
  }

  lemma {:induction false} AllOld(messages: seq<Message>, after: int)
    requires forall i :: 0 <= i < |messages| ==> messages[i].ts <= after
    ensures NewerThan(messages, after) == []
  {
    if messages != [] { AllOld(messages[..|messages| - 1], after); }
  }

  lemma SuffixSnoc(messages: seq<Message>, tail: seq<Message>)
    requires |messages| > 0 && |tail| < |messages|
    requires tail == messages[..|messages| - 1][|messages| - 1 - |tail|..]
    ensures tail + [messages[|messages| - 1]] == messages[|messages| - 1 - |tail|..]
  {
  }

  /** On an ordered list the filter keeps a suffix: exactly the messages newer than `after`. */
  lemma {:induction false} NewerIsSuffix(messages: seq<Message>, after: int)
    requires InTimeOrder(messages)
    ensures |NewerThan(messages, after)| <= |messages|
    ensures NewerThan(messages, after) == messages[|messages| - |NewerThan(messages, after)|..]
    ensures forall i :: 0 <= i < |messages| ==>
                          (messages[i].ts > after <==> i >= |messages| - |NewerThan(messages, after)|)
  {
    if messages != [] {
      var n := |messages| - 1;
      if messages[n].ts <= after {
        AllOld(messages, after);
      } else {
        NewerIsSuffix(messages[..n], after);
        SuffixSnoc(messages, NewerThan(messages[..n], after));
        assert forall i :: 0 <= i < n ==> messages[..n][i] == messages[i];
        hide NewerThan;
      }
    }
  }
}
