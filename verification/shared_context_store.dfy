/** The store object (src/shared-context.ts): its file and write queue, updated step by step, follow the turns
    of SharedContextRuns. */
module SharedContextStores {
  import opened Wrappers
  import opened SharedContext
  import opened SharedContextRuns
  import opened SharedContextEffects

  /** The events of a post: the message as given, its artifacts one by one, and the room. */
  ghost predicate TellsPost(events: seq<Event>, roomId: string, messageId: string, content: string,
                            artifacts: seq<ArtifactInput>, now: int)
  {
    && |events| == |artifacts| + 2
    && events[0].MessagePosted? && SaysPost(events[0].message, roomId, messageId, content, artifacts, now)
    && (forall i :: 0 <= i < |artifacts| ==>
                      events[i + 1] == ArtifactAttached(Artifact(roomId, Some(messageId), artifacts[i], now)))
    && events[|artifacts| + 1].RoomUpdated? && events[|artifacts| + 1].room.updatedAt == now
  }

  lemma {:induction false} AttachmentsInOrder(artifacts: seq<Artifact>)
    ensures |Attachments(artifacts)| == |artifacts|
    ensures forall i :: 0 <= i < |artifacts| ==> Attachments(artifacts)[i] == ArtifactAttached(artifacts[i])
  {
    if artifacts != [] { AttachmentsInOrder(artifacts[..|artifacts| - 1]); }
  }

  lemma PostTells(loaded: State, maxMessageChars: nat, roomId: string, messageId: string, content: string,
                  artifacts: seq<ArtifactInput>, now: int)
    requires Prepare(loaded, maxMessageChars, Post(roomId, messageId, content, artifacts), now).Some?
    ensures var b := Prepare(loaded, maxMessageChars, Post(roomId, messageId, content, artifacts), now).value;
            TellsPost(b.Events(), roomId, messageId, content, artifacts, now)
  {
    var b := Prepare(loaded, maxMessageChars, Post(roomId, messageId, content, artifacts), now).value;
    PreparedBatch(loaded, maxMessageChars, Post(roomId, messageId, content, artifacts), now);
    hide Prepare, TellsPost, Batch.Events;
    EventsTell(b.message, b.room, roomId, messageId, content, artifacts, now);
  }

  lemma EventsTell(m: Message, room: Room, roomId: string, messageId: string, content: string,
                   artifacts: seq<ArtifactInput>, now: int)
    requires SaysPost(m, roomId, messageId, content, artifacts, now) && room.updatedAt == now
    ensures TellsPost(PostBatch(m, room).Events(), roomId, messageId, content, artifacts, now)
  {
    AttachmentsInOrder(m.artifacts);
    hide Attachments;
    var middle := Attachments(m.artifacts);
    var events := [MessagePosted(m)] + middle + [RoomUpdated(room)];
    assert PostBatch(m, room).Events() == events && |events| == |artifacts| + 2;
    forall i | 0 <= i < |artifacts|
      ensures events[i + 1] == ArtifactAttached(Artifact(roomId, Some(messageId), artifacts[i], now))
    {
      assert events[i + 1] == middle[i] == ArtifactAttached(m.artifacts[i]);
    }
  }

  class SharedContextStore {
    const enabled: bool
    const maxMessageChars: nat
    var file: seq<Event>
    var writeQueue: seq<seq<Event>>
    ghost var model: Store

    ghost predicate Valid()
      reads this
    {
      && model.maxMessageChars == maxMessageChars
      && file == Flatten(model.done)
      && |writeQueue| == |model.writeQueue|
      && (forall i :: 0 <= i < |writeQueue| ==> writeQueue[i] == model.writeQueue[i].Events())
      && Inv(model)
    }

    constructor (enabled: bool, maxMessageChars: nat)
      ensures Valid() && model == Init(maxMessageChars) && this.enabled == enabled
    {
      this.enabled := enabled;
      this.maxMessageChars := maxMessageChars;
      file, writeQueue, model := [], [], Init(maxMessageChars);
    }

    method CreateRoom(roomId: string, title: string, details: string, now: int) returns (ok: bool)
      requires Valid() && Enabled(model, Create(roomId, details, now))
      modifies this
      ensures Valid() && (ok <==> enabled && !IsBlank(title))
      ensures model == if ok then Step(old(model), Create(roomId, details, now)) else old(model)
    {
      if !enabled || IsBlank(title) {
        return false;
      }
      var room := Room(roomId, details, RoomOpen, now, now);
      AppendMany([RoomCreated(room)]);
      StepKeepsInv(model, Create(roomId, details, now));
      model := Step(model, Create(roomId, details, now));
      ok := true;
    }

    /** The first half of every other operation; a disabled store refuses it. */
    method LoadFor(ghost op: nat, ghost roomId: string) returns (state: SharedState?)
      requires Valid() && Enabled(model, Load(op, roomId))
      modifies this`model
      ensures Valid() && (state != null <==> enabled)
      ensures model == if state != null then Step(old(model), Load(op, roomId)) else old(model)
      ensures state != null ==> fresh(state) && state.View() == Snapshot(model, op)
    {
      if !enabled {
        return null;
      }
      state := LoadState(file);
      StepKeepsInv(model, Load(op, roomId));
      model := Step(model, Load(op, roomId));
      assert model.done[..|model.done|] == model.done;
    }

    method ArchiveRoom(ghost op: nat, state: SharedState, roomId: string, now: int) returns (ok: bool)
      requires Valid() && Enabled(model, Submit(op, Archive(roomId), now)) && state.View() == Snapshot(model, op)
      modifies this
      ensures Valid() && model == Step(old(model), Submit(op, Archive(roomId), now))
      ensures ok <==> roomId in state.rooms
    {
      ok := roomId in state.rooms;
      var events := [];
      if ok {
        var room := state.rooms[roomId];
        events := [RoomUpdated(room.(status := RoomArchived, updatedAt := now))];
      }
      Commit(op, Archive(roomId), now, ok, events);
    }

    method PostMessage(ghost op: nat, state: SharedState, roomId: string, messageId: string, content: string,
                       artifacts: seq<ArtifactInput>, now: int) returns (ok: bool)
      requires Valid() && Enabled(model, Submit(op, Post(roomId, messageId, content, artifacts), now))
      requires state.View() == Snapshot(model, op)
      modifies this
      ensures Valid() && model == Step(old(model), Submit(op, Post(roomId, messageId, content, artifacts), now))
      ensures ok <==> Prepare(old(state.View()), maxMessageChars, Post(roomId, messageId, content, artifacts),
                              now).Some?
      ensures if ok then |writeQueue| == |old(writeQueue)| + 1 && old(writeQueue) <= writeQueue
                         && TellsPost(writeQueue[|old(writeQueue)|], roomId, messageId, content, artifacts, now)
              else writeQueue == old(writeQueue)
    {
      var events;
      ok, events := ComposePost(state.View(), roomId, messageId, content, artifacts, now);
      hide Prepare, Batch.Events, Step, Snapshot, Inv, TellsPost;
      if ok { PostTells(state.View(), maxMessageChars, roomId, messageId, content, artifacts, now); }
      Commit(op, Post(roomId, messageId, content, artifacts), now, ok, events);
    }

    method ComposePost(loaded: State, roomId: string, messageId: string, content: string,
                       artifacts: seq<ArtifactInput>, now: int) returns (ok: bool, events: seq<Event>)
      ensures var prepared := Prepare(loaded, maxMessageChars, Post(roomId, messageId, content, artifacts), now);
              (ok <==> prepared.Some?) && (ok ==> events == prepared.value.Events())
    {
      if roomId !in loaded.rooms || loaded.rooms[roomId].status == RoomArchived
         || IsBlank(content) || |content| > maxMessageChars {
        return false, [];
      }
      var stamped: seq<Artifact> := [];
      for i := 0 to |artifacts|
        invariant forall k :: 0 <= k < i ==> Acceptable(artifacts[k])
        invariant stamped == StampAll(artifacts[..i], roomId, messageId, now)
      {
        if !Acceptable(artifacts[i]) {
          return false, [];
        }
        stamped := stamped + [Artifact(roomId, Some(messageId), artifacts[i], now)];
      }
      assert artifacts[..|artifacts|] == artifacts;
      events := [MessagePosted(Message(messageId, roomId, now, content, stamped))];
      for i := 0 to |stamped|
        invariant events == [MessagePosted(Message(messageId, roomId, now, content, stamped))]
                            + Attachments(stamped[..i])
      {
        assert stamped[..i + 1][..i] == stamped[..i];
        events := events + [ArtifactAttached(stamped[i])];
      }
      assert stamped[..|stamped|] == stamped;
      events := events + [RoomUpdated(loaded.rooms[roomId].(updatedAt := now))];
      ok := true;
    }

    method AttachArtifact(ghost op: nat, state: SharedState, roomId: string, about: Option<string>,
                          artifact: ArtifactInput, now: int) returns (ok: bool)
      requires Valid() && Enabled(model, Submit(op, Attach(roomId, about, artifact), now))
      requires state.View() == Snapshot(model, op)
      modifies this
      ensures Valid() && model == Step(old(model), Submit(op, Attach(roomId, about, artifact), now))
      ensures ok <==> Prepare(old(state.View()), maxMessageChars, Attach(roomId, about, artifact), now).Some?
    {
      if roomId !in state.rooms || state.rooms[roomId].status == RoomArchived {
        ok := false;
      } else if about.Some? && !HasMessage(state.View(), roomId, about.value) {
        ok := false;
      } else {
        ok := Acceptable(artifact);
      }
      Commit(op, Attach(roomId, about, artifact), now, ok, [ArtifactAttached(Artifact(roomId, about, artifact, now))]);
    }

    /** The last turn of an operation: its events are appended unless a check failed. */
    method Commit(ghost op: nat, ghost request: Request, ghost now: int, ok: bool, events: seq<Event>)
      requires Valid() && Enabled(model, Submit(op, request, now))
      requires var prepared := Prepare(Snapshot(model, op), maxMessageChars, request, now);
               (ok <==> prepared.Some?) && (ok ==> events == prepared.value.Events())
      modifies this
      ensures Valid() && model == Step(old(model), Submit(op, request, now))
      ensures writeQueue == if ok then old(writeQueue) + [events] else old(writeQueue)
    {
      hide Inv, Prepare, Batch.Events, Snapshot, Flatten;
      ghost var prepared := Prepare(Snapshot(model, op), maxMessageChars, request, now);
      ghost var next := Step(model, Submit(op, request, now));
      assert next.done == model.done && next.maxMessageChars == maxMessageChars;
      assert next.writeQueue == if prepared.Some? then model.writeQueue + [prepared.value] else model.writeQueue;
      StepKeepsInv(model, Submit(op, request, now));
      hide Step, Enabled;
      if ok {
        AppendMany(events);
      }
      model := next;
    }

    /** The payload joins the queue in the same turn in which it was stamped. */
    method AppendMany(events: seq<Event>)
      modifies this`writeQueue
      ensures writeQueue == old(writeQueue) + [events]
    {
      writeQueue := writeQueue + [events];
    }

    /** The head of the queue is appended to the file, or lost when the append fails. */
    method WriteNext(ok: bool)
      requires Valid()
      modifies this
      ensures Valid() && model == Step(old(model), Flush(ok))
    {
      StepKeepsInv(model, Flush(ok));
      if |writeQueue| > 0 {
        if ok {
          file := file + writeQueue[0];
          assert (model.done + [model.writeQueue[0]])[..|model.done|] == model.done;
        }
        writeQueue := writeQueue[1..];
      }
      model := Step(model, Flush(ok));
    }
  }
}
