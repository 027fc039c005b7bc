/** Archiving a room (src/shared-context.ts): absorbing when operations on the room do not overlap between load and
    append, and exactly when it is undone if they do. */
module SharedContextArchive {
  import opened Wrappers
  import opened SharedContext
  import opened SharedContextRuns

  /** What readers see of one room: its status, its messages and its artifacts. */
  datatype RoomView = RoomView(status: Option<RoomStatus>, messages: seq<Message>, artifacts: seq<Artifact>)

  function View(s: State, r: string): RoomView {
    RoomView(if r in s.rooms then Some(s.rooms[r].status) else None, s.MessagesOf(r), s.ArtifactsOf(r))
  }

  predicate IsArchived(s: State, r: string) {
    View(s, r).status == Some(RoomArchived)
  }

  /** No operation on the room is between its load and its append. */
  predicate Idle(s: Store, r: string) {
    && (forall op :: op in s.loads ==> s.loads[op].roomId != r)
    && (forall i :: 0 <= i < |s.writeQueue| ==> s.writeQueue[i].RoomId() != r)
  }

  /** Operations on r take turns: one may begin only when no other is under way. */
  ghost predicate Serialized(s: Store, turns: seq<Turn>, r: string)
    requires IsRun(s, turns)
  {
    turns == [] ||
    var n := |turns| - 1;
    && Serialized(s, turns[..n], r)
    && ((turns[n].Load? || turns[n].Create?) && turns[n].roomId == r ==> Idle(Run(s, turns[..n]), r))
  }

  lemma OtherRoomUntouched(s: State, t: State, b: Batch, r: string)
    requires WellFormed(b) && Extends(s, t, b) && b.RoomId() != r
    ensures View(t, r) == View(s, r)
  {
  }

  lemma ArchiveKeepsView(s: State, t: State, b: Batch, r: string)
    requires Extends(s, t, b) && b.RoomId() == r && b.ArchiveBatch? && b.room.status.RoomArchived? && IsArchived(s, r)
    ensures View(t, r) == View(s, r)
  {
  }

  ghost predicate CreatesFresh(s: Store) {
    && (forall i :: 0 <= i < |s.writeQueue| && s.writeQueue[i].CreateBatch? ==>
                      s.writeQueue[i].RoomId() in s.roomIds && s.writeQueue[i].RoomId() !in Current(s).rooms)
    && (forall i, j :: 0 <= i < j < |s.writeQueue| && s.writeQueue[i].CreateBatch? && s.writeQueue[j].CreateBatch? ==>
                         s.writeQueue[i].RoomId() != s.writeQueue[j].RoomId())
    && (forall r :: r in Current(s).rooms ==> r in s.roomIds)
  }

  ghost predicate NoneQueued(s: Store, r: string) {
    forall i :: 0 <= i < |s.writeQueue| ==> s.writeQueue[i].RoomId() != r
  }

  ghost predicate OneQueued(s: Store, r: string) {
    forall i, j :: 0 <= i < j < |s.writeQueue| ==> s.writeQueue[i].RoomId() != r || s.writeQueue[j].RoomId() != r
  }

  /** An operation that has loaded r is alone, and what it loaded is still what the file says about r. */
  ghost predicate LoadsAgree(s: Store, r: string) {
    && (forall op :: op in s.loads && s.loads[op].roomId == r ==>
                       NoneQueued(s, r) && View(Snapshot(s, op), r) == View(Current(s), r))
    && (forall op, op' :: op in s.loads && op' in s.loads && s.loads[op].roomId == s.loads[op'].roomId == r
                          ==> op == op')
  }

  /** At most one operation on r is under way. */
  ghost predicate OneAtATime(s: Store, r: string) {
    OneQueued(s, r) && LoadsAgree(s, r)
  }

  /** Whatever is queued for an archived room archives it again. */
  ghost predicate OnlyArchivesQueued(s: Store, r: string) {
    IsArchived(Current(s), r) ==>
      forall i :: 0 <= i < |s.writeQueue| && s.writeQueue[i].RoomId() == r ==>
                    s.writeQueue[i].ArchiveBatch? && s.writeQueue[i].room.status.RoomArchived?
  }

  ghost predicate SerialInv(s: Store, r: string) {
    Inv(s) && CreatesFresh(s) && OneAtATime(s, r) && OnlyArchivesQueued(s, r)
  }

  lemma SnapshotStable(s: Store, s': Store, op: nat)
    requires op in s.loads && op in s'.loads && s.loads[op] == s'.loads[op] && s.loads[op].seen <= |s.done|
    requires s.done <= s'.done
    ensures Snapshot(s', op) == Snapshot(s, op)
  {
    var seen := s.loads[op].seen;
    assert s.done[..seen] == s'.done[..seen];
  }

  // ----- every turn keeps the serial invariant -----------------------------------------------------------

  lemma AppendOne(s: Store, s': Store, b: Batch, r: string)
    requires OneAtATime(s, r)
    requires s'.done == s.done && s'.writeQueue == s.writeQueue + [b]
    requires s'.loads.Keys <= s.loads.Keys && (forall op :: op in s'.loads ==> s'.loads[op] == s.loads[op])
    requires b.RoomId() == r ==> Idle(s'.(writeQueue := s.writeQueue), r)
    ensures OneAtATime(s', r)
  {
    hide View, StateAfter, Batch.RoomId;
    assert OneQueued(s', r);
    forall op | op in s'.loads && s'.loads[op].roomId == r
      ensures NoneQueued(s', r) && View(Snapshot(s', op), r) == View(Current(s'), r)
    {
      assert NoneQueued(s, r);
      assert Snapshot(s', op) == Snapshot(s, op);
    }
  }

  lemma AppendFresh(s: Store, s': Store, b: Batch)
    requires CreatesFresh(s) && s'.done == s.done && s'.writeQueue == s.writeQueue + [b]
    requires if b.CreateBatch? then b.RoomId() !in s.roomIds && s'.roomIds == s.roomIds + {b.RoomId()}
             else s'.roomIds == s.roomIds
    ensures CreatesFresh(s')
  {
    hide StateAfter, Batch.RoomId;
  }

  lemma AppendArchive(s: Store, s': Store, b: Batch, r: string)
    requires OnlyArchivesQueued(s, r) && s'.done == s.done && s'.writeQueue == s.writeQueue + [b]
    requires IsArchived(Current(s), r) && b.RoomId() == r ==> b.ArchiveBatch? && b.room.status.RoomArchived?
    ensures OnlyArchivesQueued(s', r)
  {
    hide IsArchived, StateAfter, Batch.RoomId;
  }

  lemma CreateKeepsSerial(s: Store, roomId: string, details: string, now: int, r: string)
    requires SerialInv(s, r) && Enabled(s, Create(roomId, details, now)) && (roomId == r ==> Idle(s, r))
    ensures SerialInv(Step(s, Create(roomId, details, now)), r)
  {
    var s' := Step(s, Create(roomId, details, now));
    var b := CreateBatch(Room(roomId, details, RoomOpen, now, now));
    StepKeepsInv(s, Create(roomId, details, now));
    assert roomId !in Current(s).rooms;
    hide StateAfter, Inv, OneAtATime, CreatesFresh, OnlyArchivesQueued;
    AppendOne(s, s', b, r);
    AppendFresh(s, s', b);
    AppendArchive(s, s', b, r);
  }

  lemma SameQueueFresh(s: Store, s': Store, r: string)
    requires CreatesFresh(s) && OneQueued(s, r) && OnlyArchivesQueued(s, r)
    requires s'.done == s.done && s'.writeQueue == s.writeQueue && s'.roomIds == s.roomIds
    ensures CreatesFresh(s') && OneQueued(s', r) && OnlyArchivesQueued(s', r)
  {
    hide IsArchived, StateAfter, Batch.RoomId;
  }

  lemma LoadKeepsSerial(s: Store, op: nat, roomId: string, r: string)
    requires SerialInv(s, r) && Enabled(s, Load(op, roomId)) && (roomId == r ==> Idle(s, r))
    ensures SerialInv(Step(s, Load(op, roomId)), r)
  {
    hide StateAfter, Inv, IsArchived, LoadsAgree, CreatesFresh, OneQueued, OnlyArchivesQueued;
    StepKeepsInv(s, Load(op, roomId));
    LoadsAgreeAfterLoad(s, op, roomId, r);
    SameQueueFresh(s, Step(s, Load(op, roomId)), r);
  }

  lemma LoadsAgreeAfterLoad(s: Store, op: nat, roomId: string, r: string)
    requires LoadsAgree(s, r) && op !in s.loads && (roomId == r ==> Idle(s, r))
    ensures LoadsAgree(Step(s, Load(op, roomId)), r)
  {
    var s' := Step(s, Load(op, roomId));
    assert s.done[..|s.done|] == s.done;
    assert Snapshot(s', op) == Current(s');
    hide StateAfter, View, Batch.RoomId;
    forall x | x in s'.loads && s'.loads[x].roomId == r
      ensures NoneQueued(s', r) && View(Snapshot(s', x), r) == View(Current(s'), r)
    {
      if x != op {
        assert NoneQueued(s, r);
        assert Snapshot(s', x) == Snapshot(s, x);
      }
    }
  }

  /** On an archived snapshot only another archive is prepared. */
  lemma PreparedWhenArchived(loaded: State, maxMessageChars: nat, request: Request, now: int)
    requires IsArchived(loaded, request.roomId)
    ensures var prepared := Prepare(loaded, maxMessageChars, request, now);
            prepared.Some? ==> prepared.value.ArchiveBatch? && prepared.value.room.status.RoomArchived?
  {
  }

  lemma SubmitKeepsSerial(s: Store, op: nat, request: Request, now: int, r: string)
    requires SerialInv(s, r) && Enabled(s, Submit(op, request, now))
    ensures SerialInv(Step(s, Submit(op, request, now)), r)
  {
    var s' := Step(s, Submit(op, request, now));
    var loaded := Snapshot(s, op);
    var prepared := Prepare(loaded, s.maxMessageChars, request, now);
    StepKeepsInv(s, Submit(op, request, now));
    RoomKeys(if s.loads[op].seen <= |s.done| then s.done[..s.loads[op].seen] else s.done);
    if prepared.Some? {
      PreparedIsGrounded(loaded, s.maxMessageChars, request, now);
      assert !prepared.value.CreateBatch?;
      hide StateAfter, Inv, Prepare, Grounded;
      PreparedKeepsSerial(s, s', op, request, prepared.value, now, r);
    } else {
      SameQueueSerial(s, s', r);
    }
  }

  lemma PreparedKeepsSerial(s: Store, s': Store, op: nat, request: Request, b: Batch, now: int, r: string)
    requires CreatesFresh(s) && OneAtATime(s, r) && OnlyArchivesQueued(s, r)
    requires op in s.loads && s.loads[op].roomId == request.roomId
    requires Prepare(Snapshot(s, op), s.maxMessageChars, request, now) == Some(b)
    requires !b.CreateBatch? && b.RoomId() == request.roomId
    requires s'.done == s.done && s'.writeQueue == s.writeQueue + [b] && s'.roomIds == s.roomIds
             && s'.loads == s.loads - {op}
    ensures CreatesFresh(s') && OneAtATime(s', r) && OnlyArchivesQueued(s', r)
  {
    hide StateAfter, Prepare;
    if request.roomId == r {
      assert View(Snapshot(s, op), r) == View(Current(s), r);
      if IsArchived(Current(s), r) { PreparedWhenArchived(Snapshot(s, op), s.maxMessageChars, request, now); }
      assert NoneQueued(s, r);
      assert Idle(s'.(writeQueue := s.writeQueue), r);
    }
    hide OneAtATime, CreatesFresh, OnlyArchivesQueued, Snapshot, IsArchived;
    AppendOne(s, s', b, r);
    AppendFresh(s, s', b);
    AppendArchive(s, s', b, r);
  }

  lemma SameQueueSerial(s: Store, s': Store, r: string)
    requires CreatesFresh(s) && OneAtATime(s, r) && OnlyArchivesQueued(s, r)
    requires s'.done == s.done && s'.writeQueue == s.writeQueue && s'.roomIds == s.roomIds
    requires s'.loads.Keys <= s.loads.Keys && (forall op :: op in s'.loads ==> s'.loads[op] == s.loads[op])
    ensures CreatesFresh(s') && OneAtATime(s', r) && OnlyArchivesQueued(s', r)
  {
    hide View, StateAfter, Batch.RoomId;
    forall op | op in s'.loads ensures Snapshot(s', op) == Snapshot(s, op) { }
  }

  // ----- flushing: the only turn that readers can see ---------------------------------------------------------

  /** A flush changes nothing about r, or appends the only batch under way for r. */
  lemma FlushView(s: Store, ok: bool, r: string)
    requires Inv(s)
    ensures var s' := Step(s, Flush(ok));
            && (s.writeQueue == [] || !ok || s.writeQueue[0].RoomId() != r
                ==> View(Current(s'), r) == View(Current(s), r))
            && (s.writeQueue != [] && ok ==> Extends(Current(s), Current(s'), s.writeQueue[0]))
  {
    if s.writeQueue != [] && ok {
      StateAfterSnoc(s.done, s.writeQueue[0]);
      hide StateAfter;
      if s.writeQueue[0].RoomId() != r {
        OtherRoomUntouched(Current(s), Current(Step(s, Flush(ok))), s.writeQueue[0], r);
      }
    }
  }

  lemma TailOfQueue(s: Store, s': Store, r: string)
    requires OneQueued(s, r) && s.writeQueue != [] && s'.writeQueue == s.writeQueue[1..]
    ensures OneQueued(s', r)
    ensures NoneQueued(s, r) || s.writeQueue[0].RoomId() == r ==> NoneQueued(s', r)
    ensures s.writeQueue[0].RoomId() == r ==> !NoneQueued(s, r)
  {
    hide Batch.RoomId;
    assert forall i :: 0 <= i < |s'.writeQueue| ==> s'.writeQueue[i] == s.writeQueue[i + 1];
  }

  lemma FlushKeepsOne(s: Store, ok: bool, r: string)
    requires Inv(s) && OneAtATime(s, r)
    ensures OneAtATime(Step(s, Flush(ok)), r)
  {
    if s.writeQueue != [] {
      var s' := Step(s, Flush(ok));
      FlushView(s, ok, r);
      TailOfQueue(s, s', r);
      hide View, StateAfter, LogGrounded, QueueGrounded, Stamped, Extends, OneQueued, NoneQueued;
      FlushKeepsLoads(s, s', r);
    }
  }

  lemma FlushKeepsLoads(s: Store, s': Store, r: string)
    requires LoadsAgree(s, r) && LoadsInPast(s) && s.loads == s'.loads && s.done <= s'.done
    requires NoneQueued(s, r) ==> NoneQueued(s', r) && View(Current(s'), r) == View(Current(s), r)
    ensures LoadsAgree(s', r)
  {
    hide View, StateAfter, NoneQueued, Snapshot;
    forall op | op in s'.loads && s'.loads[op].roomId == r
      ensures NoneQueued(s', r) && View(Snapshot(s', op), r) == View(Current(s'), r)
    {
      SnapshotStable(s, s', op);
      assert NoneQueued(s, r);
    }
  }

  lemma FlushKeepsFresh(s: Store, ok: bool)
    requires Inv(s) && CreatesFresh(s)
    ensures CreatesFresh(Step(s, Flush(ok)))
  {
    if s.writeQueue != [] {
      FlushRooms(s, ok);
      hide Inv, StateAfter;
      TailFresh(s, Step(s, Flush(ok)));
    }
  }

  lemma TailFresh(s: Store, s': Store)
    requires CreatesFresh(s) && s.writeQueue != [] && s'.writeQueue == s.writeQueue[1..] && s'.roomIds == s.roomIds
    requires forall id :: id in Current(s').rooms ==>
                            id in Current(s).rooms || (s.writeQueue[0].CreateBatch? && id == s.writeQueue[0].RoomId())
    ensures CreatesFresh(s')
  {
    hide StateAfter, Batch.RoomId;
    assert forall i :: 0 <= i < |s'.writeQueue| ==> s'.writeQueue[i] == s.writeQueue[i + 1];
  }

  lemma FlushRooms(s: Store, ok: bool)
    requires Inv(s) && s.writeQueue != []
    ensures forall id :: id in Current(Step(s, Flush(ok))).rooms ==>
                           id in Current(s).rooms || (s.writeQueue[0].CreateBatch? && id == s.writeQueue[0].RoomId())
  {
    assert Grounded(Current(s), s.writeQueue[0]);
    FlushView(s, ok, "");
    hide StateAfter, LogGrounded, QueueGrounded, Stamped;
  }

  lemma FlushKeepsArchives(s: Store, ok: bool, r: string)
    requires Inv(s) && OneQueued(s, r) && OnlyArchivesQueued(s, r)
    ensures OnlyArchivesQueued(Step(s, Flush(ok)), r)
  {
    if s.writeQueue != [] {
      FlushView(s, ok, r);
      TailOfQueue(s, Step(s, Flush(ok)), r);
      hide StateAfter, Inv, Extends, View, OneQueued, OnlyArchivesQueued;
      TailArchives(s, Step(s, Flush(ok)), r);
    }
  }

  lemma TailArchives(s: Store, s': Store, r: string)
    requires OnlyArchivesQueued(s, r) && s.writeQueue != [] && s'.writeQueue == s.writeQueue[1..]
    requires NoneQueued(s', r) || View(Current(s'), r) == View(Current(s), r)
    ensures OnlyArchivesQueued(s', r)
  {
    hide StateAfter, View, Batch.RoomId;
    assert forall i :: 0 <= i < |s'.writeQueue| ==> s'.writeQueue[i] == s.writeQueue[i + 1];
  }

  lemma StepKeepsSerial(s: Store, t: Turn, r: string)
    requires SerialInv(s, r) && Enabled(s, t)
    requires (t.Load? || t.Create?) && t.roomId == r ==> Idle(s, r)
    ensures SerialInv(Step(s, t), r)
  {
    match t
    case Create(roomId, details, now) => CreateKeepsSerial(s, roomId, details, now, r);
    case Load(op, roomId) => LoadKeepsSerial(s, op, roomId, r);
    case Submit(op, request, now) => SubmitKeepsSerial(s, op, request, now, r);
    case Flush(ok) =>
      hide Inv, OneAtATime, CreatesFresh, OnlyArchivesQueued;
        StepKeepsInv(s, t);
        FlushKeepsOne(s, ok, r);
        FlushKeepsFresh(s, ok);
        FlushKeepsArchives(s, ok, r);
  }

  lemma ArchivedStep(s: Store, t: Turn, r: string)
    requires SerialInv(s, r) && Enabled(s, t) && IsArchived(Current(s), r)
    ensures View(Current(Step(s, t)), r) == View(Current(s), r)
  {
    if t.Flush? && s.writeQueue != [] {
      FlushView(s, t.ok, r);
      if t.ok && s.writeQueue[0].RoomId() == r {
        ArchiveKeepsView(Current(s), Current(Step(s, t)), s.writeQueue[0], r);
      }
    }
  }

  lemma {:induction false} SerialRun(s: Store, turns: seq<Turn>, r: string)
    requires SerialInv(s, r) && IsRun(s, turns) && Serialized(s, turns, r)
    ensures SerialInv(Run(s, turns), r)
  {
    hide SerialInv;
    if turns != [] {
      SerialRun(s, turns[..|turns| - 1], r);
      StepKeepsSerial(Run(s, turns[..|turns| - 1]), turns[|turns| - 1], r);
    }
  }

  lemma InitSerial(maxMessageChars: nat, r: string)
    ensures SerialInv(Init(maxMessageChars), r)
  {
    assert StateAfter([]) == EMPTY;
    hide StateAfter, View, Batch.RoomId, Stamp, Grounded;
  }

  lemma {:induction false} RunPrefix(s: Store, turns: seq<Turn>, k: nat, r: string)
    requires IsRun(s, turns) && k <= |turns| && Serialized(s, turns, r)
    ensures IsRun(s, turns[..k]) && Serialized(s, turns[..k], r)
  {
    if k == |turns| {
      assert turns[..k] == turns;
    } else {
      RunPrefix(s, turns[..|turns| - 1], k, r);
      assert turns[..|turns| - 1][..k] == turns[..k];
    }
  }

  /** Archive is absorbing: in every run where operations on r take turns, once the replayed room is archived every
      later replay shows it archived, with the same messages and artifacts. */
  lemma {:induction false} ArchiveIsAbsorbing(maxMessageChars: nat, turns: seq<Turn>, k: nat, r: string)
    requires IsRun(Init(maxMessageChars), turns) && Serialized(Init(maxMessageChars), turns, r) && k <= |turns|
    requires IsRun(Init(maxMessageChars), turns[..k]) && IsArchived(Current(Run(Init(maxMessageChars), turns[..k])), r)
    ensures View(Current(Run(Init(maxMessageChars), turns)), r)
         == View(Current(Run(Init(maxMessageChars), turns[..k])), r)
  {
    hide SerialInv, View, StateAfter;
    var s0 := Init(maxMessageChars);
    if k == |turns| {
      assert turns[..k] == turns;
    } else {
      var n := |turns| - 1;
      assert turns[..n][..k] == turns[..k];
      ArchiveIsAbsorbing(maxMessageChars, turns[..n], k, r);
      InitSerial(maxMessageChars, r);
      SerialRun(s0, turns[..n], r);
      ArchivedStep(Run(s0, turns[..n]), turns[n], r);
    }
  }

  // ----- overlapping operations ---------------------------------------------------------------------------------

  /** The request passes every check but the one on the room's status. */
  predicate AcceptedWhenOpen(loaded: State, request: Request, maxMessageChars: nat) {
    match request
    case Post(_, _, content, artifacts) =>
      && !IsBlank(content) && |content| <= maxMessageChars
      && (forall i :: 0 <= i < |artifacts| ==> Acceptable(artifacts[i]))
    case Attach(roomId, about, artifact) =>
      Acceptable(artifact) && (about.Some? ==> HasMessage(loaded, roomId, about.value))
    case Archive(_) => false
  }

  lemma PreparedIff(loaded: State, maxMessageChars: nat, request: Request, now: int)
    requires AcceptedWhenOpen(loaded, request, maxMessageChars)
    ensures var prepared := Prepare(loaded, maxMessageChars, request, now);
            && (prepared.Some? <==> View(loaded, request.roomId).status == Some(RoomOpen))
            && (prepared.Some? ==>
                  prepared.value.RoomId() == request.roomId
                  && (NewMessages(prepared.value) != [] || NewArtifacts(prepared.value) != []))
  {
  }

  /** What the file will say once everything queued has been appended. */
  function Settled(s: Store): State {
    StateAfter(s.done + s.writeQueue)
  }

  lemma PreparedKeepsStatus(loaded: State, maxMessageChars: nat, request: Request, now: int)
    requires AcceptedWhenOpen(loaded, request, maxMessageChars)
    ensures var prepared := Prepare(loaded, maxMessageChars, request, now);
            prepared.Some? ==> if request.Attach? then NewRooms(prepared.value) == map[]
              else prepared.value.PostBatch? && prepared.value.room.status.RoomOpen?
  {
  }

  lemma StatusAfter(s: State, t: State, b: Batch)
    requires Extends(s, t, b) && WellFormed(b) && (b.PostBatch? || NewRooms(b) == map[])
    ensures View(t, b.RoomId()).status == if b.PostBatch? then Some(b.room.status) else View(s, b.RoomId()).status
  {
  }

  /** A post or attachment that loaded earlier leaves a room that has been archived since, or whose archive still waits
      in the write queue, as it is exactly when the room was not open at its load: the status check looks at the loaded
      copy, not at the file it is appended to. A post then also opens the room again, an attachment does not. */
  lemma LateWriteHarmlessIff(s: Store, op: nat, request: Request, now: int)
    requires Inv(s) && Enabled(s, Submit(op, request, now)) && IsArchived(Settled(s), request.roomId)
    requires AcceptedWhenOpen(Snapshot(s, op), request, s.maxMessageChars)
    ensures var before, after := Settled(s), Settled(Step(s, Submit(op, request, now)));
            var openAtLoad := View(Snapshot(s, op), request.roomId).status == Some(RoomOpen);
            && (View(after, request.roomId) == View(before, request.roomId) <==> !openAtLoad)
            && (IsArchived(after, request.roomId) <==> !openAtLoad || request.Attach?)
  {
    var s' := Step(s, Submit(op, request, now));
    var prepared := Prepare(Snapshot(s, op), s.maxMessageChars, request, now);
    PreparedIff(Snapshot(s, op), s.maxMessageChars, request, now);
    PreparedKeepsStatus(Snapshot(s, op), s.maxMessageChars, request, now);
    PreparedInPast(s, op, request, now);
    hide StateAfter, Inv, Prepare, Snapshot, AcceptedWhenOpen, Extends;
    if prepared.Some? {
      assert s'.done + s'.writeQueue == (s.done + s.writeQueue) + [prepared.value];
      StateAfterSnoc(s.done + s.writeQueue, prepared.value);
      GainIsVisible(Settled(s), Settled(s'), prepared.value);
      StatusAfter(Settled(s), Settled(s'), prepared.value);
    } else {
      assert s'.done + s'.writeQueue == s.done + s.writeQueue;
    }
  }

  lemma GainIsVisible(s: State, t: State, b: Batch)
    requires Extends(s, t, b) && (NewMessages(b) != [] || NewArtifacts(b) != [])
    ensures View(t, b.RoomId()) != View(s, b.RoomId())
  {
    var r := b.RoomId();
    assert |t.MessagesOf(r)| == |s.MessagesOf(r)| + |NewMessages(b)|;
    assert |t.ArtifactsOf(r)| == |s.ArtifactsOf(r)| + |NewArtifacts(b)|;
  }

  lemma RunSnoc(s: Store, turns: seq<Turn>, t: Turn)
    requires IsRun(s, turns) && Enabled(Run(s, turns), t)
    ensures IsRun(s, turns + [t]) && Run(s, turns + [t]) == Step(Run(s, turns), t)
  {
    assert (turns + [t])[..|turns|] == turns;
  }

  /** A room with one load of it already taken. */
  lemma OpenRoomLoadedTwice(r: string) returns (turns: seq<Turn>)
    ensures IsRun(Init(100), turns)
    ensures var s := Run(Init(100), turns);
            && s.writeQueue == [] && s.maxMessageChars == 100 && s.clock == 1
            && s.loads == map[0 := Loaded(r, 1), 1 := Loaded(r, 1)] && |s.done| == 1
            && View(Current(s), r).status == Some(RoomOpen)
  {
    var room := Room(r, "", RoomOpen, 1, 1);
    turns := [];
    RunSnoc(Init(100), turns, Create(r, "", 1));
    turns := turns + [Create(r, "", 1)];
    RunSnoc(Init(100), turns, Flush(true));
    turns := turns + [Flush(true)];
    var s2 := Run(Init(100), turns);
    assert s2.done == [] + [CreateBatch(room)];
    StateAfterSnoc([], CreateBatch(room));
    assert Current(s2).rooms[r] == room;
    RunSnoc(Init(100), turns, Load(0, r));
    turns := turns + [Load(0, r)];
    RunSnoc(Init(100), turns, Load(1, r));
    turns := turns + [Load(1, r)];
  }

  lemma ArchiveWhileLoaded(r: string) returns (turns: seq<Turn>)
    ensures IsRun(Init(100), turns)
    ensures var s := Run(Init(100), turns);
            && Inv(s) && s.writeQueue == [] && s.maxMessageChars == 100 && s.clock == 2
            && 0 in s.loads && s.loads[0].roomId == r && View(Snapshot(s, 0), r).status == Some(RoomOpen)
            && IsArchived(Current(s), r)
  {
    turns := OpenRoomLoadedTwice(r);
    var s4 := Run(Init(100), turns);
    assert s4.done[..1] == s4.done;
    var archive := Submit(1, Archive(r), 2);
    RunSnoc(Init(100), turns, archive);
    RunSnoc(Init(100), turns + [archive], Flush(true));
    StepKeepsInvs(Init(100), turns);
    hide StateAfter, Run, IsRun, Inv;
    ReplacesStatus(s4, archive);
    StepKeepsInv(s4, archive);
    StepKeepsInv(Step(s4, archive), Flush(true));
    turns := turns + [archive] + [Flush(true)];
    SnapshotStable(s4, Run(Init(100), turns), 0);
  }

  /** Why the operations must take turns: a post that loaded before an archive and is appended after it
      reopens the room. */
  lemma OverlappingPostReopens() returns (before: seq<Turn>, after: seq<Turn>)
    ensures IsRun(Init(100), before) && IsRun(Init(100), before + after)
    ensures IsArchived(Current(Run(Init(100), before)), "r")
    ensures View(Current(Run(Init(100), before + after)), "r").status == Some(RoomOpen)
  {
    before := ArchiveWhileLoaded("r");
    var s6 := Run(Init(100), before);
    var post := Submit(0, Post("r", "m", "hi", []), 3);
    assert !IsBlank("hi") by { assert "hi"[0] == 'h'; }
    assert Prepare(Snapshot(s6, 0), 100, post.request, 3).Some?;
    assert Prepare(Snapshot(s6, 0), 100, post.request, 3).value.room.status == RoomOpen;
    hide StateAfter, Run, IsRun, Inv, IsBlank, Snapshot, Prepare;
    RunSnoc(Init(100), before, post);
    RunSnoc(Init(100), before + [post], Flush(true));
    ReplacesStatus(s6, post);
    after := [post] + [Flush(true)];
    assert before + after == before + [post] + [Flush(true)];
  }

  lemma StepKeepsInvs(s: Store, turns: seq<Turn>)
    requires s == Init(100) && IsRun(s, turns)
    ensures Inv(Run(s, turns))
  {
    InitSerial(100, "");
    RunKeepsInv(s, turns);
  }

  lemma HeadStatus(s: Store, b: Batch, r: string)
    requires Inv(s) && s.writeQueue == [b] && !b.AttachBatch? && b.room.id == r && b.RoomId() == r
    ensures View(Current(Step(s, Flush(true))), r).status == Some(b.room.status)
  {
    hide StateAfter, Inv;
    FlushView(s, true, r);
  }

  /** A prepared archive or post, once appended, puts the status it carries into the file. */
  lemma ReplacesStatus(s: Store, t: Turn)
    requires Inv(s) && t.Submit? && Enabled(s, t) && s.writeQueue == []
    requires Prepare(Snapshot(s, t.op), s.maxMessageChars, t.request, t.now).Some? && !t.request.Attach?
    ensures var b := Prepare(Snapshot(s, t.op), s.maxMessageChars, t.request, t.now).value;
            !b.AttachBatch?
            && View(Current(Step(Step(s, t), Flush(true))), t.request.roomId).status == Some(b.room.status)
  {
    var b := Prepare(Snapshot(s, t.op), s.maxMessageChars, t.request, t.now).value;
    PreparedRoom(s, t);
    hide StateAfter, Inv, Prepare, Snapshot;
    StepKeepsInv(s, t);
    HeadStatus(Step(s, t), b, t.request.roomId);
  }

  lemma PreparedRoom(s: Store, t: Turn)
    requires Inv(s) && t.Submit? && Enabled(s, t)
    requires Prepare(Snapshot(s, t.op), s.maxMessageChars, t.request, t.now).Some? && !t.request.Attach?
    ensures var b := Prepare(Snapshot(s, t.op), s.maxMessageChars, t.request, t.now).value;
            !b.AttachBatch? && b.room.id == t.request.roomId == b.RoomId()
  {
    hide StateAfter, QueueGrounded, Stamped;
    RoomKeys(if s.loads[t.op].seen <= |s.done| then s.done[..s.loads[t.op].seen] else s.done);
    PreparedIsGrounded(Snapshot(s, t.op), s.maxMessageChars, t.request, t.now);
  }
}
