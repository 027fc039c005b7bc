/** The cached connection state (src/connection-state.ts): for requests, offers and sessions alike, a list of ids and
    a list of records, both newest first, without repetition and at most 100 long. */
module ConnectionStates {
  import opened Wrappers
  import opened Recency

  const MAX_RECORDS := 100

  /** What is cached about one request, offer or session; `body` stands for everything but the id. */
  datatype Record = Record(id: int, body: string)

  datatype Shelf = Shelf(ids: seq<int>, records: seq<Record>)

  datatype ConnectionState = ConnectionState(updatedAt: Option<int>, requests: Shelf, offers: Shelf, sessions: Shelf)

  const DEFAULT_STATE := ConnectionState(None, Shelf([], []), Shelf([], []), Shelf([], []))

  function Positive(ids: seq<int>): seq<int> {
    if ids == [] then [] else (if ids[0] > 0 then [ids[0]] else []) + Positive(ids[1..])
  }

  function NewestIds(ids: seq<int>): seq<int> {
    Take(MAX_RECORDS, Newest(Positive(ids)))
  }

  function WithoutId(records: seq<Record>, id: int): seq<Record> {
    if records == [] then []
    else (if records[0].id == id then [] else [records[0]]) + WithoutId(records[1..], id)
  }

  function UpsertNewest(records: seq<Record>, next: Record): seq<Record> {
    Take(MAX_RECORDS, [next] + WithoutId(records, next.id))
  }

  function NormalizeShelf(s: Shelf): Shelf {
    Shelf(NewestIds(s.ids), Take(MAX_RECORDS, s.records))
  }

  function NormalizeState(s: ConnectionState): ConnectionState {
    ConnectionState(s.updatedAt, NormalizeShelf(s.requests), NormalizeShelf(s.offers), NormalizeShelf(s.sessions))
  }

  function RecordOn(s: Shelf, r: Record): Shelf {
    Shelf(NewestIds([r.id] + s.ids), UpsertNewest(s.records, r))
  }

  /** What is on a shelf after the recordings of a newest-first history, with a reload before each. */
  function Stored(history: seq<Record>): Shelf {
    if history == [] then Shelf([], []) else RecordOn(NormalizeShelf(Stored(history[1..])), history[0])
  }

  // ----- the direct description -------------------------------------------------------------------------------

  function Ids(records: seq<Record>): (ids: seq<int>)
    ensures |ids| == |records|
  {
    if records == [] then [] else [records[0].id] + Ids(records[1..])
  }

  function Latest(history: seq<Record>, id: int): (r: Record)
    requires id in Ids(history)
    ensures r.id == id
  {
    if history[0].id == id then history[0] else Latest(history[1..], id)
  }

  /** For each of the ids, the latest record of the history. */
  function LatestOf(ids: seq<int>, history: seq<Record>): seq<Record>
    requires forall id :: id in ids ==> id in Ids(history)
  {
    if ids == [] then [] else [Latest(history, ids[0])] + LatestOf(ids[1..], history)
  }

  lemma {:induction false} PositiveMembers(ids: seq<int>)
    ensures forall id :: id in Positive(ids) <==> id in ids && id > 0
  {
    if ids != [] {
      PositiveMembers(ids[1..]);
      assert ids == [ids[0]] + ids[1..];
    }
  }

  lemma {:induction false} PositiveOfPositive(ids: seq<int>)
    requires forall id :: id in ids ==> id > 0
    ensures Positive(ids) == ids
  {
    if ids != [] {
      assert ids[0] in ids && forall id :: id in ids[1..] ==> id in ids;
      PositiveOfPositive(ids[1..]);
      assert ids == [ids[0]] + ids[1..];
    }
  }

  lemma {:induction false} PositiveConcat(a: seq<int>, b: seq<int>)
    ensures Positive(a + b) == Positive(a) + Positive(b)
  {
    if a == [] {
      assert a + b == b;
    } else {
      PositiveConcat(a[1..], b);
      assert (a + b)[1..] == a[1..] + b && (a + b)[0] == a[0];
      var head, p, q := if a[0] > 0 then [a[0]] else [], Positive(a[1..]), Positive(b);
      assert head + (p + q) == (head + p) + q;
    }
  }

  lemma StoredIdsArePositive(ids: seq<int>)
    ensures Positive(NewestIds(ids)) == NewestIds(ids)
  {
    PositiveMembers(ids);
    NewestIsDistinct(Positive(ids));
    TakeMembers(MAX_RECORDS, Newest(Positive(ids)));
    PositiveOfPositive(NewestIds(ids));
  }

  lemma StoredIdsAreNormal(ids: seq<int>)
    ensures NewestIds(NewestIds(ids)) == NewestIds(ids)
  {
    var d := Newest(Positive(ids));
    NewestIsDistinct(Positive(ids));
    StoredIdsArePositive(ids);
    NewestOfDistinct(Take(MAX_RECORDS, d));
  }

  /** The ids on the shelf are the 100 most recent distinct positive ids of the whole history. */
  lemma {:induction false} IdsRefineHistory(history: seq<Record>)
    ensures Stored(history).ids == NewestIds(Ids(history))
  {
    if history == [] {
    } else {
      var x, older := history[0].id, Ids(history[1..]);
      IdsRefineHistory(history[1..]);
      StoredIdsAreNormal(older);
      StoredIdsArePositive(older);
      PositiveConcat([x], NewestIds(older));
      PositiveConcat([x], older);
      TruncationCommutes(MAX_RECORDS, Positive([x]), Positive(older));
    }
  }

  lemma {:induction false} WithoutIdOfLatest(ids: seq<int>, history: seq<Record>, id: int)
    requires forall i :: i in ids ==> i in Ids(history)
    ensures forall i :: i in Without(ids, id) ==> i in Ids(history)
    ensures WithoutId(LatestOf(ids, history), id) == LatestOf(Without(ids, id), history)
  {
    WithoutMembers(ids, id);
    if ids != [] {
      WithoutIdOfLatest(ids[1..], history, id);
      var rest := Without(ids[1..], id);
      assert [] + rest == rest && ([ids[0]] + rest)[1..] == rest;
      assert [] + LatestOf(rest, history) == LatestOf(rest, history);
    }
  }

  lemma {:induction false} LatestAfter(ids: seq<int>, history: seq<Record>, next: Record)
    requires forall i :: i in ids ==> i in Ids(history) && i != next.id
    ensures (forall i :: i in ids ==> i in Ids([next] + history))
            && LatestOf(ids, [next] + history) == LatestOf(ids, history)
  {
    assert ([next] + history)[1..] == history;
    if ids != [] {
      LatestAfter(ids[1..], history, next);
      assert Latest([next] + history, ids[0]) == Latest(history, ids[0]);
    }
  }

  lemma {:induction false} TakeLatest(n: nat, ids: seq<int>, history: seq<Record>)
    requires forall i :: i in ids ==> i in Ids(history)
    ensures |LatestOf(ids, history)| == |ids|
    ensures Take(n, LatestOf(ids, history)) == LatestOf(Take(n, ids), history)
  {
    if ids != [] && n > 0 {
      TakeLatest(n - 1, ids[1..], history);
      TakeCons(n, ids[0], ids[1..]);
      TakeCons(n, Latest(history, ids[0]), LatestOf(ids[1..], history));
      assert ids == [ids[0]] + ids[1..];
      assert ([ids[0]] + Take(n - 1, ids[1..]))[1..] == Take(n - 1, ids[1..]);
    } else if ids != [] {
      TakeLatest(0, ids[1..], history);
    }
  }

  lemma RecentIdsKnown(history: seq<Record>)
    ensures forall id :: id in Take(MAX_RECORDS, Newest(Ids(history))) ==> id in Ids(history)
  {
    NewestIsDistinct(Ids(history));
  }

  /** The records on the shelf are, in order, the latest ones for the 100 most recent distinct ids. */
  lemma {:induction false} RecordsRefineHistory(history: seq<Record>)
    ensures forall id :: id in Take(100, Newest(Ids(history))) ==> id in Ids(history)
    ensures Stored(history).records == LatestOf(Take(100, Newest(Ids(history))), history)
  {
    RecentIdsKnown(history);
    if history != [] {
      var next, older := history[0], history[1..];
      assert history == [next] + older;
      RecordsRefineHistory(older);
      var kept := Take(MAX_RECORDS, Newest(Ids(older)));
      TakeLatest(MAX_RECORDS, kept, older);
      WithoutIdOfLatest(kept, older, next.id);
      var moved := [next.id] + Without(kept, next.id);
      WithoutMembers(kept, next.id);
      LatestAfter(Without(kept, next.id), older, next);
      assert moved[1..] == Without(kept, next.id);
      assert [next] + WithoutId(LatestOf(kept, older), next.id) == LatestOf(moved, history);
      TakeLatest(MAX_RECORDS, moved, history);
      NewestIsDistinct(Ids(older));
      NewestOfDistinct(kept);
      TruncationCommutes(MAX_RECORDS, [next.id], Ids(older));
      assert ([next.id] + kept)[1..] == kept;
    }
  }

  // ----- do the two lists agree? ------------------------------------------------------------------------------

  lemma {:induction false} PositiveWithout(s: seq<int>, x: int)
    ensures Positive(Without(s, x)) == Without(Positive(s), x)
  {
    if s != [] {
      PositiveWithout(s[1..], x);
      var rest, kept := Without(s[1..], x), Positive(s[1..]);
      assert ([s[0]] + rest)[1..] == rest && [] + rest == rest;
      assert ([s[0]] + kept)[1..] == kept && [] + kept == kept;
    }
  }

  lemma {:induction false} NewestPositive(s: seq<int>)
    ensures Newest(Positive(s)) == Positive(Newest(s))
  {
    if s != [] {
      NewestPositive(s[1..]);
      var kept, rest := Positive(s[1..]), Newest(s[1..]);
      PositiveWithout(rest, s[0]);
      PositiveMembers(rest);
      WithoutMembers(Positive(rest), s[0]);
      assert ([s[0]] + kept)[1..] == kept && [] + kept == kept;
      assert ([s[0]] + Without(rest, s[0]))[1..] == Without(rest, s[0]);
    }
  }

  lemma {:induction false} TakePositive(n: nat, d: seq<int>)
    requires forall id :: id in Take(n, d) ==> id > 0
    ensures Take(n, Positive(d)) == Take(n, d)
  {
    if d != [] && n > 0 {
      TakeCons(n, d[0], d[1..]);
      assert d == [d[0]] + d[1..];
      var rest := Take(n - 1, d[1..]);
      assert Take(n, d) == [d[0]] + rest;
      assert d[0] in [d[0]] + rest && forall id :: id in rest ==> id in [d[0]] + rest;
      TakePositive(n - 1, d[1..]);
      TakeCons(n, d[0], Positive(d[1..]));
    }
  }

  lemma {:induction false} IdsOfLatest(ids: seq<int>, history: seq<Record>)
    requires forall i :: i in ids ==> i in Ids(history)
    ensures Ids(LatestOf(ids, history)) == ids
  {
    if ids != [] {
      IdsOfLatest(ids[1..], history);
      assert LatestOf(ids, history)[1..] == LatestOf(ids[1..], history);
    }
  }

  /** The ids and the records name the same things in the same order. */
  predicate ListsAgree(s: Shelf) {
    Ids(s.records) == s.ids
  }

  /** None of the 100 most recent distinct ids is zero or negative. */
  ghost predicate RecentArePositive(ids: seq<int>) {
    forall id :: id in Take(MAX_RECORDS, Newest(ids)) ==> id > 0
  }

  /** The two lists on a shelf agree if and only if none of the 100 most recent distinct ids of the history is zero or
      negative; the id list refuses those, the record list does not. */
  lemma ListsAgreeIff(history: seq<Record>)
    ensures ListsAgree(Stored(history)) <==> RecentArePositive(Ids(history))
  {
    IdsRefineHistory(history);
    RecordsRefineHistory(history);
    var d := Newest(Ids(history));
    IdsOfLatest(Take(MAX_RECORDS, d), history);
    NewestPositive(Ids(history));
    if forall id :: id in Take(MAX_RECORDS, d) ==> id > 0 {
      TakePositive(MAX_RECORDS, d);
    } else {
      StoredIdsArePositive(Ids(history));
      PositiveMembers(NewestIds(Ids(history)));
    }
  }

  /** Lists that agree still agree after one more recording if and only if its id is positive. */
  lemma RecordingKeepsAgreementIff(history: seq<Record>, r: Record)
    requires ListsAgree(Stored(history))
    ensures ListsAgree(Stored([r] + history)) <==> r.id > 0
  {
    hide ListsAgree, Stored, RecentArePositive;
    assert ([r] + history)[1..] == history;
    assert Ids([r] + history) == [r.id] + Ids(history);
    ListsAgreeIff(history);
    ListsAgreeIff([r] + history);
    MovedPositiveIff(r.id, Ids(history));
  }

  lemma MovedPositiveIff(x: int, ids: seq<int>)
    requires RecentArePositive(ids)
    ensures RecentArePositive([x] + ids) <==> x > 0
  {
    var d := Newest(ids);
    assert ([x] + ids)[1..] == ids;
    assert Newest([x] + ids) == [x] + Without(d, x);
    NewestIsDistinct(ids);
    CutBeforeMove(MAX_RECORDS - 1, d, x);
    TakeCons(MAX_RECORDS, x, Without(d, x));
    var kept := Without(Take(MAX_RECORDS, d), x);
    WithoutMembers(Take(MAX_RECORDS, d), x);
    TakeMembers(MAX_RECORDS - 1, kept);
    assert x in [x] + Take(MAX_RECORDS - 1, kept);
  }

  /** One recording with id zero is enough to make them differ. */
  lemma ZeroIdSplitsLists()
    ensures Stored([Record(0, "request")]) == Shelf([], [Record(0, "request")])
  {
    assert [0][1..] == [] && Positive([0]) == [];
    assert [0] + [] == [0];
  }

  // ----- the store -----------------------------------------------------------------------------------------------

  method UniqueNewest(ids: seq<int>) returns (result: seq<int>)
    ensures result == NewestIds(ids)
  {
    var seen: set<int> := {};
    result := [];
    for i := 0 to |ids|
      invariant result == Newest(Positive(ids[..i]))
      invariant forall x :: x in seen <==> x in Positive(ids[..i])
    {
      var id := ids[i];
      assert ids[..i + 1] == ids[..i] + [id];
      PositiveConcat(ids[..i], [id]);
      assert Positive([id]) == if id > 0 then [id] else [];
      assert Positive(ids[..i]) + [] == Positive(ids[..i]);
      if id <= 0 || id in seen {
        if id > 0 { NewestSnoc(Positive(ids[..i]), id); }
        continue;
      }
      NewestSnoc(Positive(ids[..i]), id);
      seen := seen + {id};
      result := result + [id];
    }
    assert ids[..|ids|] == ids;
    result := Take(MAX_RECORDS, result);
  }

  /** What reading and parsing the file yields. */
  datatype File = Missing | Malformed | Holds(state: ConnectionState)

  function Loaded(file: File): ConnectionState {
    if file.Holds? then NormalizeState(file.state) else DEFAULT_STATE
  }

  class ConnectionStateStore {
    var file: File
    /** Everything recorded so far, newest first. */
    ghost var requested: seq<Record>
    ghost var offered: seq<Record>
    ghost var accepted: seq<Record>

    ghost predicate Valid()
      reads this
    {
      var s := if file.Holds? then file.state else DEFAULT_STATE;
      s.requests == Stored(requested) && s.offers == Stored(offered) && s.sessions == Stored(accepted)
    }

    /** There is no file yet, or one that does not parse. */
    constructor (isMalformed: bool)
      ensures Valid() && requested == [] && offered == [] && accepted == []
    {
      file := if isMalformed then Malformed else Missing;
      requested, offered, accepted := [], [], [];
    }

    method Load() returns (state: ConnectionState)
      ensures state == Loaded(file)
    {
      if !file.Holds? {
        return DEFAULT_STATE;
      }
      var requestIds := UniqueNewest(file.state.requests.ids);
      var offerIds := UniqueNewest(file.state.offers.ids);
      var sessionIds := UniqueNewest(file.state.sessions.ids);
      state := ConnectionState(file.state.updatedAt,
                               Shelf(requestIds, Take(MAX_RECORDS, file.state.requests.records)),
                               Shelf(offerIds, Take(MAX_RECORDS, file.state.offers.records)),
                               Shelf(sessionIds, Take(MAX_RECORDS, file.state.sessions.records)));
    }

    lemma LoadKeeps()
      requires Valid()
      ensures var s := Loaded(file);
              && s.requests == NormalizeShelf(Stored(requested)) == Stored(requested)
              && s.offers == NormalizeShelf(Stored(offered)) == Stored(offered)
              && s.sessions == NormalizeShelf(Stored(accepted)) == Stored(accepted)
    {
      StoredIsNormal(requested);
      StoredIsNormal(offered);
      StoredIsNormal(accepted);
    }

    method RecordRequest(request: Record, now: int) returns (state: ConnectionState)
      requires Valid()
      modifies this
      ensures Valid() && file == Holds(state) && state.updatedAt == Some(now)
      ensures requested == [request] + old(requested) && offered == old(offered) && accepted == old(accepted)
    {
      LoadKeeps();
      state := Load();
      var ids := UniqueNewest([request.id] + state.requests.ids);
      state := state.(requests := Shelf(ids, UpsertNewest(state.requests.records, request)));
      state := state.(updatedAt := Some(now));
      assert ([request] + requested)[1..] == requested;
      requested := [request] + requested;
      file := Holds(state);
    }

    method RecordOffer(offer: Record, now: int) returns (state: ConnectionState)
      requires Valid()
      modifies this
      ensures Valid() && file == Holds(state) && state.updatedAt == Some(now)
      ensures offered == [offer] + old(offered) && requested == old(requested) && accepted == old(accepted)
    {
      LoadKeeps();
      state := Load();
      var ids := UniqueNewest([offer.id] + state.offers.ids);
      state := state.(offers := Shelf(ids, UpsertNewest(state.offers.records, offer)));
      state := state.(updatedAt := Some(now));
      assert ([offer] + offered)[1..] == offered;
      offered := [offer] + offered;
      file := Holds(state);
    }

    method RecordSession(session: Record, now: int) returns (state: ConnectionState)
      requires Valid()
      modifies this
      ensures Valid() && file == Holds(state) && state.updatedAt == Some(now)
      ensures accepted == [session] + old(accepted) && requested == old(requested) && offered == old(offered)
    {
      LoadKeeps();
      state := Load();
      var ids := UniqueNewest([session.id] + state.sessions.ids);
      state := state.(sessions := Shelf(ids, UpsertNewest(state.sessions.records, session)));
      state := state.(updatedAt := Some(now));
      assert ([session] + accepted)[1..] == accepted;
      accepted := [session] + accepted;
      file := Holds(state);
    }
  }

  /** Reloading what was stored changes nothing. */
  lemma StoredIsNormal(history: seq<Record>)
    ensures NormalizeShelf(Stored(history)) == Stored(history)
  {
    IdsRefineHistory(history);
    StoredIdsAreNormal(Ids(history));
  }
}
