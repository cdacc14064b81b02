/** Departures from the protocol's assumptions, and what exactly each of them loses. */
module SyncRaces {
  import opened Basics
  import opened Query
  import opened SyncToken
  import opened SyncModel
  import opened SyncTable
  import opened SyncSystem
  import opened SyncConvergence

  predicate Holds(replica: map<string, Value>, key: string, value: Value) {
    key in replica && replica[key] == value
  }

  /** The copy has every row of the domain up to the cursor. */
  ghost predicate Covers(rows: Table, dom: DomainId, replica: map<string, Value>, cursor: int) {
    forall id :: id in rows && id.dom == dom && rows[id].seqNo <= cursor ==> Holds(replica, id.key, rows[id].value)
  }

  // ----- lost rows -----

  /** A row at or below the cursor, live or a tombstone, of which the copy has nothing or another version. */
  ghost predicate Lost(s: Server, c: Client, id: EntryId) {
    && id in s.rows && id.dom == c.dom && s.rows[id].seqNo <= Cursor(c)
    && !Holds(c.replica, id.key, s.rows[id].value)
  }

  lemma LostIffDisagrees(s: Server, c: Client)
    ensures SeenRowsAgree(s, c) <==> Covers(s.rows, c.dom, c.replica, Cursor(c))
    ensures SeenRowsAgree(s, c) <==> !exists id :: Lost(s, c, id)
  {
    if !SeenRowsAgree(s, c) {
      var id :| id in s.rows && id.dom == c.dom && s.rows[id].seqNo <= Cursor(c)
                && !(id.key in c.replica && c.replica[id.key] == s.rows[id].value);
      assert Lost(s, c, id);
    } else {
      assert forall id :: id in s.rows && id.dom == c.dom && s.rows[id].seqNo <= Cursor(c) ==>
          Holds(c.replica, id.key, s.rows[id].value);
    }
  }

  /** A lost row stays lost through every accepted pull. */
  lemma LostStaysLost(s: Server, c: Client, limit: nat, found: seq<EntryId>, hex: string, id: EntryId)
    requires Valid(s) && CursorValid(s, c) && CanPull(s, c, limit, found, hex)
    requires PullReply(s, c, limit, found, hex).Some? && Lost(s, c, id)
    ensures var after := PullStep(s, c, limit, found, hex);
            CursorValid(s, after) && Lost(s, after, id)
  {
    assert EntryId(c.dom, id.key) == id;
    ReplyCursor(s, c, limit, found, hex);
    ReplyReach(s, c, limit, found, hex, id);
    ReplyItems(s, c, limit, found, hex, id.key);
    assert s.rows[id].seqNo <= StoredMark(s.domains, c.dom) <= Mark(s.cur, c.dom);
    if |found| > limit {
      var last := found[limit - 1];
      assert last in Newer(s.rows, c.dom, Cursor(c));
    }
  }

  /** No pull of the run is refused, and no step touches the row. */
  ghost predicate Undisturbed(w: World, actions: seq<Action>, id: EntryId)
    requires IsRun(w, actions)
    decreases |actions|
  {
    actions == [] ||
    (var a, next := actions[0], Next(w, actions[0]);
     && (a.Pull? ==> PullReply(w.server, w.client, a.limit, a.found, a.hex).Some?)
     && (id in w.server.rows ==> id in next.server.rows && next.server.rows[id] == w.server.rows[id])
     && Undisturbed(next, actions[1..], id))
  }

  lemma StepKeepsLost(w: World, a: Action, id: EntryId)
    requires Valid(w.server) && CursorValid(w.server, w.client) && Enabled(w, a) && Lost(w.server, w.client, id)
    requires a.Pull? ==> PullReply(w.server, w.client, a.limit, a.found, a.hex).Some?
    requires id in Next(w, a).server.rows && Next(w, a).server.rows[id] == w.server.rows[id]
    ensures CursorValid(Next(w, a).server, Next(w, a).client) && Lost(Next(w, a).server, Next(w, a).client, id)
  {
    match a
    case Tick(time) =>
    case Push(dom, items, now, hex, commits) =>
      PushMarks(w.server, dom, items, now, hex, commits, w.client.dom);
    case Restart(stored) =>
      assert Issued(Next(w, a).server, w.client.dom) == Issued(w.server, w.client.dom);
    case Pull(limit, found, hex) =>
      LostStaysLost(w.server, w.client, limit, found, hex, id);
  }

  /** Nothing but a refusal, or another push of the key, ever repairs a lost row. */
  lemma {:induction false} LostForGood(w: World, actions: seq<Action>, id: EntryId)
    requires Valid(w.server) && CursorValid(w.server, w.client) && Lost(w.server, w.client, id)
    requires IsRun(w, actions) && Undisturbed(w, actions, id)
    ensures Lost(After(w, actions).server, After(w, actions).client, id)
    decreases |actions|
  {
    if actions != [] {
      StepKeepsServerValid(w, actions[0]);
      StepKeepsLost(w, actions[0], id);
      LostForGood(Next(w, actions[0]), actions[1..], id);
    }
  }

  /** What the user sees: a lost row shows unless it is a tombstone of an entry that the copy does not show either. */
  lemma LostShowsIff(s: Server, c: Client, id: EntryId)
    requires Lost(s, c, id)
    ensures LiveAtDevice(c, id.key) != LiveAtServer(s.rows, c.dom, id.key)
            <==> !s.rows[id].value.deleted || LiveAtDevice(c, id.key).Some?
  {
    assert EntryId(c.dom, id.key) == id;
  }

  /** A copy that once disagrees has lost a row for good. */
  lemma DisagreementStays(w: World) returns (id: EntryId)
    requires Valid(w.server) && CursorValid(w.server, w.client) && !SeenRowsAgree(w.server, w.client)
    ensures Lost(w.server, w.client, id)
    ensures forall actions :: IsRun(w, actions) && Undisturbed(w, actions, id) ==>
              Lost(After(w, actions).server, After(w, actions).client, id)
  {
    LostIffDisagrees(w.server, w.client);
    id :| Lost(w.server, w.client, id);
    forall actions | IsRun(w, actions) && Undisturbed(w, actions, id)
      ensures Lost(After(w, actions).server, After(w, actions).client, id)
    {
      LostForGood(w, actions, id);
    }
  }

  // ----- a copy after a push: what the cursor must not have jumped over -----

  /** Item i of the accepted ones is what its key ends up with. */
  predicate WrittenLast(accepted: seq<Item>, i: int) {
    0 <= i < |accepted| && LastIndex(accepted, accepted[i].key) == i
  }

  /** The copy has every row that the push wrote up to the cursor. */
  ghost predicate CoversWritten(accepted: seq<Item>, start: int, replica: map<string, Value>, cursor: int) {
    forall i :: WrittenLast(accepted, i) && start + i <= cursor ==>
      Holds(replica, accepted[i].key, accepted[i].value)
  }

  /** A row that a push neither replaces nor prunes. */
  predicate Untouched(rows: Table, accepted: seq<Item>, dom: DomainId, now: int, id: EntryId) {
    && id in rows && id.dom == dom
    && LastIndex(accepted, id.key) < 0 && !Stale(id, rows[id], dom, now - RETENTION)
  }

  ghost predicate CoversUntouched(rows: Table, accepted: seq<Item>, dom: DomainId, now: int,
                                  replica: map<string, Value>, cursor: int)
  {
    forall id :: Untouched(rows, accepted, dom, now, id) && rows[id].seqNo <= cursor ==>
      Holds(replica, id.key, rows[id].value)
  }

  /** The rows after a push are the rows it wrote and the rows it left. */
  lemma CoversAfterPush(rows: Table, dom: DomainId, items: seq<Item>, start: int, now: Millis,
                        replica: map<string, Value>, cursor: int)
    requires NumbersFit(start, |Accepted(rows, dom, items)|) && now <= start
    ensures var accepted := Accepted(rows, dom, items);
            Covers(PushTable(rows, dom, items, start, now), dom, replica, cursor)
            <==> CoversWritten(accepted, start, replica, cursor)
                 && CoversUntouched(rows, accepted, dom, now, replica, cursor)
  {
    var accepted, after := Accepted(rows, dom, items), PushTable(rows, dom, items, start, now);
    if Covers(after, dom, replica, cursor) {
      forall i | WrittenLast(accepted, i) && start + i <= cursor
        ensures Holds(replica, accepted[i].key, accepted[i].value)
      {
        PushAt(rows, dom, items, start, now, EntryId(dom, accepted[i].key));
      }
      forall id | Untouched(rows, accepted, dom, now, id) && rows[id].seqNo <= cursor
        ensures Holds(replica, id.key, rows[id].value)
      {
        PushAt(rows, dom, items, start, now, id);
      }
    }
    if CoversWritten(accepted, start, replica, cursor)
       && CoversUntouched(rows, accepted, dom, now, replica, cursor) {
      forall id | id in after && id.dom == dom && after[id].seqNo <= cursor
        ensures Holds(replica, id.key, after[id].value)
      {
        PushAt(rows, dom, items, start, now, id);
        var j := LastIndex(accepted, id.key);
        if j >= 0 {
          assert WrittenLast(accepted, j);
        } else {
          assert Untouched(rows, accepted, dom, now, id);
        }
      }
    }
  }

  // ----- a pull whose rows and token are read at two moments -----

  /** The rows of a complete page come from s, the token from a later state. */
  ghost function TornPull(s: Server, later: Server, c: Client, limit: nat, found: seq<EntryId>, hex: string): Client
    requires CanPull(s, c, limit, found, hex) && PullReply(s, c, limit, found, hex).Some? && |found| <= limit
  {
    Client(c.dom, Apply(c.replica, ItemsOf(s.rows, found)), CurrentOf(later.cur, c.dom))
  }

  ghost predicate CanTear(s: Server, c: Client, limit: nat, found: seq<EntryId>, hex: string,
                          items: seq<Item>, now: int, pushHex: string)
  {
    && Valid(s) && Agrees(s, c) && CanPull(s, c, limit, found, hex)
    && PullReply(s, c, limit, found, hex).Some? && |found| <= limit
    && CanPush(s, c.dom, items, now, pushHex)
  }

  lemma TornCursor(s: Server, c: Client, limit: nat, found: seq<EntryId>, hex: string,
                   items: seq<Item>, now: int, pushHex: string)
    requires CanTear(s, c, limit, found, hex, items, now, pushHex)
    ensures var later := PushStep(s, c.dom, items, now, pushHex, true);
            var torn := TornPull(s, later, c, limit, found, hex);
            && torn.replica == PullStep(s, c, limit, found, hex).replica
            && Cursor(torn) == Mark(later.cur, c.dom)
            && Mark(later.cur, c.dom) == StoredMark(later.domains, c.dom)
            && CursorValid(later, torn)
  {
    PushMarks(s, c.dom, items, now, pushHex, true, c.dom);
  }

  /** A complete page brings the copy up to date with all rows of s, and leaves the other keys alone. */
  lemma PageReplica(s: Server, c: Client, limit: nat, found: seq<EntryId>, key: string)
    requires Valid(s) && SeenRowsAgree(s, c) && limit >= 1 && |found| <= limit
    requires FirstBy(Newer(s.rows, c.dom, Cursor(c)), limit + 1, found)
    ensures var id, after := EntryId(c.dom, key), Apply(c.replica, ItemsOf(s.rows, found));
            && (id in s.rows ==> Holds(after, key, s.rows[id].value))
            && (id !in s.rows ==> (key in after <==> key in c.replica))
            && (id !in s.rows && key in after ==> after[key] == c.replica[key])
  {
    var id := EntryId(c.dom, key);
    ApplyAt(c.replica, s.rows, found, c.dom, key);
    if id in s.rows && id !in found {
      PageIsInterval(s, c.dom, Cursor(c), limit, found, id);
    }
  }

  lemma TornReplica(s: Server, c: Client, limit: nat, found: seq<EntryId>, hex: string, key: string)
    requires Valid(s) && Agrees(s, c) && CanPull(s, c, limit, found, hex)
    requires PullReply(s, c, limit, found, hex).Some? && |found| <= limit
    ensures var id, after := EntryId(c.dom, key), PullStep(s, c, limit, found, hex).replica;
            if id in s.rows then Holds(after, key, s.rows[id].value)
            else forall v :: Holds(after, key, v) <==> Holds(c.replica, key, v)
  {
    var id := EntryId(c.dom, key);
    ReplyItems(s, c, limit, found, hex, key);
    if id in s.rows {
      ReplyCursor(s, c, limit, found, hex);
      assert s.rows[id].seqNo <= StoredMark(s.domains, c.dom) <= Mark(s.cur, c.dom);
      PullAgreesOnRow(s, c, limit, found, hex, id);
    }
  }

  /** The copy of a device that had a row before the push cannot have the newer item already. */
  lemma TornItem(s: Server, c: Client, limit: nat, found: seq<EntryId>, hex: string, items: seq<Item>, i: nat)
    requires Valid(s) && Agrees(s, c) && CanPull(s, c, limit, found, hex)
    requires PullReply(s, c, limit, found, hex).Some? && |found| <= limit
    requires i < |Accepted(s.rows, c.dom, items)|
    ensures var item := Accepted(s.rows, c.dom, items)[i];
            Holds(PullStep(s, c, limit, found, hex).replica, item.key, item.value)
            <==> EntryId(c.dom, item.key) !in s.rows && Holds(c.replica, item.key, item.value)
  {
    AcceptedComeFromItems(s.rows, c.dom, items);
    TornReplica(s, c, limit, found, hex, Accepted(s.rows, c.dom, items)[i].key);
  }

  /** The new item of every written key is one the copy has, of a key without a row before. */
  ghost predicate NothingNew(s: Server, c: Client, accepted: seq<Item>) {
    forall i :: WrittenLast(accepted, i) ==>
      EntryId(c.dom, accepted[i].key) !in s.rows && Holds(c.replica, accepted[i].key, accepted[i].value)
  }

  /**
   * With a push between the two moments the copy still has every row up to its cursor exactly when every
   * item that the push left in the table had no row before and is already in the copy (a tombstone pruned at
   * the server and pushed again, say).
   */
  lemma TornPullExact(s: Server, c: Client, limit: nat, found: seq<EntryId>, hex: string,
                      items: seq<Item>, now: int, pushHex: string)
    requires CanTear(s, c, limit, found, hex, items, now, pushHex)
    ensures var later := PushStep(s, c.dom, items, now, pushHex, true);
            SeenRowsAgree(later, TornPull(s, later, c, limit, found, hex))
            <==> NothingNew(s, c, Accepted(s.rows, c.dom, items))
  {
    var later := PushStep(s, c.dom, items, now, pushHex, true);
    var torn := TornPull(s, later, c, limit, found, hex);
    var accepted, start := Accepted(s.rows, c.dom, items), BatchStart(Mark(s.cur, c.dom), now);
    TornCursor(s, c, limit, found, hex, items, now, pushHex);
    PushMarks(s, c.dom, items, now, pushHex, true, c.dom);
    PushNumbers(s, c.dom, items, now, pushHex);
    LostIffDisagrees(later, torn);
    CoversAfterPush(s.rows, c.dom, items, start, now, torn.replica, Cursor(torn));
    forall id | Untouched(s.rows, accepted, c.dom, now, id) ensures Holds(torn.replica, id.key, s.rows[id].value) {
      TornReplica(s, c, limit, found, hex, id.key);
      assert EntryId(c.dom, id.key) == id;
    }
    TornWritten(s, c, limit, found, hex, items, start, Cursor(torn));
  }

  lemma TornWritten(s: Server, c: Client, limit: nat, found: seq<EntryId>, hex: string, items: seq<Item>,
                    start: int, cursor: int)
    requires Valid(s) && Agrees(s, c) && CanPull(s, c, limit, found, hex)
    requires PullReply(s, c, limit, found, hex).Some? && |found| <= limit
    requires cursor == start + Max(|Accepted(s.rows, c.dom, items)|, 1) - 1
    ensures var accepted := Accepted(s.rows, c.dom, items);
            CoversWritten(accepted, start, PullStep(s, c, limit, found, hex).replica, cursor)
            <==> NothingNew(s, c, accepted)
  {
    var accepted := Accepted(s.rows, c.dom, items);
    forall i | WrittenLast(accepted, i)
      ensures Holds(PullStep(s, c, limit, found, hex).replica, accepted[i].key, accepted[i].value)
              <==> EntryId(c.dom, accepted[i].key) !in s.rows && Holds(c.replica, accepted[i].key, accepted[i].value)
    {
      TornItem(s, c, limit, found, hex, items, i);
    }
  }

  /** Nobody repairs what a torn pull misses: the row is lost for good. */
  lemma TornPullLosesForGood(s: Server, c: Client, limit: nat, found: seq<EntryId>, hex: string,
                             items: seq<Item>, now: int, pushHex: string) returns (id: EntryId)
    requires CanTear(s, c, limit, found, hex, items, now, pushHex)
    requires !NothingNew(s, c, Accepted(s.rows, c.dom, items))
    ensures var later := PushStep(s, c.dom, items, now, pushHex, true);
            var w := World(later, TornPull(s, later, c, limit, found, hex));
            && Lost(w.server, w.client, id)
            && forall actions :: IsRun(w, actions) && Undisturbed(w, actions, id) ==>
                 Lost(After(w, actions).server, After(w, actions).client, id)
  {
    var later := PushStep(s, c.dom, items, now, pushHex, true);
    TornPullExact(s, c, limit, found, hex, items, now, pushHex);
    TornCursor(s, c, limit, found, hex, items, now, pushHex);
    PushKeepsValid(s, c.dom, items, now, pushHex, true);
    id := DisagreementStays(World(later, TornPull(s, later, c, limit, found, hex)));
  }

  // ----- a device that takes the token of its own push as its cursor -----

  /**
   * The copy has every row up to the new cursor exactly when it has the rows past its old cursor that the
   * push neither replaced nor pruned, and those that the push wrote.
   */
  lemma PushTokenExact(s: Server, c: Client, items: seq<Item>, now: int, hex: string)
    requires Valid(s) && Agrees(s, c) && CanPush(s, c.dom, items, now, hex)
    ensures var later, accepted := PushStep(s, c.dom, items, now, hex, true), Accepted(s.rows, c.dom, items);
            SeenRowsAgree(later, c.(since := CurrentOf(later.cur, c.dom)))
            <==> (forall id :: Untouched(s.rows, accepted, c.dom, now, id) && s.rows[id].seqNo > Cursor(c) ==>
                    Holds(c.replica, id.key, s.rows[id].value))
                 && (forall i :: WrittenLast(accepted, i) ==> Holds(c.replica, accepted[i].key, accepted[i].value))
  {
    var later, accepted := PushStep(s, c.dom, items, now, hex, true), Accepted(s.rows, c.dom, items);
    var start, after := BatchStart(Mark(s.cur, c.dom), now), c.(since := CurrentOf(later.cur, c.dom));
    PushTokenCursor(s, c, items, now, hex);
    PushNumbers(s, c.dom, items, now, hex);
    LostIffDisagrees(s, c);
    LostIffDisagrees(later, after);
    CoversAfterPush(s.rows, c.dom, items, start, now, c.replica, Cursor(after));
    assert forall id :: Untouched(s.rows, accepted, c.dom, now, id) ==>
        s.rows[id].seqNo <= StoredMark(s.domains, c.dom) <= Mark(s.cur, c.dom);
  }

  lemma PushTokenCursor(s: Server, c: Client, items: seq<Item>, now: int, hex: string)
    requires Valid(s) && CanPush(s, c.dom, items, now, hex)
    ensures var later, accepted := PushStep(s, c.dom, items, now, hex, true), Accepted(s.rows, c.dom, items);
            var after := c.(since := CurrentOf(later.cur, c.dom));
            && Cursor(after) == BatchStart(Mark(s.cur, c.dom), now) + Max(|accepted|, 1) - 1
            && Cursor(after) > Mark(s.cur, c.dom) && CursorValid(later, after)
  {
    PushNumbers(s, c.dom, items, now, hex);
    PushMarks(s, c.dom, items, now, hex, true, c.dom);
  }

  lemma PushTokenLosesForGood(s: Server, c: Client, items: seq<Item>, now: int, hex: string) returns (id: EntryId)
    requires Valid(s) && Agrees(s, c) && CanPush(s, c.dom, items, now, hex)
    requires var later := PushStep(s, c.dom, items, now, hex, true);
             !SeenRowsAgree(later, c.(since := CurrentOf(later.cur, c.dom)))
    ensures var later := PushStep(s, c.dom, items, now, hex, true);
            var w := World(later, c.(since := CurrentOf(later.cur, c.dom)));
            && Lost(w.server, w.client, id)
            && forall actions :: IsRun(w, actions) && Undisturbed(w, actions, id) ==>
                 Lost(After(w, actions).server, After(w, actions).client, id)
  {
    var later := PushStep(s, c.dom, items, now, hex, true);
    PushTokenCursor(s, c, items, now, hex);
    PushKeepsValid(s, c.dom, items, now, hex, true);
    id := DisagreementStays(World(later, c.(since := CurrentOf(later.cur, c.dom))));
  }

  // ----- numbers that are given out twice -----

  /**
   * A push on any server state and with any time, whatever was reserved before: the copy of a device keeps
   * every row up to its cursor exactly when it already has all items that went in under a number at or below
   * that cursor.
   */
  lemma AnyPushExact(s: Server, c: Client, items: seq<Item>, now: Millis, hex: string)
    requires SeenRowsAgree(s, c) && 0 <= Mark(s.cur, c.dom) <= MAX_INT64
    requires Fits(Mark(s.cur, c.dom), |Accepted(s.rows, c.dom, items)|, now)
    ensures SeenRowsAgree(PushStep(s, c.dom, items, now, hex, true), c)
            <==> CoversWritten(Accepted(s.rows, c.dom, items), BatchStart(Mark(s.cur, c.dom), now),
                               c.replica, Cursor(c))
  {
    var start, later := BatchStart(Mark(s.cur, c.dom), now), PushStep(s, c.dom, items, now, hex, true);
    BatchNumbers(Mark(s.cur, c.dom), |Accepted(s.rows, c.dom, items)|, now);
    LostIffDisagrees(s, c);
    LostIffDisagrees(later, c);
    CoversAfterPush(s.rows, c.dom, items, start, now, c.replica, Cursor(c));
  }

  /**
   * The first push after a restart that may have forgotten reserved numbers, and on a clock that may have been
   * set back: the numbers go on from the stored watermark or the time.
   */
  lemma ReissuedNumbersExact(
      s: Server, c: Client, stored: seq<StoredToken>, items: seq<Item>, now: Millis, hex: string)
    requires Valid(s) && Agrees(s, c) && IsStored(s, stored)
    requires Fits(StoredMark(s.domains, c.dom), |Accepted(s.rows, c.dom, items)|, now)
    ensures SeenRowsAgree(PushStep(RestartStep(s, stored), c.dom, items, now, hex, true), c)
            <==> CoversWritten(Accepted(s.rows, c.dom, items), BatchStart(StoredMark(s.domains, c.dom), now),
                               c.replica, Cursor(c))
  {
    var up := RestartStep(s, stored);
    RestartMark(s, stored, c.dom);
    assert up.rows == s.rows && SeenRowsAgree(up, c);
    assert 0 <= Mark(up.cur, c.dom);
    AnyPushExact(up, c, items, now, hex);
  }

  /** No harm comes of it where the stored watermark has reached the cursor or the push's time is past it. */
  lemma ReissuedNumbersHarmless(
      s: Server, c: Client, stored: seq<StoredToken>, items: seq<Item>, now: Millis, hex: string)
    requires Valid(s) && Agrees(s, c) && IsStored(s, stored)
    requires Fits(StoredMark(s.domains, c.dom), |Accepted(s.rows, c.dom, items)|, now)
    requires StoredMark(s.domains, c.dom) >= Cursor(c) || now > Cursor(c)
    ensures SeenRowsAgree(PushStep(RestartStep(s, stored), c.dom, items, now, hex, true), c)
  {
    var accepted, start := Accepted(s.rows, c.dom, items), BatchStart(StoredMark(s.domains, c.dom), now);
    assert start > Cursor(c) by {
      BatchNumbers(StoredMark(s.domains, c.dom), |accepted|, now);
    }
    assert CoversWritten(accepted, start, c.replica, Cursor(c));
    ReissuedNumbersExact(s, c, stored, items, now, hex);
  }

  // ----- one input each at which a row is lost -----

  function NewDevice(dom: DomainId): Client {
    Client(dom, map[], "")
  }

  lemma NewDeviceAgrees(s: Server, dom: DomainId)
    requires Valid(s)
    ensures Agrees(s, NewDevice(dom))
  {
  }

  /** A device that has nothing finds nothing on a server that has no rows. */
  lemma EmptyPull(s: Server, dom: DomainId, limit: nat, hex: string)
    requires Valid(s) && s.rows == map[] && limit >= 1 && |hex| == 6
    ensures var c := NewDevice(dom);
            && CanPull(s, c, limit, [], hex)
            && PullReply(s, c, limit, [], hex) == Some(PullResponse([], CurrentOf(s.cur, dom), false))
            && PullStep(s, c, limit, [], hex) == Client(dom, map[], CurrentOf(s.cur, dom))
  {
    assert Newer(s.rows, dom, -1) == map[];
    assert ItemsOf(s.rows, []) == [];
  }

  lemma SingleAccepted(s: Server, dom: DomainId, item: Item)
    requires s.rows == map[]
    ensures Accepted(s.rows, dom, [item]) == [item] && WrittenLast([item], 0)
  {
    EmptyTableAcceptsAll(s.rows, dom, [item]);
  }

  /** The first push ever falls between the two moments of a new device's first pull. */
  lemma TornPullLosesRow(s: Server, dom: DomainId, limit: nat, hex: string, item: Item, pushHex: string)
    requires Unused(s) && s.clock >= 1 && limit >= 1 && |hex| == |pushHex| == 6
    ensures CanPush(s, dom, [item], s.clock, pushHex)
    ensures CanPull(s, NewDevice(dom), limit, [], hex) && PullReply(s, NewDevice(dom), limit, [], hex).Some?
    ensures var later := PushStep(s, dom, [item], s.clock, pushHex, true);
            Lost(later, TornPull(s, later, NewDevice(dom), limit, [], hex), EntryId(dom, item.key))
  {
    var c, later := NewDevice(dom), PushStep(s, dom, [item], s.clock, pushHex, true);
    FirstPush(s, dom, [item], pushHex);
    FirstPushRow(s, dom, [item], pushHex, EntryId(dom, item.key));
    NewDeviceAgrees(s, dom);
    EmptyPull(s, dom, limit, hex);
    TornCursor(s, c, limit, [], hex, [item], s.clock, pushHex);
    PushMarks(s, dom, [item], s.clock, pushHex, true, dom);
  }

  /** After another device's push, a new device pushes nothing and keeps the token. */
  lemma PushTokenLosesRow(s: Server, dom: DomainId, item: Item, hex: string, ownHex: string)
    requires Unused(s) && 1 <= s.clock < MAX_INT64 && |hex| == |ownHex| == 6
    ensures CanPush(s, dom, [item], s.clock, hex)
    ensures var before := PushStep(s, dom, [item], s.clock, hex, true);
            && CanPush(before, dom, [], s.clock, ownHex)
            && var later := PushStep(before, dom, [], s.clock, ownHex, true);
               Lost(later, NewDevice(dom).(since := CurrentOf(later.cur, dom)), EntryId(dom, item.key))
  {
    var id, before := EntryId(dom, item.key), PushStep(s, dom, [item], s.clock, hex, true);
    FirstPush(s, dom, [item], hex);
    FirstPushRow(s, dom, [item], hex, id);
    PushKeepsValid(s, dom, [item], s.clock, hex, true);
    PushMarks(s, dom, [item], s.clock, hex, true, dom);
    KeepsTokenLosesRow(before, dom, id, ownHex);
  }

  /** A device that has nothing keeps the token of an empty push: any row that is not stale is lost. */
  lemma KeepsTokenLosesRow(s: Server, dom: DomainId, id: EntryId, hex: string)
    requires Valid(s) && id in s.rows && id.dom == dom && s.rows[id].seqNo >= s.clock - RETENTION
    requires Mark(s.cur, dom) < MAX_INT64 && |hex| == 6
    ensures CanPush(s, dom, [], s.clock, hex)
    ensures var later := PushStep(s, dom, [], s.clock, hex, true);
            Lost(later, NewDevice(dom).(since := CurrentOf(later.cur, dom)), id)
  {
    PushTokenCursor(s, NewDevice(dom), [], s.clock, hex);
    PushNumbers(s, dom, [], s.clock, hex);
    PushAt(s.rows, dom, [], BatchStart(Mark(s.cur, dom), s.clock), s.clock, id);
    assert s.rows[id].seqNo <= StoredMark(s.domains, dom) <= Mark(s.cur, dom);
  }

  /** A push rolls back, and a new device pulls and keeps the token of the forgotten number. */
  lemma RollbackThenPull(s: Server, dom: DomainId, limit: nat, lostHex: string, hex: string)
    requires Unused(s) && s.clock >= 1 && limit >= 1 && |lostHex| == |hex| == 6
    ensures CanPush(s, dom, [], s.clock, lostHex)
    ensures var rolledBack := PushStep(s, dom, [], s.clock, lostHex, false);
            && Valid(rolledBack) && rolledBack.rows == map[] && rolledBack.domains == map[]
            && rolledBack.clock == rolledBack.boot == s.clock
            && (forall other :: Mark(rolledBack.cur, other) <= s.clock)
            && CanPull(rolledBack, NewDevice(dom), limit, [], hex)
            && var device := PullStep(rolledBack, NewDevice(dom), limit, [], hex);
               device.dom == dom && device.replica == map[] && Cursor(device) == s.clock
  {
    var rolledBack := PushStep(s, dom, [], s.clock, lostHex, false);
    FirstPush(s, dom, [], lostHex);
    PushKeepsValid(s, dom, [], s.clock, lostHex, false);
    PushMarks(s, dom, [], s.clock, lostHex, false, dom);
    forall other ensures Mark(rolledBack.cur, other) <= s.clock {
      PushMarks(s, dom, [], s.clock, lostHex, false, other);
    }
    EmptyPull(rolledBack, dom, limit, hex);
  }

  /** A restart of a server without rows, and a push at the time that a device has for its cursor. */
  lemma RestartThenPush(s: Server, c: Client, item: Item, now: Millis, hex: string)
    requires Valid(s) && s.rows == map[] && s.domains == map[] && 1 <= now && |hex| == 6
    requires c.replica == map[] && Cursor(c) == now
    ensures IsStored(s, []) && Fits(Mark(RestartStep(s, []).cur, c.dom), 1, now)
    ensures Accepted(RestartStep(s, []).rows, c.dom, [item]) == [item]
    ensures Lost(PushStep(RestartStep(s, []), c.dom, [item], now, hex, true), c, EntryId(c.dom, item.key))
  {
    var up := RestartStep(s, []);
    RestartMark(s, [], c.dom);
    SingleAccepted(up, c.dom, item);
    FirstTableRow(up.rows, c.dom, [item], now, EntryId(c.dom, item.key));
    assert BatchStart(Mark(up.cur, c.dom), now) == now;
    assert PushStep(up, c.dom, [item], now, hex, true).rows == PushTable(up.rows, c.dom, [item], now, now);
  }

  /** After the rollback the server restarts at once, and the next push gives the forgotten number to its row. */
  lemma EarlyRestartLosesRow(s: Server, dom: DomainId, limit: nat, item: Item, lostHex: string, hex: string)
    requires Unused(s) && s.clock >= 1 && limit >= 1 && |lostHex| == |hex| == 6
    ensures CanPush(s, dom, [], s.clock, lostHex)
    ensures var rolledBack := PushStep(s, dom, [], s.clock, lostHex, false);
            && CanPull(rolledBack, NewDevice(dom), limit, [], hex) && IsStored(rolledBack, [])
            && var device, up := PullStep(rolledBack, NewDevice(dom), limit, [], hex), RestartStep(rolledBack, []);
               && CanPush(up, dom, [item], s.clock, hex)
               && Lost(PushStep(up, dom, [item], s.clock, hex, true), device, EntryId(dom, item.key))
  {
    var rolledBack := PushStep(s, dom, [], s.clock, lostHex, false);
    RollbackThenPull(s, dom, limit, lostHex, hex);
    RestartThenPush(rolledBack, PullStep(rolledBack, NewDevice(dom), limit, [], hex), item, s.clock, hex);
  }

  /** The restart waits until the clock has moved on, but then the clock is set back. */
  lemma OldTimeLosesRow(s: Server, dom: DomainId, limit: nat, item: Item, lostHex: string, hex: string)
    requires Unused(s) && 1 <= s.clock < MAX_INT64 && limit >= 1 && |lostHex| == |hex| == 6
    ensures CanPush(s, dom, [], s.clock, lostHex)
    ensures var rolledBack := PushStep(s, dom, [], s.clock, lostHex, false);
            && CanPull(rolledBack, NewDevice(dom), limit, [], hex)
            && var later := rolledBack.(clock := s.clock + 1);
               && CanRestart(later, [])
               && var device, up := PullStep(rolledBack, NewDevice(dom), limit, [], hex), RestartStep(later, []);
                  && s.clock < up.boot && Fits(Mark(up.cur, dom), 1, s.clock)
                  && Lost(PushStep(up, dom, [item], s.clock, hex, true), device, EntryId(dom, item.key))
  {
    var rolledBack := PushStep(s, dom, [], s.clock, lostHex, false);
    RollbackThenPull(s, dom, limit, lostHex, hex);
    ClockMayAdvance(rolledBack, s.clock + 1);
    var later := rolledBack.(clock := s.clock + 1);
    RestartThenPush(later, PullStep(rolledBack, NewDevice(dom), limit, [], hex), item, s.clock, hex);
    assert forall other :: Mark(later.cur, other) < later.clock;
  }
}
