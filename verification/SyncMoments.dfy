/**
 * The moments inside a push and a pull. A push first publishes its token in memory and commits its rows
 * later; a pull reads the clock for its gate, then the rows, then the token. Other steps come in between.
 */
module SyncMoments {
  import opened Basics
  import opened Query
  import opened SyncToken
  import opened SyncModel
  import opened SyncTable
  import opened SyncSystem
  import opened SyncConvergence
  import opened SyncDiscipline
  import opened SyncPaging
  import opened SyncRaces

  // ----- which rows can be new -----

  /** Rows of the domain that are not in s carry numbers past everything that s ever reserved. */
  ghost predicate Follows(s: Server, later: Server, dom: DomainId) {
    && Issued(s, dom) <= Issued(later, dom)
    && forall id :: id in later.rows && id.dom == dom && later.rows[id].seqNo <= Issued(s, dom) ==>
         id in s.rows && later.rows[id] == s.rows[id]
  }

  lemma StepFollows(w: World, a: Action, dom: DomainId)
    requires Valid(w.server) && Enabled(w, a)
    ensures Follows(w.server, Next(w, a).server, dom)
  {
    if a.Push? {
      PushMarks(w.server, a.dom, a.items, a.now, a.hex, a.commits, dom);
      if a.commits {
        var after := Next(w, a).server;
        forall id | id in after.rows && id.dom == dom && after.rows[id].seqNo <= Issued(w.server, dom)
          ensures id in w.server.rows && after.rows[id] == w.server.rows[id]
        {
          PushRow(w.server, a.dom, a.items, a.now, a.hex, id);
        }
      }
    }
  }

  lemma {:induction false} RunFollows(w: World, actions: seq<Action>, dom: DomainId)
    requires Valid(w.server) && IsRun(w, actions)
    ensures Valid(After(w, actions).server) && Follows(w.server, After(w, actions).server, dom)
    decreases |actions|
  {
    if actions != [] {
      StepKeepsServerValid(w, actions[0]);
      StepFollows(w, actions[0], dom);
      RunFollows(Next(w, actions[0]), actions[1..], dom);
    }
  }

  // ----- a complete page whose rows and token belong to different moments -----

  /** A complete page of the rows of s past the device's cursor. */
  ghost predicate ReadsAll(s: Server, c: Client, limit: nat, found: seq<EntryId>) {
    limit >= 1 && |found| <= limit && FirstBy(Newer(s.rows, c.dom, Cursor(c)), limit + 1, found)
  }

  /** The device after a complete page of s and a token from anywhere. */
  ghost function LoosePull(s: Server, c: Client, found: seq<EntryId>, token: string): Client
    requires forall i :: 0 <= i < |found| ==> found[i] in s.rows
  {
    Client(c.dom, Apply(c.replica, ItemsOf(s.rows, found)), token)
  }

  /** The copy has all rows of its domain numbered above low and up to its cursor. */
  ghost predicate HasRowsPast(low: int, s: Server, c: Client) {
    forall id :: id in s.rows && id.dom == c.dom && low < s.rows[id].seqNo <= Cursor(c) ==>
      Holds(c.replica, id.key, s.rows[id].value)
  }

  /**
   * Whatever token comes with a complete page, and whatever has gone in since: the copy has every row up to
   * its cursor exactly when it has those that went in under a number reserved after the page was read.
   */
  lemma LoosePullExact(s: Server, later: Server, c: Client, limit: nat, found: seq<EntryId>, token: string)
    requires Valid(s) && CursorValid(s, c) && SeenRowsAgree(s, c) && ReadsAll(s, c, limit, found)
    requires Follows(s, later, c.dom)
    ensures var after := LoosePull(s, c, found, token);
            SeenRowsAgree(later, after) <==> HasRowsPast(Issued(s, c.dom), later, after)
  {
    var after := LoosePull(s, c, found, token);
    LostIffDisagrees(later, after);
    forall id | id in later.rows && id.dom == c.dom && later.rows[id].seqNo <= Issued(s, c.dom)
      ensures Holds(after.replica, id.key, later.rows[id].value)
    {
      PageReplica(s, c, limit, found, id.key);
      assert EntryId(c.dom, id.key) == id;
    }
  }

  /** A run of any steps between the reading of the rows and the reading of the token. */
  lemma TornRunExact(w: World, limit: nat, found: seq<EntryId>, actions: seq<Action>)
    requires Valid(w.server) && Agrees(w.server, w.client) && ReadsAll(w.server, w.client, limit, found)
    requires IsRun(w, actions)
    ensures var later := After(w, actions).server;
            var torn := LoosePull(w.server, w.client, found, CurrentOf(later.cur, w.client.dom));
            SeenRowsAgree(later, torn) <==> HasRowsPast(Issued(w.server, w.client.dom), later, torn)
  {
    RunFollows(w, actions, w.client.dom);
    var later := After(w, actions).server;
    LoosePullExact(w.server, later, w.client, limit, found, CurrentOf(later.cur, w.client.dom));
  }

  // ----- a pull inside a push -----

  /**
   * Between the reservation and the commit of a push the token is the new one and the rows are the old ones.
   * An undivided pull in that moment is the same as one torn by the whole push.
   */
  lemma PullInsidePushIsTorn(s: Server, c: Client, limit: nat, found: seq<EntryId>, hex: string,
                             items: seq<Item>, now: int, pushHex: string)
    requires CanTear(s, c, limit, found, hex, items, now, pushHex)
    ensures var reserved := PushStep(s, c.dom, items, now, pushHex, false);
            && CanPull(reserved, c, limit, found, hex)
            && PullStep(reserved, c, limit, found, hex)
               == TornPull(s, PushStep(s, c.dom, items, now, pushHex, true), c, limit, found, hex)
  {
  }

  /**
   * Once the push commits, the copy has every row up to its cursor exactly when the push brought nothing new;
   * where there is a further page, always.
   */
  lemma PullInsidePushExact(s: Server, c: Client, limit: nat, found: seq<EntryId>, hex: string,
                            items: seq<Item>, now: int, pushHex: string)
    requires Valid(s) && Agrees(s, c) && CanPull(s, c, limit, found, hex)
    requires PullReply(s, c, limit, found, hex).Some? && CanPush(s, c.dom, items, now, pushHex)
    ensures var reserved := PushStep(s, c.dom, items, now, pushHex, false);
            var committed := PushStep(s, c.dom, items, now, pushHex, true);
            && CanPull(reserved, c, limit, found, hex)
            && (SeenRowsAgree(committed, PullStep(reserved, c, limit, found, hex))
                <==> |found| > limit || NothingNew(s, c, Accepted(s.rows, c.dom, items)))
  {
    if |found| > limit {
      PullKeepsAgreement(s, c, limit, found, hex);
      PushKeepsAgreement(s, PullStep(s, c, limit, found, hex), c.dom, items, now, pushHex, true);
    } else {
      PullInsidePushIsTorn(s, c, limit, found, hex, items, now, pushHex);
      TornPullExact(s, c, limit, found, hex, items, now, pushHex);
    }
  }

  /** The first push ever has reserved its number; a new device pulls; then the push commits. */
  lemma PullInsidePushLosesRow(s: Server, dom: DomainId, limit: nat, hex: string, item: Item, pushHex: string)
    requires Unused(s) && s.clock >= 1 && limit >= 1 && |hex| == |pushHex| == 6
    ensures CanPush(s, dom, [item], s.clock, pushHex)
    ensures var reserved := PushStep(s, dom, [item], s.clock, pushHex, false);
            var committed := PushStep(s, dom, [item], s.clock, pushHex, true);
            && CanPull(reserved, NewDevice(dom), limit, [], hex)
            && Lost(committed, PullStep(reserved, NewDevice(dom), limit, [], hex), EntryId(dom, item.key))
  {
    TornPullLosesRow(s, dom, limit, hex, item, pushHex);
    NewDeviceAgrees(s, dom);
    EmptyPull(s, dom, limit, hex);
    PullInsidePushIsTorn(s, NewDevice(dom), limit, [], hex, [item], s.clock, pushHex);
  }

  // ----- a gate that was passed before the rows are read -----

  /** No key without a row is live in the copy. */
  ghost predicate NothingGoneLives(s: Server, c: Client) {
    forall key :: EntryId(c.dom, key) !in s.rows ==> NotLive(c, key)
  }

  /** An accepted token stands for the device's cursor, whenever the gate was passed. */
  lemma GateGivesCursor(s: Server, c: Client, gate: Millis)
    requires CursorValid(s, c) && Gate(c.since, gate).Some?
    ensures Gate(c.since, gate).value == Cursor(c)
  {
  }

  /**
   * A complete pull whose rows and token are of one moment, and whose gate was passed at any other: device and
   * server show the same afterwards exactly when no key without a row was live in the copy before.
   */
  lemma LateGateExact(s: Server, c: Client, gate: Millis, limit: nat, found: seq<EntryId>)
    requires Valid(s) && Agrees(s, c) && Gate(c.since, gate).Some? && ReadsAll(s, c, limit, found)
    ensures Gate(c.since, gate).value == Cursor(c)
    ensures var after := LoosePull(s, c, found, CurrentOf(s.cur, c.dom));
            && (NothingGoneLives(s, after) <==> NothingGoneLives(s, c))
            && ((forall key :: LiveAtDevice(after, key) == LiveAtServer(s.rows, c.dom, key))
                <==> NothingGoneLives(s, c))
  {
    var after := LoosePull(s, c, found, CurrentOf(s.cur, c.dom));
    GateGivesCursor(s, c, gate);
    forall key
      ensures EntryId(c.dom, key) in s.rows ==> LiveAtDevice(after, key) == LiveAtServer(s.rows, c.dom, key)
      ensures EntryId(c.dom, key) !in s.rows ==> (NotLive(after, key) <==> NotLive(c, key))
      ensures EntryId(c.dom, key) !in s.rows ==>
                (LiveAtDevice(after, key) == LiveAtServer(s.rows, c.dom, key) <==> NotLive(c, key))
    {
      PageReplica(s, c, limit, found, key);
    }
  }

  /** No harm where the gate would still be passed when the rows are read. */
  lemma LateGateHarmless(s: Server, c: Client)
    requires Agrees(s, c) && (c.since == "" || Cursor(c) >= s.clock - RETENTION)
    ensures NothingGoneLives(s, c)
  {
  }

  /** A deletion that is pruned between the gate and the rows never reaches a device that shows the entry. */
  lemma LateGateMissesDeletion(s: Server, c: Client, gate: Millis, id: EntryId, hex: string,
                               limit: nat, found: seq<EntryId>)
    requires Valid(s) && Agrees(s, c) && c.since != "" && gate - Cursor(c) <= RETENTION
    requires id in s.rows && id.dom == c.dom && s.rows[id].value.deleted && LiveAtDevice(c, id.key).Some?
    requires s.rows[id].seqNo < s.clock - RETENTION && CanPush(s, c.dom, [], s.clock, hex)
    requires ReadsAll(PushStep(s, c.dom, [], s.clock, hex, true), c, limit, found)
    ensures Gate(c.since, gate) == Some(Cursor(c))
    ensures var later := PushStep(s, c.dom, [], s.clock, hex, true);
            var after := LoosePull(later, c, found, CurrentOf(later.cur, c.dom));
            LiveAtServer(later.rows, c.dom, id.key) == None && LiveAtDevice(after, id.key).Some?
  {
    var later := PushStep(s, c.dom, [], s.clock, hex, true);
    PushKeepsValid(s, c.dom, [], s.clock, hex, true);
    PushKeepsAgreement(s, c, c.dom, [], s.clock, hex, true);
    EmptyPushPrunes(s, id, hex);
    GoneKeyStays(later, c, limit, found, id.key);
    assert EntryId(c.dom, id.key) == id;
    assert Gate(c.since, gate) == Some(Cursor(c)) by {
      GateExact(gate, Cursor(c));
    }
  }

  lemma EmptyPushPrunes(s: Server, id: EntryId, hex: string)
    requires Valid(s) && CanPush(s, id.dom, [], s.clock, hex)
    requires id in s.rows && s.rows[id].value.deleted && s.rows[id].seqNo < s.clock - RETENTION
    ensures id !in PushStep(s, id.dom, [], s.clock, hex, true).rows
  {
    PushNumbers(s, id.dom, [], s.clock, hex);
    PushAt(s.rows, id.dom, [], BatchStart(Mark(s.cur, id.dom), s.clock), s.clock, id);
  }

  /** A page says nothing about a key without a row. */
  lemma GoneKeyStays(s: Server, c: Client, limit: nat, found: seq<EntryId>, key: string)
    requires Valid(s) && SeenRowsAgree(s, c) && ReadsAll(s, c, limit, found) && EntryId(c.dom, key) !in s.rows
    ensures LiveAtDevice(LoosePull(s, c, found, CurrentOf(s.cur, c.dom)), key) == LiveAtDevice(c, key)
    ensures LiveAtServer(s.rows, c.dom, key) == None
  {
    PageReplica(s, c, limit, found, key);
  }

  /**
   * That device exists: an entry is pushed to a new server and pulled, its deletion is pushed a millisecond
   * later, and 90 days pass.
   */
  lemma DeletionCanBeMissed(s: Server, dom: DomainId, key: string, live: Value, dead: Value, hex: string)
      returns (later: Server, c: Client)
    requires Unused(s) && 1 <= s.clock <= MAX_INT64 - RETENTION - 2 && |hex| == 6
    requires !live.deleted && dead.deleted && live.updatedAt < dead.updatedAt
    ensures Valid(later) && Agrees(later, c) && c.since != ""
    ensures var id := EntryId(dom, key);
            && id in later.rows && c.dom == dom && later.rows[id].value == dead && LiveAtDevice(c, key) == Some(live)
            && later.rows[id].seqNo < later.clock - RETENTION && s.clock + RETENTION - Cursor(c) <= RETENTION
            && CanPush(later, dom, [], later.clock, hex)
  {
    var id := EntryId(dom, key);
    var pushed := PushStep(s, dom, [Item(key, live)], s.clock, hex, true);
    FirstPush(s, dom, [Item(key, live)], hex);
    FirstPushRow(s, dom, [Item(key, live)], hex, id);
    PushKeepsValid(s, dom, [Item(key, live)], s.clock, hex, true);
    PushMarks(s, dom, [Item(key, live)], s.clock, hex, true, dom);
    c := FirstPull(pushed, dom, id, hex);
    later := DeleteLater(pushed, c, key, dead, hex);
  }

  /** A new device pulls everything; the row is live. */
  lemma FirstPull(s: Server, dom: DomainId, id: EntryId, hex: string) returns (c: Client)
    requires Valid(s) && id in s.rows && id.dom == dom && !s.rows[id].value.deleted && |hex| == 6
    ensures Agrees(s, c) && c.dom == dom && c.since != "" && Cursor(c) == Mark(s.cur, dom)
    ensures LiveAtDevice(c, id.key) == Some(s.rows[id].value)
  {
    var newcomer := NewDevice(dom);
    NewDeviceAgrees(s, dom);
    var found := AnswerExists(Newer(s.rows, dom, -1), |Newer(s.rows, dom, -1)| + 2);
    var limit := |Newer(s.rows, dom, -1)| + 1;
    AnswerLength(Newer(s.rows, dom, -1), limit + 1, found);
    c := PullStep(s, newcomer, limit, found, hex);
    PullKeepsAgreement(s, newcomer, limit, found, hex);
    ReplyCursor(s, newcomer, limit, found, hex);
    assert s.rows[id].seqNo <= StoredMark(s.domains, dom) <= Mark(s.cur, dom);
    PullAgreesOnRow(s, newcomer, limit, found, hex, id);
  }

  /** A millisecond later the entry is deleted, and then 90 days pass. */
  lemma DeleteLater(s: Server, c: Client, key: string, dead: Value, hex: string) returns (later: Server)
    requires Valid(s) && Agrees(s, c) && |hex| == 6 && Mark(s.cur, c.dom) == Issued(s, c.dom) == s.clock
    requires s.clock + RETENTION + 2 <= MAX_INT64
    requires var id := EntryId(c.dom, key);
             id in s.rows && s.rows[id].value.updatedAt < dead.updatedAt && dead.deleted
    ensures Valid(later) && Agrees(later, c) && later.clock == s.clock + RETENTION + 2
    ensures var id := EntryId(c.dom, key);
            && id in later.rows && later.rows[id] == Row(dead, s.clock + 1)
            && CanPush(later, c.dom, [], later.clock, hex)
  {
    var now := s.clock + 1;
    ClockMayAdvance(s, now);
    TickKeepsAgreement(s, c, now);
    var pushed := DeletionPush(s.(clock := now), c, key, dead, hex);
    later := pushed.(clock := s.clock + RETENTION + 2);
    ClockMayAdvance(pushed, later.clock);
    TickKeepsAgreement(pushed, c, later.clock);
  }

  lemma DeletionPush(s: Server, c: Client, key: string, dead: Value, hex: string) returns (pushed: Server)
    requires Valid(s) && Agrees(s, c) && |hex| == 6 && 1 <= s.clock < MAX_INT64
    requires Mark(s.cur, c.dom) == Issued(s, c.dom) == s.clock - 1
    requires var id := EntryId(c.dom, key);
             id in s.rows && s.rows[id].value.updatedAt < dead.updatedAt && dead.deleted
    ensures Valid(pushed) && Agrees(pushed, c) && pushed.clock == s.clock
    ensures EntryId(c.dom, key) in pushed.rows && pushed.rows[EntryId(c.dom, key)] == Row(dead, s.clock)
    ensures Mark(pushed.cur, c.dom) == Issued(pushed, c.dom) == s.clock
  {
    var id, item := EntryId(c.dom, key), Item(key, dead);
    pushed := PushStep(s, c.dom, [item], s.clock, hex, true);
    SingleBeats(s.rows, c.dom, item);
    BatchNumbers(s.clock - 1, 1, s.clock);
    DeletionRow(s.rows, item, c.dom, s.clock);
    PushKeepsValid(s, c.dom, [item], s.clock, hex, true);
    PushKeepsAgreement(s, c, c.dom, [item], s.clock, hex, true);
    PushMarks(s, c.dom, [item], s.clock, hex, true, c.dom);
    assert pushed.rows == PushTable(s.rows, c.dom, [item], s.clock, s.clock);
  }

  lemma DeletionRow(rows: Table, item: Item, dom: DomainId, now: Millis)
    requires now >= 1 && Beats(rows, dom, item)
    ensures var after, id := PushTable(rows, dom, [item], now, now), EntryId(dom, item.key);
            id in after && after[id] == Row(item.value, now)
  {
    SingleBeats(rows, dom, item);
    PushAt(rows, dom, [item], now, now, EntryId(dom, item.key));
  }

  lemma SingleBeats(rows: Table, dom: DomainId, item: Item)
    requires Beats(rows, dom, item)
    ensures Accepted(rows, dom, [item]) == [item] && LastIndex([item], item.key) == 0
  {
    AllBeatAllAccepted(rows, dom, [item]);
  }

  lemma TickKeepsAgreement(s: Server, c: Client, time: Millis)
    requires Agrees(s, c) && s.clock <= time
    ensures Agrees(s.(clock := time), c)
  {
  }
}
