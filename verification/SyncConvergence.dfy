/** A device that follows the protocol ends every complete pull with the server's live entries. */
module SyncConvergence {
  import opened Basics
  import opened Query
  import opened SyncToken
  import opened SyncModel
  import opened SyncTable
  import opened SyncSystem

  // ----- steps of the device -----

  /** The items of a page, applied in order. */
  function Apply(replica: map<string, Value>, items: seq<Item>): map<string, Value> {
    if items == [] then replica
    else
      var last := items[|items| - 1];
      Apply(replica, items[..|items| - 1])[last.key := last.value]
  }

  ghost predicate CanPull(s: Server, c: Client, limit: nat, found: seq<EntryId>, hex: string) {
    && limit >= 1 && |hex| == 6
    && 0 <= s.clock <= MAX_INT64
    && match Gate(c.since, s.clock)
       case None => true
       case Some(number) => FirstBy(Newer(s.rows, c.dom, number), limit + 1, found)
  }

  /** The reply the device gets; None is the refusal that demands a full resync. */
  ghost function PullReply(s: Server, c: Client, limit: nat, found: seq<EntryId>, hex: string): Option<PullResponse>
    requires CanPull(s, c, limit, found, hex)
  {
    match Gate(c.since, s.clock)
    case None => None
    case Some(number) => Some(Reply(s.rows, found, limit, CurrentOf(s.cur, c.dom), hex))
  }

  /** On a refusal the device clears its copy and starts over; otherwise it applies the page. */
  ghost function PullStep(s: Server, c: Client, limit: nat, found: seq<EntryId>, hex: string): Client
    requires CanPull(s, c, limit, found, hex)
  {
    match PullReply(s, c, limit, found, hex)
    case None => Client(c.dom, map[], "")
    case Some(reply) => Client(c.dom, Apply(c.replica, reply.items), reply.syncToken)
  }

  // ----- what the copy agrees on -----

  function Cursor(c: Client): int {
    if c.since != "" && ParseToken(c.since).Some? then ParseToken(c.since).value else -1
  }

  predicate NotLive(c: Client, key: string) {
    key in c.replica ==> c.replica[key].deleted
  }

  ghost predicate CursorValid(s: Server, c: Client) {
    c.since != "" ==> GoodToken(c.since) && Cursor(c) <= Issued(s, c.dom)
  }

  /** The copy has every row up to the cursor; rows past it are free. */
  ghost predicate SeenRowsAgree(s: Server, c: Client) {
    forall id :: id in s.rows && id.dom == c.dom && s.rows[id].seqNo <= Cursor(c) ==>
      id.key in c.replica && c.replica[id.key] == s.rows[id].value
  }

  /** A device without a token shows nothing. */
  ghost predicate FreshShowsNothing(c: Client) {
    c.since == "" ==> forall key :: key in c.replica ==> c.replica[key].deleted
  }

  /** A key without a row is not live in the copy, unless the next pull is refused anyway. */
  ghost predicate GoneOrRefused(s: Server, c: Client) {
    forall key :: EntryId(c.dom, key) !in s.rows ==>
      NotLive(c, key) || (c.since != "" && Cursor(c) < s.clock - RETENTION)
  }

  ghost predicate Agrees(s: Server, c: Client) {
    CursorValid(s, c) && SeenRowsAgree(s, c) && FreshShowsNothing(c) && GoneOrRefused(s, c)
  }

  // ----- pushes by any device, to any domain -----

  lemma PushKeepsSeenRows(s: Server, c: Client, dom: DomainId, items: seq<Item>, now: int, hex: string)
    requires TokensValid(s) && ClockValid(s) && RowsValid(s) && CanPush(s, dom, items, now, hex)
    requires CursorValid(s, c) && SeenRowsAgree(s, c)
    ensures SeenRowsAgree(PushStep(s, dom, items, now, hex, true), c)
  {
    var after := PushStep(s, dom, items, now, hex, true);
    forall id | id in after.rows && id.dom == c.dom && after.rows[id].seqNo <= Cursor(c)
      ensures id.key in c.replica && c.replica[id.key] == after.rows[id].value
    {
      PushRow(s, dom, items, now, hex, id);
      PushNumbers(s, dom, items, now, hex);
    }
  }

  lemma PushKeepsGone(s: Server, c: Client, dom: DomainId, items: seq<Item>, now: int, hex: string, key: string)
    requires TokensValid(s) && ClockValid(s) && RowsValid(s) && CanPush(s, dom, items, now, hex)
    requires Agrees(s, c) && EntryId(c.dom, key) !in PushStep(s, dom, items, now, hex, true).rows
    ensures NotLive(c, key) || (c.since != "" && Cursor(c) < s.clock - RETENTION)
  {
    PushNumbers(s, dom, items, now, hex);
    var id := EntryId(c.dom, key);
    PushAt(s.rows, dom, items, BatchStart(Mark(s.cur, dom), now), now, id);
    if id in s.rows {
      assert Stale(id, s.rows[id], dom, now - RETENTION);
      if Cursor(c) >= s.rows[id].seqNo {
        assert c.replica[key] == s.rows[id].value;
      }
    }
  }

  lemma PushKeepsAgreement(s: Server, c: Client, dom: DomainId, items: seq<Item>, now: int, hex: string, commits: bool)
    requires Valid(s) && Agrees(s, c) && CanPush(s, dom, items, now, hex)
    ensures Agrees(PushStep(s, dom, items, now, hex, commits), c)
  {
    var after := PushStep(s, dom, items, now, hex, commits);
    PushMarks(s, dom, items, now, hex, commits, c.dom);
    if commits {
      PushKeepsSeenRows(s, c, dom, items, now, hex);
      forall key | EntryId(c.dom, key) !in after.rows
        ensures NotLive(c, key) || (c.since != "" && Cursor(c) < after.clock - RETENTION)
      {
        PushKeepsGone(s, c, dom, items, now, hex, key);
      }
    }
  }

  // ----- the pull of the device -----

  lemma {:induction false} ApplyAt(
      replica: map<string, Value>, rows: Table, ids: seq<EntryId>, dom: DomainId, key: string)
    requires Distinct(ids)
    requires forall i :: 0 <= i < |ids| ==> ids[i] in rows && ids[i].dom == dom
    ensures var after, id := Apply(replica, ItemsOf(rows, ids)), EntryId(dom, key);
            if id in ids then key in after && after[key] == rows[id].value
            else (key in after <==> key in replica) && (key in replica ==> after[key] == replica[key])
  {
    if ids != [] {
      var init, last := ids[..|ids| - 1], ids[|ids| - 1];
      ApplyAt(replica, rows, init, dom, key);
      assert ItemsOf(rows, ids)[..|ids| - 1] == ItemsOf(rows, init);
      assert ids == init + [last];
      assert EntryId(dom, last.key) == last;
    }
  }

  /** A page holds exactly the rows past the old cursor and up to the new one. */
  lemma PageIsInterval(s: Server, dom: DomainId, number: int, limit: nat, found: seq<EntryId>, id: EntryId)
    requires RowsValid(s) && limit >= 1 && FirstBy(Newer(s.rows, dom, number), limit + 1, found)
    requires id in s.rows && id.dom == dom
    ensures id in PageOf(found, limit) <==>
              number < s.rows[id].seqNo && (|found| > limit ==> s.rows[id].seqNo <= s.rows[found[limit - 1]].seqNo)
  {
    var rank := Newer(s.rows, dom, number);
    if id in found {
      var i :| 0 <= i < |found| && found[i] == id;
      if |found| > limit {
        if i < limit {
          assert found[..limit][i] == id;
          assert i < limit - 1 ==> rank[found[i]] <= rank[found[limit - 1]];
        } else {
          assert rank[found[limit - 1]] <= rank[found[i]] && found[limit - 1] != found[i];
          assert id !in found[..limit];
        }
      }
    } else if id in rank && |found| > limit {
      assert rank[found[limit - 1]] <= rank[found[limit]] <= rank[id] && found[limit - 1] != found[limit];
    }
  }

  /** An accepted number is not older than the retention window. */
  lemma GateAccepts(since: string, now: int)
    requires 0 <= now <= MAX_INT64 && since != "" && GoodToken(since) && Gate(since, now).Some?
    ensures Gate(since, now).value == ParseToken(since).value >= now - RETENTION
  {
  }

  /** The cursor a reply leaves behind is a good one, and the page reaches exactly up to it. */
  lemma ReplyCursor(s: Server, c: Client, limit: nat, found: seq<EntryId>, hex: string)
    requires Valid(s) && CursorValid(s, c) && CanPull(s, c, limit, found, hex)
    requires PullReply(s, c, limit, found, hex).Some?
    ensures var after := PullStep(s, c, limit, found, hex);
            && CursorValid(s, after)
            && (|found| > limit ==> after.since != "" && Cursor(after) == s.rows[found[limit - 1]].seqNo)
            && (|found| <= limit ==> Cursor(after) == (if after.since == "" then -1 else Mark(s.cur, c.dom))
                                     && (after.since == "" <==> TokenKey(c.dom) !in s.cur))
  {
    var after := PullStep(s, c, limit, found, hex);
    assert StoredMark(s.domains, c.dom) <= Mark(s.cur, c.dom) <= Issued(s, c.dom);
    if |found| > limit {
      var last := found[limit - 1];
      assert last in s.rows && last.dom == c.dom;
      TokenRoundTrip(s.rows[last].seqNo, hex);
    }
  }

  /** The page is everything between the old cursor and the new one. */
  lemma ReplyReach(s: Server, c: Client, limit: nat, found: seq<EntryId>, hex: string, id: EntryId)
    requires Valid(s) && CursorValid(s, c) && CanPull(s, c, limit, found, hex)
    requires PullReply(s, c, limit, found, hex).Some?
    requires id in s.rows && id.dom == c.dom
    ensures var after := PullStep(s, c, limit, found, hex);
            id in PageOf(found, limit) <==> Cursor(c) < s.rows[id].seqNo <= Cursor(after)
  {
    PageIsInterval(s, c.dom, Cursor(c), limit, found, id);
    ReplyCursor(s, c, limit, found, hex);
    assert s.rows[id].seqNo <= StoredMark(s.domains, c.dom) <= Mark(s.cur, c.dom);
  }

  lemma ReplyItems(s: Server, c: Client, limit: nat, found: seq<EntryId>, hex: string, key: string)
    requires CanPull(s, c, limit, found, hex) && PullReply(s, c, limit, found, hex).Some?
    ensures var after, id := PullStep(s, c, limit, found, hex), EntryId(c.dom, key);
            if id in PageOf(found, limit) then
              id in s.rows && key in after.replica && after.replica[key] == s.rows[id].value
            else
              && (key in after.replica <==> key in c.replica)
              && (key in c.replica ==> after.replica[key] == c.replica[key])
  {
    ApplyAt(c.replica, s.rows, PageOf(found, limit), c.dom, key);
  }

  lemma PullAgreesOnRow(s: Server, c: Client, limit: nat, found: seq<EntryId>, hex: string, id: EntryId)
    requires Valid(s) && Agrees(s, c) && CanPull(s, c, limit, found, hex)
    requires PullReply(s, c, limit, found, hex).Some?
    requires id in s.rows && id.dom == c.dom && s.rows[id].seqNo <= Cursor(PullStep(s, c, limit, found, hex))
    ensures var after := PullStep(s, c, limit, found, hex);
            id.key in after.replica && after.replica[id.key] == s.rows[id].value
  {
    ReplyReach(s, c, limit, found, hex, id);
    ReplyItems(s, c, limit, found, hex, id.key);
    assert EntryId(c.dom, id.key) == id;
  }

  /** After an accepted pull a key without a row is not live in the copy, without exception. */
  lemma PullDropsGoneKeys(s: Server, c: Client, limit: nat, found: seq<EntryId>, hex: string, key: string)
    requires Valid(s) && Agrees(s, c) && CanPull(s, c, limit, found, hex)
    requires PullReply(s, c, limit, found, hex).Some?
    requires EntryId(c.dom, key) !in s.rows
    ensures NotLive(PullStep(s, c, limit, found, hex), key)
  {
    ReplyItems(s, c, limit, found, hex, key);
    if c.since != "" {
      GateAccepts(c.since, s.clock);
    }
    assert NotLive(c, key);
  }

  lemma PullKeepsAgreement(s: Server, c: Client, limit: nat, found: seq<EntryId>, hex: string)
    requires Valid(s) && Agrees(s, c) && CanPull(s, c, limit, found, hex)
    ensures Agrees(s, PullStep(s, c, limit, found, hex))
  {
    if PullReply(s, c, limit, found, hex).Some? {
      var after := PullStep(s, c, limit, found, hex);
      ReplyCursor(s, c, limit, found, hex);
      forall id | id in s.rows && id.dom == c.dom && s.rows[id].seqNo <= Cursor(after)
        ensures id.key in after.replica && after.replica[id.key] == s.rows[id].value
      {
        PullAgreesOnRow(s, c, limit, found, hex, id);
      }
      forall key | EntryId(c.dom, key) !in s.rows ensures NotLive(after, key) {
        PullDropsGoneKeys(s, c, limit, found, hex, key);
      }
      if after.since == "" {
        assert c.dom !in s.domains;
        forall key | key in after.replica ensures after.replica[key].deleted {
          assert EntryId(c.dom, key) !in s.rows;
        }
      }
    }
  }

  // ----- runs -----

  ghost predicate Enabled(w: World, a: Action) {
    match a
    case Tick(time) => w.server.clock <= time <= MAX_INT64
    case Push(dom, items, now, hex, commits) => 0 <= now <= MAX_INT64 && CanPush(w.server, dom, items, now, hex)
    case Restart(stored) => CanRestart(w.server, stored)
    case Pull(limit, found, hex) => CanPull(w.server, w.client, limit, found, hex)
  }

  ghost function Next(w: World, a: Action): World
    requires Enabled(w, a)
  {
    match a
    case Tick(time) => w.(server := w.server.(clock := time))
    case Push(dom, items, now, hex, commits) => w.(server := PushStep(w.server, dom, items, now, hex, commits))
    case Restart(stored) => w.(server := RestartStep(w.server, stored))
    case Pull(limit, found, hex) => w.(client := PullStep(w.server, w.client, limit, found, hex))
  }

  ghost predicate IsRun(w: World, actions: seq<Action>)
    decreases |actions|
  {
    actions == [] || (Enabled(w, actions[0]) && IsRun(Next(w, actions[0]), actions[1..]))
  }

  ghost function After(w: World, actions: seq<Action>): World
    requires IsRun(w, actions)
    decreases |actions|
  {
    if actions == [] then w else After(Next(w, actions[0]), actions[1..])
  }

  /** A server in any valid state, and a device that starts with nothing. */
  ghost predicate Begins(w: World) {
    Valid(w.server) && w.client.replica == map[] && w.client.since == ""
  }

  lemma NewDeploymentBegins(clock: Millis, dom: DomainId)
    ensures Begins(World(NewServer(clock), Client(dom, map[], "")))
  {
    NewServerIsUnused(clock);
  }

  ghost predicate Invariant(w: World) {
    Valid(w.server) && Agrees(w.server, w.client)
  }

  /** Every step keeps tokens, numbers and pruned tombstones in order. */
  lemma StepKeepsServerValid(w: World, a: Action)
    requires Valid(w.server) && Enabled(w, a)
    ensures Valid(Next(w, a).server)
  {
    match a
    case Tick(time) =>
    case Push(dom, items, now, hex, commits) =>
      PushKeepsValid(w.server, dom, items, now, hex, commits);
    case Restart(stored) =>
      RestartKeepsValid(w.server, stored);
    case Pull(limit, found, hex) =>
  }

  /** Every step keeps the copy of the device in agreement. */
  lemma StepKeepsAgreement(w: World, a: Action)
    requires Invariant(w) && Enabled(w, a)
    ensures Agrees(Next(w, a).server, Next(w, a).client)
  {
    match a
    case Tick(time) =>
    case Push(dom, items, now, hex, commits) =>
      PushKeepsAgreement(w.server, w.client, dom, items, now, hex, commits);
    case Restart(stored) =>
      RestartKeepsAgreement(w.server, w.client, stored);
    case Pull(limit, found, hex) =>
      PullKeepsAgreement(w.server, w.client, limit, found, hex);
  }

  lemma RestartKeepsAgreement(s: Server, c: Client, stored: seq<StoredToken>)
    requires Agrees(s, c)
    ensures Agrees(RestartStep(s, stored), c)
  {
    assert Issued(RestartStep(s, stored), c.dom) == Issued(s, c.dom);
  }

  lemma {:induction false} RunKeepsInvariant(w: World, actions: seq<Action>)
    requires Invariant(w) && IsRun(w, actions)
    ensures Invariant(After(w, actions))
    decreases |actions|
  {
    if actions != [] {
      StepKeepsServerValid(w, actions[0]);
      StepKeepsAgreement(w, actions[0]);
      RunKeepsInvariant(Next(w, actions[0]), actions[1..]);
    }
  }

  function LiveAtServer(rows: Table, dom: DomainId, key: string): Option<Value> {
    var id := EntryId(dom, key);
    if id in rows && !rows[id].value.deleted then Some(rows[id].value) else None
  }

  function LiveAtDevice(c: Client, key: string): Option<Value> {
    if key in c.replica && !c.replica[key].deleted then Some(c.replica[key]) else None
  }

  lemma CompletePullConverges(w: World, limit: nat, found: seq<EntryId>, hex: string, key: string)
    requires Invariant(w) && CanPull(w.server, w.client, limit, found, hex)
    requires PullReply(w.server, w.client, limit, found, hex).Some?
    requires !PullReply(w.server, w.client, limit, found, hex).value.hasMore
    ensures var after := PullStep(w.server, w.client, limit, found, hex);
            LiveAtDevice(after, key) == LiveAtServer(w.server.rows, w.client.dom, key)
  {
    var s, c := w.server, w.client;
    var id := EntryId(c.dom, key);
    if id in s.rows {
      ReplyCursor(s, c, limit, found, hex);
      assert s.rows[id].seqNo <= StoredMark(s.domains, c.dom) <= Mark(s.cur, c.dom);
      PullAgreesOnRow(s, c, limit, found, hex, id);
    } else {
      PullDropsGoneKeys(s, c, limit, found, hex, key);
    }
  }

  /**
   * Convergence: whatever was pushed, rolled back, pruned or restarted before and between the pages,
   * a reply without a further page leaves the device with the server's live entries of its domain.
   */
  lemma Convergence(w: World, actions: seq<Action>, limit: nat, found: seq<EntryId>, hex: string)
    requires Begins(w) && IsRun(w, actions)
    requires Enabled(After(w, actions), Pull(limit, found, hex))
    requires var end := After(w, actions);
             var reply := PullReply(end.server, end.client, limit, found, hex);
             reply.Some? && !reply.value.hasMore
    ensures var end := After(w, actions);
            var device := Next(end, Pull(limit, found, hex)).client;
            forall key :: LiveAtDevice(device, key) == LiveAtServer(end.server.rows, end.client.dom, key)
  {
    RunKeepsInvariant(w, actions);
    var end := After(w, actions);
    forall key
      ensures LiveAtDevice(PullStep(end.server, end.client, limit, found, hex), key)
           == LiveAtServer(end.server.rows, end.client.dom, key)
    {
      CompletePullConverges(end, limit, found, hex, key);
    }
  }
}
