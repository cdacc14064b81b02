/**
 * Every run of the sync server, with one device that follows the protocol. The server's transactions
 * and its answers to pulls are atomic steps, and the clock is the latest time ever read.
 */
module SyncSystem {
  import opened Basics
  import opened SyncToken
  import opened SyncModel
  import opened SyncTable

  /**
   * The tables, the token store and the clock, with two records that the server itself does not keep:
   * the largest number ever reserved in a domain, and every tombstone that was ever pruned.
   */
  datatype Server = Server(
    rows: Table,
    cur: TokenMap,
    domains: map<DomainId, string>,
    clock: int,
    boot: int,
    issued: map<DomainId, int>,
    pruned: set<(DomainId, int)>)

  /** A device: its copy of one domain and the token of the last pull reply it applied. */
  datatype Client = Client(dom: DomainId, replica: map<string, Value>, since: string)

  datatype World = World(server: Server, client: Client)

  datatype Action =
    | Tick(time: int)
    | Push(dom: DomainId, items: seq<Item>, now: int, hex: string, commits: bool)
    | Restart(stored: seq<StoredToken>)
    | Pull(limit: nat, found: seq<EntryId>, hex: string)

  function Issued(s: Server, dom: DomainId): int {
    if dom in s.issued then s.issued[dom] else 0
  }

  /** The watermark of a domain that a restart would find in the database. */
  function StoredMark(domains: map<DomainId, string>, dom: DomainId): int {
    if dom in domains && ParseToken(domains[dom]).Some? then ParseToken(domains[dom]).value else 0
  }

  function CurrentOf(cur: TokenMap, dom: DomainId): string {
    if TokenKey(dom) in cur then cur[TokenKey(dom)] else ""
  }

  // ----- steps of the server -----

  /**
   * A push works with any time that was ever read, also where the clock has been set back; but where the
   * memory of numbers of rolled-back pushes was lost, its time must not lie before the start of the server.
   */
  ghost predicate CanPush(s: Server, dom: DomainId, items: seq<Item>, now: int, hex: string) {
    && 0 <= now <= s.clock
    && (s.boot <= now || Issued(s, dom) == Mark(s.cur, dom))
    && |hex| == 6
    && Fits(Mark(s.cur, dom), |Accepted(s.rows, dom, items)|, now)
  }

  function PrunedBy(rows: Table, dom: DomainId, cutoff: int): set<(DomainId, int)> {
    set id | id in rows && Stale(id, rows[id], dom, cutoff) :: (dom, rows[id].seqNo)
  }

  /** A push reserves its numbers first; only a committed one changes the tables. */
  function PushStep(s: Server, dom: DomainId, items: seq<Item>, now: int, hex: string, commits: bool): Server
    requires 0 <= now <= MAX_INT64
  {
    var accepted := Accepted(s.rows, dom, items);
    var start := BatchStart(Mark(s.cur, dom), now);
    var last := BatchLast(start, |accepted|);
    var token := MintToken(last, hex);
    var reserved := s.(cur := s.cur[TokenKey(dom) := token],
                       issued := s.issued[dom := Max(Issued(s, dom), last)]);
    if !commits then reserved
    else reserved.(
      rows := PushTable(s.rows, dom, items, start, now),
      domains := s.domains[dom := token],
      pruned := s.pruned + PrunedBy(Write(s.rows, dom, accepted, start), dom, now - RETENTION))
  }

  /** What a restart reads: the token of every domain that was pushed to. */
  ghost predicate IsStored(s: Server, stored: seq<StoredToken>) {
    && OneRowPerDomain(stored)
    && (forall row :: row in stored ==> row.dom in s.domains && s.domains[row.dom] == row.token)
    && (forall dom :: dom in s.domains ==> StoredToken(dom, s.domains[dom]) in stored)
  }

  /**
   * A restart loads the stored tokens. Numbers that a rolled-back push had reserved are forgotten with
   * the memory, so the clock must have passed them.
   */
  ghost predicate CanRestart(s: Server, stored: seq<StoredToken>) {
    && IsStored(s, stored)
    && (forall dom :: Mark(s.cur, dom) == StoredMark(s.domains, dom) || Mark(s.cur, dom) < s.clock)
  }

  function RestartStep(s: Server, stored: seq<StoredToken>): Server {
    s.(cur := LoadAll(map[], stored), boot := s.clock)
  }

  // ----- what the server keeps -----

  predicate GoodToken(tok: string) {
    tok != "" && ParseToken(tok).Some? && ParseToken(tok).value >= 1
  }

  ghost predicate TokensValid(s: Server) {
    && (forall k :: k in s.cur ==> GoodToken(s.cur[k]))
    && (forall dom :: dom in s.domains ==> GoodToken(s.domains[dom]))
    && (forall dom :: dom in s.domains ==> TokenKey(dom) in s.cur)
    && (forall dom :: StoredMark(s.domains, dom) <= Mark(s.cur, dom) <= Issued(s, dom))
  }

  ghost predicate ClockValid(s: Server) {
    && 0 <= s.boot <= s.clock <= MAX_INT64
    && (forall dom :: Issued(s, dom) == Mark(s.cur, dom) || Issued(s, dom) < s.boot)
  }

  /** Numbers of the rows of a domain are positive, differ, and lie at or below the stored watermark. */
  ghost predicate RowsValid(s: Server) {
    && (forall id :: id in s.rows ==> id.dom in s.domains && 1 <= s.rows[id].seqNo <= StoredMark(s.domains, id.dom))
    && (forall id, other :: id in s.rows && other in s.rows && id != other && id.dom == other.dom ==>
          s.rows[id].seqNo != s.rows[other].seqNo)
  }

  ghost predicate PrunedValid(s: Server) {
    forall p :: p in s.pruned ==> p.1 < s.clock - RETENTION
  }

  ghost predicate Valid(s: Server) {
    TokensValid(s) && ClockValid(s) && RowsValid(s) && PrunedValid(s)
  }

  lemma MarkOfMinted(cur: TokenMap, dom: DomainId, n: int, hex: string, other: DomainId)
    requires 1 <= n <= MAX_INT64 && |hex| == 6
    ensures var after := cur[TokenKey(dom) := MintToken(n, hex)];
            && Mark(after, dom) == n
            && GoodToken(MintToken(n, hex))
            && (other != dom ==> Mark(after, other) == Mark(cur, other))
            && (other != dom ==> CurrentOf(after, other) == CurrentOf(cur, other))
  {
    TokenRoundTrip(n, hex);
    if other != dom && TokenKey(other) == TokenKey(dom) {
      TokenKeyInjective(other, dom);
    }
  }

  /** The numbers of the push: above everything ever reserved in its domain, and not below its time. */
  lemma PushNumbers(s: Server, dom: DomainId, items: seq<Item>, now: int, hex: string)
    requires TokensValid(s) && ClockValid(s) && CanPush(s, dom, items, now, hex)
    ensures var n := |Accepted(s.rows, dom, items)|;
            var start := BatchStart(Mark(s.cur, dom), now);
            && 0 <= Mark(s.cur, dom) && Issued(s, dom) < start && now <= start && NumbersFit(start, n)
            && BatchLast(start, n) == start + Max(n, 1) - 1
  {
    assert Mark(s.cur, dom) >= 0;
    BatchNumbers(Mark(s.cur, dom), |Accepted(s.rows, dom, items)|, now);
  }

  lemma StoredMarkOf(domains: map<DomainId, string>, dom: DomainId, token: string, n: int, other: DomainId)
    requires ParseToken(token) == Some(n)
    ensures StoredMark(domains[dom := token], other) == if other == dom then n else StoredMark(domains, other)
  {
  }

  /** The three watermarks of one domain after a push. */
  lemma PushMarks(s: Server, dom: DomainId, items: seq<Item>, now: int, hex: string, commits: bool, other: DomainId)
    requires TokensValid(s) && ClockValid(s) && CanPush(s, dom, items, now, hex)
    ensures var after := PushStep(s, dom, items, now, hex, commits);
            var last := BatchLast(BatchStart(Mark(s.cur, dom), now), |Accepted(s.rows, dom, items)|);
            && Mark(after.cur, other) == (if other == dom then last else Mark(s.cur, other))
            && Issued(after, other) == (if other == dom then last else Issued(s, other))
            && StoredMark(after.domains, other)
               == (if commits && other == dom then last else StoredMark(s.domains, other))
            && GoodToken(MintToken(last, hex)) && last > Issued(s, dom) && last >= now
  {
    PushNumbers(s, dom, items, now, hex);
    var last := BatchLast(BatchStart(Mark(s.cur, dom), now), |Accepted(s.rows, dom, items)|);
    MarkOfMinted(s.cur, dom, last, hex, other);
    TokenRoundTrip(last, hex);
    StoredMarkOf(s.domains, dom, MintToken(last, hex), last, other);
    assert Issued(s, dom) < last;
  }

  lemma PushKeepsTokens(s: Server, dom: DomainId, items: seq<Item>, now: int, hex: string, commits: bool)
    requires TokensValid(s) && ClockValid(s) && CanPush(s, dom, items, now, hex)
    ensures var after := PushStep(s, dom, items, now, hex, commits);
            TokensValid(after) && ClockValid(after)
  {
    var after := PushStep(s, dom, items, now, hex, commits);
    PushMarks(s, dom, items, now, hex, commits, dom);
    forall other
      ensures StoredMark(after.domains, other) <= Mark(after.cur, other) <= Issued(after, other)
      ensures Issued(after, other) == Mark(after.cur, other) || Issued(after, other) < after.boot
    {
      PushMarks(s, dom, items, now, hex, commits, other);
    }
  }

  /** Where the number of one row comes from after a committed push. */
  lemma PushRow(s: Server, dom: DomainId, items: seq<Item>, now: int, hex: string, id: EntryId)
    requires TokensValid(s) && ClockValid(s) && RowsValid(s) && CanPush(s, dom, items, now, hex)
    requires id in PushStep(s, dom, items, now, hex, true).rows
    ensures var accepted, start := Accepted(s.rows, dom, items), BatchStart(Mark(s.cur, dom), now);
            var row := PushStep(s, dom, items, now, hex, true).rows[id];
            if id.dom == dom && LastIndex(accepted, id.key) >= 0
            then row.seqNo == start + LastIndex(accepted, id.key) > Issued(s, dom)
            else id in s.rows && row == s.rows[id] && row.seqNo <= StoredMark(s.domains, id.dom)
  {
    PushNumbers(s, dom, items, now, hex);
    PushAt(s.rows, dom, items, BatchStart(Mark(s.cur, dom), now), now, id);
  }

  lemma PushedRowBounded(s: Server, dom: DomainId, items: seq<Item>, now: int, hex: string, id: EntryId)
    requires TokensValid(s) && ClockValid(s) && RowsValid(s) && CanPush(s, dom, items, now, hex)
    requires id in PushStep(s, dom, items, now, hex, true).rows
    ensures var after := PushStep(s, dom, items, now, hex, true);
            id.dom in after.domains && 1 <= after.rows[id].seqNo <= StoredMark(after.domains, id.dom)
  {
    PushRow(s, dom, items, now, hex, id);
    PushNumbers(s, dom, items, now, hex);
    PushMarks(s, dom, items, now, hex, true, id.dom);
  }

  lemma PushedRowsDiffer(s: Server, dom: DomainId, items: seq<Item>, now: int, hex: string, id: EntryId, other: EntryId)
    requires TokensValid(s) && ClockValid(s) && RowsValid(s) && CanPush(s, dom, items, now, hex)
    requires id in PushStep(s, dom, items, now, hex, true).rows
    requires other in PushStep(s, dom, items, now, hex, true).rows
    requires id != other && id.dom == other.dom
    ensures var after := PushStep(s, dom, items, now, hex, true);
            after.rows[id].seqNo != after.rows[other].seqNo
  {
    var accepted, after := Accepted(s.rows, dom, items), PushStep(s, dom, items, now, hex, true);
    PushRow(s, dom, items, now, hex, id);
    PushRow(s, dom, items, now, hex, other);
    assert StoredMark(s.domains, dom) <= Issued(s, dom);
    var written := id.dom == dom && LastIndex(accepted, id.key) >= 0;
    var otherWritten := id.dom == dom && LastIndex(accepted, other.key) >= 0;
    if written && otherWritten {
      assert LastIndex(accepted, id.key) != LastIndex(accepted, other.key);
    } else if !written && !otherWritten {
      assert after.rows[id] == s.rows[id] && after.rows[other] == s.rows[other];
    }
  }

  lemma PushKeepsRows(s: Server, dom: DomainId, items: seq<Item>, now: int, hex: string, commits: bool)
    requires TokensValid(s) && ClockValid(s) && RowsValid(s) && CanPush(s, dom, items, now, hex)
    ensures RowsValid(PushStep(s, dom, items, now, hex, commits))
  {
    if commits {
      var after := PushStep(s, dom, items, now, hex, true);
      forall id | id in after.rows
        ensures id.dom in after.domains && 1 <= after.rows[id].seqNo <= StoredMark(after.domains, id.dom)
      {
        PushedRowBounded(s, dom, items, now, hex, id);
      }
      forall id, other | id in after.rows && other in after.rows && id != other && id.dom == other.dom
        ensures after.rows[id].seqNo != after.rows[other].seqNo
      {
        PushedRowsDiffer(s, dom, items, now, hex, id, other);
      }
    }
  }

  lemma PushKeepsPruned(s: Server, dom: DomainId, items: seq<Item>, now: int, hex: string, commits: bool)
    requires PrunedValid(s) && ClockValid(s) && CanPush(s, dom, items, now, hex)
    ensures PrunedValid(PushStep(s, dom, items, now, hex, commits))
  {
  }

  /** A restart brings back the stored watermarks, and invents none. */
  lemma RestartMark(s: Server, stored: seq<StoredToken>, dom: DomainId)
    requires TokensValid(s) && IsStored(s, stored)
    ensures var after := RestartStep(s, stored);
            && Mark(after.cur, dom) == StoredMark(s.domains, dom)
            && (dom in s.domains ==> TokenKey(dom) in after.cur)
  {
    var empty: TokenMap := map[];
    LoadRestoresRows(empty, stored);
    if dom in s.domains {
      assert StoredToken(dom, s.domains[dom]) in stored;
    } else if TokenKey(dom) in LoadAll(empty, stored) {
      var row :| row in stored && TokenKey(row.dom) == TokenKey(dom);
      TokenKeyInjective(row.dom, dom);
    }
  }

  lemma RestartTokensGood(s: Server, stored: seq<StoredToken>)
    requires TokensValid(s) && IsStored(s, stored)
    ensures forall k :: k in RestartStep(s, stored).cur ==> GoodToken(RestartStep(s, stored).cur[k])
  {
    var empty: TokenMap := map[];
    LoadRestoresRows(empty, stored);
    forall k | k in LoadAll(empty, stored) ensures GoodToken(LoadAll(empty, stored)[k]) {
      var row :| row in stored && TokenKey(row.dom) == k;
      assert GoodToken(s.domains[row.dom]);
    }
  }

  lemma RestartKeepsValid(s: Server, stored: seq<StoredToken>)
    requires Valid(s) && CanRestart(s, stored)
    ensures Valid(RestartStep(s, stored))
  {
    var after := RestartStep(s, stored);
    RestartTokensGood(s, stored);
    forall dom
      ensures Mark(after.cur, dom) == StoredMark(s.domains, dom)
      ensures dom in s.domains ==> TokenKey(dom) in after.cur
      ensures Issued(after, dom) == Mark(after.cur, dom) || Issued(after, dom) < after.boot
    {
      RestartMark(s, stored, dom);
      assert Issued(after, dom) == Issued(s, dom);
      assert Mark(s.cur, dom) == StoredMark(s.domains, dom) || Mark(s.cur, dom) < s.clock;
    }
  }

  lemma ClockMayAdvance(s: Server, time: Millis)
    requires Valid(s) && s.clock <= time
    ensures Valid(s.(clock := time))
  {
  }

  // ----- a new deployment -----

  function NewServer(clock: int): Server {
    Server(map[], map[], map[], clock, clock, map[], {})
  }

  /** A server to which nobody has pushed yet. */
  ghost predicate Unused(s: Server) {
    Valid(s) && s.boot == s.clock && s.rows == map[] && s.domains == map[] && s.cur == map[]
  }

  lemma NewServerIsUnused(clock: Millis)
    ensures Unused(NewServer(clock))
  {
  }

  lemma {:induction false} AllBeatAllAccepted(rows: Table, dom: DomainId, items: seq<Item>)
    requires forall i :: 0 <= i < |items| ==> Beats(rows, dom, items[i])
    ensures Accepted(rows, dom, items) == items
  {
    if items != [] {
      var n := |items| - 1;
      AllBeatAllAccepted(rows, dom, items[..n]);
      assert items[..n] + [items[n]] == items;
    }
  }

  lemma EmptyTableAcceptsAll(rows: Table, dom: DomainId, items: seq<Item>)
    requires rows == map[]
    ensures Accepted(rows, dom, items) == items
  {
    AllBeatAllAccepted(rows, dom, items);
  }

  /** The first push to a domain is possible, and its rows are numbered from the time on. */
  lemma FirstPush(s: Server, dom: DomainId, items: seq<Item>, hex: string)
    requires Unused(s) && 1 <= s.clock && s.clock + Max(|items|, 1) - 1 <= MAX_INT64 && |hex| == 6
    ensures CanPush(s, dom, items, s.clock, hex) && Accepted(s.rows, dom, items) == items
    ensures BatchStart(Mark(s.cur, dom), s.clock) == s.clock
    ensures BatchLast(s.clock, |items|) == s.clock + Max(|items|, 1) - 1
  {
    EmptyTableAcceptsAll(s.rows, dom, items);
    PushNumbers(s, dom, items, s.clock, hex);
  }

  lemma PushKeepsValid(s: Server, dom: DomainId, items: seq<Item>, now: int, hex: string, commits: bool)
    requires Valid(s) && CanPush(s, dom, items, now, hex)
    ensures Valid(PushStep(s, dom, items, now, hex, commits))
  {
    PushKeepsTokens(s, dom, items, now, hex, commits);
    PushKeepsRows(s, dom, items, now, hex, commits);
    PushKeepsPruned(s, dom, items, now, hex, commits);
  }

  lemma FirstTableRow(rows: Table, dom: DomainId, items: seq<Item>, clock: Millis, id: EntryId)
    requires rows == map[] && NumbersFit(clock, |items|)
    ensures var after := PushTable(rows, dom, items, clock, clock);
            var j := if id.dom == dom then LastIndex(items, id.key) else -1;
            if j >= 0 then id in after && after[id] == Row(items[j].value, clock + j) else id !in after
  {
    EmptyTableAcceptsAll(rows, dom, items);
    PushAt(rows, dom, items, clock, clock, id);
  }

  lemma FirstPushRow(s: Server, dom: DomainId, items: seq<Item>, hex: string, id: EntryId)
    requires Unused(s) && 1 <= s.clock && s.clock + Max(|items|, 1) - 1 <= MAX_INT64 && |hex| == 6
    ensures CanPush(s, dom, items, s.clock, hex)
    ensures var rows := PushStep(s, dom, items, s.clock, hex, true).rows;
            var j := if id.dom == dom then LastIndex(items, id.key) else -1;
            if j >= 0 then id in rows && rows[id] == Row(items[j].value, s.clock + j) else id !in rows
  {
    FirstPush(s, dom, items, hex);
    FirstTableRow(s.rows, dom, items, s.clock, id);
    assert PushStep(s, dom, items, s.clock, hex, true).rows == PushTable(s.rows, dom, items, s.clock, s.clock);
  }
}
