/** Numbers, tokens and the retention gate over whole runs. */
module SyncDiscipline {
  import opened Basics
  import opened SyncToken
  import opened SyncModel
  import opened SyncTable
  import opened SyncSystem
  import opened SyncConvergence

  /** The number in the token that a push hands out. */
  function PushToken(s: Server, dom: DomainId, items: seq<Item>, now: int): int
    requires 0 <= now <= MAX_INT64
  {
    BatchLast(BatchStart(Mark(s.cur, dom), now), |Accepted(s.rows, dom, items)|)
  }

  lemma {:induction false} RunKeepsServerValid(w: World, actions: seq<Action>)
    requires Valid(w.server) && IsRun(w, actions)
    ensures Valid(After(w, actions).server)
    decreases |actions|
  {
    if actions != [] {
      StepKeepsServerValid(w, actions[0]);
      RunKeepsServerValid(Next(w, actions[0]), actions[1..]);
    }
  }

  lemma {:induction false} IssuedNeverFalls(w: World, actions: seq<Action>, dom: DomainId)
    requires Valid(w.server) && IsRun(w, actions)
    ensures Issued(w.server, dom) <= Issued(After(w, actions).server, dom)
    decreases |actions|
  {
    if actions != [] {
      StepKeepsServerValid(w, actions[0]);
      StepNeverLowersIssued(w, actions[0], dom);
      IssuedNeverFalls(Next(w, actions[0]), actions[1..], dom);
    }
  }

  lemma StepNeverLowersIssued(w: World, a: Action, dom: DomainId)
    requires Valid(w.server) && Enabled(w, a)
    ensures Issued(w.server, dom) <= Issued(Next(w, a).server, dom)
  {
  }

  /**
   * Of two pushes to a domain, the later one's token is larger, and so is every number it reserves,
   * whatever happened in between: empty batches, rollbacks, restarts, a clock that was set back.
   */
  lemma TokensStrictlyIncrease(w: World, first: Action, between: seq<Action>, second: Action)
    requires Valid(w.server) && first.Push? && second.Push? && first.dom == second.dom
    requires Enabled(w, first) && IsRun(Next(w, first), between)
    requires Enabled(After(Next(w, first), between), second)
    ensures var later := After(Next(w, first), between).server;
            PushToken(w.server, first.dom, first.items, first.now)
              < BatchStart(Mark(later.cur, second.dom), second.now)
              <= PushToken(later, second.dom, second.items, second.now)
  {
    StepKeepsServerValid(w, first);
    RunKeepsServerValid(Next(w, first), between);
    IssuedNeverFalls(Next(w, first), between, first.dom);
    PushMarks(w.server, first.dom, first.items, first.now, first.hex, first.commits, first.dom);
    PushNumbers(After(Next(w, first), between).server, second.dom, second.items, second.now, second.hex);
  }

  /** Whatever the time of a push: its numbers lie above all reserved ones iff none was forgotten or it is later. */
  lemma NumbersRiseIff(s: Server, dom: DomainId, n: nat, now: Millis)
    requires Valid(s) && Fits(Mark(s.cur, dom), n, now)
    ensures BatchStart(Mark(s.cur, dom), now) > Issued(s, dom)
            <==> Issued(s, dom) == Mark(s.cur, dom) || now > Issued(s, dom)
  {
    assert 0 <= Mark(s.cur, dom) <= Issued(s, dom);
    BatchNumbers(Mark(s.cur, dom), n, now);
  }

  /**
   * A row that a committed push wrote carries a number above all earlier ones, not below the time of
   * the push, at most the new token; and it survives the prune of that same push.
   */
  lemma WrittenRowNumbers(s: Server, dom: DomainId, items: seq<Item>, now: int, hex: string, i: nat)
    requires Valid(s) && CanPush(s, dom, items, now, hex) && i < |Accepted(s.rows, dom, items)|
    ensures var after, id := PushStep(s, dom, items, now, hex, true), EntryId(dom, Accepted(s.rows, dom, items)[i].key);
            && id in after.rows
            && Issued(s, dom) < after.rows[id].seqNo <= PushToken(s, dom, items, now)
            && now <= after.rows[id].seqNo
  {
    var accepted := Accepted(s.rows, dom, items);
    var id := EntryId(dom, accepted[i].key);
    PushNumbers(s, dom, items, now, hex);
    assert LastIndex(accepted, id.key) >= i;
    PushAt(s.rows, dom, items, BatchStart(Mark(s.cur, dom), now), now, id);
  }

  /** A push touches no row and no token of another domain, or of the same domain of another account. */
  lemma OtherDomainsUntouched(
      s: Server, dom: DomainId, items: seq<Item>, now: int, hex: string, commits: bool, id: EntryId)
    requires Valid(s) && CanPush(s, dom, items, now, hex) && id.dom != dom
    ensures var after := PushStep(s, dom, items, now, hex, commits);
            && (id in after.rows <==> id in s.rows)
            && (id in s.rows ==> after.rows[id] == s.rows[id])
            && CurrentOf(after.cur, id.dom) == CurrentOf(s.cur, id.dom)
            && (id.dom in after.domains <==> id.dom in s.domains)
            && (id.dom in s.domains ==> after.domains[id.dom] == s.domains[id.dom])
  {
    PushNumbers(s, dom, items, now, hex);
    MarkOfMinted(s.cur, dom, PushToken(s, dom, items, now), hex, id.dom);
    PushAt(s.rows, dom, items, BatchStart(Mark(s.cur, dom), now), now, id);
  }

  // ----- the retention gate -----

  const TWO_63: int := 0x8000_0000_0000_0000

  /** Which numbers the gate lets through: those in the window, and those so low that the difference wraps. */
  lemma GateExact(now: Millis, number: int)
    requires IsInt64(number)
    ensures !Expired(now, number) <==> now - number <= RETENTION || now - number >= TWO_63
  {
    if now - number >= TWO_63 {
      assert Wrap64(now - number) == now - number - TWO_64;
    }
  }

  /** The gate means "inside the window" for all numbers above now - 2^63, and for no others. */
  lemma GateMeansWindowIffNoWrap(now: Millis, number: int)
    requires IsInt64(number)
    ensures (!Expired(now, number) <==> now - number <= RETENTION) <==> number > now - TWO_63
  {
    GateExact(now, number);
  }

  /** A token text with the least 64-bit number passes the gate although it lies far outside the window. */
  lemma LeastNumberPasses(hex: string)
    requires |hex| == 6
    ensures Gate(MintToken(MIN_INT64, hex), 1_700_000_000_000) == Some(MIN_INT64)
    ensures 1_700_000_000_000 - MIN_INT64 > RETENTION
  {
    TokenRoundTrip(MIN_INT64, hex);
    GateExact(1_700_000_000_000, MIN_INT64);
  }

  /**
   * Soundness: in every run, a since token that is accepted (and whose number does not wrap) lies
   * above every tombstone ever pruned, so no accepted cursor can have missed a pruned deletion.
   */
  lemma GateSoundness(w: World, actions: seq<Action>, since: string)
    requires Valid(w.server) && IsRun(w, actions)
    requires var now := After(w, actions).server.clock;
             since != "" && 0 <= now <= MAX_INT64 && Gate(since, now).Some? && Gate(since, now).value > now - TWO_63
    ensures var s := After(w, actions).server;
            forall p :: p in s.pruned ==> p.1 < Gate(since, s.clock).value
  {
    RunKeepsServerValid(w, actions);
    var s := After(w, actions).server;
    GateExact(s.clock, Gate(since, s.clock).value);
  }

  /** The record of pruned tombstones is complete: a row leaves the table only into it. */
  lemma PrunedRowsAreRecorded(s: Server, dom: DomainId, items: seq<Item>, now: int, hex: string, id: EntryId)
    requires Valid(s) && CanPush(s, dom, items, now, hex)
    requires id in s.rows && id !in PushStep(s, dom, items, now, hex, true).rows
    ensures s.rows[id].value.deleted && s.rows[id].seqNo < now - RETENTION
    ensures (id.dom, s.rows[id].seqNo) in PushStep(s, dom, items, now, hex, true).pruned
  {
    PushNumbers(s, dom, items, now, hex);
    var start := BatchStart(Mark(s.cur, dom), now);
    PushAt(s.rows, dom, items, start, now, id);
    WriteAt(s.rows, dom, Accepted(s.rows, dom, items), start, id);
  }
}
