/**
 * Every run in which pushes and pulls are not undivided. A push is two steps: it publishes its token in
 * memory, and later its transaction commits or rolls back. The pull of the device is three: the gate, the
 * rows, the token. All other steps may come in between.
 */
module SyncInterleaving {
  import opened Basics
  import opened Query
  import opened SyncToken
  import opened SyncModel
  import opened SyncSystem
  import opened SyncConvergence
  import opened SyncDiscipline
  import opened SyncRaces
  import opened SyncMoments

  /** A push that has reserved its numbers and not yet finished. */
  datatype Pending = Pending(dom: DomainId, items: seq<Item>, now: int, hex: string)

  /**
   * How far the pull of the device has come: nowhere, past the gate with a number, or with its rows applied
   * to a copy on the side and the continuation token, "" for a complete page. What the server was when the
   * rows were read is kept for the record only.
   */
  datatype Phase = Idle | Passed(number: int) | Fetched(replica: map<string, Value>, more: string, read: Server)

  /**
   * base is the server without the push that is under way; pushes exclude each other. Its clock is the latest
   * time ever read: a gate and a push may work with an earlier one.
   */
  datatype Moment = Moment(base: Server, pending: Option<Pending>, client: Client, phase: Phase)

  datatype Event =
    | Tick(time: int)
    | Reserve(push: Pending)
    | Finish(commits: bool)
    | Restart(stored: seq<StoredToken>)
    | Gate(now: int)
    | Rows(limit: nat, found: seq<EntryId>, hex: string)
    | Token
    | Fail

  ghost predicate CanReserve(s: Server, p: Pending) {
    0 <= p.now <= MAX_INT64 && CanPush(s, p.dom, p.items, p.now, p.hex)
  }

  function PushOf(s: Server, p: Pending, commits: bool): Server
    requires 0 <= p.now <= MAX_INT64
  {
    PushStep(s, p.dom, p.items, p.now, p.hex, commits)
  }

  /** What the server shows: the rows of the base, and the token of a push that is under way. */
  function Visible(m: Moment): Server
    requires m.pending.Some? ==> 0 <= m.pending.value.now <= MAX_INT64
  {
    if m.pending.Some? then PushOf(m.base, m.pending.value, false) else m.base
  }

  ghost predicate Enabled(m: Moment, e: Event) {
    && (m.pending.Some? ==> 0 <= m.pending.value.now <= MAX_INT64)
    && 0 <= m.base.clock <= MAX_INT64
    && match e
       case Tick(time) => m.base.clock <= time <= MAX_INT64
       case Reserve(p) => m.pending.None? && CanReserve(m.base, p)
       case Finish(commits) => m.pending.Some?
       case Restart(stored) => CanRestart(Visible(m), stored)
       case Gate(now) => m.phase.Idle? && 0 <= now <= m.base.clock
       case Rows(limit, found, hex) =>
         && m.phase.Passed? && limit >= 1 && |hex| == 6
         && FirstBy(Newer(Visible(m).rows, m.client.dom, m.phase.number), limit + 1, found)
       case Token => m.phase.Fetched?
       case Fail => true
  }

  /** The page applied on the side, and the continuation token of a full one. */
  ghost function Fetch(s: Server, c: Client, limit: nat, found: seq<EntryId>, hex: string): Phase
    requires limit >= 1 && forall i :: 0 <= i < |found| ==> found[i] in s.rows
  {
    Fetched(Apply(c.replica, ItemsOf(s.rows, PageOf(found, limit))),
            if |found| > limit then MintToken(s.rows[found[limit - 1]].seqNo, hex) else "", s)
  }

  /** The device when its pull ends with this token in memory. */
  function Received(c: Client, phase: Phase, current: string): Client
    requires phase.Fetched?
  {
    Client(c.dom, phase.replica, if phase.more != "" then phase.more else current)
  }

  ghost function Next(m: Moment, e: Event): Moment
    requires Enabled(m, e)
  {
    match e
    case Tick(time) => m.(base := m.base.(clock := time))
    case Reserve(p) => m.(pending := Some(p))
    case Finish(commits) => m.(base := PushOf(m.base, m.pending.value, commits), pending := None)
    case Restart(stored) => Moment(RestartStep(Visible(m), stored), None, m.client, Idle)
    case Gate(now) =>
      (match SyncModel.Gate(m.client.since, now)
       case None => m.(client := Client(m.client.dom, map[], ""))
       case Some(number) => m.(phase := Passed(number)))
    case Rows(limit, found, hex) => m.(phase := Fetch(m.base, m.client, limit, found, hex))
    case Token => m.(client := Received(m.client, m.phase, CurrentOf(Visible(m).cur, m.client.dom)), phase := Idle)
    case Fail => m.(phase := Idle)
  }

  /**
   * A step that overlaps nothing harmful: the gate would still be passed when the rows are read; and with a
   * complete page, the token that is read is the one that the rows were read under, no push between its
   * reservation and its commit among them.
   */
  ghost predicate Undisturbed(m: Moment, e: Event)
    requires Enabled(m, e)
  {
    match e
    case Rows(_, _, _) => SyncModel.Gate(m.client.since, m.base.clock).Some?
    case Token =>
      m.phase.more == "" ==> CurrentOf(Visible(m).cur, m.client.dom) == CurrentOf(m.phase.read.cur, m.client.dom)
    case _ => true
  }

  ghost predicate IsRun(m: Moment, events: seq<Event>)
    decreases |events|
  {
    events == [] || (Enabled(m, events[0]) && IsRun(Next(m, events[0]), events[1..]))
  }

  ghost predicate UndisturbedRun(m: Moment, events: seq<Event>)
    requires IsRun(m, events)
    decreases |events|
  {
    events == [] || (Undisturbed(m, events[0]) && UndisturbedRun(Next(m, events[0]), events[1..]))
  }

  ghost function After(m: Moment, events: seq<Event>): Moment
    requires IsRun(m, events)
    decreases |events|
  {
    if events == [] then m else After(Next(m, events[0]), events[1..])
  }

  // ----- what undisturbed runs keep -----

  ghost predicate PendingValid(m: Moment) {
    m.pending.Some? ==> CanReserve(m.base, m.pending.value)
  }

  ghost predicate SameRows(a: Server, b: Server, dom: DomainId) {
    forall key :: LiveAtServer(a.rows, dom, key) == LiveAtServer(b.rows, dom, key)
  }

  /** Since the rows were read, a push of the domain has moved its watermark, or everything is as it was. */
  ghost predicate SinceRead(read: Server, s: Server, dom: DomainId) {
    || Mark(read.cur, dom) < Mark(s.cur, dom)
    || (CurrentOf(s.cur, dom) == CurrentOf(read.cur, dom) && SameRows(read, s, dom))
  }

  ghost predicate PhaseValid(s: Server, c: Client, phase: Phase) {
    match phase
    case Idle => true
    case Passed(number) => number == Cursor(c)
    case Fetched(replica, more, read) =>
      && TokensValid(read)
      && Agrees(s, Received(c, phase, CurrentOf(read.cur, c.dom)))
      && (more == "" ==>
            && SinceRead(read, s, c.dom)
            && forall key :: LiveAtDevice(Received(c, phase, ""), key) == LiveAtServer(read.rows, c.dom, key))
  }

  ghost predicate Invariant(m: Moment) {
    Valid(m.base) && Agrees(m.base, m.client) && PendingValid(m) && PhaseValid(m.base, m.client, m.phase)
  }

  /** Steps of the server keep what the rows on the side are worth. */
  lemma ServerStepKeepsPhase(s: Server, c: Client, phase: Phase, a: Action)
    requires Valid(s) && PhaseValid(s, c, phase) && (a.Tick? || a.Push?)
    requires SyncConvergence.Enabled(World(s, c), a)
    ensures PhaseValid(SyncConvergence.Next(World(s, c), a).server, c, phase)
  {
    if phase.Fetched? {
      StepKeepsAgreement(World(s, Received(c, phase, CurrentOf(phase.read.cur, c.dom))), a);
      if phase.more == "" && a.Push? {
        PushKeepsSinceRead(phase.read, s, c.dom, a);
      }
    }
  }

  lemma PushKeepsSinceRead(read: Server, s: Server, dom: DomainId, a: Action)
    requires Valid(s) && SinceRead(read, s, dom) && a.Push?
    requires 0 <= a.now <= MAX_INT64 && CanPush(s, a.dom, a.items, a.now, a.hex)
    ensures SinceRead(read, PushStep(s, a.dom, a.items, a.now, a.hex, a.commits), dom)
  {
    var after := PushStep(s, a.dom, a.items, a.now, a.hex, a.commits);
    PushMarks(s, a.dom, a.items, a.now, a.hex, a.commits, dom);
    if dom == a.dom {
      assert Mark(s.cur, dom) <= Issued(s, dom) < Mark(after.cur, dom);
      assert SinceRead(read, s, dom) ==> Mark(read.cur, dom) <= Mark(s.cur, dom);
    } else {
      PushKeepsOtherDomain(s, a, dom);
    }
  }

  lemma PushKeepsOtherDomain(s: Server, a: Action, dom: DomainId)
    requires Valid(s) && a.Push? && dom != a.dom
    requires 0 <= a.now <= MAX_INT64 && CanPush(s, a.dom, a.items, a.now, a.hex)
    ensures var after := PushStep(s, a.dom, a.items, a.now, a.hex, a.commits);
            SameRows(s, after, dom) && CurrentOf(after.cur, dom) == CurrentOf(s.cur, dom)
  {
    var after := PushStep(s, a.dom, a.items, a.now, a.hex, a.commits);
    forall key ensures LiveAtServer(s.rows, dom, key) == LiveAtServer(after.rows, dom, key) {
      OtherDomainsUntouched(s, a.dom, a.items, a.now, a.hex, a.commits, EntryId(dom, key));
    }
    OtherDomainsUntouched(s, a.dom, a.items, a.now, a.hex, a.commits, EntryId(dom, ""));
  }

  /** Reading the rows under a gate that is still open is as good as an undivided pull of that moment. */
  lemma RowsKeepPhase(s: Server, c: Client, number: int, limit: nat, found: seq<EntryId>, hex: string)
    requires Valid(s) && Agrees(s, c) && number == Cursor(c) && limit >= 1 && |hex| == 6
    requires FirstBy(Newer(s.rows, c.dom, number), limit + 1, found) && SyncModel.Gate(c.since, s.clock).Some?
    ensures PhaseValid(s, c, Fetch(s, c, limit, found, hex))
  {
    var phase := Fetch(s, c, limit, found, hex);
    ReceivedIsPulled(s, c, limit, found, hex);
    PullKeepsAgreement(s, c, limit, found, hex);
    if phase.more == "" {
      MintedIsNotEmpty(s, c, limit, found, hex);
      forall key ensures LiveAtDevice(Received(c, phase, ""), key) == LiveAtServer(s.rows, c.dom, key) {
        CompletePullConverges(World(s, c), limit, found, hex, key);
      }
    }
  }

  lemma ReceivedIsPulled(s: Server, c: Client, limit: nat, found: seq<EntryId>, hex: string)
    requires Valid(s) && CursorValid(s, c) && limit >= 1 && |hex| == 6
    requires FirstBy(Newer(s.rows, c.dom, Cursor(c)), limit + 1, found) && SyncModel.Gate(c.since, s.clock).Some?
    ensures CanPull(s, c, limit, found, hex) && PullReply(s, c, limit, found, hex).Some?
    ensures PullReply(s, c, limit, found, hex).value.hasMore <==> |found| > limit
    ensures PullStep(s, c, limit, found, hex)
         == Received(c, Fetch(s, c, limit, found, hex), CurrentOf(s.cur, c.dom))
  {
    GateGivesCursor(s, c, s.clock);
    MintedIsNotEmpty(s, c, limit, found, hex);
  }

  lemma MintedIsNotEmpty(s: Server, c: Client, limit: nat, found: seq<EntryId>, hex: string)
    requires limit >= 1 && forall i :: 0 <= i < |found| ==> found[i] in s.rows
    ensures Fetch(s, c, limit, found, hex).more == "" <==> |found| <= limit
  {
  }

  /** With nothing under way in the domain, the token in memory is the base's; a push under way moved it. */
  lemma VisibleToken(m: Moment)
    requires Valid(m.base) && PendingValid(m)
    ensures var dom := m.client.dom;
            if m.pending.Some? && m.pending.value.dom == dom
            then Mark(Visible(m).cur, dom) > Mark(m.base.cur, dom)
            else CurrentOf(Visible(m).cur, dom) == CurrentOf(m.base.cur, dom)
  {
    if m.pending.Some? {
      var p := m.pending.value;
      PushMarks(m.base, p.dom, p.items, p.now, p.hex, false, m.client.dom);
      if p.dom != m.client.dom {
        OtherDomainsUntouched(m.base, p.dom, p.items, p.now, p.hex, false, EntryId(m.client.dom, ""));
      }
    }
  }

  lemma SameTokenSameMark(a: Server, b: Server, dom: DomainId)
    requires TokensValid(a) && TokensValid(b) && CurrentOf(a.cur, dom) == CurrentOf(b.cur, dom)
    ensures Mark(a.cur, dom) == Mark(b.cur, dom)
  {
    assert TokenKey(dom) in a.cur <==> TokenKey(dom) in b.cur;
  }

  lemma VisibleIsValid(m: Moment)
    requires Valid(m.base) && PendingValid(m)
    ensures Valid(Visible(m)) && Visible(m).rows == m.base.rows
  {
    if m.pending.Some? {
      var p := m.pending.value;
      PushKeepsValid(m.base, p.dom, p.items, p.now, p.hex, false);
    }
  }

  /** If the token is the one that the rows were read under, the rows are what they were then. */
  lemma SameTokenSameRows(m: Moment)
    requires Invariant(m) && m.phase.Fetched? && m.phase.more == ""
    requires CurrentOf(Visible(m).cur, m.client.dom) == CurrentOf(m.phase.read.cur, m.client.dom)
    ensures SameRows(m.phase.read, m.base, m.client.dom)
  {
    var dom, read := m.client.dom, m.phase.read;
    VisibleIsValid(m);
    VisibleToken(m);
    SameTokenSameMark(Visible(m), read, dom);
    if CurrentOf(m.base.cur, dom) == CurrentOf(read.cur, dom) {
      SameTokenSameMark(m.base, read, dom);
    }
  }

  lemma TickKeepsInvariant(m: Moment, time: int)
    requires Invariant(m) && m.base.clock <= time <= MAX_INT64
    ensures Invariant(m.(base := m.base.(clock := time)))
  {
    var a := Action.Tick(time);
    StepKeepsServerValid(World(m.base, m.client), a);
    StepKeepsAgreement(World(m.base, m.client), a);
    ServerStepKeepsPhase(m.base, m.client, m.phase, a);
  }

  lemma FinishKeepsInvariant(m: Moment, commits: bool)
    requires Invariant(m) && m.pending.Some?
    ensures Invariant(m.(base := PushOf(m.base, m.pending.value, commits), pending := None))
  {
    var p := m.pending.value;
    var a := Action.Push(p.dom, p.items, p.now, p.hex, commits);
    StepKeepsServerValid(World(m.base, m.client), a);
    StepKeepsAgreement(World(m.base, m.client), a);
    ServerStepKeepsPhase(m.base, m.client, m.phase, a);
  }

  lemma RestartKeepsInvariant(m: Moment, stored: seq<StoredToken>)
    requires Invariant(m) && CanRestart(Visible(m), stored)
    ensures Invariant(Moment(RestartStep(Visible(m), stored), None, m.client, Idle))
  {
    VisibleIsValid(m);
    if m.pending.Some? {
      var p := m.pending.value;
      PushKeepsAgreement(m.base, m.client, p.dom, p.items, p.now, p.hex, false);
    }
    RestartKeepsValid(Visible(m), stored);
    RestartKeepsAgreement(Visible(m), m.client, stored);
  }

  lemma GateKeepsInvariant(m: Moment, now: int)
    requires Invariant(m) && Enabled(m, Gate(now))
    ensures Invariant(Next(m, Gate(now)))
  {
    if SyncModel.Gate(m.client.since, now).Some? {
      GateGivesCursor(m.base, m.client, now);
    } else {
      NewDeviceAgrees(m.base, m.client.dom);
    }
  }

  /** Every step that overlaps nothing harmful keeps server and device in order. */
  lemma StepKeepsInvariant(m: Moment, e: Event)
    requires Invariant(m) && Enabled(m, e) && Undisturbed(m, e)
    ensures Invariant(Next(m, e))
  {
    match e
    case Tick(time) =>
      TickKeepsInvariant(m, time);
    case Reserve(p) =>
    case Finish(commits) =>
      FinishKeepsInvariant(m, commits);
    case Restart(stored) =>
      RestartKeepsInvariant(m, stored);
    case Gate(now) =>
      GateKeepsInvariant(m, now);
    case Rows(limit, found, hex) =>
      VisibleIsValid(m);
      RowsKeepPhase(m.base, m.client, m.phase.number, limit, found, hex);
    case Token =>
    case Fail =>
  }

  lemma {:induction false} RunKeepsInvariant(m: Moment, events: seq<Event>)
    requires Invariant(m) && IsRun(m, events) && UndisturbedRun(m, events)
    ensures Invariant(After(m, events))
    decreases |events|
  {
    if events != [] {
      StepKeepsInvariant(m, events[0]);
      RunKeepsInvariant(Next(m, events[0]), events[1..]);
    }
  }

  /** A valid server, no push under way, and a device that starts with nothing. */
  ghost predicate Begins(m: Moment) {
    Valid(m.base) && m.pending.None? && m.client == NewDevice(m.client.dom) && m.phase.Idle?
  }

  /**
   * Convergence with divided pushes and pulls: over every run in which the gate would still be passed when
   * rows are read, and in which the token of a complete page is the one that its rows were read under, the
   * device shows exactly the server's live entries of its domain when a pull without a further page ends.
   */
  lemma DividedConvergence(m: Moment, events: seq<Event>)
    requires Begins(m) && IsRun(m, events) && UndisturbedRun(m, events)
    requires var end := After(m, events);
             Enabled(end, Token) && end.phase.more == "" && Undisturbed(end, Token)
    ensures var end := After(m, events);
            forall key :: LiveAtDevice(Next(end, Token).client, key)
                          == LiveAtServer(end.base.rows, end.client.dom, key)
  {
    NewDeviceAgrees(m.base, m.client.dom);
    RunKeepsInvariant(m, events);
    SameTokenSameRows(After(m, events));
  }

  // ----- what a disturbed step does -----

  /** The server when the push that is under way, if there is one, has ended. */
  function Finished(m: Moment, commits: bool): Server
    requires m.pending.Some? ==> 0 <= m.pending.value.now <= MAX_INT64
  {
    if m.pending.Some? then PushOf(m.base, m.pending.value, commits) else m.base
  }

  /**
   * Whatever token ends a complete pull, and however the push under way ends: the copy has every row up to its
   * cursor exactly when it has those between the watermark that the rows were read under and the cursor.
   */
  lemma TokenStepExact(m: Moment, commits: bool)
    requires Invariant(m) && Enabled(m, Token) && m.phase.more == ""
    ensures var s, c, read := Finished(m, commits), Next(m, Token).client, m.phase.read;
            SeenRowsAgree(s, c) <==> HasRowsPast(Mark(read.cur, c.dom), s, c)
  {
    var s, c, read := Finished(m, commits), Next(m, Token).client, m.phase.read;
    if m.pending.Some? {
      FinishKeepsInvariant(m, commits);
    }
    var before := Received(m.client, m.phase, CurrentOf(read.cur, c.dom));
    LostIffDisagrees(s, c);
    LostIffDisagrees(s, before);
    assert Agrees(s, before);
    assert CurrentOf(read.cur, c.dom) != "" ==> Cursor(before) == Mark(read.cur, c.dom);
  }

  /** With a further page no token from memory is used: the pull ends in agreement, whatever is under way. */
  lemma FullPageIsHarmless(m: Moment, commits: bool)
    requires Invariant(m) && Enabled(m, Token) && m.phase.more != ""
    ensures Agrees(Finished(m, commits), Next(m, Token).client)
  {
    if m.pending.Some? {
      FinishKeepsInvariant(m, commits);
    }
  }

  /** A page says nothing about a key without a row. */
  lemma GoneKeyOnTheSide(s: Server, c: Client, limit: nat, found: seq<EntryId>, hex: string, key: string)
    requires limit >= 1 && FirstBy(Newer(s.rows, c.dom, Cursor(c)), limit + 1, found)
    requires EntryId(c.dom, key) !in s.rows
    ensures NotLive(Received(c, Fetch(s, c, limit, found, hex), ""), key) <==> NotLive(c, key)
  {
    ApplyAt(c.replica, s.rows, PageOf(found, limit), c.dom, key);
  }

  /**
   * Rows read under a gate that may have closed since: no key without a row is live on the side exactly when
   * none was live in the copy.
   */
  lemma RowsStepExact(s: Server, c: Client, limit: nat, found: seq<EntryId>, hex: string)
    requires limit >= 1 && FirstBy(Newer(s.rows, c.dom, Cursor(c)), limit + 1, found)
    ensures NothingGoneLives(s, Received(c, Fetch(s, c, limit, found, hex), "")) <==> NothingGoneLives(s, c)
  {
    forall key | EntryId(c.dom, key) !in s.rows
      ensures NotLive(Received(c, Fetch(s, c, limit, found, hex), ""), key) <==> NotLive(c, key)
    {
      GoneKeyOnTheSide(s, c, limit, found, hex, key);
    }
  }

  // ----- undivided pushes and pulls -----

  /** A push with nothing in between is the undivided push. */
  lemma UndividedPushIsPush(m: Moment, p: Pending, commits: bool)
    requires m.pending.None? && Enabled(m, Reserve(p))
    ensures Enabled(Next(m, Reserve(p)), Finish(commits))
    ensures Next(Next(m, Reserve(p)), Finish(commits))
         == m.(base := PushStep(m.base, p.dom, p.items, p.now, p.hex, commits))
    ensures Visible(Next(m, Reserve(p))) == PushStep(m.base, p.dom, p.items, p.now, p.hex, false)
  {
  }

  /** A pull with nothing in between is the undivided pull: refused at the gate, or in three steps. */
  lemma UndividedPullIsRefused(m: Moment, limit: nat, found: seq<EntryId>, hex: string)
    requires m.phase.Idle? && CanPull(m.base, m.client, limit, found, hex)
    requires m.pending.Some? ==> 0 <= m.pending.value.now <= MAX_INT64
    requires PullReply(m.base, m.client, limit, found, hex).None?
    ensures Enabled(m, Gate(m.base.clock))
    ensures Next(m, Gate(m.base.clock)) == m.(client := PullStep(m.base, m.client, limit, found, hex))
  {
  }

  lemma UndividedPullPasses(m: Moment, limit: nat, found: seq<EntryId>, hex: string)
    requires CursorValid(m.base, m.client) && m.pending.None? && m.phase.Idle?
    requires CanPull(m.base, m.client, limit, found, hex) && PullReply(m.base, m.client, limit, found, hex).Some?
    ensures Enabled(m, Gate(m.base.clock))
    ensures Next(m, Gate(m.base.clock)) == m.(phase := Passed(Cursor(m.client)))
    ensures Enabled(m.(phase := Passed(Cursor(m.client))), Rows(limit, found, hex))
    ensures Next(m.(phase := Passed(Cursor(m.client))), Rows(limit, found, hex))
         == m.(phase := Fetch(m.base, m.client, limit, found, hex))
  {
    GateGivesCursor(m.base, m.client, m.base.clock);
  }

  lemma UndividedPullIsPull(m: Moment, limit: nat, found: seq<EntryId>, hex: string)
    requires Valid(m.base) && CursorValid(m.base, m.client) && m.pending.None? && m.phase.Idle?
    requires CanPull(m.base, m.client, limit, found, hex) && PullReply(m.base, m.client, limit, found, hex).Some?
    ensures var fetched := m.(phase := Fetch(m.base, m.client, limit, found, hex));
            && Enabled(fetched, Token)
            && Next(fetched, Token) == m.(client := PullStep(m.base, m.client, limit, found, hex))
  {
    GateGivesCursor(m.base, m.client, m.base.clock);
    ReceivedIsPulled(m.base, m.client, limit, found, hex);
  }
}
