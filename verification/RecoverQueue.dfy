/**
 * The recovery queue: queries enqueue jobs, a job becomes a worker, and the worker tries the sources in
 * order and writes the verdict. Queries and workers run interleaved, one atomic step at a time.
 */
module RecoverQueue {
  import opened Basics
  import opened Decimal

  datatype JobId = JobId(account: int, pid: string)

  /** The key of a job in the in-flight set. */
  function JobKey(job: JobId): string {
    FormatInt(job.account) + "/" + job.pid
  }

  lemma JobKeyInjective(a: JobId, b: JobId)
    requires JobKey(a) == JobKey(b)
    ensures a == b
  {
    NumberedTextInjective(a.account, b.account, '/', a.pid, b.pid);
  }

  type Pages = seq<string>

  datatype Status = Ready | Fetching | NotFound

  /** A row of recover_cache; source is the position of the source in the priority list. */
  datatype Row = Row(pages: Pages, source: Option<nat>, status: Status, expire: int)

  type Rows = map<JobId, Row>

  /** Milliseconds until a fetching row expires. */
  const GUARD: int := 15 * 60 * 1000

  // ----- trying the sources -----

  /** What a worker found out: the pages of source i, or that no source has the work. */
  datatype Verdict = Found(pages: Pages, source: nat) | Nowhere

  /** The first success among the answers of the sources, in priority order. */
  function VerdictOf(answers: seq<Option<Pages>>): Verdict {
    if answers == [] then Nowhere
    else
      var v := VerdictOf(answers[..|answers| - 1]);
      var last := answers[|answers| - 1];
      if v.Nowhere? && last.Some? then Found(last.value, |answers| - 1) else v
  }

  lemma {:induction false} VerdictIsFirstSuccess(answers: seq<Option<Pages>>)
    ensures VerdictOf(answers) == Nowhere <==> forall i :: 0 <= i < |answers| ==> answers[i] == None
    ensures VerdictOf(answers).Found? ==>
              var n := VerdictOf(answers).source;
              && n < |answers| && answers[n] == Some(VerdictOf(answers).pages)
              && forall i :: 0 <= i < n ==> answers[i] == None
  {
    if answers != [] {
      VerdictIsFirstSuccess(answers[..|answers| - 1]);
    }
  }

  /** The loop over the sources stops at the first that succeeds. */
  method TrySources(answers: seq<Option<Pages>>) returns (v: Verdict)
    ensures v == Nowhere <==> forall i :: 0 <= i < |answers| ==> answers[i] == None
    ensures v.Found? ==>
              && v.source < |answers| && answers[v.source] == Some(v.pages)
              && forall i :: 0 <= i < v.source ==> answers[i] == None
    ensures v == VerdictOf(answers)
  {
    for i := 0 to |answers|
      invariant forall j :: 0 <= j < i ==> answers[j] == None
    {
      if answers[i].Some? {
        v := Found(answers[i].value, i);
        FirstSuccessIsVerdict(answers, i);
        return;
      }
    }
    VerdictIsFirstSuccess(answers);
    v := Nowhere;
  }

  lemma FirstSuccessIsVerdict(answers: seq<Option<Pages>>, n: nat)
    requires n < |answers| && answers[n].Some? && forall i :: 0 <= i < n ==> answers[i] == None
    ensures VerdictOf(answers) == Found(answers[n].value, n)
  {
    VerdictIsFirstSuccess(answers);
    var v := VerdictOf(answers);
    assert v.Found?;
    assert v.source == n;
  }

  // ----- the atomic steps on the shared state -----

  datatype Shared = Shared(rows: Rows, inflight: set<string>, held: nat, ttl: int, negTtl: int)

  /** The placeholder keeps the pages and the source of an older row. */
  function MarkFetching(rows: Rows, job: JobId, now: int): Rows {
    if job in rows then rows[job := rows[job].(status := Fetching, expire := now + GUARD)]
    else rows[job := Row([], None, Fetching, now + GUARD)]
  }

  function WriteVerdict(s: Shared, job: JobId, v: Verdict, now: int): Rows {
    match v
    case Found(pages, source) => s.rows[job := Row(pages, Some(source), Ready, now + s.ttl)]
    case Nowhere => s.rows[job := Row([], None, NotFound, now + s.negTtl)]
  }

  /** The answer to a query is a row that is not a placeholder and has not expired. */
  predicate Usable(row: Row, now: int) {
    row.status != Fetching && row.expire > now
  }

  /** Without sharing, only the account's own row counts; with it, ready rows come first, then the longest-lived. */
  ghost predicate IsLookup(rows: Rows, shared: bool, job: JobId, now: int, found: Option<JobId>) {
    match found
    case None =>
      forall other :: other in rows && other.pid == job.pid && (shared || other == job) ==> !Usable(rows[other], now)
    case Some(hit) =>
      && hit in rows && hit.pid == job.pid && (shared || hit == job) && Usable(rows[hit], now)
      && (shared ==> forall other :: other in rows && other.pid == job.pid && Usable(rows[other], now) ==>
            (rows[hit].status == Ready && rows[other].status == NotFound)
            || (rows[hit].status == rows[other].status && rows[hit].expire >= rows[other].expire))
  }

  /** The queue object; every method is one critical section or one database statement. */
  class Queue {
    const capacity: nat
    var rows: Rows
    var inflight: set<string>
    var held: nat
    var ttl: int
    var negTtl: int

    function View(): Shared
      reads this
    {
      Shared(rows, inflight, held, ttl, negTtl)
    }

    constructor (rows: Rows, globalConcurrent: int, ttl: int, negTtl: int)
      ensures View() == Shared(rows, {}, 0, ttl, negTtl)
      ensures capacity == if globalConcurrent <= 0 then 8 else globalConcurrent
    {
      this.rows := rows;
      capacity := if globalConcurrent <= 0 then 8 else globalConcurrent;
      inflight, held := {}, 0;
      this.ttl, this.negTtl := ttl, negTtl;
    }

    method SetTTLs(ttl: int, negTtl: int)
      modifies this
      ensures View() == old(View()).(ttl := ttl, negTtl := negTtl)
    {
      this.ttl, this.negTtl := ttl, negTtl;
    }

    /** True for the one caller that may start a worker for this job. */
    method Reserve(job: JobId) returns (reserved: bool)
      modifies this
      ensures reserved <==> JobKey(job) !in old(inflight)
      ensures View() == old(View()).(inflight := old(inflight) + {JobKey(job)})
    {
      var key := JobKey(job);
      if key in inflight {
        assert inflight == inflight + {key};
        return false;
      }
      inflight := inflight + {key};
      reserved := true;
    }

    method Mark(job: JobId, now: int)
      modifies this
      ensures View() == old(View()).(rows := MarkFetching(old(rows), job, now))
    {
      if job in rows {
        rows := rows[job := rows[job].(status := Fetching, expire := now + GUARD)];
      } else {
        rows := rows[job := Row([], None, Fetching, now + GUARD)];
      }
    }

    /** The body of a worker that holds its slot: try the sources, then write what came out. */
    method RunJob(job: JobId, answers: seq<Option<Pages>>, now: int)
      modifies this
      ensures View() == old(View()).(rows := WriteVerdict(old(View()), job, VerdictOf(answers), now))
    {
      var v := TrySources(answers);
      match v
      case Found(pages, source) =>
        rows := rows[job := Row(pages, Some(source), Ready, now + ttl)];
      case Nowhere =>
        rows := rows[job := Row([], None, NotFound, now + negTtl)];
    }
  }

  // ----- the interleaving of queries and workers -----

  datatype Pc = Query | Enqueue | Placeholder | Acquire | Trying | Writing | Release | Unreserve | End

  /** A request, and the worker it may turn into; tried holds the answers of the sources so far. */
  datatype Proc = Proc(job: JobId, pc: Pc, tried: seq<Option<Pages>>)

  datatype State = State(procs: seq<Proc>, shared: Shared)

  datatype Config = Config(capacity: nat, sources: nat, sharedCache: bool)

  /** A step of process i at a time, with the answer of a source and the answer of a lookup. */
  datatype Move = Step(i: nat, now: int, answer: Option<Pages>, found: Option<JobId>) | SetTTLs(ttl: int, negTtl: int)

  ghost predicate CanMove(s: State, cfg: Config, m: Move) {
    match m
    case SetTTLs(_, _) => true
    case Step(i, now, answer, found) =>
      && i < |s.procs|
      && match s.procs[i].pc
         case Query => IsLookup(s.shared.rows, cfg.sharedCache, s.procs[i].job, now, found)
         case Acquire => s.shared.held < cfg.capacity
         case Release => s.shared.held > 0
         case End => false
         case _ => true
  }

  function NextProc(s: State, cfg: Config, i: nat, answer: Option<Pages>, found: Option<JobId>): Proc
    requires i < |s.procs|
  {
    var p := s.procs[i];
    match p.pc
    case Query => p.(pc := if found.Some? then End else Enqueue)
    case Enqueue => p.(pc := if JobKey(p.job) in s.shared.inflight then End else Placeholder)
    case Placeholder => p.(pc := Acquire)
    case Acquire => p.(pc := Trying, tried := [])
    case Trying =>
      if |p.tried| >= cfg.sources then p.(pc := Writing)
      else p.(tried := p.tried + [answer], pc := if answer.Some? then Writing else Trying)
    case Writing => p.(pc := Release)
    case Release => p.(pc := Unreserve)
    case Unreserve => p.(pc := End)
    case End => p
  }

  function NextShared(s: State, i: nat, now: int): Shared
    requires i < |s.procs| && (s.procs[i].pc == Release ==> s.shared.held > 0)
  {
    var p, sh := s.procs[i], s.shared;
    match p.pc
    case Enqueue => sh.(inflight := sh.inflight + {JobKey(p.job)})
    case Placeholder => sh.(rows := MarkFetching(sh.rows, p.job, now))
    case Acquire => sh.(held := sh.held + 1)
    case Writing => sh.(rows := WriteVerdict(sh, p.job, VerdictOf(p.tried), now))
    case Release => sh.(held := sh.held - 1)
    case Unreserve => sh.(inflight := sh.inflight - {JobKey(p.job)})
    case _ => sh
  }

  ghost function Next(s: State, cfg: Config, m: Move): State
    requires CanMove(s, cfg, m)
  {
    match m
    case SetTTLs(ttl, negTtl) => s.(shared := s.shared.(ttl := ttl, negTtl := negTtl))
    case Step(i, now, answer, found) =>
      State(s.procs[i := NextProc(s, cfg, i, answer, found)], NextShared(s, i, now))
  }

  // ----- what every interleaving keeps -----

  predicate Active(p: Proc) {
    p.pc != Query && p.pc != Enqueue && p.pc != End
  }

  predicate Holding(p: Proc) {
    p.pc == Trying || p.pc == Writing || p.pc == Release
  }

  function CountHolding(procs: seq<Proc>): nat {
    if procs == [] then 0 else CountHolding(procs[..|procs| - 1]) + if Holding(procs[|procs| - 1]) then 1 else 0
  }

  /** Each job has at most one worker. */
  ghost predicate OneWorkerPerJob(s: State) {
    forall i, j :: 0 <= i < j < |s.procs| && Active(s.procs[i]) && Active(s.procs[j]) ==>
      s.procs[i].job != s.procs[j].job
  }

  ghost predicate WorkersInFlight(s: State) {
    forall i :: 0 <= i < |s.procs| && Active(s.procs[i]) ==> JobKey(s.procs[i].job) in s.shared.inflight
  }

  ghost predicate InFlightHasWorker(s: State) {
    forall k :: k in s.shared.inflight ==> exists i :: 0 <= i < |s.procs| && WorksOn(s.procs[i], k)
  }

  predicate WorksOn(p: Proc, key: string) {
    Active(p) && JobKey(p.job) == key
  }

  ghost predicate SlotsCounted(s: State, cfg: Config) {
    s.shared.held == CountHolding(s.procs) <= cfg.capacity
  }

  /** A fetching row belongs to a job in flight. */
  ghost predicate FetchingInFlight(s: State) {
    forall job :: job in s.shared.rows && s.shared.rows[job].status == Fetching ==> JobKey(job) in s.shared.inflight
  }

  /** The answers a worker has: all failures so far, or it is done asking. */
  ghost predicate TriedValid(p: Proc, cfg: Config) {
    match p.pc
    case Trying => |p.tried| <= cfg.sources && forall i :: 0 <= i < |p.tried| ==> p.tried[i] == None
    case Writing => FinishedAsking(p.tried, cfg)
    case Release => FinishedAsking(p.tried, cfg)
    case Unreserve => FinishedAsking(p.tried, cfg)
    case _ => true
  }

  /** Every source was asked and failed, or the last one asked was the first to succeed. */
  ghost predicate FinishedAsking(tried: seq<Option<Pages>>, cfg: Config) {
    && |tried| <= cfg.sources
    && (forall i :: 0 <= i < |tried| - 1 ==> tried[i] == None)
    && (|tried| == cfg.sources || (tried != [] && tried[|tried| - 1].Some?))
  }

  /** The row says what the worker found. */
  predicate RowShows(rows: Rows, job: JobId, v: Verdict) {
    && job in rows
    && match v
       case Found(pages, source) =>
         rows[job].status == Ready && rows[job].pages == pages && rows[job].source == Some(source)
       case Nowhere => rows[job].status == NotFound && rows[job].pages == [] && rows[job].source == None
  }

  ghost predicate ResultsStand(s: State) {
    forall i :: 0 <= i < |s.procs| && (s.procs[i].pc == Release || s.procs[i].pc == Unreserve) ==>
      RowShows(s.shared.rows, s.procs[i].job, VerdictOf(s.procs[i].tried))
  }

  ghost predicate Valid(s: State, cfg: Config) {
    && OneWorkerPerJob(s) && WorkersInFlight(s) && InFlightHasWorker(s)
    && SlotsCounted(s, cfg) && FetchingInFlight(s) && ResultsStand(s)
    && forall i :: 0 <= i < |s.procs| ==> TriedValid(s.procs[i], cfg)
  }

  ghost predicate Initial(s: State) {
    && s.shared.inflight == {} && s.shared.held == 0
    && (forall job :: job in s.shared.rows ==> s.shared.rows[job].status != Fetching)
    && (forall i :: 0 <= i < |s.procs| ==> s.procs[i].pc == Query)
  }

  lemma {:induction false} NobodyHolds(procs: seq<Proc>)
    requires forall i :: 0 <= i < |procs| ==> procs[i].pc == Query
    ensures CountHolding(procs) == 0
  {
    if procs != [] {
      NobodyHolds(procs[..|procs| - 1]);
    }
  }

  lemma InitialIsValid(s: State, cfg: Config)
    requires Initial(s)
    ensures Valid(s, cfg)
  {
    NobodyHolds(s.procs);
  }

  lemma {:induction false} CountHoldingUpdate(procs: seq<Proc>, i: nat, p: Proc)
    requires i < |procs|
    ensures CountHolding(procs[i := p])
         == CountHolding(procs) - (if Holding(procs[i]) then 1 else 0) + (if Holding(p) then 1 else 0)
  {
    var n := |procs| - 1;
    if i == n {
      assert procs[i := p][..n] == procs[..n];
    } else {
      CountHoldingUpdate(procs[..n], i, p);
      assert procs[i := p][..n] == procs[..n][i := p];
    }
  }

  lemma StepKeepsSlots(s: State, cfg: Config, m: Move)
    requires Valid(s, cfg) && CanMove(s, cfg, m)
    ensures SlotsCounted(Next(s, cfg, m), cfg)
  {
    if m.Step? {
      CountHoldingUpdate(s.procs, m.i, NextProc(s, cfg, m.i, m.answer, m.found));
    }
  }

  /** Two workers of one job cannot meet: the second would have found the key in flight. */
  lemma StepKeepsOneWorker(s: State, cfg: Config, m: Move)
    requires Valid(s, cfg) && CanMove(s, cfg, m)
    ensures OneWorkerPerJob(Next(s, cfg, m))
  {
    if m.Step? {
      var p := s.procs[m.i];
      var after := NextProc(s, cfg, m.i, m.answer, m.found);
      forall j | 0 <= j < |s.procs| && j != m.i && Active(s.procs[j]) && Active(after)
        ensures s.procs[j].job != p.job
      {
        assert JobKey(s.procs[j].job) in s.shared.inflight;
      }
    }
  }

  lemma StepKeepsWorkersInFlight(s: State, cfg: Config, m: Move)
    requires Valid(s, cfg) && CanMove(s, cfg, m)
    ensures WorkersInFlight(Next(s, cfg, m))
  {
    if m.Step? && s.procs[m.i].pc == Unreserve {
      forall j | 0 <= j < |s.procs| && j != m.i && Active(s.procs[j])
        ensures JobKey(s.procs[j].job) != JobKey(s.procs[m.i].job)
      {
        if JobKey(s.procs[j].job) == JobKey(s.procs[m.i].job) {
          JobKeyInjective(s.procs[j].job, s.procs[m.i].job);
        }
      }
    }
  }

  lemma StepKeepsInFlightHasWorker(s: State, cfg: Config, m: Move)
    requires Valid(s, cfg) && CanMove(s, cfg, m)
    ensures InFlightHasWorker(Next(s, cfg, m))
  {
    var after := Next(s, cfg, m);
    forall k | k in after.shared.inflight
      ensures exists i :: 0 <= i < |after.procs| && WorksOn(after.procs[i], k)
    {
      if k in s.shared.inflight {
        var i :| 0 <= i < |s.procs| && WorksOn(s.procs[i], k);
        assert WorksOn(after.procs[i], k);
      } else {
        assert WorksOn(after.procs[m.i], k);
      }
    }
  }

  lemma StepKeepsFetchingInFlight(s: State, cfg: Config, m: Move)
    requires Valid(s, cfg) && CanMove(s, cfg, m)
    ensures FetchingInFlight(Next(s, cfg, m))
  {
    if m.Step? {
      var p, after := s.procs[m.i], Next(s, cfg, m);
      forall job | job in after.shared.rows && after.shared.rows[job].status == Fetching
        ensures JobKey(job) in after.shared.inflight
      {
        if p.pc == Unreserve && JobKey(job) == JobKey(p.job) {
          JobKeyInjective(job, p.job);
        }
      }
    }
  }

  /** Only the worker of a job writes its row. */
  lemma StepLeavesOtherRows(s: State, cfg: Config, m: Move, job: JobId)
    requires CanMove(s, cfg, m)
    requires m.Step? ==> s.procs[m.i].job != job || (s.procs[m.i].pc != Placeholder && s.procs[m.i].pc != Writing)
    ensures var rows := Next(s, cfg, m).shared.rows;
            (job in rows <==> job in s.shared.rows) && (job in rows ==> rows[job] == s.shared.rows[job])
  {
  }

  lemma StepKeepsResults(s: State, cfg: Config, m: Move)
    requires Valid(s, cfg) && CanMove(s, cfg, m)
    ensures ResultsStand(Next(s, cfg, m))
  {
    var after := Next(s, cfg, m);
    forall j | 0 <= j < |after.procs| && (after.procs[j].pc == Release || after.procs[j].pc == Unreserve)
      ensures RowShows(after.shared.rows, after.procs[j].job, VerdictOf(after.procs[j].tried))
    {
      if !(m.Step? && m.i == j && s.procs[j].pc == Writing) {
        StepLeavesOtherRows(s, cfg, m, s.procs[j].job);
      }
    }
  }

  lemma StepKeepsTried(s: State, cfg: Config, m: Move)
    requires Valid(s, cfg) && CanMove(s, cfg, m)
    ensures forall i :: 0 <= i < |s.procs| ==> TriedValid(Next(s, cfg, m).procs[i], cfg)
  {
    if m.Step? {
      StepKeepsOwnTried(s, cfg, m.i, m.answer, m.found);
      forall i | 0 <= i < |s.procs| && i != m.i ensures TriedValid(Next(s, cfg, m).procs[i], cfg) {
        assert Next(s, cfg, m).procs[i] == s.procs[i];
      }
    }
  }

  lemma StepKeepsOwnTried(s: State, cfg: Config, i: nat, answer: Option<Pages>, found: Option<JobId>)
    requires i < |s.procs| && TriedValid(s.procs[i], cfg)
    ensures TriedValid(NextProc(s, cfg, i, answer, found), cfg)
  {
  }

  lemma StepKeepsValid(s: State, cfg: Config, m: Move)
    requires Valid(s, cfg) && CanMove(s, cfg, m)
    ensures Valid(Next(s, cfg, m), cfg)
  {
    StepKeepsOneWorker(s, cfg, m);
    StepKeepsWorkersInFlight(s, cfg, m);
    StepKeepsInFlightHasWorker(s, cfg, m);
    StepKeepsSlots(s, cfg, m);
    StepKeepsFetchingInFlight(s, cfg, m);
    StepKeepsResults(s, cfg, m);
    StepKeepsTried(s, cfg, m);
  }

  // ----- runs -----

  ghost predicate IsRun(s: State, cfg: Config, moves: seq<Move>)
    decreases |moves|
  {
    moves == [] || (CanMove(s, cfg, moves[0]) && IsRun(Next(s, cfg, moves[0]), cfg, moves[1..]))
  }

  ghost function After(s: State, cfg: Config, moves: seq<Move>): State
    requires IsRun(s, cfg, moves)
    decreases |moves|
  {
    if moves == [] then s else After(Next(s, cfg, moves[0]), cfg, moves[1..])
  }

  lemma {:induction false} RunKeepsValid(s: State, cfg: Config, moves: seq<Move>)
    requires Valid(s, cfg) && IsRun(s, cfg, moves)
    ensures Valid(After(s, cfg, moves), cfg)
    decreases |moves|
  {
    if moves != [] {
      StepKeepsValid(s, cfg, moves[0]);
      RunKeepsValid(Next(s, cfg, moves[0]), cfg, moves[1..]);
    }
  }

  /**
   * In every interleaving a worker that has written leaves the result of the first source that succeeds,
   * in priority order; it leaves not_found exactly when it asked every source and all of them failed.
   */
  lemma FinishedWorkerResult(s: State, cfg: Config, moves: seq<Move>, i: nat)
    requires Initial(s) && IsRun(s, cfg, moves) && i < |After(s, cfg, moves).procs|
    requires var pc := After(s, cfg, moves).procs[i].pc; pc == Release || pc == Unreserve
    ensures var p, rows := After(s, cfg, moves).procs[i], After(s, cfg, moves).shared.rows;
            && p.job in rows
            && (rows[p.job].status == NotFound <==>
                  |p.tried| == cfg.sources && forall n :: 0 <= n < |p.tried| ==> p.tried[n] == None)
            && (rows[p.job].status == NotFound ==> rows[p.job].pages == [] && rows[p.job].source == None)
            && (rows[p.job].status == Ready <==>
                  exists n: nat :: n < |p.tried| && p.tried[n].Some?)
            && (rows[p.job].status == Ready ==>
                  && rows[p.job].source.Some? && rows[p.job].source.value < |p.tried|
                  && p.tried[rows[p.job].source.value] == Some(rows[p.job].pages)
                  && forall n :: 0 <= n < rows[p.job].source.value ==> p.tried[n] == None)
  {
    InitialIsValid(s, cfg);
    RunKeepsValid(s, cfg, moves);
    var p := After(s, cfg, moves).procs[i];
    assert TriedValid(p, cfg);
    VerdictIsFirstSuccess(p.tried);
  }

  /** In every interleaving: one worker a job, the slots within capacity, no orphaned fetching row. */
  lemma QueueIsSafe(s: State, cfg: Config, moves: seq<Move>)
    requires Initial(s) && IsRun(s, cfg, moves)
    ensures var end := After(s, cfg, moves);
            OneWorkerPerJob(end) && SlotsCounted(end, cfg) && FetchingInFlight(end)
  {
    InitialIsValid(s, cfg);
    RunKeepsValid(s, cfg, moves);
  }

  /** A row changes only in a step of its job's worker, whatever the other processes do. */
  lemma OnlyItsWorkerWritesRow(s: State, cfg: Config, m: Move, job: JobId)
    requires Valid(s, cfg) && CanMove(s, cfg, m)
    requires job in Next(s, cfg, m).shared.rows
    requires job !in s.shared.rows || Next(s, cfg, m).shared.rows[job] != s.shared.rows[job]
    ensures m.Step? && s.procs[m.i].job == job && Active(s.procs[m.i]) && JobKey(job) in s.shared.inflight
    ensures forall j :: 0 <= j < |s.procs| && j != m.i && Active(s.procs[j]) ==> s.procs[j].job != job
  {
    if m.Step? && s.procs[m.i].job == job && (s.procs[m.i].pc == Placeholder || s.procs[m.i].pc == Writing) {
      assert Active(s.procs[m.i]);
    } else {
      StepLeavesOtherRows(s, cfg, m, job);
    }
  }

  predicate ReadyUntil(rows: Rows, pid: string, now: int, job: JobId) {
    job in rows && job.pid == pid && rows[job].status == Ready && rows[job].expire > now
  }

  predicate NotFoundUntil(rows: Rows, pid: string, now: int, job: JobId) {
    job in rows && job.pid == pid && rows[job].status == NotFound && rows[job].expire > now
  }

  /**
   * With sharing, a ready row of any account answers, the longest-lived of them; only where there is none does
   * a not_found row, the longest-lived again; and there is no answer only where there is neither.
   */
  lemma SharedLookupExact(rows: Rows, job: JobId, now: int, found: Option<JobId>)
    ensures IsLookup(rows, true, job, now, found) <==>
              if exists other :: ReadyUntil(rows, job.pid, now, other) then
                && found.Some? && ReadyUntil(rows, job.pid, now, found.value)
                && forall other :: ReadyUntil(rows, job.pid, now, other) ==>
                     rows[other].expire <= rows[found.value].expire
              else if exists other :: NotFoundUntil(rows, job.pid, now, other) then
                && found.Some? && NotFoundUntil(rows, job.pid, now, found.value)
                && forall other :: NotFoundUntil(rows, job.pid, now, other) ==>
                     rows[other].expire <= rows[found.value].expire
              else found == None
  {
    forall other | other in rows && other.pid == job.pid
      ensures Usable(rows[other], now) <==>
                ReadyUntil(rows, job.pid, now, other) || NotFoundUntil(rows, job.pid, now, other)
    {
    }
  }

  /** Without sharing, only the account's own row counts. */
  lemma OwnLookupExact(rows: Rows, job: JobId, now: int, found: Option<JobId>)
    ensures IsLookup(rows, false, job, now, found) <==>
              found == if ReadyUntil(rows, job.pid, now, job) || NotFoundUntil(rows, job.pid, now, job)
                       then Some(job) else None
  {
  }

  /** The account's own lookup finds a verdict exactly until the time to live of its kind is over. */
  lemma VerdictAnswersUntilExpiry(s: Shared, job: JobId, v: Verdict, now: int, at: int, found: Option<JobId>)
    requires IsLookup(WriteVerdict(s, job, v, now), false, job, at, found)
    ensures found == Some(job) <==> at < now + if v.Found? then s.ttl else s.negTtl
  {
    var rows := WriteVerdict(s, job, v, now);
    assert job in rows && rows[job].status != Fetching;
  }

  /** A row that is being fetched answers no lookup; marking it leaves every other row alone. */
  lemma PlaceholderNeverAnswers(
      rows: Rows, job: JobId, now: int, shared: bool, asked: JobId, at: int, found: Option<JobId>)
    requires IsLookup(MarkFetching(rows, job, now), shared, asked, at, found)
    ensures found != Some(job)
    ensures var marked := MarkFetching(rows, job, now)[job];
            && marked.status == Fetching && marked.expire == now + 900_000
            && marked.pages == (if job in rows then rows[job].pages else [])
            && marked.source == (if job in rows then rows[job].source else None)
    ensures forall other :: other in rows && other != job ==> MarkFetching(rows, job, now)[other] == rows[other]
  {
  }

  // ----- when a result that is there is fetched again -----

  lemma {:induction false} RunPrefix(s: State, cfg: Config, moves: seq<Move>, k: nat)
    requires IsRun(s, cfg, moves) && k <= |moves|
    ensures IsRun(s, cfg, moves[..k])
    ensures IsRun(After(s, cfg, moves[..k]), cfg, moves[k..])
    ensures After(s, cfg, moves) == After(After(s, cfg, moves[..k]), cfg, moves[k..])
    decreases k
  {
    if k == 0 {
      assert moves[..0] == [] && moves[0..] == moves;
    } else {
      RunPrefix(Next(s, cfg, moves[0]), cfg, moves[1..], k - 1);
      assert moves[..k][1..] == moves[1..][..k - 1] && moves[1..][k - 1..] == moves[k..];
    }
  }

  /** The state before move k of a run. */
  ghost function At(s: State, cfg: Config, moves: seq<Move>, k: nat): State
    requires IsRun(s, cfg, moves) && k <= |moves|
  {
    RunPrefix(s, cfg, moves, k);
    After(s, cfg, moves[..k])
  }

  /** The last move of a run, and the run before it. */
  lemma LastMove(s: State, cfg: Config, moves: seq<Move>)
    requires IsRun(s, cfg, moves) && moves != []
    ensures var n := |moves| - 1;
            && IsRun(s, cfg, moves[..n])
            && CanMove(At(s, cfg, moves, n), cfg, moves[n])
            && After(s, cfg, moves) == Next(At(s, cfg, moves, n), cfg, moves[n])
            && forall k: nat :: k <= n ==> At(s, cfg, moves, k) == At(s, cfg, moves[..n], k)
  {
    var n := |moves| - 1;
    RunPrefix(s, cfg, moves, n);
    assert moves[n..] == [moves[n]] && moves[n..][1..] == [];
    forall k: nat | k <= n ensures At(s, cfg, moves, k) == At(s, cfg, moves[..n], k) {
      assert moves[..n][..k] == moves[..k];
    }
  }

  ghost predicate SameRow(a: Rows, b: Rows, job: JobId) {
    (job in a <==> job in b) && (job in a ==> a[job] == b[job])
  }

  /** Move k is the lookup of process i, which finds no row of the account that answers. */
  ghost predicate LooksInVain(s: State, cfg: Config, moves: seq<Move>, k: int, i: nat)
    requires IsRun(s, cfg, moves)
  {
    && 0 <= k < |moves| && moves[k].Step? && moves[k].i == i
    && i < |At(s, cfg, moves, k).procs|
    && var p, rows := At(s, cfg, moves, k).procs[i], At(s, cfg, moves, k).shared.rows;
       p.pc == Query && (p.job in rows ==> !Usable(rows[p.job], moves[k].now))
  }

  /** Move k puts the job of process i in flight. */
  ghost predicate Reserves(s: State, cfg: Config, moves: seq<Move>, k: int, i: nat)
    requires IsRun(s, cfg, moves)
  {
    && 0 <= k < |moves| && moves[k].Step? && moves[k].i == i
    && i < |At(s, cfg, moves, k).procs|
    && var p := At(s, cfg, moves, k).procs[i];
       p.pc == Enqueue && JobKey(p.job) !in At(s, cfg, moves, k).shared.inflight
  }

  /** A process that is about to enqueue has looked in vain. */
  lemma {:induction false} LookedBefore(s: State, cfg: Config, moves: seq<Move>, i: nat) returns (k: nat)
    requires Initial(s) && IsRun(s, cfg, moves) && i < |After(s, cfg, moves).procs|
    requires After(s, cfg, moves).procs[i].pc == Enqueue
    ensures LooksInVain(s, cfg, moves, k, i)
    decreases |moves|
  {
    assert moves != [];
    LastMove(s, cfg, moves);
    var n := |moves| - 1;
    if At(s, cfg, moves, n).procs[i].pc == Enqueue {
      assert At(s, cfg, moves, n) == After(s, cfg, moves[..n]);
      k := LookedBefore(s, cfg, moves[..n], i);
    } else {
      k := n;
    }
  }

  /** From a process's reservation to its mark nobody writes the row. */
  lemma NobodyElseWrites(s: State, cfg: Config, m: Move, i: nat)
    requires Valid(s, cfg) && CanMove(s, cfg, m) && i < |s.procs| && s.procs[i].pc == Placeholder
    requires !(m.Step? && m.i == i)
    ensures SameRow(s.shared.rows, Next(s, cfg, m).shared.rows, s.procs[i].job)
    ensures Next(s, cfg, m).procs[i] == s.procs[i]
  {
    if m.Step? && s.procs[m.i].job == s.procs[i].job {
      assert Active(s.procs[i]);
      assert !Active(s.procs[m.i]);
    }
    StepLeavesOtherRows(s, cfg, m, s.procs[i].job);
  }

  /** A process that is about to mark was so before the last move, or reserved in it; the row is as it was. */
  lemma AboutToMark(s: State, cfg: Config, m: Move, i: nat)
    requires Valid(s, cfg) && CanMove(s, cfg, m)
    requires i < |s.procs| && Next(s, cfg, m).procs[i].pc == Placeholder
    ensures Next(s, cfg, m).procs[i].job == s.procs[i].job
    ensures SameRow(s.shared.rows, Next(s, cfg, m).shared.rows, s.procs[i].job)
    ensures s.procs[i].pc == Placeholder
            || (m.Step? && m.i == i && s.procs[i].pc == Enqueue && JobKey(s.procs[i].job) !in s.shared.inflight)
  {
    if s.procs[i].pc == Placeholder {
      NobodyElseWrites(s, cfg, m, i);
    }
  }

  lemma {:induction false} ReservedBefore(s: State, cfg: Config, moves: seq<Move>, i: nat) returns (k: nat)
    requires Initial(s) && IsRun(s, cfg, moves) && i < |After(s, cfg, moves).procs|
    requires After(s, cfg, moves).procs[i].pc == Placeholder
    ensures Reserves(s, cfg, moves, k, i)
    ensures var end := After(s, cfg, moves);
            SameRow(At(s, cfg, moves, k).shared.rows, end.shared.rows, end.procs[i].job)
    decreases |moves|
  {
    assert moves != [];
    LastMove(s, cfg, moves);
    var n := |moves| - 1;
    var before := At(s, cfg, moves, n);
    InitialIsValid(s, cfg);
    RunKeepsValid(s, cfg, moves[..n]);
    assert before == After(s, cfg, moves[..n]);
    AboutToMark(before, cfg, moves[n], i);
    if before.procs[i].pc == Placeholder {
      k := ReservedBefore(s, cfg, moves[..n], i);
    } else {
      k := n;
    }
  }

  /** A process cannot reserve before it has looked. */
  lemma LookedBeforeReserving(s: State, cfg: Config, moves: seq<Move>, reserved: nat, i: nat) returns (looked: nat)
    requires Initial(s) && IsRun(s, cfg, moves) && Reserves(s, cfg, moves, reserved, i)
    ensures looked < reserved && LooksInVain(s, cfg, moves, looked, i)
  {
    RunPrefix(s, cfg, moves, reserved);
    looked := LookedBefore(s, cfg, moves[..reserved], i);
    assert moves[..reserved][..looked] == moves[..looked];
  }

  /**
   * In every run a ready row, expired or not, becomes fetching exactly by the mark of a process of its job.
   * That process has looked when no row of the account answered, and has reserved the key later, when no
   * worker was left and the row was there as it is now.
   */
  lemma RefetchExact(s: State, cfg: Config, moves: seq<Move>, m: Move, job: JobId)
    requires Initial(s) && IsRun(s, cfg, moves) && CanMove(After(s, cfg, moves), cfg, m)
    requires var rows := After(s, cfg, moves).shared.rows; job in rows && rows[job].status == Ready
    ensures job in Next(After(s, cfg, moves), cfg, m).shared.rows
    ensures var end := After(s, cfg, moves);
            Next(end, cfg, m).shared.rows[job].status == Fetching
            <==> m.Step? && end.procs[m.i].job == job && end.procs[m.i].pc == Placeholder
    ensures var end := After(s, cfg, moves);
            Next(end, cfg, m).shared.rows[job].status == Fetching ==>
              exists looked, reserved: nat :: looked < reserved < |moves|
                && LooksInVain(s, cfg, moves, looked, m.i) && Reserves(s, cfg, moves, reserved, m.i)
                && SameRow(At(s, cfg, moves, reserved).shared.rows, end.shared.rows, job)
  {
    var end := After(s, cfg, moves);
    MarkingExact(end, cfg, m, job);
    if m.Step? && end.procs[m.i].job == job && end.procs[m.i].pc == Placeholder {
      var reserved := ReservedBefore(s, cfg, moves, m.i);
      var looked := LookedBeforeReserving(s, cfg, moves, reserved, m.i);
    }
  }

  lemma MarkingExact(s: State, cfg: Config, m: Move, job: JobId)
    requires CanMove(s, cfg, m) && job in s.shared.rows && s.shared.rows[job].status == Ready
    ensures job in Next(s, cfg, m).shared.rows
    ensures Next(s, cfg, m).shared.rows[job].status == Fetching
            <==> m.Step? && s.procs[m.i].job == job && s.procs[m.i].pc == Placeholder
  {
    if !(m.Step? && s.procs[m.i].job == job && (s.procs[m.i].pc == Placeholder || s.procs[m.i].pc == Writing)) {
      StepLeavesOtherRows(s, cfg, m, job);
    }
  }

  ghost predicate NoMoveOf(moves: seq<Move>, i: nat) {
    forall k :: 0 <= k < |moves| && moves[k].Step? ==> moves[k].i != i
  }

  /** Once a process has reserved, whatever the others do its next step makes the row fetching. */
  lemma {:induction false} ReservedIsMarked(s: State, cfg: Config, moves: seq<Move>, i: nat, now: int)
    requires Valid(s, cfg) && IsRun(s, cfg, moves) && NoMoveOf(moves, i)
    requires i < |s.procs| && s.procs[i].pc == Placeholder
    ensures var end, mark := After(s, cfg, moves), Step(i, now, None, None);
            && SameRow(s.shared.rows, end.shared.rows, s.procs[i].job)
            && CanMove(end, cfg, mark)
            && s.procs[i].job in Next(end, cfg, mark).shared.rows
            && Next(end, cfg, mark).shared.rows[s.procs[i].job].status == Fetching
    decreases |moves|
  {
    if moves != [] {
      NobodyElseWrites(s, cfg, moves[0], i);
      StepKeepsValid(s, cfg, moves[0]);
      ReservedIsMarked(Next(s, cfg, moves[0]), cfg, moves[1..], i, now);
    }
  }

  lemma {:induction false} RunAppend(s: State, cfg: Config, moves: seq<Move>, m: Move)
    requires IsRun(s, cfg, moves) && CanMove(After(s, cfg, moves), cfg, m)
    ensures IsRun(s, cfg, moves + [m]) && After(s, cfg, moves + [m]) == Next(After(s, cfg, moves), cfg, m)
    decreases |moves|
  {
    if moves == [] {
      assert [] + [m] == [m] && [m][1..] == [];
    } else {
      RunAppend(Next(s, cfg, moves[0]), cfg, moves[1..], m);
      assert (moves + [m])[1..] == moves[1..] + [m];
    }
  }

  /** A worker alone, from its reservation to its end; the first source has the work. */
  lemma WorkerRuns(s: State, cfg: Config, before: seq<Move>, i: nat, pages: Pages, now: int) returns (moves: seq<Move>)
    requires IsRun(s, cfg, before) && cfg.sources > 0
    requires var t := After(s, cfg, before);
             && i < |t.procs| && t.procs[i].pc == Enqueue && t.shared.held < cfg.capacity
             && JobKey(t.procs[i].job) !in t.shared.inflight
    ensures IsRun(s, cfg, moves)
    ensures var t := After(s, cfg, before);
            var p := t.procs[i];
            After(s, cfg, moves) == State(
              t.procs[i := Proc(p.job, End, [Some(pages)])],
              t.shared.(rows := t.shared.rows[p.job := Row(pages, Some(0), Ready, now + t.shared.ttl)]))
  {
    var t := After(s, cfg, before);
    moves := before;
    var m := Step(i, now, Some(pages), None);
    var states := WorkerStates(t, i, pages, now);
    var k := 0;
    while k < 7
      invariant 0 <= k <= 7
      invariant IsRun(s, cfg, moves) && After(s, cfg, moves) == states[k]
    {
      WorkerStep(t, cfg, i, pages, now, k);
      RunAppend(s, cfg, moves, m);
      moves := moves + [m];
      k := k + 1;
    }
    var p := t.procs[i];
    assert t.shared.inflight + {JobKey(p.job)} - {JobKey(p.job)} == t.shared.inflight;
  }

  /** The states of a worker alone, from its reservation on. */
  function WorkerStates(t: State, i: nat, pages: Pages, now: int): seq<State>
    requires i < |t.procs|
  {
    var p, sh := t.procs[i], t.shared;
    var flying := sh.(inflight := sh.inflight + {JobKey(p.job)});
    var marked := flying.(rows := MarkFetching(sh.rows, p.job, now));
    var holding := marked.(held := sh.held + 1);
    var done := [Some(pages)];
    var ready := sh.rows[p.job := Row(pages, Some(0), Ready, now + sh.ttl)];
    [ t,
      State(t.procs[i := p.(pc := Placeholder)], flying),
      State(t.procs[i := p.(pc := Acquire)], marked),
      State(t.procs[i := Proc(p.job, Trying, [])], holding),
      State(t.procs[i := Proc(p.job, Writing, done)], holding),
      State(t.procs[i := Proc(p.job, Release, done)], holding.(rows := ready)),
      State(t.procs[i := Proc(p.job, Unreserve, done)], flying.(rows := ready)),
      State(t.procs[i := Proc(p.job, End, done)], sh.(inflight := flying.inflight - {JobKey(p.job)}, rows := ready)) ]
  }

  lemma WorkerStep(t: State, cfg: Config, i: nat, pages: Pages, now: int, k: nat)
    requires i < |t.procs| && t.procs[i].pc == Enqueue && t.shared.held < cfg.capacity && cfg.sources > 0 && k < 7
    requires JobKey(t.procs[i].job) !in t.shared.inflight
    ensures var states, m := WorkerStates(t, i, pages, now), Step(i, now, Some(pages), None);
            CanMove(states[k], cfg, m) && Next(states[k], cfg, m) == states[k + 1]
  {
    var states := WorkerStates(t, i, pages, now);
    assert states[k].procs[i := states[k + 1].procs[i]] == states[k + 1].procs;
    if k == 3 {
      var nobody: seq<Option<Pages>> := [];
      assert nobody + [Some(pages)] == [Some(pages)];
    } else if k == 4 {
      FirstSuccessIsVerdict([Some(pages)], 0);
      var p := t.procs[i];
      assert MarkFetching(t.shared.rows, p.job, now)[p.job := Row(pages, Some(0), Ready, now + t.shared.ttl)]
          == t.shared.rows[p.job := Row(pages, Some(0), Ready, now + t.shared.ttl)];
    }
  }

  /** Two queries of one job on an empty queue. */
  function TwoQueries(job: JobId, ttl: int, negTtl: int): State {
    State([Proc(job, Query, []), Proc(job, Query, [])], Shared(map[], {}, 0, ttl, negTtl))
  }

  /**
   * Both queries look before anything is there. The first one's worker runs to its end and leaves a ready
   * row; then the second one enqueues and marks that row, which has not expired, as fetching.
   */
  lemma LateEnqueueRefetches(cfg: Config, job: JobId, pages: Pages, ttl: int, negTtl: int) returns (moves: seq<Move>)
    requires cfg.capacity > 0 && cfg.sources > 0 && ttl > 0
    ensures Initial(TwoQueries(job, ttl, negTtl)) && IsRun(TwoQueries(job, ttl, negTtl), cfg, moves) && moves != []
    ensures var s, n := TwoQueries(job, ttl, negTtl), |moves| - 1;
            var before, after := At(s, cfg, moves, n).shared.rows, After(s, cfg, moves).shared.rows;
            && job in before && before[job].status == Ready && before[job].pages == pages
            && moves[n].Step? && before[job].expire > moves[n].now
            && job in after && after[job].status == Fetching
  {
    var s := TwoQueries(job, ttl, negTtl);
    var early := BothLook(cfg, job, ttl, negTtl);
    var worked := WorkerRuns(s, cfg, early, 0, pages, 0);
    var late := Step(1, 0, None, None);
    RunAppend(s, cfg, worked, late);
    RunAppend(s, cfg, worked + [late], late);
    moves := worked + [late] + [late];
    LastMove(s, cfg, moves);
    assert moves[..|moves| - 1] == worked + [late];
  }

  lemma BothLook(cfg: Config, job: JobId, ttl: int, negTtl: int) returns (moves: seq<Move>)
    ensures IsRun(TwoQueries(job, ttl, negTtl), cfg, moves)
    ensures After(TwoQueries(job, ttl, negTtl), cfg, moves)
         == State([Proc(job, Enqueue, []), Proc(job, Enqueue, [])], Shared(map[], {}, 0, ttl, negTtl))
  {
    var s := TwoQueries(job, ttl, negTtl);
    var first, second := Step(0, 0, None, None), Step(1, 0, None, None);
    RunAppend(s, cfg, [], first);
    RunAppend(s, cfg, [] + [first], second);
    moves := [] + [first] + [second];
  }

  // ----- progress -----

  /** a answers a shared lookup at least as well as b. */
  predicate AsGood(a: Row, b: Row) {
    (a.status == Ready && b.status == NotFound) || (a.status == b.status && a.expire >= b.expire)
  }

  lemma {:induction false} BestRow(rows: Rows, some: set<JobId>) returns (best: JobId)
    requires some != {} && forall job :: job in some ==> job in rows && rows[job].status != Fetching
    ensures best in some && forall job :: job in some ==> AsGood(rows[best], rows[job])
    decreases |some|
  {
    var first :| first in some;
    best := first;
    if some != {first} {
      best := BestRow(rows, some - {first});
      if !AsGood(rows[best], rows[first]) {
        best := first;
      }
    }
  }

  /** Every lookup has an answer. */
  lemma LookupAnswers(rows: Rows, shared: bool, job: JobId, now: int) returns (found: Option<JobId>)
    ensures IsLookup(rows, shared, job, now, found)
  {
    var candidates := set other |
      other in rows && other.pid == job.pid && (shared || other == job) && Usable(rows[other], now);
    if candidates == {} {
      found := None;
      assert forall other :: other in rows && other.pid == job.pid && (shared || other == job) ==>
          (Usable(rows[other], now) ==> other in candidates);
    } else {
      var best := BestRow(rows, candidates);
      found := Some(best);
    }
  }

  /** Steps that a process has ahead of it, at most. */
  function Phase(p: Proc, cfg: Config): nat {
    match p.pc
    case Query => cfg.sources + 8
    case Enqueue => cfg.sources + 7
    case Placeholder => cfg.sources + 6
    case Acquire => cfg.sources + 5
    case Trying => Max(cfg.sources - |p.tried|, 0) + 4
    case Writing => 3
    case Release => 2
    case Unreserve => 1
    case End => 0
  }

  function PhaseSum(procs: seq<Proc>, cfg: Config): nat {
    if procs == [] then 0 else PhaseSum(procs[..|procs| - 1], cfg) + Phase(procs[|procs| - 1], cfg)
  }

  lemma {:induction false} PhaseSumUpdate(procs: seq<Proc>, cfg: Config, i: nat, p: Proc)
    requires i < |procs|
    ensures PhaseSum(procs[i := p], cfg) == PhaseSum(procs, cfg) - Phase(procs[i], cfg) + Phase(p, cfg)
  {
    var n := |procs| - 1;
    if i == n {
      assert procs[i := p][..n] == procs[..n];
    } else {
      PhaseSumUpdate(procs[..n], cfg, i, p);
      assert procs[i := p][..n] == procs[..n][i := p];
    }
  }

  lemma {:induction false} PhaseSumAtStart(procs: seq<Proc>, cfg: Config)
    requires forall i :: 0 <= i < |procs| ==> procs[i].pc == Query
    ensures PhaseSum(procs, cfg) == |procs| * (cfg.sources + 8)
  {
    if procs != [] {
      PhaseSumAtStart(procs[..|procs| - 1], cfg);
      assert |procs| * (cfg.sources + 8) == (|procs| - 1) * (cfg.sources + 8) + (cfg.sources + 8);
    }
  }

  function Steps(moves: seq<Move>): nat {
    if moves == [] then 0 else (if moves[0].Step? then 1 else 0) + Steps(moves[1..])
  }

  lemma StepLowersPhases(s: State, cfg: Config, m: Move)
    requires CanMove(s, cfg, m) && m.Step?
    ensures PhaseSum(Next(s, cfg, m).procs, cfg) < PhaseSum(s.procs, cfg)
  {
    var p := NextProc(s, cfg, m.i, m.answer, m.found);
    assert Phase(p, cfg) < Phase(s.procs[m.i], cfg);
    PhaseSumUpdate(s.procs, cfg, m.i, p);
  }

  lemma {:induction false} StepsAreBounded(s: State, cfg: Config, moves: seq<Move>)
    requires IsRun(s, cfg, moves)
    ensures Steps(moves) + PhaseSum(After(s, cfg, moves).procs, cfg) <= PhaseSum(s.procs, cfg)
    decreases |moves|
  {
    if moves != [] {
      var m := moves[0];
      if m.Step? {
        StepLowersPhases(s, cfg, m);
      }
      StepsAreBounded(Next(s, cfg, m), cfg, moves[1..]);
    }
  }

  lemma {:induction false} SomebodyHolds(procs: seq<Proc>) returns (i: nat)
    requires CountHolding(procs) > 0
    ensures i < |procs| && Holding(procs[i])
  {
    if Holding(procs[|procs| - 1]) {
      i := |procs| - 1;
    } else {
      i := SomebodyHolds(procs[..|procs| - 1]);
    }
  }

  /** While a process is not at its end some process can step: the slots never lock up. */
  lemma SomeMoveEnabled(s: State, cfg: Config, now: int) returns (m: Move)
    requires Valid(s, cfg) && cfg.capacity > 0
    requires exists i :: 0 <= i < |s.procs| && s.procs[i].pc != End
    ensures m.Step? && CanMove(s, cfg, m)
  {
    var i :| 0 <= i < |s.procs| && s.procs[i].pc != End;
    var found := LookupAnswers(s.shared.rows, cfg.sharedCache, s.procs[i].job, now);
    m := Step(i, now, None, found);
    if s.procs[i].pc == Acquire && s.shared.held >= cfg.capacity {
      var holder := SomebodyHolds(s.procs);
      m := Step(holder, now, None, None);
    } else if s.procs[i].pc == Release {
      CountHoldingUpdate(s.procs, i, s.procs[i].(pc := Unreserve));
    }
    if s.procs[m.i].pc == Release {
      CountHoldingUpdate(s.procs, m.i, s.procs[m.i].(pc := Unreserve));
    }
  }

  /**
   * Queries and workers come to an end: every run has a bounded number of steps, and where no step is
   * possible all processes have ended, no key is in flight, no slot is held and no row is left fetching.
   */
  lemma QueueDrains(s: State, cfg: Config, moves: seq<Move>)
    requires Initial(s) && IsRun(s, cfg, moves) && cfg.capacity > 0
    ensures Steps(moves) <= |s.procs| * (cfg.sources + 8)
    ensures var end := After(s, cfg, moves);
            (forall m: Move :: m.Step? ==> !CanMove(end, cfg, m)) ==>
              && (forall i :: 0 <= i < |end.procs| ==> end.procs[i].pc == End)
              && end.shared.inflight == {} && end.shared.held == 0
              && (forall job :: job in end.shared.rows ==> end.shared.rows[job].status != Fetching)
  {
    InitialIsValid(s, cfg);
    RunKeepsValid(s, cfg, moves);
    PhaseSumAtStart(s.procs, cfg);
    StepsAreBounded(s, cfg, moves);
    var end := After(s, cfg, moves);
    if forall m: Move :: m.Step? ==> !CanMove(end, cfg, m) {
      if exists i :: 0 <= i < |end.procs| && end.procs[i].pc != End {
        var m := SomeMoveEnabled(end, cfg, 0);
      }
      AllEnded(end, cfg);
    }
  }

  lemma AllEnded(s: State, cfg: Config)
    requires Valid(s, cfg) && forall i :: 0 <= i < |s.procs| ==> s.procs[i].pc == End
    ensures s.shared.inflight == {} && s.shared.held == 0
    ensures forall job :: job in s.shared.rows ==> s.shared.rows[job].status != Fetching
  {
    if s.shared.held > 0 {
      var i := SomebodyHolds(s.procs);
    }
  }
}
