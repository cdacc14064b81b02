/**
 * Requests for the same image: one leader fetches, the others wait and look again. The requests run
 * interleaved, one atomic step at a time; a lookup may hit or miss at any moment.
 */
module SingleFlight {

  /** The flights in the air by key, and how often the channel of every flight was closed. */
  datatype Table = Table(inflight: map<string, nat>, closes: seq<nat>)

  /** The first request of a key becomes its leader; the others get the flight to wait for. */
  function EnterTable(t: Table, key: string): (Table, nat, bool) {
    if key in t.inflight then (t, t.inflight[key], false)
    else (Table(t.inflight[key := |t.closes|], t.closes + [0]), |t.closes|, true)
  }

  function LeaveTable(t: Table, key: string, f: nat): Table
    requires f < |t.closes|
  {
    Table(t.inflight - {key}, t.closes[f := t.closes[f] + 1])
  }

  /** The mutex-protected part of the image service. */
  class FlightTable {
    var inflight: map<string, nat>
    var closes: seq<nat>

    function View(): Table
      reads this
    {
      Table(inflight, closes)
    }

    constructor ()
      ensures View() == Table(map[], [])
    {
      inflight, closes := map[], [];
    }

    method EnterFlight(key: string) returns (f: nat, leader: bool)
      modifies this
      ensures (View(), f, leader) == EnterTable(old(View()), key)
    {
      if key in inflight {
        return inflight[key], false;
      }
      f, leader := |closes|, true;
      closes := closes + [0];
      inflight := inflight[key := f];
    }

    /** Closing a closed channel would panic. */
    method LeaveFlight(key: string, f: nat)
      requires f < |closes| && closes[f] == 0
      modifies this
      ensures View() == LeaveTable(old(View()), key, f)
    {
      inflight := inflight - {key};
      closes := closes[f := closes[f] + 1];
    }
  }

  // ----- the interleaving of the requests -----

  /** Where a request stands in the retry loop. */
  datatype Pc = Lookup | Enter | Wait(f: nat) | Fetch(f: nat) | Leave(f: nat) | Done

  datatype Request = Request(key: string, pc: Pc, led: bool)

  datatype State = State(reqs: seq<Request>, table: Table)

  predicate Leading(r: Request) {
    r.pc.Fetch? || r.pc.Leave?
  }

  predicate Closed(t: Table, f: nat) {
    f < |t.closes| && t.closes[f] > 0
  }

  /** Only a wait for an open flight blocks. */
  predicate CanStep(s: State, i: nat) {
    && i < |s.reqs|
    && match s.reqs[i].pc
       case Wait(f) => Closed(s.table, f)
       case Leave(f) => f < |s.table.closes|
       case Done => false
       case _ => true
  }

  /** One atomic step of request i; hit is the answer of a cache lookup. */
  function Next(s: State, i: nat, hit: bool): State
    requires CanStep(s, i)
  {
    var r := s.reqs[i];
    match r.pc
    case Lookup => s.(reqs := s.reqs[i := r.(pc := if hit then Done else Enter)])
    case Enter =>
      var (table, f, leader) := EnterTable(s.table, r.key);
      State(s.reqs[i := if leader then r.(pc := Fetch(f), led := true) else r.(pc := Wait(f))], table)
    case Wait(f) => s.(reqs := s.reqs[i := r.(pc := Lookup)])
    case Fetch(f) => s.(reqs := s.reqs[i := r.(pc := Leave(f))])
    case Leave(f) => State(s.reqs[i := r.(pc := Done)], LeaveTable(s.table, r.key, f))
  }

  ghost predicate Initial(s: State) {
    && s.table == Table(map[], [])
    && forall i :: 0 <= i < |s.reqs| ==> s.reqs[i].pc == Lookup && !s.reqs[i].led
  }

  // ----- safety -----

  function FlightOf(r: Request): nat
    requires Leading(r)
  {
    r.pc.f
  }

  /** A leader's flight is the one in the map under its key. */
  ghost predicate LeadersOwnFlights(s: State) {
    forall i :: 0 <= i < |s.reqs| && Leading(s.reqs[i]) ==>
      s.reqs[i].key in s.table.inflight && s.table.inflight[s.reqs[i].key] == FlightOf(s.reqs[i])
  }

  /** At most one request of a key lies between becoming leader and leaving. */
  ghost predicate OneLeaderPerKey(s: State) {
    forall i, j :: 0 <= i < j < |s.reqs| && Leading(s.reqs[i]) && Leading(s.reqs[j]) ==> s.reqs[i].key != s.reqs[j].key
  }

  /** A request leads at most once, and is done when it has. */
  ghost predicate LedOnce(s: State) {
    forall i :: 0 <= i < |s.reqs| ==> (Leading(s.reqs[i]) ==> s.reqs[i].led)
                                      && (s.reqs[i].led ==> Leading(s.reqs[i]) || s.reqs[i].pc == Done)
  }

  ghost predicate LeadersValid(s: State) {
    LeadersOwnFlights(s) && OneLeaderPerKey(s) && LedOnce(s)
  }

  /** A flight is closed at most once; it is in the map exactly while it is open, with a leader at work. */
  ghost predicate FlightsValid(s: State) {
    && (forall f :: 0 <= f < |s.table.closes| ==> s.table.closes[f] <= 1)
    && (forall k :: k in s.table.inflight ==>
          s.table.inflight[k] < |s.table.closes| && s.table.closes[s.table.inflight[k]] == 0)
    && (forall k, l :: k in s.table.inflight && l in s.table.inflight && k != l ==>
          s.table.inflight[k] != s.table.inflight[l])
    && (forall f :: 0 <= f < |s.table.closes| && s.table.closes[f] == 0 ==>
          exists k :: k in s.table.inflight && s.table.inflight[k] == f)
    && (forall k :: k in s.table.inflight ==> exists i :: 0 <= i < |s.reqs| && LeadsKey(s.reqs[i], k))
  }

  predicate LeadsKey(r: Request, key: string) {
    Leading(r) && r.key == key
  }

  /** A flight that is waited for is closed, or it is the one in the air for the waiter's key. */
  predicate WaitsRightly(r: Request, t: Table) {
    r.pc.Wait? ==>
      && r.pc.f < |t.closes|
      && (Closed(t, r.pc.f) || (r.key in t.inflight && t.inflight[r.key] == r.pc.f))
  }

  ghost predicate WaitersValid(s: State) {
    forall i :: 0 <= i < |s.reqs| ==> WaitsRightly(s.reqs[i], s.table)
  }

  ghost predicate Valid(s: State) {
    LeadersValid(s) && FlightsValid(s) && WaitersValid(s)
  }

  lemma StepKeepsOwnFlights(s: State, i: nat, hit: bool)
    requires Valid(s) && CanStep(s, i)
    ensures LeadersOwnFlights(Next(s, i, hit))
  {
    var r, after := s.reqs[i], Next(s, i, hit);
    forall j | 0 <= j < |s.reqs| && j != i && Leading(s.reqs[j])
      ensures s.reqs[j].key in after.table.inflight && after.table.inflight[s.reqs[j].key] == FlightOf(s.reqs[j])
    {
      assert s.reqs[j].key in s.table.inflight;
    }
  }

  lemma StepKeepsOneLeader(s: State, i: nat, hit: bool)
    requires Valid(s) && CanStep(s, i)
    ensures OneLeaderPerKey(Next(s, i, hit))
  {
    var r, after := s.reqs[i], Next(s, i, hit);
    forall j | 0 <= j < |s.reqs| && j != i && Leading(s.reqs[j]) && Leading(after.reqs[i])
      ensures s.reqs[j].key != r.key
    {
      assert s.reqs[j].key in s.table.inflight;
    }
  }

  lemma StepKeepsLedOnce(s: State, i: nat, hit: bool)
    requires Valid(s) && CanStep(s, i)
    ensures LedOnce(Next(s, i, hit))
  {
  }

  lemma StepKeepsLeaderOfKey(s: State, i: nat, hit: bool, k: string)
    requires Valid(s) && CanStep(s, i) && k in Next(s, i, hit).table.inflight
    ensures exists j :: 0 <= j < |s.reqs| && LeadsKey(Next(s, i, hit).reqs[j], k)
  {
    var after := Next(s, i, hit);
    if k in s.table.inflight {
      var j :| 0 <= j < |s.reqs| && LeadsKey(s.reqs[j], k);
      assert LeadsKey(after.reqs[j], k);
    } else {
      assert LeadsKey(after.reqs[i], k);
    }
  }

  lemma StepKeepsOpenInMap(s: State, i: nat, hit: bool, f: nat)
    requires Valid(s) && CanStep(s, i)
    requires f < |Next(s, i, hit).table.closes| && Next(s, i, hit).table.closes[f] == 0
    ensures exists k :: k in Next(s, i, hit).table.inflight && Next(s, i, hit).table.inflight[k] == f
  {
    var r, after := s.reqs[i], Next(s, i, hit);
    if f < |s.table.closes| {
      var k :| k in s.table.inflight && s.table.inflight[k] == f;
      assert k in after.table.inflight && after.table.inflight[k] == f;
    } else {
      assert after.table.inflight[r.key] == f;
    }
  }

  lemma StepKeepsFlights(s: State, i: nat, hit: bool)
    requires Valid(s) && CanStep(s, i)
    ensures FlightsValid(Next(s, i, hit))
  {
    var after := Next(s, i, hit);
    forall k | k in after.table.inflight
      ensures exists j :: 0 <= j < |after.reqs| && LeadsKey(after.reqs[j], k)
    {
      StepKeepsLeaderOfKey(s, i, hit, k);
    }
    forall f | 0 <= f < |after.table.closes| && after.table.closes[f] == 0
      ensures exists k :: k in after.table.inflight && after.table.inflight[k] == f
    {
      StepKeepsOpenInMap(s, i, hit, f);
    }
    StepKeepsMapOpen(s, i, hit);
  }

  lemma StepKeepsMapOpen(s: State, i: nat, hit: bool)
    requires Valid(s) && CanStep(s, i)
    ensures var t := Next(s, i, hit).table;
            && (forall f :: 0 <= f < |t.closes| ==> t.closes[f] <= 1)
            && (forall k :: k in t.inflight ==> t.inflight[k] < |t.closes| && t.closes[t.inflight[k]] == 0)
            && (forall k, l :: k in t.inflight && l in t.inflight && k != l ==> t.inflight[k] != t.inflight[l])
  {
    var r := s.reqs[i];
    if r.pc.Leave? {
      assert r.key in s.table.inflight && s.table.inflight[r.key] == r.pc.f;
    }
  }

  lemma StepKeepsWaiters(s: State, i: nat, hit: bool)
    requires Valid(s) && CanStep(s, i)
    ensures WaitersValid(Next(s, i, hit))
  {
    var r, after := s.reqs[i], Next(s, i, hit);
    if r.pc.Leave? {
      assert r.key in s.table.inflight && s.table.inflight[r.key] == r.pc.f;
    }
    forall j | 0 <= j < |s.reqs| ensures WaitsRightly(after.reqs[j], after.table) {
      if j != i {
        assert WaitsRightly(s.reqs[j], s.table);
      }
    }
  }

  lemma InitialIsValid(s: State)
    requires Initial(s)
    ensures Valid(s)
  {
  }

  // ----- progress -----

  /** Steps left until the next wait or the end; a closed flight sends its waiters round once more. */
  function Phase(r: Request, t: Table): nat {
    match r.pc
    case Wait(f) => if Closed(t, f) then 5 else 2
    case Lookup => 4
    case Enter => 3
    case Fetch(_) => 2
    case Leave(_) => 1
    case Done => 0
  }

  function PhaseSum(reqs: seq<Request>, t: Table): nat {
    if reqs == [] then 0 else PhaseSum(reqs[..|reqs| - 1], t) + Phase(reqs[|reqs| - 1], t)
  }

  function Unfinished(reqs: seq<Request>): nat {
    if reqs == [] then 0
    else Unfinished(reqs[..|reqs| - 1]) + if reqs[|reqs| - 1].pc == Done then 0 else 1
  }

  lemma {:induction false} InitialMeasure(reqs: seq<Request>, t: Table)
    requires forall i :: 0 <= i < |reqs| ==> reqs[i].pc == Lookup
    ensures Unfinished(reqs) == |reqs| && PhaseSum(reqs, t) == 4 * |reqs|
  {
    if reqs != [] {
      InitialMeasure(reqs[..|reqs| - 1], t);
    }
  }

  /** Every step makes this smaller. */
  function Measure(s: State): nat {
    Unfinished(s.reqs) * (5 * |s.reqs| + 1) + PhaseSum(s.reqs, s.table)
  }

  lemma {:induction false} PhaseSumBound(reqs: seq<Request>, t: Table)
    ensures PhaseSum(reqs, t) <= 5 * |reqs|
  {
    if reqs != [] {
      PhaseSumBound(reqs[..|reqs| - 1], t);
    }
  }

  /** One request moves on, the others see no flight close: the sum changes by that request's phase. */
  lemma {:induction false} PhaseSumUpdate(reqs: seq<Request>, t: Table, i: nat, r: Request, t': Table)
    requires i < |reqs|
    requires forall j :: 0 <= j < |reqs| && j != i ==> Phase(reqs[j], t') == Phase(reqs[j], t)
    ensures PhaseSum(reqs[i := r], t') == PhaseSum(reqs, t) - Phase(reqs[i], t) + Phase(r, t')
  {
    var n := |reqs| - 1;
    var init := reqs[..n];
    if i == n {
      assert reqs[i := r][..n] == init;
      SamePhases(init, t, t');
    } else {
      PhaseSumUpdate(init, t, i, r, t');
      assert reqs[i := r][..n] == init[i := r];
    }
  }

  lemma {:induction false} SamePhases(reqs: seq<Request>, t: Table, t': Table)
    requires forall j :: 0 <= j < |reqs| ==> Phase(reqs[j], t') == Phase(reqs[j], t)
    ensures PhaseSum(reqs, t') == PhaseSum(reqs, t)
  {
    if reqs != [] {
      SamePhases(reqs[..|reqs| - 1], t, t');
    }
  }

  lemma {:induction false} UnfinishedUpdate(reqs: seq<Request>, i: nat, r: Request)
    requires i < |reqs|
    ensures Unfinished(reqs[i := r])
         == Unfinished(reqs) - (if reqs[i].pc == Done then 0 else 1) + (if r.pc == Done then 0 else 1)
  {
    var n := |reqs| - 1;
    if i == n {
      assert reqs[i := r][..n] == reqs[..n];
    } else {
      UnfinishedUpdate(reqs[..n], i, r);
      assert reqs[i := r][..n] == reqs[..n][i := r];
    }
  }

  lemma FinishingDecreases(s: State, i: nat, hit: bool)
    requires CanStep(s, i) && Next(s, i, hit).reqs[i].pc == Done
    ensures Measure(Next(s, i, hit)) < Measure(s)
  {
    var after := Next(s, i, hit);
    UnfinishedUpdate(s.reqs, i, after.reqs[i]);
    PhaseSumBound(after.reqs, after.table);
    var u, b := Unfinished(s.reqs), 5 * |s.reqs| + 1;
    assert (u - 1) * b == u * b - b;
  }

  /** A step that does not finish a request closes no flight. */
  lemma OthersKeepPhase(s: State, i: nat, hit: bool, j: nat)
    requires Valid(s) && CanStep(s, i) && Next(s, i, hit).reqs[i].pc != Done && j < |s.reqs|
    ensures Phase(s.reqs[j], Next(s, i, hit).table) == Phase(s.reqs[j], s.table)
  {
  }

  lemma OwnPhaseFalls(s: State, i: nat, hit: bool)
    requires Valid(s) && CanStep(s, i) && Next(s, i, hit).reqs[i].pc != Done
    ensures Phase(Next(s, i, hit).reqs[i], Next(s, i, hit).table) < Phase(s.reqs[i], s.table)
  {
  }

  lemma SmallerPhases(s: State, after: State)
    requires |after.reqs| == |s.reqs| && Unfinished(after.reqs) == Unfinished(s.reqs)
    requires PhaseSum(after.reqs, after.table) < PhaseSum(s.reqs, s.table)
    ensures Measure(after) < Measure(s)
  {
  }

  lemma StepDecreases(s: State, i: nat, hit: bool)
    requires Valid(s) && CanStep(s, i)
    ensures Measure(Next(s, i, hit)) < Measure(s)
  {
    var after := Next(s, i, hit);
    if after.reqs[i].pc == Done {
      FinishingDecreases(s, i, hit);
    } else {
      UnfinishedUpdate(s.reqs, i, after.reqs[i]);
      forall j | 0 <= j < |s.reqs| ensures Phase(s.reqs[j], after.table) == Phase(s.reqs[j], s.table) {
        OthersKeepPhase(s, i, hit, j);
      }
      OwnPhaseFalls(s, i, hit);
      PhaseSumUpdate(s.reqs, s.table, i, after.reqs[i], after.table);
      assert after.reqs == s.reqs[i := after.reqs[i]];
      SmallerPhases(s, after);
    }
  }

  ghost predicate AllDone(s: State) {
    forall i :: 0 <= i < |s.reqs| ==> s.reqs[i].pc == Done
  }

  /** While a request is unfinished some request can step: no wake-up is lost. */
  lemma SomeStepEnabled(s: State) returns (i: nat)
    requires Valid(s) && !AllDone(s)
    ensures CanStep(s, i)
  {
    i :| 0 <= i < |s.reqs| && s.reqs[i].pc != Done;
    assert WaitsRightly(s.reqs[i], s.table);
    if s.reqs[i].pc.Wait? && !Closed(s.table, s.reqs[i].pc.f) {
      var key := s.reqs[i].key;
      i :| 0 <= i < |s.reqs| && LeadsKey(s.reqs[i], key);
    }
  }

  // ----- runs -----

  /** Which request steps, and what a cache lookup in that step answers. */
  datatype Move = Move(i: nat, hit: bool)

  predicate IsRun(s: State, moves: seq<Move>)
    decreases |moves|
  {
    moves == [] || (CanStep(s, moves[0].i) && IsRun(Next(s, moves[0].i, moves[0].hit), moves[1..]))
  }

  function After(s: State, moves: seq<Move>): State
    requires IsRun(s, moves)
    decreases |moves|
  {
    if moves == [] then s else After(Next(s, moves[0].i, moves[0].hit), moves[1..])
  }

  /** In every interleaving all of the above holds, and the run uses up its measure step by step. */
  lemma {:induction false} RunsAreSafeAndFinite(s: State, moves: seq<Move>)
    requires Valid(s) && IsRun(s, moves)
    ensures Valid(After(s, moves)) && |moves| + Measure(After(s, moves)) <= Measure(s)
    ensures |After(s, moves).reqs| == |s.reqs|
    decreases |moves|
  {
    if moves != [] {
      var i, hit := moves[0].i, moves[0].hit;
      StepKeepsOwnFlights(s, i, hit);
      StepKeepsOneLeader(s, i, hit);
      StepKeepsLedOnce(s, i, hit);
      StepKeepsFlights(s, i, hit);
      StepKeepsWaiters(s, i, hit);
      StepDecreases(s, i, hit);
      RunsAreSafeAndFinite(Next(s, i, hit), moves[1..]);
    }
  }

  function CountLed(reqs: seq<Request>): nat {
    if reqs == [] then 0 else CountLed(reqs[..|reqs| - 1]) + if reqs[|reqs| - 1].led then 1 else 0
  }

  /** How often a run makes a request the leader: each time is one upstream fetch. */
  function LeaderPhases(s: State, moves: seq<Move>): nat
    requires IsRun(s, moves)
    decreases |moves|
  {
    if moves == [] then 0
    else
      (if s.reqs[moves[0].i].pc == Enter && s.reqs[moves[0].i].key !in s.table.inflight then 1 else 0)
      + LeaderPhases(Next(s, moves[0].i, moves[0].hit), moves[1..])
  }

  lemma {:induction false} CountLedUpdate(reqs: seq<Request>, i: nat, r: Request)
    requires i < |reqs|
    ensures CountLed(reqs[i := r]) == CountLed(reqs) - (if reqs[i].led then 1 else 0) + (if r.led then 1 else 0)
    ensures CountLed(reqs) <= |reqs|
  {
    var n := |reqs| - 1;
    if i == n {
      assert reqs[i := r][..n] == reqs[..n];
      CountLedBound(reqs[..n]);
    } else {
      CountLedUpdate(reqs[..n], i, r);
      assert reqs[i := r][..n] == reqs[..n][i := r];
    }
  }

  lemma {:induction false} CountLedBound(reqs: seq<Request>)
    ensures CountLed(reqs) <= |reqs|
  {
    if reqs != [] {
      CountLedBound(reqs[..|reqs| - 1]);
    }
  }

  lemma {:induction false} LeaderPhasesAreCounted(s: State, moves: seq<Move>)
    requires Valid(s) && IsRun(s, moves)
    ensures CountLed(s.reqs) + LeaderPhases(s, moves) == CountLed(After(s, moves).reqs)
    decreases |moves|
  {
    if moves != [] {
      var i, hit := moves[0].i, moves[0].hit;
      RunsAreSafeAndFinite(s, [moves[0]]);
      CountLedUpdate(s.reqs, i, Next(s, i, hit).reqs[i]);
      LeaderPhasesAreCounted(Next(s, i, hit), moves[1..]);
    }
  }

  /**
   * N requests, for whatever keys: no run is longer than 5 * N * (N + 1) steps, a run that cannot go on has
   * finished all of them, and they took at most N leader phases.
   */
  lemma AllRequestsFinish(s: State, moves: seq<Move>)
    requires Initial(s) && IsRun(s, moves)
    ensures |moves| <= 5 * |s.reqs| * (|s.reqs| + 1)
    ensures LeaderPhases(s, moves) <= |s.reqs|
    ensures (forall i :: !CanStep(After(s, moves), i)) ==> AllDone(After(s, moves))
  {
    InitialIsValid(s);
    InitialMeasure(s.reqs, s.table);
    assert |s.reqs| * (5 * |s.reqs| + 1) + 4 * |s.reqs| == 5 * |s.reqs| * (|s.reqs| + 1);
    RunsAreSafeAndFinite(s, moves);
    LeaderPhasesAreCounted(s, moves);
    CountLedBound(After(s, moves).reqs);
    if !AllDone(After(s, moves)) {
      var i := SomeStepEnabled(After(s, moves));
    }
  }

  // ----- what each request goes through -----

  datatype Act = Hits | Misses | Leads | Joins | Wakes | Fetches | Leaves

  /** What a step means for its request. */
  function ActOf(s: State, m: Move): Act
    requires CanStep(s, m.i)
  {
    match s.reqs[m.i].pc
    case Lookup => if m.hit then Hits else Misses
    case Enter => if s.reqs[m.i].key in s.table.inflight then Joins else Leads
    case Wait(_) => Wakes
    case Fetch(_) => Fetches
    case Leave(_) => Leaves
  }

  /** The steps of one request in a run. */
  function Story(s: State, moves: seq<Move>, i: nat): seq<Act>
    requires IsRun(s, moves)
    decreases |moves|
  {
    if moves == [] then []
    else
      var rest := Story(Next(s, moves[0].i, moves[0].hit), moves[1..], i);
      if moves[0].i == i then [ActOf(s, moves[0])] + rest else rest
  }

  /**
   * The retry loop, as far as it has come: a lookup that hits ends it; after one that misses, the leader
   * fetches and leaves, and the others wait and begin again.
   */
  predicate IsLoop(story: seq<Act>)
    decreases |story|
  {
    || story == [] || story == [Hits] || story == [Misses]
    || (|story| >= 2 && story[0] == Misses && story[1] == Leads && IsLeading(story[2..]))
    || (|story| >= 2 && story[0] == Misses && story[1] == Joins
        && (|story| == 2 || (story[2] == Wakes && IsLoop(story[3..]))))
  }

  predicate IsLeading(story: seq<Act>) {
    story == [] || story == [Fetches] || story == [Fetches, Leaves]
  }

  /** The rest of the loop from a place in it. */
  predicate GoesOn(pc: Pc, story: seq<Act>) {
    match pc
    case Lookup => IsLoop(story)
    case Enter => IsLoop([Misses] + story)
    case Wait(_) => story == [] || (story[0] == Wakes && IsLoop(story[1..]))
    case Fetch(_) => IsLeading(story)
    case Leave(_) => story == [] || story == [Leaves]
    case Done => story == []
  }

  predicate IsOver(story: seq<Act>) {
    story != [] && (story[|story| - 1] == Hits || story[|story| - 1] == Leaves)
  }

  /** One step of the loop in front of the rest. */
  lemma StepInFront(s: State, m: Move, rest: seq<Act>)
    requires CanStep(s, m.i) && GoesOn(Next(s, m.i, m.hit).reqs[m.i].pc, rest)
    ensures GoesOn(s.reqs[m.i].pc, [ActOf(s, m)] + rest)
  {
    var act, story := ActOf(s, m), [ActOf(s, m)] + rest;
    assert story[0] == act && story[1..] == rest;
    match s.reqs[m.i].pc
    case Lookup =>
    case Enter =>
      var longer := [Misses] + story;
      assert longer[0] == Misses && longer[1] == act && longer[2..] == rest;
      if act == Joins && rest != [] {
        assert longer[2] == rest[0] && longer[3..] == rest[1..];
      }
    case Wait(_) =>
    case Fetch(_) =>
    case Leave(_) =>
  }

  lemma {:induction false} StoryGoesOn(s: State, moves: seq<Move>, i: nat)
    requires IsRun(s, moves) && i < |s.reqs|
    ensures |After(s, moves).reqs| == |s.reqs|
    ensures GoesOn(s.reqs[i].pc, Story(s, moves, i))
    ensures After(s, moves).reqs[i].pc == Done <==>
              IsOver(Story(s, moves, i)) || (s.reqs[i].pc == Done && Story(s, moves, i) == [])
    ensures After(s, moves).reqs[i].led <==> s.reqs[i].led || Leads in Story(s, moves, i)
    decreases |moves|
  {
    if moves != [] {
      var m := moves[0];
      var next := Next(s, m.i, m.hit);
      StoryGoesOn(next, moves[1..], i);
      if m.i == i {
        StepInFront(s, m, Story(next, moves[1..], i));
      }
    }
  }

  /**
   * In every run every request goes through the retry loop and nothing else: it is done exactly when its last
   * step was a lookup that hit, or its leaving as the leader after a fetch; and it enters a flight only right
   * after a lookup of its own that missed.
   */
  lemma RequestsFollowTheLoop(s: State, moves: seq<Move>, i: nat)
    requires Initial(s) && IsRun(s, moves) && i < |s.reqs|
    ensures |After(s, moves).reqs| == |s.reqs|
    ensures IsLoop(Story(s, moves, i))
    ensures After(s, moves).reqs[i].pc == Done <==> IsOver(Story(s, moves, i))
    ensures After(s, moves).reqs[i].led <==> Leads in Story(s, moves, i)
  {
    StoryGoesOn(s, moves, i);
  }
}
