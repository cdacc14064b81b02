/**
 * Token buckets by key, with idle buckets forgotten now and then. Times and rates are reals, in seconds
 * and tokens a second; each call reads the clock once.
 */
module RateLimit {
  import opened Basics

  /** A token bucket of the rate library: tokens left at a moment. */
  datatype Bucket = Bucket(tokens: real, at: real)

  /** A bucket and when its key was last seen. */
  datatype Slot = Slot(bucket: Bucket, last: real)

  datatype Params = Params(r: real, burst: nat, ttl: real)

  ghost predicate ValidParams(p: Params) {
    p.r > 0.0 && p.ttl >= 0.0
  }

  function MinReal(a: real, b: real): real {
    if a < b then a else b
  }

  /** The tokens that drip in over a time. */
  function Refill(r: real, elapsed: real): real {
    elapsed * r
  }

  function Level(p: Params, b: Bucket, now: real): real {
    MinReal(b.tokens + Refill(p.r, now - b.at), p.burst as real)
  }

  function FreshBucket(p: Params, now: real): Bucket {
    Bucket(p.burst as real, now)
  }

  /** A refusal leaves the bucket as it is. */
  function Take(p: Params, b: Bucket, now: real): (Bucket, bool) {
    if Level(p, b, now) >= 1.0 then (Bucket(Level(p, b, now) - 1.0, now), true) else (b, false)
  }

  function Ceil(x: real): int {
    -((-x).Floor)
  }

  function RetryAfter(r: real): int
    requires r > 0.0
  {
    Max(1, Ceil(1.0 / r))
  }

  const SWEEP_ABOVE: nat := 1024

  type Buckets = map<string, Slot>

  function Swept(p: Params, buckets: Buckets, now: real): Buckets {
    map k | k in buckets && buckets[k].last >= now - p.ttl :: buckets[k]
  }

  function Touch(p: Params, buckets: Buckets, key: string, now: real): (Buckets, bool) {
    var (bucket, ok) := Take(p, if key in buckets then buckets[key].bucket else FreshBucket(p, now), now);
    (buckets[key := Slot(bucket, now)], ok)
  }

  /** One request: idle buckets are swept first when there are many. */
  function AllowStep(p: Params, buckets: Buckets, key: string, now: real): (Buckets, bool) {
    Touch(p, if |buckets| > SWEEP_ABOVE then Swept(p, buckets, now) else buckets, key, now)
  }

  class Limiter {
    const p: Params
    var buckets: Buckets

    constructor (perMinute: real, burst: nat)
      ensures p == Params(perMinute / 60.0, burst, 600.0) && buckets == map[]
    {
      p := Params(perMinute / 60.0, burst, 600.0);
      buckets := map[];
    }

    method Sweep(now: real)
      modifies this
      ensures buckets == Swept(p, old(buckets), now)
    {
      var todo := buckets.Keys;
      while todo != {}
        invariant todo <= buckets.Keys <= old(buckets).Keys
        invariant forall k :: k in buckets ==> buckets[k] == old(buckets)[k]
        invariant forall k :: k in old(buckets) && k !in todo ==>
                    (k in buckets <==> old(buckets)[k].last >= now - p.ttl)
        decreases |todo|
      {
        var k :| k in todo;
        if buckets[k].last < now - p.ttl {
          buckets := buckets - {k};
        }
        todo := todo - {k};
      }
    }

    method Allow(key: string, now: real) returns (ok: bool, retryAfterSec: int)
      requires p.r > 0.0
      modifies this
      ensures (buckets, ok) == AllowStep(p, old(buckets), key, now)
      ensures retryAfterSec == if ok then 0 else RetryAfter(p.r)
    {
      if |buckets| > SWEEP_ABOVE {
        Sweep(now);
      }
      ghost var kept := buckets;
      if key !in buckets {
        buckets := buckets[key := Slot(FreshBucket(p, now), now)];
      }
      var (bucket, taken) := Take(p, buckets[key].bucket, now);
      buckets := buckets[key := Slot(bucket, now)];
      assert buckets == kept[key := Slot(bucket, now)];
      if taken {
        return true, 0;
      }
      var retry := Ceil(1.0 / p.r);
      if retry < 1 {
        retry := 1;
      }
      return false, retry;
    }
  }

  /** Nothing is forgotten while there are at most 1024 buckets; with more, exactly those idle for the time to live. */
  lemma ForgottenExact(p: Params, buckets: Buckets, key: string, now: real, other: string)
    requires other in buckets && other != key
    ensures var after := AllowStep(p, buckets, key, now).0;
            && (other in after <==> |buckets| <= 1024 || buckets[other].last >= now - p.ttl)
            && (other in after ==> after[other] == buckets[other])
  {
  }

  // ----- forgetting is invisible -----

  datatype Event = Event(key: string, time: real)

  /** Times do not go back. */
  predicate Ordered(events: seq<Event>, from: real)
    decreases |events|
  {
    events == [] || (events[0].time >= from && Ordered(events[1..], events[0].time))
  }

  /** The answers of the limiter, and of one that never forgets a bucket. */
  function Answers(p: Params, buckets: Buckets, events: seq<Event>): seq<bool>
    decreases |events|
  {
    if events == [] then []
    else
      var (next, ok) := AllowStep(p, buckets, events[0].key, events[0].time);
      [ok] + Answers(p, next, events[1..])
  }

  function UnforgettingAnswers(p: Params, buckets: Buckets, events: seq<Event>): seq<bool>
    decreases |events|
  {
    if events == [] then []
    else
      var (next, ok) := Touch(p, buckets, events[0].key, events[0].time);
      [ok] + UnforgettingAnswers(p, next, events[1..])
  }

  /** The buckets after a run of either limiter. */
  function Run(p: Params, buckets: Buckets, events: seq<Event>): Buckets
    decreases |events|
  {
    if events == [] then buckets
    else Run(p, AllowStep(p, buckets, events[0].key, events[0].time).0, events[1..])
  }

  function RunUnforgetting(p: Params, buckets: Buckets, events: seq<Event>): Buckets
    decreases |events|
  {
    if events == [] then buckets
    else RunUnforgetting(p, Touch(p, buckets, events[0].key, events[0].time).0, events[1..])
  }

  ghost predicate ValidSlots(p: Params, buckets: Buckets, now: real) {
    forall k :: k in buckets ==>
      && 0.0 <= buckets[k].bucket.tokens <= p.burst as real
      && buckets[k].bucket.at <= buckets[k].last <= now
  }

  ghost predicate IsFull(p: Params, b: Bucket, now: real) {
    b.tokens + Refill(p.r, now - b.at) >= p.burst as real
  }

  /** The limiter has the same buckets as the other one, but for some that are full by now. */
  ghost predicate Forgets(p: Params, lazy: Buckets, full: Buckets, now: real) {
    && (forall k :: k in lazy ==> k in full && lazy[k] == full[k])
    && (forall k :: k in full && k !in lazy ==> IsFull(p, full[k].bucket, now))
  }

  lemma RefillGrows(r: real, a: real, b: real)
    requires a <= b && r >= 0.0
    ensures Refill(r, a) <= Refill(r, b)
    ensures a == 0.0 ==> Refill(r, a) == 0.0
  {
  }

  lemma RefillAdds(r: real, a: real, b: real)
    ensures Refill(r, a + b) == Refill(r, a) + Refill(r, b)
  {
  }

  lemma StaysFull(p: Params, b: Bucket, now: real, later: real)
    requires ValidParams(p) && IsFull(p, b, now) && now <= later
    ensures IsFull(p, b, later)
  {
    RefillGrows(p.r, now - b.at, later - b.at);
  }

  lemma IdleIsFull(p: Params, s: Slot, now: real)
    requires ValidParams(p) && p.r * p.ttl >= p.burst as real
    requires 0.0 <= s.bucket.tokens && s.bucket.at <= s.last < now - p.ttl
    ensures IsFull(p, s.bucket, now)
  {
    RefillGrows(p.r, p.ttl, now - s.bucket.at);
  }

  lemma SweepForgetsFull(p: Params, lazy: Buckets, full: Buckets, now: real)
    requires ValidParams(p) && p.r * p.ttl >= p.burst as real
    requires Forgets(p, lazy, full, now) && ValidSlots(p, full, now)
    ensures Forgets(p, Swept(p, lazy, now), full, now)
  {
    forall k | k in full && k !in Swept(p, lazy, now) ensures IsFull(p, full[k].bucket, now) {
      if k in lazy {
        IdleIsFull(p, full[k], now);
      }
    }
  }

  lemma TakeKeepsValid(p: Params, b: Bucket, now: real)
    requires ValidParams(p) && 0.0 <= b.tokens <= p.burst as real && b.at <= now
    ensures var after := Take(p, b, now).0;
            0.0 <= after.tokens <= p.burst as real && after.at <= now
  {
    RefillGrows(p.r, 0.0, now - b.at);
  }

  lemma TouchKeepsValid(p: Params, buckets: Buckets, key: string, now: real)
    requires ValidParams(p) && ValidSlots(p, buckets, now)
    ensures ValidSlots(p, Touch(p, buckets, key, now).0, now)
  {
    TakeKeepsValid(p, if key in buckets then buckets[key].bucket else FreshBucket(p, now), now);
  }

  /** A forgotten full bucket and a fresh one answer alike and are the same afterwards. */
  lemma TouchForgets(p: Params, lazy: Buckets, full: Buckets, key: string, now: real)
    requires ValidParams(p) && p.burst >= 1 && Forgets(p, lazy, full, now)
    ensures Touch(p, lazy, key, now).1 == Touch(p, full, key, now).1
    ensures Forgets(p, Touch(p, lazy, key, now).0, Touch(p, full, key, now).0, now)
  {
    if key in lazy {
      assert lazy[key] == full[key];
    } else if key in full {
      FullIsFresh(p, full[key].bucket, now);
    }
  }

  lemma FullIsFresh(p: Params, b: Bucket, now: real)
    requires p.burst >= 1 && IsFull(p, b, now)
    ensures Take(p, b, now) == Take(p, FreshBucket(p, now), now)
  {
    RefillNothing(p.r);
    assert Level(p, b, now) == Level(p, FreshBucket(p, now), now) == p.burst as real;
  }

  lemma LaterForgets(p: Params, lazy: Buckets, full: Buckets, now: real, later: real)
    requires ValidParams(p) && Forgets(p, lazy, full, now) && now <= later
    ensures Forgets(p, lazy, full, later)
  {
    forall k | k in full && k !in lazy ensures IsFull(p, full[k].bucket, later) {
      StaysFull(p, full[k].bucket, now, later);
    }
  }

  lemma {:induction false} SameAnswers(p: Params, lazy: Buckets, full: Buckets, now: real, events: seq<Event>)
    requires ValidParams(p) && p.burst >= 1 && p.r * p.ttl >= p.burst as real
    requires Forgets(p, lazy, full, now) && ValidSlots(p, full, now) && Ordered(events, now)
    ensures Answers(p, lazy, events) == UnforgettingAnswers(p, full, events)
    decreases |events|
  {
    if events != [] {
      var key, t := events[0].key, events[0].time;
      LaterForgets(p, lazy, full, now, t);
      SweepForgetsFull(p, lazy, full, t);
      TouchForgets(p, if |lazy| > SWEEP_ABOVE then Swept(p, lazy, t) else lazy, full, key, t);
      TouchKeepsValid(p, full, key, t);
      SameAnswers(p, AllowStep(p, lazy, key, t).0, Touch(p, full, key, t).0, t, events[1..]);
    }
  }

  lemma {:induction false} EmptyBucketsRefuse(p: Params, buckets: Buckets, other: Buckets, events: seq<Event>)
    requires p.burst == 0
    ensures Answers(p, buckets, events) == UnforgettingAnswers(p, other, events)
    decreases |events|
  {
    if events != [] {
      EmptyBucketsRefuse(p, AllowStep(p, buckets, events[0].key, events[0].time).0,
                         Touch(p, other, events[0].key, events[0].time).0, events[1..]);
    }
  }

  /** If a bucket refills within its time to live, sweeping never changes an answer. */
  lemma SweepIsInvisible(p: Params, events: seq<Event>, start: real)
    requires ValidParams(p) && p.r * p.ttl >= p.burst as real && Ordered(events, start)
    ensures Answers(p, map[], events) == UnforgettingAnswers(p, map[], events)
  {
    if p.burst == 0 {
      EmptyBucketsRefuse(p, map[], map[], events);
    } else {
      SameAnswers(p, map[], map[], start, events);
    }
  }

  /** A time past the time to live at which an emptied bucket is still not full. */
  lemma NotYetFull(p: Params) returns (idle: real)
    requires ValidParams(p) && p.r * p.ttl < p.burst as real
    ensures idle > p.ttl && idle * p.r < p.burst as real
  {
    var full := p.burst as real / p.r;
    assert full * p.r == p.burst as real;
    if full <= p.ttl {
      RefillGrows(p.r, full, p.ttl);
    }
    idle := (p.ttl + full) / 2.0;
    assert idle < full;
    assert (full - idle) * p.r > 0.0;
  }

  /** How many requests in a row a bucket admits at one moment. */
  predicate AdmitsInARow(p: Params, b: Bucket, now: real, n: nat)
    decreases n
  {
    n == 0 || (Take(p, b, now).1 && AdmitsInARow(p, Take(p, b, now).0, now, n - 1))
  }

  lemma {:induction false} AdmitsInARowIff(p: Params, b: Bucket, now: real, n: nat)
    requires ValidParams(p)
    ensures AdmitsInARow(p, b, now, n) <==> n == 0 || Level(p, b, now) >= n as real
    decreases n
  {
    if n > 0 && Level(p, b, now) >= 1.0 {
      var rest := Take(p, b, now).0;
      RefillGrows(p.r, 0.0, now - rest.at);
      assert Level(p, rest, now) == Level(p, b, now) - 1.0;
      AdmitsInARowIff(p, rest, now, n - 1);
    }
  }

  /** Then forgetting shows: where the kept bucket refuses part of a burst, the fresh one admits it all. */
  lemma SlowRefillSweepShows(p: Params) returns (kept: Bucket, now: real)
    requires ValidParams(p) && p.r * p.ttl < p.burst as real
    ensures kept == Bucket(0.0, 0.0) && now > p.ttl
    ensures AdmitsInARow(p, FreshBucket(p, now), now, p.burst) && !AdmitsInARow(p, kept, now, p.burst)
  {
    now := NotYetFull(p);
    kept := Bucket(0.0, 0.0);
    AdmitsInARowIff(p, FreshBucket(p, now), now, p.burst);
    AdmitsInARowIff(p, kept, now, p.burst);
  }

  // ----- the condition is exact: a run of requests that shows the forgetting -----

  /** n requests of one key at one moment. */
  function Repeat(key: string, t: real, n: nat): seq<Event> {
    if n == 0 then [] else [Event(key, t)] + Repeat(key, t, n - 1)
  }

  function Name(n: nat): string {
    seq(n, _ => 'x')
  }

  /** Requests of n different keys at one moment. */
  function Crowd(n: nat, t: real): seq<Event> {
    if n == 0 then [] else [Event(Name(n), t)] + Crowd(n - 1, t)
  }

  lemma {:induction false} RepeatOrdered(key: string, t: real, n: nat)
    ensures Ordered(Repeat(key, t, n), t) && forall e :: e in Repeat(key, t, n) ==> e == Event(key, t)
  {
    if n > 0 {
      RepeatOrdered(key, t, n - 1);
    }
  }

  lemma {:induction false} CrowdOrdered(n: nat, t: real)
    ensures Ordered(Crowd(n, t), t) && forall e :: e in Crowd(n, t) ==> e.time == t
  {
    if n > 0 {
      CrowdOrdered(n - 1, t);
    }
  }

  function Drained(n: nat): Buckets {
    map["" := Slot(Bucket(n as real, 0.0), 0.0)]
  }

  /** As many requests as there are tokens empty a bucket. */
  lemma {:induction false} Drains(p: Params, n: nat)
    requires n <= p.burst
    ensures Run(p, Drained(n), Repeat("", 0.0, n)) == Drained(0)
    ensures RunUnforgetting(p, Drained(n), Repeat("", 0.0, n)) == Drained(0)
  {
    if n > 0 {
      RefillNothing(p.r);
      assert Level(p, Drained(n)[""].bucket, 0.0) == n as real;
      assert Touch(p, Drained(n), "", 0.0).0 == Drained(n - 1);
      Drains(p, n - 1);
    }
  }

  lemma EmptyingBurst(p: Params)
    requires p.burst >= 1
    ensures Run(p, map[], Repeat("", 0.0, p.burst)) == Drained(0)
    ensures RunUnforgetting(p, map[], Repeat("", 0.0, p.burst)) == Drained(0)
  {
    var none: Buckets := map[];
    FirstDrains(p, none);
    Drains(p, p.burst - 1);
    var events := Repeat("", 0.0, p.burst);
    assert events[0] == Event("", 0.0) && events[1..] == Repeat("", 0.0, p.burst - 1);
  }

  lemma FirstDrains(p: Params, buckets: Buckets)
    requires p.burst >= 1 && buckets == map[]
    ensures Touch(p, buckets, "", 0.0).0 == AllowStep(p, buckets, "", 0.0).0 == Drained(p.burst - 1)
  {
    RefillNothing(p.r);
    assert Level(p, FreshBucket(p, 0.0), 0.0) == p.burst as real;
  }

  ghost predicate LastSeen(buckets: Buckets, t: real) {
    forall k :: k in buckets ==> buckets[k].last == t
  }

  /** A crowd of new keys fills the table up to the size at which the next request sweeps. */
  lemma {:induction false} CrowdFills(p: Params, buckets: Buckets, n: nat, t: real)
    requires |buckets| + n <= SWEEP_ABOVE + 1 && LastSeen(buckets, t)
    requires "" in buckets && forall k :: k in buckets ==> k == "" || |k| > n
    ensures var after := Run(p, buckets, Crowd(n, t));
            && after == RunUnforgetting(p, buckets, Crowd(n, t))
            && |after| == |buckets| + n && LastSeen(after, t)
            && "" in after && after[""] == buckets[""]
    decreases n
  {
    if n > 0 {
      var next := Touch(p, buckets, Name(n), t).0;
      assert Name(n) !in buckets;
      assert next.Keys == buckets.Keys + {Name(n)};
      assert |next| == |next.Keys| == |buckets.Keys| + 1;
      CrowdFills(p, next, n - 1, t);
    }
  }

  function BucketOf(p: Params, buckets: Buckets, key: string, now: real): Bucket {
    if key in buckets then buckets[key].bucket else FreshBucket(p, now)
  }

  ghost predicate AllAdmitted(answers: seq<bool>) {
    forall i :: 0 <= i < |answers| ==> answers[i]
  }

  lemma {:induction false} RepeatAnswers(p: Params, buckets: Buckets, key: string, t: real, n: nat)
    ensures AllAdmitted(UnforgettingAnswers(p, buckets, Repeat(key, t, n)))
            <==> AdmitsInARow(p, BucketOf(p, buckets, key, t), t, n)
    decreases n
  {
    if n > 0 {
      var (next, ok) := Touch(p, buckets, key, t);
      RepeatAnswers(p, next, key, t, n - 1);
      var later := UnforgettingAnswers(p, next, Repeat(key, t, n - 1));
      var answers := UnforgettingAnswers(p, buckets, Repeat(key, t, n));
      assert answers == [ok] + later;
      assert AllAdmitted(answers) <==> ok && AllAdmitted(later) by {
        if AllAdmitted(answers) {
          assert answers[0] == ok;
          assert forall i :: 0 <= i < |later| ==> later[i] == answers[i + 1];
        }
      }
    }
  }

  /** A table with one key at most is never swept. */
  lemma {:induction false} SingleKeyAnswers(p: Params, buckets: Buckets, key: string, t: real, n: nat)
    requires buckets.Keys <= {key}
    ensures Answers(p, buckets, Repeat(key, t, n)) == UnforgettingAnswers(p, buckets, Repeat(key, t, n))
    decreases n
  {
    if n > 0 {
      SubsetOfOne(buckets, key);
      SingleKeyAnswers(p, Touch(p, buckets, key, t).0, key, t, n - 1);
    }
  }

  lemma SubsetOfOne(buckets: Buckets, key: string)
    requires buckets.Keys <= {key}
    ensures |buckets| <= SWEEP_ABOVE
  {
    assert buckets.Keys == {} || buckets.Keys == {key};
    assert |buckets| == |buckets.Keys|;
  }

  /** A full table that nobody used for longer than the time to live is forgotten altogether. */
  lemma IdleTableAnswers(p: Params, buckets: Buckets, t: real, now: real, n: nat)
    requires |buckets| > SWEEP_ABOVE && LastSeen(buckets, t) && t < now - p.ttl && n >= 1
    ensures Answers(p, buckets, Repeat("", now, n)) == UnforgettingAnswers(p, map[], Repeat("", now, n))
  {
    var none: Buckets := map[];
    assert Swept(p, buckets, now) == none;
    SingleKeyAnswers(p, Touch(p, none, "", now).0, "", now, n - 1);
  }

  /** A run on which the sweeping limiter and the one that never forgets give different answers. */
  lemma ForgettingRun(p: Params) returns (events: seq<Event>)
    requires ValidParams(p) && p.r * p.ttl < p.burst as real
    ensures Ordered(events, 0.0) && Answers(p, map[], events) != UnforgettingAnswers(p, map[], events)
  {
    var none: Buckets := map[];
    assert p.r * p.ttl >= 0.0;
    var kept, idle := SlowRefillSweepShows(p);
    var drain, crowd, again := Repeat("", 0.0, p.burst), Crowd(SWEEP_ABOVE, 0.0), Repeat("", idle, p.burst);
    var before := drain + crowd;
    events := before + again;
    EmptyingBurst(p);
    CrowdFills(p, Drained(0), SWEEP_ABOVE, 0.0);
    SplitRun(p, none, drain, crowd);
    SplitUnforgettingRun(p, none, drain, crowd);
    var full := Run(p, none, before);
    IdleTableAnswers(p, full, 0.0, idle, p.burst);
    RepeatAnswers(p, none, "", idle, p.burst);
    RepeatAnswers(p, full, "", idle, p.burst);
    ForgettingRunOrdered(drain, crowd, again, idle, p.burst);
    SplitSweepingAnswers(p, none, before, again);
    SplitAnswers(p, none, before, again);
    OneAnswerEach(p, none, before);
    assert Answers(p, none, events)[|before|..] == Answers(p, full, again);
    assert UnforgettingAnswers(p, none, events)[|before|..] == UnforgettingAnswers(p, full, again);
  }

  lemma ForgettingRunOrdered(drain: seq<Event>, crowd: seq<Event>, again: seq<Event>, idle: real, n: nat)
    requires drain == Repeat("", 0.0, n) && crowd == Crowd(SWEEP_ABOVE, 0.0)
    requires again == Repeat("", idle, n) && idle >= 0.0
    ensures Ordered(drain + crowd + again, 0.0)
  {
    RepeatOrdered("", 0.0, n);
    CrowdOrdered(SWEEP_ABOVE, 0.0);
    RepeatOrdered("", idle, n);
    forall i | 0 <= i < |drain| ensures drain[i].time <= 0.0 {
      assert drain[i] in drain;
    }
    JoinOrdered(drain, crowd, 0.0, 0.0);
    var before := drain + crowd;
    forall i | 0 <= i < |before| ensures before[i].time <= idle {
      assert before[i] in drain || before[i] in crowd;
    }
    JoinOrdered(before, again, 0.0, idle);
  }

  /** No run of requests can tell the sweeping limiter from one that never forgets. */
  ghost predicate SweepInvisible(p: Params) {
    forall events, start :: Ordered(events, start) ==>
      Answers(p, map[], events) == UnforgettingAnswers(p, map[], events)
  }

  /** The condition is exact: sweeping is invisible if and only if a bucket refills within its time to live. */
  lemma SweepInvisibleIff(p: Params)
    requires ValidParams(p)
    ensures SweepInvisible(p) <==> p.r * p.ttl >= p.burst as real
  {
    if p.r * p.ttl >= p.burst as real {
      forall events, start | Ordered(events, start)
        ensures Answers(p, map[], events) == UnforgettingAnswers(p, map[], events)
      {
        SweepIsInvisible(p, events, start);
      }
    } else {
      var events := ForgettingRun(p);
      assert Ordered(events, 0.0);
    }
  }

  /** Sweeping shows in the registration limiter (10 an hour, burst 3), not in the write limiter (60 a minute, 10). */
  lemma WhichLimitersSweepInvisibly()
    ensures !SweepInvisible(Params(10.0 / 60.0 / 60.0, 3, 600.0))
    ensures SweepInvisible(Params(60.0 / 60.0, 10, 600.0))
  {
    SweepInvisibleIff(Params(10.0 / 60.0 / 60.0, 3, 600.0));
    SweepInvisibleIff(Params(60.0 / 60.0, 10, 600.0));
  }

  // ----- how much gets through -----

  function Admitted(events: seq<Event>, answers: seq<bool>, key: string): nat
    requires |answers| == |events|
    decreases |events|
  {
    if events == [] then 0
    else (if events[0].key == key && answers[0] then 1 else 0) + Admitted(events[1..], answers[1..], key)
  }

  /** How often a key comes back after more than the time to live; last is when it was seen before. */
  function Gaps(events: seq<Event>, key: string, last: Option<real>, ttl: real): nat
    decreases |events|
  {
    if events == [] then 0
    else if events[0].key != key then Gaps(events[1..], key, last, ttl)
    else
      (if last.Some? && events[0].time - last.value > ttl then 1 else 0)
      + Gaps(events[1..], key, Some(events[0].time), ttl)
  }

  /** What a bucket holds at least once it has been idle for the time to live. */
  function Reserve(p: Params): real {
    MinReal(Refill(p.r, p.ttl), p.burst as real)
  }

  /** What a key gains at most when its idle bucket is forgotten. */
  function Gift(p: Params): real {
    p.burst as real - Reserve(p)
  }

  /** What the key could take at once, before gifts; last is when it was seen in the window, if it was. */
  function Standing(p: Params, buckets: Buckets, key: string, last: Option<real>, now: real): real {
    if last.None? then p.burst as real
    else if key in buckets then Level(p, buckets[key].bucket, now)
    else Reserve(p)
  }

  /** A bucket of a key that was seen is there from that moment, or was forgotten after the time to live. */
  ghost predicate Tracks(p: Params, buckets: Buckets, key: string, last: Option<real>, now: real) {
    && ValidSlots(p, buckets, now)
    && (last.Some? ==> if key in buckets then buckets[key].last == last.value else last.value < now - p.ttl)
  }

  lemma RefillNothing(r: real)
    ensures Refill(r, 0.0) == 0.0
  {
  }

  lemma GiftNotNegative(p: Params)
    requires ValidParams(p)
    ensures 0.0 <= Reserve(p) <= p.burst as real && 0.0 <= Gift(p)
  {
    RefillGrows(p.r, 0.0, p.ttl);
  }

  lemma StandingNotNegative(p: Params, buckets: Buckets, key: string, last: Option<real>, now: real)
    requires ValidParams(p) && ValidSlots(p, buckets, now)
    ensures 0.0 <= Standing(p, buckets, key, last, now) <= p.burst as real
  {
    GiftNotNegative(p);
    if key in buckets {
      RefillGrows(p.r, 0.0, now - buckets[key].bucket.at);
    }
  }

  lemma StandingGrows(p: Params, buckets: Buckets, key: string, last: Option<real>, now: real, later: real)
    requires ValidParams(p) && now <= later
    ensures Standing(p, buckets, key, last, later) <= Standing(p, buckets, key, last, now) + Refill(p.r, later - now)
  {
    RefillGrows(p.r, 0.0, later - now);
    if key in buckets {
      var b := buckets[key].bucket;
      RefillAdds(p.r, now - b.at, later - now);
      assert now - b.at + (later - now) == later - b.at;
    }
  }

  /** A bucket that is swept held its reserve. */
  lemma SweepKeepsStanding(p: Params, buckets: Buckets, key: string, last: Option<real>, now: real)
    requires ValidParams(p) && Tracks(p, buckets, key, last, now)
    ensures Tracks(p, Swept(p, buckets, now), key, last, now)
    ensures Standing(p, Swept(p, buckets, now), key, last, now) <= Standing(p, buckets, key, last, now)
  {
    if key in buckets {
      var slot := buckets[key];
      if slot.last < now - p.ttl {
        RefillGrows(p.r, p.ttl, now - slot.bucket.at);
      }
    }
  }

  /** A request spends what it takes; a key that comes back to a forgotten bucket gets the gift. */
  lemma TouchSpends(p: Params, buckets: Buckets, key: string, last: Option<real>, now: real)
    requires ValidParams(p) && Tracks(p, buckets, key, last, now)
    ensures var (after, ok) := Touch(p, buckets, key, now);
            && Tracks(p, after, key, Some(now), now)
            && Standing(p, after, key, Some(now), now) + (if ok then 1.0 else 0.0)
               <= Standing(p, buckets, key, last, now)
                  + (if last.Some? && now - last.value > p.ttl then Gift(p) else 0.0)
  {
    RefillNothing(p.r);
    GiftNotNegative(p);
    TouchKeepsValid(p, buckets, key, now);
    StandingNotNegative(p, buckets, key, last, now);
  }

  lemma OthersSpendNothing(p: Params, buckets: Buckets, other: string, key: string, last: Option<real>, now: real)
    requires ValidParams(p) && Tracks(p, buckets, key, last, now) && other != key
    ensures var after := Touch(p, buckets, other, now).0;
            && Tracks(p, after, key, last, now)
            && Standing(p, after, key, last, now) == Standing(p, buckets, key, last, now)
  {
    TouchKeepsValid(p, buckets, other, now);
  }

  lemma TimePasses(p: Params, buckets: Buckets, key: string, last: Option<real>, now: real, later: real)
    requires ValidParams(p) && Tracks(p, buckets, key, last, now) && now <= later
    ensures Tracks(p, buckets, key, last, later)
  {
  }

  /** One request of anybody. */
  lemma StepSpends(p: Params, buckets: Buckets, key: string, last: Option<real>, now: real, e: Event)
    requires ValidParams(p) && Tracks(p, buckets, key, last, now) && now <= e.time
    ensures var (after, ok) := AllowStep(p, buckets, e.key, e.time);
            var seen := if e.key == key then Some(e.time) else last;
            && Tracks(p, after, key, seen, e.time)
            && Standing(p, after, key, seen, e.time) + (if e.key == key && ok then 1.0 else 0.0)
               <= Standing(p, buckets, key, last, now) + Refill(p.r, e.time - now)
                  + (if e.key == key && last.Some? && e.time - last.value > p.ttl then Gift(p) else 0.0)
  {
    var kept := if |buckets| > SWEEP_ABOVE then Swept(p, buckets, e.time) else buckets;
    assert AllowStep(p, buckets, e.key, e.time) == Touch(p, kept, e.key, e.time);
    StandingGrows(p, buckets, key, last, now, e.time);
    TimePasses(p, buckets, key, last, now, e.time);
    SweepKeepsStanding(p, buckets, key, last, e.time);
    if e.key == key {
      TouchSpends(p, kept, key, last, e.time);
    } else {
      OthersSpendNothing(p, kept, e.key, key, last, e.time);
    }
  }

  /** Standing, refill and gifts that are left for the rest of the requests. */
  function Allowance(
      p: Params, buckets: Buckets, events: seq<Event>, key: string, last: Option<real>, now: real, end: real): real
  {
    Standing(p, buckets, key, last, now) + Refill(p.r, end - now)
    + Refill(Gift(p), Gaps(events, key, last, p.ttl) as real)
  }

  lemma StepAllowance(
      p: Params, buckets: Buckets, events: seq<Event>, key: string, last: Option<real>, now: real, end: real)
    requires ValidParams(p) && Tracks(p, buckets, key, last, now) && events != [] && now <= events[0].time
    ensures var e := events[0];
            var (after, ok) := AllowStep(p, buckets, e.key, e.time);
            var seen := if e.key == key then Some(e.time) else last;
            && Tracks(p, after, key, seen, e.time)
            && Allowance(p, after, events[1..], key, seen, e.time, end) + (if e.key == key && ok then 1.0 else 0.0)
               <= Allowance(p, buckets, events, key, last, now, end)
  {
    var e := events[0];
    var seen := if e.key == key then Some(e.time) else last;
    var gap := if e.key == key && last.Some? && e.time - last.value > p.ttl then 1 else 0;
    var rest := Gaps(events[1..], key, seen, p.ttl);
    StepSpends(p, buckets, key, last, now, e);
    RefillAdds(p.r, end - e.time, e.time - now);
    assert end - e.time + (e.time - now) == end - now;
    assert Gaps(events, key, last, p.ttl) == gap + rest;
    GiftsAdd(p, gap, rest);
  }

  lemma {:induction false} AdmittedWithinAllowance(
      p: Params, buckets: Buckets, events: seq<Event>, key: string, last: Option<real>, now: real, end: real)
    requires ValidParams(p) && Tracks(p, buckets, key, last, now) && Ordered(events, now) && now <= end
    requires forall i :: 0 <= i < |events| ==> events[i].time <= end
    ensures |Answers(p, buckets, events)| == |events|
    ensures Admitted(events, Answers(p, buckets, events), key) as real
         <= Allowance(p, buckets, events, key, last, now, end)
    decreases |events|
  {
    if events == [] {
      StandingNotNegative(p, buckets, key, last, now);
      RefillGrows(p.r, 0.0, end - now);
      RefillNothing(Gift(p));
    } else {
      var e, rest := events[0], events[1..];
      var (next, ok) := AllowStep(p, buckets, e.key, e.time);
      StepAllowance(p, buckets, events, key, last, now, end);
      AdmittedWithinAllowance(p, next, rest, key, if e.key == key then Some(e.time) else last, e.time, end);
      var answers := Answers(p, next, rest);
      assert Answers(p, buckets, events) == [ok] + answers;
      assert ([ok] + answers)[1..] == answers;
      assert Admitted(events, [ok] + answers, key)
          == (if e.key == key && ok then 1 else 0) + Admitted(rest, answers, key);
    }
  }

  lemma GiftsAdd(p: Params, gap: nat, rest: nat)
    requires gap <= 1
    ensures Refill(Gift(p), (gap + rest) as real) == (if gap == 1 then Gift(p) else 0.0) + Refill(Gift(p), rest as real)
  {
    RefillAdds(Gift(p), gap as real, rest as real);
  }

  /** The gaps of a key fit one after the other into the time. */
  lemma {:induction false} GapsFit(
      events: seq<Event>, key: string, last: Option<real>, ttl: real, now: real, end: real)
    requires ttl >= 0.0 && Ordered(events, now) && now <= end && (last.Some? ==> last.value <= now)
    requires forall i :: 0 <= i < |events| ==> events[i].time <= end
    ensures Refill(ttl, Gaps(events, key, last, ttl) as real) <= end - if last.Some? then last.value else now
    decreases |events|
  {
    if events != [] {
      var e := events[0];
      GapsFit(events[1..], key, if e.key == key then Some(e.time) else last, ttl, e.time, end);
      if e.key == key {
        RefillAdds(ttl, 1.0, Gaps(events[1..], key, Some(e.time), ttl) as real);
      }
    }
  }

  lemma {:induction false} RunKeepsValid(p: Params, buckets: Buckets, events: seq<Event>, now: real, end: real)
    requires ValidParams(p) && ValidSlots(p, buckets, now) && Ordered(events, now) && now <= end
    requires forall i :: 0 <= i < |events| ==> events[i].time <= end
    ensures ValidSlots(p, Run(p, buckets, events), end)
    decreases |events|
  {
    if events != [] {
      var key, t := events[0].key, events[0].time;
      TouchKeepsValid(p, if |buckets| > SWEEP_ABOVE then Swept(p, buckets, t) else buckets, key, t);
      RunKeepsValid(p, AllowStep(p, buckets, key, t).0, events[1..], t, end);
    }
  }

  /**
   * In any window of length T the limiter admits a key at most burst + r * T times, and beyond that what the
   * key gains by coming back to a forgotten bucket: for each gap longer than the time to live, of which there
   * are no more than fit into T, the tokens that did not drip in during the time to live. Where a bucket
   * refills within its time to live nothing is gained.
   */
  lemma WindowBound(p: Params, before: seq<Event>, window: seq<Event>, key: string, start: real, from: real, to: real)
    requires ValidParams(p) && Ordered(before, start) && start <= from <= to
    requires (forall i :: 0 <= i < |before| ==> before[i].time <= from) && Ordered(window, from)
    requires forall i :: 0 <= i < |window| ==> window[i].time <= to
    ensures |Answers(p, map[], before + window)| == |before| + |window|
    ensures var gaps := Gaps(window, key, None, p.ttl) as real;
            var admitted := Admitted(window, Answers(p, map[], before + window)[|before|..], key) as real;
            && Refill(p.ttl, gaps) <= to - from
            && admitted <= p.burst as real + Refill(p.r, to - from) + Refill(Gift(p), gaps)
            && (p.r * p.ttl >= p.burst as real ==> admitted <= p.burst as real + Refill(p.r, to - from))
  {
    var none: Buckets := map[];
    SplitSweepingAnswers(p, none, before, window);
    RunKeepsValid(p, none, before, start, from);
    var buckets := Run(p, none, before);
    assert Answers(p, none, before + window)[|before|..] == Answers(p, buckets, window);
    AdmittedWithinAllowance(p, buckets, window, key, None, from, to);
    GapsFit(window, key, None, p.ttl, from, to);
    if p.r * p.ttl >= p.burst as real {
      NothingGained(p, Gaps(window, key, None, p.ttl) as real);
    }
  }

  lemma NothingGained(p: Params, gaps: real)
    requires p.r * p.ttl >= p.burst as real
    ensures Refill(Gift(p), gaps) == 0.0
  {
    assert Gift(p) == 0.0;
  }

  /** The registration limiter, 10 an hour with bursts of 3, lets at most 21 through in an hour. */
  lemma RegistrationsPerHour(p: Params, before: seq<Event>, window: seq<Event>, key: string, start: real, from: real)
    requires p == Params(10.0 / 60.0 / 60.0, 3, 600.0) && Ordered(before, start) && start <= from
    requires (forall i :: 0 <= i < |before| ==> before[i].time <= from) && Ordered(window, from)
    requires forall i :: 0 <= i < |window| ==> window[i].time <= from + 3600.0
    ensures |Answers(p, map[], before + window)| == |before| + |window|
    ensures Admitted(window, Answers(p, map[], before + window)[|before|..], key) <= 21
  {
    WindowBound(p, before, window, key, start, from, from + 3600.0);
    var gaps := Gaps(window, key, None, p.ttl) as real;
    assert gaps <= 6.0;
    assert Gift(p) <= 4.0 / 3.0;
    RefillBounded(Gift(p), gaps);
  }

  lemma RefillBounded(r: real, n: real)
    requires 0.0 <= r <= 4.0 / 3.0 && 0.0 <= n <= 6.0
    ensures Refill(r, n) <= 8.0
  {
    RefillGrows(r, n, 6.0);
  }

  lemma {:induction false} JoinOrdered(a: seq<Event>, b: seq<Event>, start: real, from: real)
    requires Ordered(a, start) && Ordered(b, from) && start <= from && forall i :: 0 <= i < |a| ==> a[i].time <= from
    ensures Ordered(a + b, start)
    decreases |a|
  {
    if a == [] {
      assert a + b == b;
    } else {
      JoinOrdered(a[1..], b, a[0].time, from);
      assert (a + b)[1..] == a[1..] + b;
    }
  }

  lemma Regroup(ok: bool, x: seq<bool>, y: seq<bool>)
    ensures [ok] + (x + y) == [ok] + x + y
  {
  }

  lemma {:induction false} SplitAnswers(p: Params, buckets: Buckets, a: seq<Event>, b: seq<Event>)
    ensures UnforgettingAnswers(p, buckets, a + b)
         == UnforgettingAnswers(p, buckets, a) + UnforgettingAnswers(p, RunUnforgetting(p, buckets, a), b)
    decreases |a|
  {
    if a == [] {
      assert a + b == b;
    } else {
      var (next, ok) := Touch(p, buckets, a[0].key, a[0].time);
      SplitAnswers(p, next, a[1..], b);
      assert (a + b)[1..] == a[1..] + b && (a + b)[0] == a[0];
      Regroup(ok, UnforgettingAnswers(p, next, a[1..]), UnforgettingAnswers(p, RunUnforgetting(p, buckets, a), b));
    }
  }

  lemma {:induction false} SplitSweepingAnswers(p: Params, buckets: Buckets, a: seq<Event>, b: seq<Event>)
    ensures Answers(p, buckets, a + b) == Answers(p, buckets, a) + Answers(p, Run(p, buckets, a), b)
    ensures |Answers(p, buckets, a)| == |a|
    decreases |a|
  {
    if a == [] {
      assert a + b == b;
    } else {
      var (next, ok) := AllowStep(p, buckets, a[0].key, a[0].time);
      SplitSweepingAnswers(p, next, a[1..], b);
      assert (a + b)[1..] == a[1..] + b && (a + b)[0] == a[0];
      Regroup(ok, Answers(p, next, a[1..]), Answers(p, Run(p, buckets, a), b));
    }
  }

  lemma {:induction false} SplitRun(p: Params, buckets: Buckets, a: seq<Event>, b: seq<Event>)
    ensures Run(p, buckets, a + b) == Run(p, Run(p, buckets, a), b)
    decreases |a|
  {
    if a == [] {
      assert a + b == b;
    } else {
      assert (a + b)[1..] == a[1..] + b;
      SplitRun(p, AllowStep(p, buckets, a[0].key, a[0].time).0, a[1..], b);
    }
  }

  lemma {:induction false} SplitUnforgettingRun(p: Params, buckets: Buckets, a: seq<Event>, b: seq<Event>)
    ensures RunUnforgetting(p, buckets, a + b) == RunUnforgetting(p, RunUnforgetting(p, buckets, a), b)
    decreases |a|
  {
    if a == [] {
      assert a + b == b;
    } else {
      assert (a + b)[1..] == a[1..] + b;
      SplitUnforgettingRun(p, Touch(p, buckets, a[0].key, a[0].time).0, a[1..], b);
    }
  }

  lemma {:induction false} OneAnswerEach(p: Params, buckets: Buckets, events: seq<Event>)
    ensures |UnforgettingAnswers(p, buckets, events)| == |events|
    decreases |events|
  {
    if events != [] {
      OneAnswerEach(p, Touch(p, buckets, events[0].key, events[0].time).0, events[1..]);
    }
  }

  /** A request takes one whole token or leaves the bucket to fill as if it had not been made. */
  lemma TakeExact(p: Params, b: Bucket, now: real, later: real)
    requires ValidParams(p) && b.at <= now <= later
    ensures Take(p, b, now).1 <==> b.tokens + Refill(p.r, now - b.at) >= 1.0 && p.burst >= 1
    ensures !Take(p, b, now).1 ==> Level(p, Take(p, b, now).0, later) == Level(p, b, later)
    ensures Take(p, b, now).1 ==>
              Level(p, Take(p, b, now).0, later)
              == MinReal(Level(p, b, now) - 1.0 + Refill(p.r, later - now), p.burst as real)
  {
  }

  // ----- Retry-After -----

  /** A refused key that is left alone for the time it was told is then admitted. */
  lemma RetryAfterIsEnough(p: Params, b: Bucket, now: real, later: real)
    requires ValidParams(p) && p.burst >= 1 && 0.0 <= b.tokens && b.at <= now
    requires later >= now + RetryAfter(p.r) as real
    ensures Take(p, b, later).1
  {
    CeilIsNotLess(1.0 / p.r);
    OneOverTimes(p.r);
    RefillGrows(p.r, 1.0 / p.r, later - b.at);
  }

  /** It is the least whole number of seconds, one at least, in which a token drips in. */
  lemma RetryAfterIsLeast(r: real, n: int)
    requires r > 0.0
    ensures RetryAfter(r) <= n <==> n >= 1 && Refill(r, n as real) >= 1.0
  {
    OneOverTimes(r);
    CeilIsLeast(1.0 / r, n);
    if n as real >= 1.0 / r {
      RefillGrows(r, 1.0 / r, n as real);
    } else {
      assert (1.0 / r - n as real) * r > 0.0;
    }
  }

  lemma CeilIsLeast(x: real, n: int)
    ensures Ceil(x) <= n <==> n as real >= x
  {
  }

  lemma OneOverTimes(r: real)
    requires r > 0.0
    ensures Refill(r, 1.0 / r) == 1.0
  {
  }

  lemma CeilIsNotLess(x: real)
    ensures Ceil(x) as real >= x
  {
  }

  /** Requests of other keys leave a bucket as it is, or get it swept. */
  lemma {:induction false} OthersKeepOrForget(p: Params, buckets: Buckets, events: seq<Event>, key: string)
    requires forall i :: 0 <= i < |events| ==> events[i].key != key
    ensures key in Run(p, buckets, events) ==> key in buckets && Run(p, buckets, events)[key] == buckets[key]
    decreases |events|
  {
    if events != [] {
      OthersKeepOrForget(p, AllowStep(p, buckets, events[0].key, events[0].time).0, events[1..], key);
    }
  }

  lemma FreshAdmits(p: Params, now: real)
    requires p.burst >= 1
    ensures Take(p, FreshBucket(p, now), now).1
  {
    RefillNothing(p.r);
  }

  /** Whatever other keys do in the meantime, and whether or not its bucket is swept. */
  lemma RefusedThenAdmitted(p: Params, buckets: Buckets, key: string, now: real, between: seq<Event>, later: real)
    requires ValidParams(p) && p.burst >= 1 && ValidSlots(p, buckets, now)
    requires !AllowStep(p, buckets, key, now).1
    requires forall i :: 0 <= i < |between| ==> between[i].key != key
    requires later >= now + RetryAfter(p.r) as real
    ensures AllowStep(p, Run(p, AllowStep(p, buckets, key, now).0, between), key, later).1
  {
    var seen := if |buckets| > SWEEP_ABOVE then Swept(p, buckets, now) else buckets;
    var refused := AllowStep(p, buckets, key, now).0;
    assert ValidSlots(p, seen, now);
    TouchKeepsValid(p, seen, key, now);
    OthersKeepOrForget(p, refused, between, key);
    RetryAfterIsEnough(p, refused[key].bucket, now, later);
    FreshAdmits(p, later);
  }
}
