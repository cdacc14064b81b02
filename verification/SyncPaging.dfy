/** Following continuation tokens through a table that does not change. */
module SyncPaging {
  import opened Basics
  import opened Query
  import opened SyncToken
  import opened SyncModel
  import opened SyncTable
  import opened SyncSystem
  import opened SyncConvergence
  import opened SyncDiscipline

  /** Different keys have different ranks. */
  ghost predicate Injective<K(!new)>(rank: map<K, int>) {
    forall a, b :: a in rank && b in rank && a != b ==> rank[a] != rank[b]
  }

  /** The first entry where two answers to one query could differ is the same in both. */
  lemma SameAnswerAt<K(!new)>(rank: map<K, int>, n: nat, a: seq<K>, b: seq<K>, i: nat)
    requires Injective(rank) && FirstBy(rank, n, a) && FirstBy(rank, n, b)
    requires i < |a| && i < |b|
    requires forall j :: 0 <= j < i ==> a[j] == b[j]
    ensures a[i] == b[i]
  {
    AnswerNotBelow(rank, n, a, b, i);
    AnswerNotBelow(rank, n, b, a, i);
  }

  lemma AnswerNotBelow<K(!new)>(rank: map<K, int>, n: nat, a: seq<K>, b: seq<K>, i: nat)
    requires FirstBy(rank, n, a) && FirstBy(rank, n, b)
    requires i < |a| && i < |b|
    requires forall j :: 0 <= j < i ==> a[j] == b[j]
    ensures rank[b[i]] <= rank[a[i]]
  {
    if a[i] in b {
      var j :| 0 <= j < |b| && b[j] == a[i];
      assert i <= j;
    }
  }

  lemma {:induction false} SamePrefix<K(!new)>(rank: map<K, int>, n: nat, a: seq<K>, b: seq<K>, i: nat)
    requires Injective(rank) && FirstBy(rank, n, a) && FirstBy(rank, n, b)
    requires i <= |a| && i <= |b|
    ensures forall j :: 0 <= j < i ==> a[j] == b[j]
  {
    if i > 0 {
      SamePrefix(rank, n, a, b, i - 1);
      SameAnswerAt(rank, n, a, b, i - 1);
    }
  }

  /** With distinct ranks a query has one answer only. */
  lemma AnswerIsUnique<K(!new)>(rank: map<K, int>, n: nat, a: seq<K>, b: seq<K>)
    requires Injective(rank) && FirstBy(rank, n, a) && FirstBy(rank, n, b)
    ensures a == b
  {
    AnswerLength(rank, n, a);
    AnswerLength(rank, n, b);
    SamePrefix(rank, n, a, b, |a|);
  }

  lemma {:induction false} DistinctSize<K>(s: seq<K>)
    requires Distinct(s)
    ensures |set k | k in s| == |s|
  {
    if s != [] {
      var init, last := s[..|s| - 1], s[|s| - 1];
      DistinctSize(init);
      assert (set k | k in s) == (set k | k in init) + {last};
    }
  }

  /** A query returns n rows, or all there are. */
  lemma AnswerLength<K(!new)>(rank: map<K, int>, n: nat, out: seq<K>)
    requires FirstBy(rank, n, out)
    ensures |out| == Min(n, |rank|)
  {
    DistinctSize(out);
    var got := set k | k in out;
    SubsetSize(got, rank.Keys);
    if |out| < n {
      assert got == rank.Keys;
    }
  }

  lemma SubsetSize<K>(a: set<K>, b: set<K>)
    requires a <= b
    ensures |a| <= |b|
  {
    assert b == a + (b - a);
  }

  // ----- the complete order of a domain's rows -----

  /** all lists every row of the domain past a number, lowest first. */
  ghost predicate Listing(rows: Table, dom: DomainId, number: int, all: seq<EntryId>) {
    && Distinct(all)
    && (forall id :: id in Newer(rows, dom, number) <==> id in all)
    && (forall i :: 0 <= i < |all| ==> all[i] in rows)
    && (forall i, j :: 0 <= i < j < |all| ==> rows[all[i]].seqNo < rows[all[j]].seqNo)
  }

  /** The rows past a number always have such an order: an unlimited query returns it. */
  lemma ListingExists(s: Server, dom: DomainId, number: int) returns (all: seq<EntryId>)
    requires RowsValid(s)
    ensures Listing(s.rows, dom, number, all)
  {
    var rank := Newer(s.rows, dom, number);
    all := AnswerExists(rank, |rank| + 1);
    AnswerLength(rank, |rank| + 1, all);
    ListingOfQuery(s, dom, number, |rank| + 1, all);
  }

  lemma ListingOfQuery(s: Server, dom: DomainId, number: int, n: nat, all: seq<EntryId>)
    requires RowsValid(s) && FirstBy(Newer(s.rows, dom, number), n, all) && |all| < n
    ensures Listing(s.rows, dom, number, all)
  {
    var rank := Newer(s.rows, dom, number);
    forall i, j | 0 <= i < j < |all| ensures s.rows[all[i]].seqNo < s.rows[all[j]].seqNo {
      assert rank[all[i]] <= rank[all[j]] && all[i] != all[j];
    }
  }

  /** What remains after the first p rows is the listing from the p-th row's number on. */
  lemma ListingTail(rows: Table, dom: DomainId, number: int, all: seq<EntryId>, p: nat)
    requires Listing(rows, dom, number, all) && 1 <= p <= |all|
    ensures all[p - 1] in rows && number < rows[all[p - 1]].seqNo
    ensures Listing(rows, dom, rows[all[p - 1]].seqNo, all[p..])
  {
    assert all[p - 1] in Newer(rows, dom, number);
    var e := rows[all[p - 1]].seqNo;
    forall id ensures id in Newer(rows, dom, e) <==> id in all[p..] {
      if id in all {
        var i :| 0 <= i < |all| && all[i] == id;
        assert id in Newer(rows, dom, number);
        if i >= p {
          assert all[p..][i - p] == id;
        } else {
          assert rows[id].seqNo <= e;
          assert id !in all[p..];
        }
      } else {
        assert id !in Newer(rows, dom, number);
      }
    }
  }

  /** Any answer to the page query is the beginning of the listing. */
  lemma PageStartsListing(rows: Table, dom: DomainId, number: int, all: seq<EntryId>, n: nat, found: seq<EntryId>)
    requires Listing(rows, dom, number, all) && FirstBy(Newer(rows, dom, number), n, found)
    ensures found == all[..Min(n, |all|)]
  {
    var rank := Newer(rows, dom, number);
    var want := all[..Min(n, |all|)];
    assert forall i :: 0 <= i < |all| ==> all[i] in rank;
    assert Injective(rank) by {
      forall a, b | a in rank && b in rank && a != b ensures rank[a] != rank[b] {
        var i :| 0 <= i < |all| && all[i] == a;
        var j :| 0 <= j < |all| && all[j] == b;
        assert i < j || j < i;
      }
    }
    WantedIsAnswer(rows, dom, number, all, n);
    AnswerIsUnique(rank, n, found, want);
  }

  lemma WantedIsAnswer(rows: Table, dom: DomainId, number: int, all: seq<EntryId>, n: nat)
    requires Listing(rows, dom, number, all)
    ensures FirstBy(Newer(rows, dom, number), n, all[..Min(n, |all|)])
  {
    var rank := Newer(rows, dom, number);
    var want := all[..Min(n, |all|)];
    assert forall i :: 0 <= i < |all| ==> all[i] in rank;
    forall k | k in rank && k !in want
      ensures |want| == n && forall i :: 0 <= i < |want| ==> rank[want[i]] <= rank[k]
    {
      var j :| 0 <= j < |all| && all[j] == k;
      assert j >= |want| by {
        assert forall i :: 0 <= i < |want| ==> all[i] == want[i];
      }
    }
  }

  // ----- sessions: a page, then the page its token leads to, and so on -----

  /** A pull: the time the server reads for it, and the random part of the token in its reply. */
  datatype Request = Request(now: Millis, hex: string)

  ghost predicate ValidRequests(requests: seq<Request>) {
    forall i :: 0 <= i < |requests| ==> |requests[i].hex| == 6
  }

  /** The continuation token of a page that ends on this row. */
  function TokenAt(rows: Table, id: EntryId, hex: string): string
    requires id in rows
  {
    MintToken(rows[id].seqNo, hex)
  }

  /** Answers of one pull after another, each from the continuation token of the one before. */
  ghost predicate Session(rows: Table, dom: DomainId, since: string, limit: nat, requests: seq<Request>,
                          pages: seq<seq<EntryId>>)
    requires limit >= 1
    decreases |pages|
  {
    && pages != [] && |requests| == |pages|
    && Gate(since, requests[0].now).Some?
    && FirstBy(Newer(rows, dom, Gate(since, requests[0].now).value), limit + 1, pages[0])
    && (|pages| > 1 ==>
          && |pages[0]| > limit
          && Session(rows, dom, TokenAt(rows, pages[0][limit - 1], requests[0].hex), limit, requests[1..], pages[1..]))
  }

  /** The last reply has no further page. */
  predicate Finished(pages: seq<seq<EntryId>>, limit: nat) {
    pages != [] && |pages[|pages| - 1]| <= limit
  }

  function Delivered(pages: seq<seq<EntryId>>, limit: nat): seq<EntryId> {
    if pages == [] then [] else PageOf(pages[0], limit) + Delivered(pages[1..], limit)
  }

  /** A session whose first request has passed the gate with a number. */
  ghost predicate Starts(s: Server, dom: DomainId, since: string, number: int, limit: nat, requests: seq<Request>,
                         all: seq<EntryId>)
  {
    && Valid(s) && limit >= 1 && requests != [] && ValidRequests(requests)
    && Gate(since, requests[0].now) == Some(number)
    && Listing(s.rows, dom, number, all)
  }

  lemma ContinuationGate(number: int, hex: string, now: Millis)
    requires 1 <= number <= MAX_INT64 && |hex| == 6
    ensures Gate(MintToken(number, hex), now) == if now - number <= RETENTION then Some(number) else None
  {
    TokenRoundTrip(number, hex);
    GateExact(now, number);
  }

  lemma ListedNumber(s: Server, dom: DomainId, number: int, all: seq<EntryId>, i: nat)
    requires Valid(s) && Listing(s.rows, dom, number, all) && i < |all|
    ensures all[i] in s.rows && 1 <= s.rows[all[i]].seqNo <= MAX_INT64
  {
    assert s.rows[all[i]].seqNo <= StoredMark(s.domains, all[i].dom);
    StoredMarkIsInt64(s.domains, all[i].dom);
  }

  lemma StoredMarkIsInt64(domains: map<DomainId, string>, dom: DomainId)
    ensures IsInt64(StoredMark(domains, dom))
  {
  }

  /** The second request passes the gate exactly when the first page ended on a row that is still recent. */
  predicate SecondPasses(rows: Table, all: seq<EntryId>, limit: nat, requests: seq<Request>) {
    && 1 <= limit < |all| && |requests| > 1
    && all[limit - 1] in rows
    && requests[1].now - rows[all[limit - 1]].seqNo <= RETENTION
  }

  /** The token in the first reply, where there is a second page. */
  function NextToken(rows: Table, all: seq<EntryId>, limit: nat, requests: seq<Request>): string
    requires 1 <= limit <= |all| && requests != [] && all[limit - 1] in rows
  {
    TokenAt(rows, all[limit - 1], requests[0].hex)
  }

  /** What the second request starts from, if it passes. */
  lemma SecondStarts(s: Server, dom: DomainId, since: string, number: int, limit: nat, requests: seq<Request>,
                     all: seq<EntryId>)
    requires Starts(s, dom, since, number, limit, requests, all) && |all| > limit && |requests| > 1
    ensures all[limit - 1] in s.rows
    ensures var next := NextToken(s.rows, all, limit, requests);
            if SecondPasses(s.rows, all, limit, requests)
            then Starts(s, dom, next, s.rows[all[limit - 1]].seqNo, limit, requests[1..], all[limit..])
            else Gate(next, requests[1].now) == None
  {
    ListingTail(s.rows, dom, number, all, limit);
    ListedNumber(s, dom, number, all, limit - 1);
    ContinuationGate(s.rows[all[limit - 1]].seqNo, requests[0].hex, requests[1].now);
  }

  /** A session, read off the ordered rows: its first page, and the session from the second request on. */
  lemma SessionUnfolds(s: Server, dom: DomainId, since: string, number: int, limit: nat, requests: seq<Request>,
                       all: seq<EntryId>, pages: seq<seq<EntryId>>)
    requires Starts(s, dom, since, number, limit, requests, all)
    requires Session(s.rows, dom, since, limit, requests, pages)
    ensures |requests| == |pages| && pages[0] == all[..Min(limit + 1, |all|)]
    ensures |pages| > 1 ==>
              && |all| > limit && all[limit - 1] in s.rows
              && Session(s.rows, dom, NextToken(s.rows, all, limit, requests), limit, requests[1..], pages[1..])
  {
    PageStartsListing(s.rows, dom, number, all, limit + 1, pages[0]);
    if |pages| > 1 {
      assert pages[0][limit - 1] == all[limit - 1];
    }
  }

  lemma SessionFolds(rows: Table, dom: DomainId, since: string, number: int, limit: nat, requests: seq<Request>,
                     all: seq<EntryId>, pages: seq<seq<EntryId>>)
    requires limit >= 1 && requests != [] && Gate(since, requests[0].now) == Some(number)
    requires Listing(rows, dom, number, all)
    requires |requests| == |pages| && pages[0] == all[..Min(limit + 1, |all|)]
    requires |pages| > 1 ==>
               && |all| > limit
               && Session(rows, dom, NextToken(rows, all, limit, requests), limit, requests[1..], pages[1..])
    ensures Session(rows, dom, since, limit, requests, pages)
  {
    WantedIsAnswer(rows, dom, number, all, limit + 1);
    if |pages| > 1 {
      EndOfFirstPage(all, limit, pages[0]);
    }
    SessionHolds(rows, dom, since, number, limit, requests, pages);
  }

  lemma EndOfFirstPage(all: seq<EntryId>, limit: nat, page: seq<EntryId>)
    requires 1 <= limit < |all| && page == all[..Min(limit + 1, |all|)]
    ensures |page| > limit && page[limit - 1] == all[limit - 1]
  {
  }

  lemma SessionHolds(rows: Table, dom: DomainId, since: string, number: int, limit: nat, requests: seq<Request>,
                     pages: seq<seq<EntryId>>)
    requires limit >= 1 && pages != [] && |requests| == |pages| && Gate(since, requests[0].now) == Some(number)
    requires FirstBy(Newer(rows, dom, number), limit + 1, pages[0])
    requires |pages| > 1 ==>
               && |pages[0]| > limit
               && var next := TokenAt(rows, pages[0][limit - 1], requests[0].hex);
                  Session(rows, dom, next, limit, requests[1..], pages[1..])
    ensures Session(rows, dom, since, limit, requests, pages)
  {
  }

  /** The second request of a session has passed the gate. */
  lemma SessionPasses(s: Server, dom: DomainId, since: string, number: int, limit: nat, requests: seq<Request>,
                      all: seq<EntryId>, pages: seq<seq<EntryId>>)
    requires Starts(s, dom, since, number, limit, requests, all)
    requires Session(s.rows, dom, since, limit, requests, pages) && |pages| > 1
    ensures SecondPasses(s.rows, all, limit, requests)
    ensures Starts(s, dom, NextToken(s.rows, all, limit, requests), s.rows[all[limit - 1]].seqNo, limit,
                   requests[1..], all[limit..])
    ensures Session(s.rows, dom, NextToken(s.rows, all, limit, requests), limit, requests[1..], pages[1..])
  {
    SessionUnfolds(s, dom, since, number, limit, requests, all, pages);
    SecondStarts(s, dom, since, number, limit, requests, all);
  }

  /** The pages cut all into blocks of limit rows, the last page excepted. */
  predicate Cuts(pages: seq<seq<EntryId>>, all: seq<EntryId>, limit: nat) {
    && pages != []
    && PageOf(pages[0], limit) == all[..Min(limit, |all|)]
    && (|pages[0]| > limit <==> |all| > limit)
    && (|pages| > 1 ==> |all| > limit && Cuts(pages[1..], all[limit..], limit))
  }

  lemma FirstPageCuts(page: seq<EntryId>, all: seq<EntryId>, limit: nat)
    requires page == all[..Min(limit + 1, |all|)]
    ensures PageOf(page, limit) == all[..Min(limit, |all|)] && (|page| > limit <==> |all| > limit)
  {
    if |all| <= limit {
      assert all[..|all|] == all;
    }
  }

  lemma {:induction false} SessionCuts(
      s: Server, dom: DomainId, since: string, number: int, limit: nat, requests: seq<Request>,
      all: seq<EntryId>, pages: seq<seq<EntryId>>)
    requires Starts(s, dom, since, number, limit, requests, all)
    requires Session(s.rows, dom, since, limit, requests, pages)
    ensures Cuts(pages, all, limit)
    decreases |pages|
  {
    SessionUnfolds(s, dom, since, number, limit, requests, all, pages);
    FirstPageCuts(pages[0], all, limit);
    if |pages| > 1 {
      SessionPasses(s, dom, since, number, limit, requests, all, pages);
      SessionCuts(s, dom, NextToken(s.rows, all, limit, requests), s.rows[all[limit - 1]].seqNo, limit,
                  requests[1..], all[limit..], pages[1..]);
    }
  }

  lemma {:induction false} CutsDeliver(pages: seq<seq<EntryId>>, all: seq<EntryId>, limit: nat)
    requires limit >= 1 && Cuts(pages, all, limit)
    ensures Finished(pages, limit) ==> Delivered(pages, limit) == all
    ensures |pages| == 1 || (|pages| - 1) * limit < |all|
    decreases |pages|
  {
    if |pages| > 1 {
      var rest := pages[1..];
      assert rest[|rest| - 1] == pages[|pages| - 1];
      CutsDeliver(rest, all[limit..], limit);
      assert all == all[..limit] + all[limit..];
      assert (|pages| - 1) * limit == (|rest| - 1) * limit + limit;
    } else {
      assert pages[1..] == [];
    }
  }

  /**
   * Whatever time passes between its requests, a finished session delivers every row exactly once, in the
   * order of the numbers; and no session, finished or not, is longer than the rows need.
   */
  lemma SessionDeliversExactlyOnce(
      s: Server, dom: DomainId, since: string, number: int, limit: nat, requests: seq<Request>,
      all: seq<EntryId>, pages: seq<seq<EntryId>>)
    requires Starts(s, dom, since, number, limit, requests, all)
    requires Session(s.rows, dom, since, limit, requests, pages)
    ensures Finished(pages, limit) ==> Delivered(pages, limit) == all
    ensures |pages| == 1 || (|pages| - 1) * limit < |all|
  {
    SessionCuts(s, dom, since, number, limit, requests, all, pages);
    CutsDeliver(pages, all, limit);
  }

  // ----- when a session reaches its end -----

  /** How many rows k full pages hold. */
  function Served(k: nat, limit: nat): (n: nat)
    ensures k >= 1 ==> n >= limit
    ensures k == 0 ==> n == 0
  {
    if k == 0 then 0 else Served(k - 1, limit) + limit
  }

  lemma {:induction false} ServedIsProduct(k: nat, limit: nat)
    ensures Served(k, limit) == k * limit
  {
    if k > 0 {
      ServedIsProduct(k - 1, limit);
    }
  }

  /** n pages hold this many rows, and fewer do not. */
  predicate TakesPages(size: nat, limit: nat, n: nat) {
    n >= 1 && size <= Served(n, limit) && (n > 1 ==> Served(n - 1, limit) < size)
  }

  /** Request k comes while the last of the rows that k full pages hold is inside the window. */
  predicate EndRecent(rows: Table, all: seq<EntryId>, limit: nat, requests: seq<Request>, k: nat)
    requires limit >= 1 && forall i :: 0 <= i < |all| ==> all[i] in rows
    requires 1 <= k < |requests| && Served(k, limit) <= |all|
  {
    requests[k].now - rows[all[Served(k, limit) - 1]].seqNo <= RETENTION
  }

  /** Every request after the first comes while the last row of the page before it is inside the window. */
  ghost predicate EndsStayRecent(rows: Table, all: seq<EntryId>, limit: nat, requests: seq<Request>)
    requires limit >= 1 && forall i :: 0 <= i < |all| ==> all[i] in rows
  {
    forall k :: 1 <= k < |requests| && Served(k, limit) <= |all| ==> EndRecent(rows, all, limit, requests, k)
  }

  /** The same, request by request. */
  predicate RunsThrough(rows: Table, all: seq<EntryId>, limit: nat, requests: seq<Request>)
    requires limit >= 1
    decreases |requests|
  {
    if |all| <= limit then |requests| == 1
    else SecondPasses(rows, all, limit, requests) && RunsThrough(rows, all[limit..], limit, requests[1..])
  }

  lemma FewerPages(size: nat, limit: nat, n: nat)
    requires limit >= 1 && size > limit && n >= 1
    ensures TakesPages(size, limit, n) <==> n > 1 && TakesPages(size - limit, limit, n - 1)
  {
  }

  lemma OnePage(size: nat, limit: nat, n: nat)
    requires limit >= 1 && size <= limit
    ensures TakesPages(size, limit, n) <==> n == 1
  {
    if n > 1 {
      assert Served(n - 1, limit) >= limit;
    }
  }

  lemma ShiftedEnd(rows: Table, all: seq<EntryId>, limit: nat, requests: seq<Request>, k: nat)
    requires limit >= 1 && forall i :: 0 <= i < |all| ==> all[i] in rows
    requires |all| > limit && |requests| > 1 && 1 <= k < |requests| - 1 && Served(k, limit) <= |all| - limit
    ensures Served(k + 1, limit) == Served(k, limit) + limit
    ensures EndRecent(rows, all, limit, requests, k + 1) <==>
              EndRecent(rows, all[limit..], limit, requests[1..], k)
  {
    assert requests[1..][k] == requests[k + 1];
    assert all[limit..][Served(k, limit) - 1] == all[Served(k + 1, limit) - 1];
  }

  lemma FirstEnd(rows: Table, all: seq<EntryId>, limit: nat, requests: seq<Request>)
    requires limit >= 1 && forall i :: 0 <= i < |all| ==> all[i] in rows
    requires |all| > limit && |requests| > 1
    ensures Served(1, limit) == limit
    ensures EndRecent(rows, all, limit, requests, 1) <==> SecondPasses(rows, all, limit, requests)
  {
    assert Served(1, limit) == limit;
  }

  /** Taking the first page away shifts the condition by one request. */
  lemma EndsStayRecentTail(rows: Table, all: seq<EntryId>, limit: nat, requests: seq<Request>)
    requires limit >= 1 && forall i :: 0 <= i < |all| ==> all[i] in rows
    requires |all| > limit && |requests| > 1
    ensures EndsStayRecent(rows, all, limit, requests) <==>
              SecondPasses(rows, all, limit, requests) && EndsStayRecent(rows, all[limit..], limit, requests[1..])
  {
    FirstEnd(rows, all, limit, requests);
    if EndsStayRecent(rows, all, limit, requests) {
      forall k | 1 <= k < |requests| - 1 && Served(k, limit) <= |all| - limit
        ensures EndRecent(rows, all[limit..], limit, requests[1..], k)
      {
        ShiftedEnd(rows, all, limit, requests, k);
      }
    } else {
      var k :| 1 <= k < |requests| && Served(k, limit) <= |all| && !EndRecent(rows, all, limit, requests, k);
      if k > 1 {
        ShiftedEnd(rows, all, limit, requests, k - 1);
      }
    }
  }

  lemma {:induction false} RunsThroughIff(rows: Table, all: seq<EntryId>, limit: nat, requests: seq<Request>)
    requires limit >= 1 && requests != [] && forall i :: 0 <= i < |all| ==> all[i] in rows
    ensures RunsThrough(rows, all, limit, requests) <==>
              TakesPages(|all|, limit, |requests|) && EndsStayRecent(rows, all, limit, requests)
    decreases |requests|
  {
    if |all| <= limit {
      OnePage(|all|, limit, |requests|);
    } else {
      FewerPages(|all|, limit, |requests|);
      if |requests| > 1 {
        EndsStayRecentTail(rows, all, limit, requests);
        RunsThroughIff(rows, all[limit..], limit, requests[1..]);
      }
    }
  }

  function PagesFor(all: seq<EntryId>, limit: nat): seq<seq<EntryId>>
    requires limit >= 1
    decreases |all|
  {
    if |all| <= limit then [all] else [all[..limit + 1]] + PagesFor(all[limit..], limit)
  }

  lemma {:induction false} PagesForFinish(all: seq<EntryId>, limit: nat)
    requires limit >= 1
    ensures Finished(PagesFor(all, limit), limit)
    decreases |all|
  {
    if |all| > limit {
      PagesForFinish(all[limit..], limit);
    }
  }

  lemma {:induction false} PagesForRequests(rows: Table, all: seq<EntryId>, limit: nat, requests: seq<Request>)
    requires limit >= 1 && RunsThrough(rows, all, limit, requests)
    ensures |PagesFor(all, limit)| == |requests|
    ensures PagesFor(all, limit)[0] == all[..Min(limit + 1, |all|)]
    decreases |requests|
  {
    if |all| <= limit {
      assert all[..|all|] == all;
    } else {
      PagesForRequests(rows, all[limit..], limit, requests[1..]);
    }
  }

  lemma PagesForRest(all: seq<EntryId>, limit: nat)
    requires 1 <= limit < |all|
    ensures PagesFor(all, limit)[1..] == PagesFor(all[limit..], limit)
  {
  }

  lemma {:induction false} RunningThroughFinishes(
      s: Server, dom: DomainId, since: string, number: int, limit: nat, requests: seq<Request>, all: seq<EntryId>)
    requires Starts(s, dom, since, number, limit, requests, all) && RunsThrough(s.rows, all, limit, requests)
    ensures Session(s.rows, dom, since, limit, requests, PagesFor(all, limit))
    decreases |requests|
  {
    var pages := PagesFor(all, limit);
    PagesForRequests(s.rows, all, limit, requests);
    if |all| > limit {
      SecondStarts(s, dom, since, number, limit, requests, all);
      RunningThroughFinishes(s, dom, NextToken(s.rows, all, limit, requests), s.rows[all[limit - 1]].seqNo, limit,
                             requests[1..], all[limit..]);
      PagesForRest(all, limit);
    }
    SessionFolds(s.rows, dom, since, number, limit, requests, all, pages);
  }

  lemma {:induction false} FinishedRunsThrough(
      s: Server, dom: DomainId, since: string, number: int, limit: nat, requests: seq<Request>, all: seq<EntryId>,
      pages: seq<seq<EntryId>>)
    requires Starts(s, dom, since, number, limit, requests, all)
    requires Session(s.rows, dom, since, limit, requests, pages) && Finished(pages, limit)
    ensures RunsThrough(s.rows, all, limit, requests)
    decreases |requests|
  {
    SessionUnfolds(s, dom, since, number, limit, requests, all, pages);
    if |all| > limit {
      SessionPasses(s, dom, since, number, limit, requests, all, pages);
      assert pages[1..][|pages| - 2] == pages[|pages| - 1];
      FinishedRunsThrough(s, dom, NextToken(s.rows, all, limit, requests), s.rows[all[limit - 1]].seqNo, limit,
                          requests[1..], all[limit..], pages[1..]);
    }
  }

  /**
   * Following the tokens reaches the end exactly when there are as many requests as the rows need pages and
   * each request comes while the last row of the page before it is inside the retention window. The gate is
   * meant for stale devices, but it also meets the tokens of a running session.
   */
  lemma SessionFinishesIff(
      s: Server, dom: DomainId, since: string, number: int, limit: nat, requests: seq<Request>, all: seq<EntryId>)
    requires Starts(s, dom, since, number, limit, requests, all)
    ensures (exists pages :: Session(s.rows, dom, since, limit, requests, pages) && Finished(pages, limit))
            <==> TakesPages(|all|, limit, |requests|) && EndsStayRecent(s.rows, all, limit, requests)
  {
    RunsThroughIff(s.rows, all, limit, requests);
    if RunsThrough(s.rows, all, limit, requests) {
      RunningThroughFinishes(s, dom, since, number, limit, requests, all);
      PagesForFinish(all, limit);
    }
    forall pages | Session(s.rows, dom, since, limit, requests, pages) && Finished(pages, limit)
      ensures RunsThrough(s.rows, all, limit, requests)
    {
      FinishedRunsThrough(s, dom, since, number, limit, requests, all, pages);
    }
  }

  /** The first page holds everything, or ends on a row inside the retention window. */
  predicate FirstPageRecent(rows: Table, all: seq<EntryId>, limit: nat, now: int)
    requires limit >= 1 && forall i :: 0 <= i < |all| ==> all[i] in rows
  {
    |all| <= limit || now - rows[all[limit - 1]].seqNo <= RETENTION
  }

  /** Later pages end on younger rows: with no time between the requests only the first page matters. */
  lemma StandstillFinishesIff(
      s: Server, dom: DomainId, since: string, number: int, limit: nat, requests: seq<Request>, all: seq<EntryId>,
      now: Millis)
    requires Starts(s, dom, since, number, limit, requests, all) && TakesPages(|all|, limit, |requests|)
    requires forall i :: 0 <= i < |requests| ==> requests[i].now == now
    ensures (exists pages :: Session(s.rows, dom, since, limit, requests, pages) && Finished(pages, limit))
            <==> FirstPageRecent(s.rows, all, limit, now)
  {
    SessionFinishesIff(s, dom, since, number, limit, requests, all);
    OnlyFirstEndMatters(s.rows, all, limit, requests, now);
  }

  lemma OnlyFirstEndMatters(rows: Table, all: seq<EntryId>, limit: nat, requests: seq<Request>, now: Millis)
    requires limit >= 1 && forall i :: 0 <= i < |all| ==> all[i] in rows
    requires forall i, j :: 0 <= i < j < |all| ==> rows[all[i]].seqNo < rows[all[j]].seqNo
    requires TakesPages(|all|, limit, |requests|) && forall i :: 0 <= i < |requests| ==> requests[i].now == now
    ensures EndsStayRecent(rows, all, limit, requests) <==> FirstPageRecent(rows, all, limit, now)
  {
    OnePageIsNotEnough(|all|, limit, |requests|);
    if |all| > limit {
      FirstEnd(rows, all, limit, requests);
      forall k | 1 <= k < |requests| && Served(k, limit) <= |all|
        ensures FirstPageRecent(rows, all, limit, now) ==> EndRecent(rows, all, limit, requests, k)
      {
        LaterEndsAreYounger(rows, all, limit, requests, k, now);
      }
    }
  }

  lemma LaterEndsAreYounger(rows: Table, all: seq<EntryId>, limit: nat, requests: seq<Request>, k: nat, now: Millis)
    requires limit >= 1 && forall i :: 0 <= i < |all| ==> all[i] in rows
    requires forall i, j :: 0 <= i < j < |all| ==> rows[all[i]].seqNo < rows[all[j]].seqNo
    requires 1 <= k < |requests| && limit < |all| && Served(k, limit) <= |all| && requests[k].now == now
    ensures FirstPageRecent(rows, all, limit, now) ==> EndRecent(rows, all, limit, requests, k)
  {
    assert limit - 1 <= Served(k, limit) - 1;
    assert rows[all[limit - 1]].seqNo <= rows[all[Served(k, limit) - 1]].seqNo;
  }

  lemma OnePageIsNotEnough(size: nat, limit: nat, n: nat)
    requires limit >= 1 && TakesPages(size, limit, n)
    ensures n > 1 <==> size > limit
  {
    assert Served(1, limit) == limit;
  }

  /**
   * Starting over does not help: while the table stays, a full pull whose first page ends outside the
   * window fails at all later times, however its requests are spread.
   */
  lemma FailedResyncFailsAgain(
      s: Server, dom: DomainId, limit: nat, now: Millis, requests: seq<Request>, all: seq<EntryId>,
      pages: seq<seq<EntryId>>)
    requires Starts(s, dom, "", -1, limit, requests, all) && !FirstPageRecent(s.rows, all, limit, now)
    requires forall i :: 0 <= i < |requests| ==> now <= requests[i].now
    ensures !(Session(s.rows, dom, "", limit, requests, pages) && Finished(pages, limit))
  {
    if Session(s.rows, dom, "", limit, requests, pages) && Finished(pages, limit) {
      FinishedRunsThrough(s, dom, "", -1, limit, requests, all, pages);
    }
  }

  /**
   * A slow device: at the start every page would end inside the window, but the last request comes two
   * milliseconds later, when the row before has just left it.
   */
  lemma SlowDeviceIsRefused(s: Server, dom: DomainId, requests: seq<Request>, all: seq<EntryId>)
    requires Starts(s, dom, "", -1, 1, requests, all) && |all| == |requests| == 3
    requires forall i :: 0 <= i < 3 ==> s.rows[all[i]].seqNo == 1000 + i
    requires requests[0].now == requests[1].now == RETENTION + 1000 && requests[2].now == RETENTION + 1002
    ensures FirstPageRecent(s.rows, all, 1, requests[0].now)
    ensures !exists pages :: Session(s.rows, dom, "", 1, requests, pages) && Finished(pages, 1)
  {
    SessionFinishesIff(s, dom, "", -1, 1, requests, all);
    ServedIsProduct(2, 1);
    assert !EndRecent(s.rows, all, 1, requests, 2);
  }

  /** The rows that a first push leaves, in the order of its items. */
  function IdsOf(dom: DomainId, items: seq<Item>): seq<EntryId> {
    seq(|items|, i requires 0 <= i < |items| => EntryId(dom, items[i].key))
  }

  lemma FirstPushListing(s: Server, dom: DomainId, items: seq<Item>, hex: string)
    requires Unused(s) && 1 <= s.clock && s.clock + Max(|items|, 1) - 1 <= MAX_INT64 && |hex| == 6
    requires DistinctKeys(items)
    ensures CanPush(s, dom, items, s.clock, hex)
    ensures var rows := PushStep(s, dom, items, s.clock, hex, true).rows;
            && Listing(rows, dom, -1, IdsOf(dom, items))
            && forall i :: 0 <= i < |items| ==> rows[IdsOf(dom, items)[i]].seqNo == s.clock + i
  {
    FirstPush(s, dom, items, hex);
    var rows, all := PushStep(s, dom, items, s.clock, hex, true).rows, IdsOf(dom, items);
    forall i | 0 <= i < |items| ensures all[i] in rows && rows[all[i]].seqNo == s.clock + i {
      FirstPushRow(s, dom, items, hex, all[i]);
      assert LastIndex(items, items[i].key) == i;
    }
    forall id ensures id in Newer(rows, dom, -1) <==> id in all {
      FirstPushRow(s, dom, items, hex, id);
      if id in Newer(rows, dom, -1) {
        assert all[LastIndex(items, id.key)] == id;
      }
    }
  }

  /** The slow device exists: a push of three items to a new server, and the clock 90 days later. */
  lemma SlowDeviceCanStart(s: Server, dom: DomainId, items: seq<Item>, hex: string, requests: seq<Request>)
    requires Unused(s) && s.clock == 1000 && |items| == 3 && DistinctKeys(items) && |hex| == 6
    requires requests != [] && ValidRequests(requests)
    ensures CanPush(s, dom, items, 1000, hex)
    ensures var later := PushStep(s, dom, items, 1000, hex, true).(clock := RETENTION + 1002);
            Starts(later, dom, "", -1, 1, requests, IdsOf(dom, items))
  {
    FirstPushListing(s, dom, items, hex);
    var pushed := PushStep(s, dom, items, 1000, hex, true);
    PushKeepsValid(s, dom, items, 1000, hex, true);
    ClockMayAdvance(pushed, RETENTION + 1002);
  }
}
