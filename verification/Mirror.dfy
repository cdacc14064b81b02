/** Probing a mirror for the pages of a work: page 0, then 1, 2, ... until two in a row are missing. */
module Mirror {
  import opened Basics
  import opened Decimal

  const MAX_PAGES: nat := 50

  /** What fetching one page comes to; Broken is any failure but "not found". */
  datatype Probe = Present(width: int, height: int) | Absent | Broken

  datatype Page = Page(number: nat, url: string, width: int, height: int)

  datatype FetchError = WorkNotFound | UpstreamFailed

  function PageUrl(base: string, n: nat): string {
    if n == 0 then base + ".jpg" else base + "_p" + FormatInt(n) + ".jpg"
  }

  function PageAt(base: string, probe: nat -> Probe, n: nat): Page
    requires probe(n).Present?
  {
    Page(n, PageUrl(base, n), probe(n).width, probe(n).height)
  }

  /** Different pages are probed at different addresses. */
  lemma PageUrlInjective(base: string, m: nat, n: nat)
    requires PageUrl(base, m) == PageUrl(base, n)
    ensures m == n
  {
    if m > 0 && n > 0 {
      var x, y := FormatInt(m) + ".jpg", FormatInt(n) + ".jpg";
      assert PageUrl(base, m)[|base| + 2..] == x && PageUrl(base, n)[|base| + 2..] == y;
      assert x == FormatInt(m) + ['.'] + "jpg" && y == FormatInt(n) + ['.'] + "jpg";
      NumberedTextInjective(m, n, '.', "jpg", "jpg");
    } else {
      AfterBase(base, m);
      AfterBase(base, n);
    }
  }

  lemma AfterBase(base: string, n: nat)
    ensures |PageUrl(base, n)| > |base| && PageUrl(base, n)[|base|] == if n == 0 then '.' else '_'
  {
  }

  /** The two pages before n, neither of them page 0, are missing. */
  predicate GapBefore(probe: nat -> Probe, n: nat) {
    n >= 3 && probe(n - 1).Absent? && probe(n - 2).Absent?
  }

  /** n is the first place where probing ends: after a gap, or at the page limit. */
  ghost predicate StopsAt(probe: nat -> Probe, n: nat) {
    && 1 <= n <= MAX_PAGES
    && (n == MAX_PAGES || GapBefore(probe, n))
    && forall m :: 0 <= m < n ==> !GapBefore(probe, m)
  }

  /** All the present pages below n, in increasing order. */
  function PresentPages(base: string, probe: nat -> Probe, n: nat): seq<Page> {
    if n == 0 then []
    else PresentPages(base, probe, n - 1) + if probe(n - 1).Present? then [PageAt(base, probe, n - 1)] else []
  }

  /** The pages below n are exactly the present ones. */
  lemma {:induction false} PresentPagesExact(base: string, probe: nat -> Probe, n: nat, page: Page)
    ensures page in PresentPages(base, probe, n) <==>
              page.number < n && probe(page.number).Present? && page == PageAt(base, probe, page.number)
  {
    if n > 0 {
      PresentPagesExact(base, probe, n - 1, page);
      var init := PresentPages(base, probe, n - 1);
      assert page in PresentPages(base, probe, n) <==>
             page in init || (probe(n - 1).Present? && page == PageAt(base, probe, n - 1));
      if page.number == n - 1 {
        assert page !in init;
      }
    }
  }

  /** They come in increasing order. */
  lemma {:induction false} PresentPagesIncrease(base: string, probe: nat -> Probe, n: nat)
    ensures PagesIncrease(PresentPages(base, probe, n))
    ensures forall i :: 0 <= i < |PresentPages(base, probe, n)| ==> PresentPages(base, probe, n)[i].number < n
  {
    if n > 0 {
      PresentPagesIncrease(base, probe, n - 1);
    }
  }

  predicate PagesIncrease(pages: seq<Page>) {
    forall i, j :: 0 <= i < j < |pages| ==> pages[i].number < pages[j].number
  }

  /** The stop in plain words: page 50, or the first place after page 2 with two missing pages before it. */
  lemma StopExact(probe: nat -> Probe, n: nat)
    ensures StopsAt(probe, n) <==>
              && 1 <= n <= 50
              && (n == 50 || (n >= 3 && probe(n - 2).Absent? && probe(n - 1).Absent?))
              && forall i, j :: 1 <= i && j == i + 1 < n - 1 ==> !(probe(i).Absent? && probe(j).Absent?)
  {
    if StopsAt(probe, n) {
      forall i, j | 1 <= i && j == i + 1 < n - 1 ensures !(probe(i).Absent? && probe(j).Absent?) {
        assert !GapBefore(probe, j + 1);
      }
    } else if forall i, j :: 1 <= i && j == i + 1 < n - 1 ==> !(probe(i).Absent? && probe(j).Absent?) {
      forall m | 0 <= m < n ensures !GapBefore(probe, m) {
        if m >= 3 {
          assert !(probe(m - 2).Absent? && probe(m - 1).Absent?);
        }
      }
    }
  }

  /** Page 0 has no number in its address; the others have theirs in decimal. */
  lemma PageUrlExact(base: string, n: nat)
    ensures PageUrl(base, 0) == base + ".jpg"
    ensures n > 0 ==> exists digits :: AllDigits(digits) && PageUrl(base, n) == base + "_p" + digits + ".jpg"
                                       && (n <= MAX_INT64 ==> ParseInt(digits) == Some(n))
  {
    if n > 0 {
      DigitsRoundTrip(n);
      if n <= MAX_INT64 {
        FormatParseRoundTrip(n);
      }
    }
  }

  lemma StopIsUnique(probe: nat -> Probe, a: nat, b: nat)
    requires StopsAt(probe, a) && StopsAt(probe, b)
    ensures a == b
  {
    assert GapBefore(probe, a) || GapBefore(probe, b) || a == b == MAX_PAGES;
  }

  /** No page below n fails in another way than by being absent. */
  ghost predicate CleanBelow(probe: nat -> Probe, n: nat) {
    forall m :: 0 <= m < n ==> !probe(m).Broken?
  }

  /**
   * Without other failures the result is exactly the present pages below the first gap of two, or below
   * the page limit. A work without page 0 is not found; any other failure before the end fails the source.
   */
  method Fetch(base: string, probe: nat -> Probe)
    returns (r: Result<seq<Page>, FetchError>, probes: nat, ghost stop: nat)
    ensures 1 <= probes <= MAX_PAGES && StopsAt(probe, stop)
    ensures probe(0).Absent? ==> r == Err(WorkNotFound) && probes == 1
    ensures probe(0).Broken? ==> r == Err(UpstreamFailed) && probes == 1
    ensures probe(0).Present? && CleanBelow(probe, stop) ==> r == Ok(PresentPages(base, probe, stop)) && probes == stop
    ensures probe(0).Present? && !CleanBelow(probe, stop) ==>
              && r == Err(UpstreamFailed) && probes <= stop
              && probe(probes - 1).Broken? && CleanBelow(probe, probes - 1)
  {
    stop := FindStop(probe);
    if probe(0).Absent? {
      return Err(WorkNotFound), 1, stop;
    }
    if probe(0).Broken? {
      return Err(UpstreamFailed), 1, stop;
    }
    r, probes := FetchRest(base, probe, stop);
  }

  /** The pages after page 0. */
  method FetchRest(base: string, probe: nat -> Probe, ghost stop: nat)
    returns (r: Result<seq<Page>, FetchError>, probes: nat)
    requires probe(0).Present? && StopsAt(probe, stop)
    ensures CleanBelow(probe, stop) ==> r == Ok(PresentPages(base, probe, stop)) && probes == stop
    ensures !CleanBelow(probe, stop) ==>
              && r == Err(UpstreamFailed) && 1 <= probes <= stop
              && probe(probes - 1).Broken? && CleanBelow(probe, probes - 1)
  {
    var pages := [PageAt(base, probe, 0)];
    var miss, n := 0, 1;
    FirstPresentPage(base, probe);
    while n < MAX_PAGES && miss < 2
      invariant 1 <= n <= stop && 0 <= miss <= 2
      invariant Misses(probe, n, miss)
      invariant forall m :: 0 <= m < n ==> !GapBefore(probe, m)
      invariant CleanBelow(probe, n)
      invariant pages == PresentPages(base, probe, n)
    {
      assert n < stop;
      NextPresentPage(base, probe, n);
      match probe(n) {
        case Present(_, _) =>
          miss := 0;
          pages := pages + [PageAt(base, probe, n)];
        case Absent =>
          miss := miss + 1;
        case Broken =>
          return Err(UpstreamFailed), n + 1;
      }
      n := n + 1;
    }
    StopIsUnique(probe, n, stop);
    return Ok(pages), n;
  }

  /** The pages just before n that are missing in a row, page 0 not among them. */
  ghost predicate Misses(probe: nat -> Probe, n: nat, miss: int)
    requires n >= 1
  {
    && (miss == 0 ==> n == 1 || probe(n - 1).Present?)
    && (miss == 1 ==> n >= 2 && probe(n - 1).Absent? && (n == 2 || !probe(n - 2).Absent?))
    && (miss == 2 ==> GapBefore(probe, n))
  }

  lemma FirstPresentPage(base: string, probe: nat -> Probe)
    requires probe(0).Present?
    ensures PresentPages(base, probe, 1) == [PageAt(base, probe, 0)]
  {
    assert PresentPages(base, probe, 0) == [];
  }

  lemma NextPresentPage(base: string, probe: nat -> Probe, n: nat)
    ensures PresentPages(base, probe, n + 1)
         == if probe(n).Present? then PresentPages(base, probe, n) + [PageAt(base, probe, n)]
            else PresentPages(base, probe, n)
  {
  }

  /** Probing always ends somewhere. */
  ghost method FindStop(probe: nat -> Probe) returns (stop: nat)
    ensures StopsAt(probe, stop)
  {
    stop := 1;
    while stop < MAX_PAGES && !GapBefore(probe, stop)
      invariant 1 <= stop <= MAX_PAGES
      invariant forall m :: 0 <= m < stop ==> !GapBefore(probe, m)
    {
      stop := stop + 1;
    }
  }
}
