/**
 * Claim discovery for one lender position: the contract's paged scan of the loans that overlap
 * it, and the client loop that walks the pages.
 */
module LoanPager {
  import opened LendingTape
  import opened Sequences

  datatype Share = Share(loan: nat, contribution: nat, claimable: nat)

  datatype Page = Page(shares: seq<Share>, nextSeq: nat)

  datatype Reply = Served(page: Page) | ZeroSteps

  /** What a position may still claim from a loan, given its overlap. */
  type Due = (nat, nat) -> nat

  function ShareIn(loans: seq<Fill>, start: nat, end: nat, due: Due, j: nat): seq<Share>
    requires j < |loans|
  {
    var units := Overlap(start, end, loans[j].start, loans[j].end);
    if units == 0 then [] else [Share(j, units, due(j, units))]
  }

  /** Every overlapping loan from sequence number `j` on, in fill order. */
  function SharesFrom(loans: seq<Fill>, start: nat, end: nat, due: Due, j: nat): seq<Share>
    decreases |loans| - j
  {
    if j >= |loans| then [] else
    ShareIn(loans, start, end, due, j) + SharesFrom(loans, start, end, due, j + 1)
  }

  /** The page that holds at most `n` shares, and where the next page starts. */
  function Scan(loans: seq<Fill>, start: nat, end: nat, due: Due, j: nat, n: nat): Page
    decreases |loans| - j
  {
    if j >= |loans| || loans[j].start >= end then Page([], 0)
    else if n == 0 then Page([], j)
    else
      var share := ShareIn(loans, start, end, due, j);
      var rest := Scan(loans, start, end, due, j + 1, n - |share|);
      Page(share + rest.shares, rest.nextSeq)
  }

  // ---- Loans that tile the tape are sorted -------------------------------------------------

  predicate Ordered(loans: seq<Fill>)
  {
    && (forall i :: 0 <= i < |loans| ==> loans[i].start < loans[i].end)
    && (forall i, j :: 0 <= i < j < |loans| ==> loans[i].end <= loans[j].start)
  }

  lemma {:induction false} TilesAreOrdered(loans: seq<Fill>, filled: nat)
    requires Tiles(loans, filled)
    ensures Ordered(loans)
    ensures forall i :: 0 <= i < |loans| ==> loans[i].end <= filled
  {
    if loans != [] {
      var last := loans[|loans| - 1];
      var before := loans[..|loans| - 1];
      TilesAreOrdered(before, last.start);
      assert forall i :: 0 <= i < |before| ==> loans[i] == before[i];
    }
  }

  /** Whatever has happened to an epoch, its loan list is in order. */
  lemma ReachableLoansOrdered(ops: seq<Op>)
    ensures Ordered(Run(EMPTY, ops).loans)
  {
    RunKeeps(EMPTY, ops);
    TilesAreOrdered(Run(EMPTY, ops).loans, Run(EMPTY, ops).filled);
  }

  lemma {:induction false} NothingPast(loans: seq<Fill>, start: nat, end: nat, due: Due, j: nat)
    requires Ordered(loans) && j < |loans| && loans[j].start >= end
    ensures SharesFrom(loans, start, end, due, j) == []
    decreases |loans| - j
  {
    if j + 1 < |loans| {
      NothingPast(loans, start, end, due, j + 1);
    }
  }

  /** Loans that end before the position starts contribute nothing to a page. */
  lemma {:induction false} SkipEarlier(loans: seq<Fill>, start: nat, end: nat, due: Due, i: nat, j: nat, n: nat)
    requires Ordered(loans) && i <= j <= |loans| && start <= end && n > 0
    requires forall k :: i <= k < j ==> loans[k].end <= start
    ensures Scan(loans, start, end, due, i, n) == Scan(loans, start, end, due, j, n)
    decreases j - i
  {
    if i < j {
      SkipEarlier(loans, start, end, due, i + 1, j, n);
    }
  }

  // ---- Pages partition the shares ----------------------------------------------------------

  /** The shares a page leaves for later. */
  function Later(loans: seq<Fill>, start: nat, end: nat, due: Due, p: Page): seq<Share>
  {
    if p.nextSeq == 0 then [] else SharesFrom(loans, start, end, due, p.nextSeq)
  }

  /** A page followed by what it leaves for later. */
  function WithLater(loans: seq<Fill>, start: nat, end: nat, due: Due, p: Page): seq<Share>
  {
    p.shares + Later(loans, start, end, due, p)
  }

  lemma Prepended(loans: seq<Fill>, start: nat, end: nat, due: Due, share: seq<Share>, p: Page)
    ensures WithLater(loans, start, end, due, Page(share + p.shares, p.nextSeq))
         == share + WithLater(loans, start, end, due, p)
  {
    assert (share + p.shares) + Later(loans, start, end, due, p)
        == share + (p.shares + Later(loans, start, end, due, p));
  }

  /** A page and everything after its resume point are exactly the shares from where it began. */
  lemma {:induction false} PageIsPrefix(loans: seq<Fill>, start: nat, end: nat, due: Due, j: nat, n: nat)
    requires Ordered(loans) && (j > 0 || n > 0)
    ensures WithLater(loans, start, end, due, Scan(loans, start, end, due, j, n))
      == SharesFrom(loans, start, end, due, j)
    decreases |loans| - j
  {
    if j >= |loans| {
    } else if loans[j].start >= end {
      NothingPast(loans, start, end, due, j);
    } else if n == 0 {
      assert WithLater(loans, start, end, due, Page([], j)) == SharesFrom(loans, start, end, due, j);
    } else {
      var share := ShareIn(loans, start, end, due, j);
      PageIsPrefix(loans, start, end, due, j + 1, n - |share|);
      Prepended(loans, start, end, due, share, Scan(loans, start, end, due, j + 1, n - |share|));
    }
  }

  /** A page is full unless it is the last, and always resumes further on. */
  lemma {:induction false} PageAdvances(loans: seq<Fill>, start: nat, end: nat, due: Due, j: nat, n: nat)
    ensures var p := Scan(loans, start, end, due, j, n);
      && |p.shares| <= n
      && (p.nextSeq != 0 ==> j <= p.nextSeq < |loans| && |p.shares| == n)
      && (p.nextSeq != 0 && n > 0 ==> j < p.nextSeq)
    decreases |loans| - j
  {
    if j < |loans| && loans[j].start < end && n > 0 {
      PageAdvances(loans, start, end, due, j + 1, n - |ShareIn(loans, start, end, due, j)|);
    }
  }

  // ---- The contract's view -----------------------------------------------------------------

  method FirstOverlappingSeq(loans: seq<Fill>, start: nat) returns (lo: nat)
    requires Ordered(loans)
    ensures lo <= |loans|
    ensures forall k :: 0 <= k < lo ==> loans[k].end <= start
    ensures forall k :: lo <= k < |loans| ==> loans[k].end > start
  {
    lo := 0;
    var hi := |loans|;
    while lo < hi
      invariant lo <= hi <= |loans|
      invariant forall k :: 0 <= k < lo ==> loans[k].end <= start
      invariant forall k :: hi <= k < |loans| ==> loans[k].end > start
    {
      var mid := (lo + hi) / 2;
      if loans[mid].end <= start {
        lo := mid + 1;
      } else {
        hi := mid;
      }
    }
  }

  method LoansOf(loans: seq<Fill>, start: nat, end: nat, due: Due, startSeq: nat, maxN: nat) returns (reply: Reply)
    requires Ordered(loans) && start <= end
    ensures reply == if maxN == 0 then ZeroSteps else Served(Scan(loans, start, end, due, startSeq, maxN))
  {
    if maxN == 0 {
      return ZeroSteps;
    }
    if |loans| == 0 || start == end {
      NoWidth(loans, start, end, due, startSeq, maxN);
      return Served(Page([], 0));
    }
    var at := startSeq;
    if startSeq == 0 {
      at := FirstOverlappingSeq(loans, start);
      SkipEarlier(loans, start, end, due, 0, at, maxN);
    }
    var page := ScanFrom(loans, start, end, due, at, maxN);
    reply := Served(page);
  }

  method ScanFrom(loans: seq<Fill>, start: nat, end: nat, due: Due, from: nat, maxN: nat) returns (page: Page)
    ensures page == Scan(loans, start, end, due, from, maxN)
  {
    var at, found: seq<Share> := from, [];
    while at < |loans| && |found| < maxN
      invariant |found| <= maxN
      invariant Resumes(Scan(loans, start, end, due, from, maxN), found,
                        Scan(loans, start, end, due, at, maxN - |found|))
      decreases |loans| - at
    {
      if loans[at].start >= end {
        return Page(found, 0);
      }
      ScanOne(Scan(loans, start, end, due, from, maxN), loans, start, end, due, at, found, maxN);
      found := found + ShareIn(loans, start, end, due, at);
      at := at + 1;
    }
    page := Page(found, if at < |loans| && loans[at].start < end then at else 0);
  }

  /** `whole` is what was found followed by what is still to be found. */
  predicate Resumes(whole: Page, found: seq<Share>, rest: Page)
  {
    whole == Page(found + rest.shares, rest.nextSeq)
  }

  lemma ResumesStep(whole: Page, found: seq<Share>, share: seq<Share>, rest: Page)
    requires Resumes(whole, found, Page(share + rest.shares, rest.nextSeq))
    ensures Resumes(whole, found + share, rest)
  {
    assert found + (share + rest.shares) == (found + share) + rest.shares;
  }

  /** One more loan scanned: its share is found, and the rest of the page is the scan from the next. */
  lemma ScanOne(whole: Page, loans: seq<Fill>, start: nat, end: nat, due: Due, at: nat, found: seq<Share>, maxN: nat)
    requires at < |loans| && |found| < maxN && loans[at].start < end
    requires Resumes(whole, found, Scan(loans, start, end, due, at, maxN - |found|))
    ensures var next := found + ShareIn(loans, start, end, due, at);
      |next| <= maxN && Resumes(whole, next, Scan(loans, start, end, due, at + 1, maxN - |next|))
  {
    var share := ShareIn(loans, start, end, due, at);
    var n := maxN - |found|;
    assert |found + share| == |found| + |share| && maxN - |found + share| == n - |share|;
    ResumesStep(whole, found, share, Scan(loans, start, end, due, at + 1, n - |share|));
  }

  lemma {:induction false} NoWidth(loans: seq<Fill>, start: nat, end: nat, due: Due, j: nat, n: nat)
    requires n > 0 && (loans == [] || start == end)
    ensures Scan(loans, start, end, due, j, n) == Page([], 0)
    decreases |loans| - j
  {
    if j < |loans| {
      NoWidth(loans, start, end, due, j + 1, n);
    }
  }

  // ---- The client's loop -------------------------------------------------------------------

  function Positive(shares: seq<Share>): seq<Share>
  {
    if shares == [] then [] else
    (if shares[0].claimable > 0 then [shares[0]] else []) + Positive(shares[1..])
  }

  lemma {:induction false} PositiveAppend(a: seq<Share>, b: seq<Share>)
    ensures Positive(a + b) == Positive(a) + Positive(b)
  {
    if a == [] {
      assert a + b == b;
    } else {
      assert (a + b)[1..] == a[1..] + b;
      PositiveAppend(a[1..], b);
    }
  }

  /** Each read resumes where the one before it said to. */
  ghost predicate Chained(read: nat -> Page, starts: seq<nat>)
  {
    && |starts| > 0 && starts[0] == 0
    && forall i :: 0 < i < |starts| ==> starts[i] == read(starts[i - 1]).nextSeq
  }

  /** The claimable shares on the pages read at the first `n` points. */
  function Gathered(read: nat -> Page, starts: seq<nat>, n: nat): seq<Share>
    requires n <= |starts|
  {
    if n == 0 then [] else Gathered(read, starts, n - 1) + Positive(read(starts[n - 1]).shares)
  }

  lemma {:induction false} GatheredPrefix(read: nat -> Page, starts: seq<nat>, next: nat, n: nat)
    requires n <= |starts|
    ensures Gathered(read, starts + [next], n) == Gathered(read, starts, n)
  {
    if n > 0 {
      GatheredPrefix(read, starts, next, n - 1);
    }
  }

  /** `rest` tells what is left to find from a resume point; every page is a part of it. */
  ghost predicate Faithful(read: nat -> Page, rest: nat -> seq<Share>)
  {
    forall s :: FaithfulAt(read, rest, s)
  }

  ghost predicate FaithfulAt(read: nat -> Page, rest: nat -> seq<Share>, s: nat)
  {
    var p := read(s);
    && (p.nextSeq == 0 || p.nextSeq > s)
    && rest(s) == p.shares + if p.nextSeq == 0 then [] else rest(p.nextSeq)
  }

  /** The walk stopped where the loop stops. */
  ghost predicate Finished(read: nat -> Page, starts: seq<nat>)
    requires |starts| > 0
  {
    var next := read(starts[|starts| - 1]).nextSeq;
    next == 0 || next in starts
  }

  lemma {:induction false} ResumesAscend(read: nat -> Page, rest: nat -> seq<Share>, starts: seq<nat>, i: nat, j: nat)
    requires Chained(read, starts) && Faithful(read, rest) && i < j < |starts|
    requires forall k :: 0 < k < |starts| ==> starts[k] != 0
    ensures starts[i] < starts[j]
    decreases j
  {
    assert FaithfulAt(read, rest, starts[j - 1]);
    if i < j - 1 {
      ResumesAscend(read, rest, starts, i, j - 1);
    }
  }

  lemma OneMorePage(all: seq<Share>, got: seq<Share>, shares: seq<Share>, later: seq<Share>)
    requires all == got + Positive(shares + later)
    ensures all == (got + Positive(shares)) + Positive(later)
  {
    PositiveAppend(shares, later);
  }

  lemma {:induction false} GatheredSoFar(read: nat -> Page, rest: nat -> seq<Share>, starts: seq<nat>, n: nat)
    requires Chained(read, starts) && Faithful(read, rest) && n < |starts|
    requires forall k :: 0 < k < |starts| ==> starts[k] != 0
    ensures Positive(rest(0)) == Gathered(read, starts, n) + Positive(rest(starts[n]))
  {
    if n > 0 {
      var s := starts[n - 1];
      GatheredSoFar(read, rest, starts, n - 1);
      assert FaithfulAt(read, rest, s) && starts[n] == read(s).nextSeq;
      OneMorePage(Positive(rest(0)), Gathered(read, starts, n - 1), read(s).shares, rest(starts[n]));
    }
  }

  /** A faithful pager never sends the walk back, so it stops by running out. */
  lemma FaithfulRunsOut(read: nat -> Page, rest: nat -> seq<Share>, starts: seq<nat>)
    requires Chained(read, starts) && Faithful(read, rest) && Finished(read, starts)
    requires forall k :: 0 < k < |starts| ==> starts[k] != 0
    ensures read(starts[|starts| - 1]).nextSeq == 0
  {
    var n := |starts| - 1;
    assert FaithfulAt(read, rest, starts[n]);
    forall i | 0 <= i < n
      ensures starts[i] < starts[n]
    {
      ResumesAscend(read, rest, starts, i, n);
    }
  }

  /** From a faithful pager the walk finds every share with something to claim, in order. */
  lemma FaithfulCollects(read: nat -> Page, rest: nat -> seq<Share>, starts: seq<nat>)
    requires Chained(read, starts) && Faithful(read, rest) && Finished(read, starts)
    requires forall k :: 0 < k < |starts| ==> starts[k] != 0
    ensures Gathered(read, starts, |starts|) == Positive(rest(0))
  {
    var n := |starts| - 1;
    FaithfulRunsOut(read, rest, starts);
    GatheredSoFar(read, rest, starts, n);
    assert FaithfulAt(read, rest, starts[n]);
    assert rest(starts[n]) == read(starts[n]).shares;
  }

  function UpTo(n: nat): set<nat>
  {
    if n == 0 then {0} else UpTo(n - 1) + {n}
  }

  lemma {:induction false} InUpTo(n: nat, x: nat)
    requires x <= n
    ensures x in UpTo(n)
  {
    if x < n {
      InUpTo(n - 1, x);
    }
  }

  /**
   * The loop that collects a position's claimable pairs. Whatever the pager answers, as long as its
   * resume points are bounded, the loop ends and never reads from the same point twice; from a
   * faithful pager it collects every share with something to claim, in order.
   */
  method CollectPairs(read: nat -> Page, bound: nat) returns (pairs: seq<Share>, ghost starts: seq<nat>)
    requires forall s :: read(s).nextSeq <= bound
    ensures Chained(read, starts) && Distinct(starts) && Finished(read, starts)
    ensures forall k :: 0 < k < |starts| ==> starts[k] != 0
    ensures pairs == Gathered(read, starts, |starts|)
    ensures forall rest: nat -> seq<Share> :: Faithful(read, rest) ==> pairs == Positive(rest(0))
  {
    pairs := [];
    var startSeq := 0;
    var seen: set<nat> := {};
    starts := [0];
    ghost var all := UpTo(bound);
    while true
      invariant Chained(read, starts) && Distinct(starts) && startSeq == starts[|starts| - 1]
      invariant forall x :: x in starts <==> x == 0 || x in seen
      invariant forall k :: 0 < k < |starts| ==> starts[k] != 0
      invariant 0 !in seen
      invariant pairs == Gathered(read, starts, |starts| - 1)
      decreases all - seen
    {
      var page := read(startSeq);
      pairs := pairs + Positive(page.shares);
      if page.nextSeq == 0 || page.nextSeq in seen {
        break;
      }
      InUpTo(bound, page.nextSeq);
      assert page.nextSeq in all - seen;
      seen := seen + {page.nextSeq};
      GatheredPrefix(read, starts, page.nextSeq, |starts|);
      starts := starts + [page.nextSeq];
      startSeq := page.nextSeq;
    }
    assert pairs == Gathered(read, starts, |starts|);
    forall rest: nat -> seq<Share> | Faithful(read, rest)
      ensures pairs == Positive(rest(0))
    {
      FaithfulCollects(read, rest, starts);
    }
  }

  const PAGE_SIZE: nat := 64

  /** What is left of a position's shares from a resume point. */
  function Remaining(loans: seq<Fill>, start: nat, end: nat, due: Due): nat -> seq<Share>
  {
    (j: nat) => SharesFrom(loans, start, end, due, j)
  }

  function Pager(loans: seq<Fill>, start: nat, end: nat, due: Due): nat -> Page
  {
    (j: nat) => Scan(loans, start, end, due, j, PAGE_SIZE)
  }

  lemma ContractIsFaithful(loans: seq<Fill>, start: nat, end: nat, due: Due)
    requires Ordered(loans)
    ensures Faithful(Pager(loans, start, end, due), Remaining(loans, start, end, due))
    ensures forall j :: Pager(loans, start, end, due)(j).nextSeq <= |loans|
  {
    var read, rest := Pager(loans, start, end, due), Remaining(loans, start, end, due);
    forall j: nat
      ensures FaithfulAt(read, rest, j) && read(j).nextSeq <= |loans|
    {
      PageIsPrefix(loans, start, end, due, j, PAGE_SIZE);
      PageAdvances(loans, start, end, due, j, PAGE_SIZE);
    }
  }

  /** The client loop run against the contract's own pages. */
  method ClaimablePairs(loans: seq<Fill>, start: nat, end: nat, due: Due) returns (pairs: seq<Share>)
    requires Ordered(loans)
    ensures pairs == Positive(SharesFrom(loans, start, end, due, 0))
  {
    ContractIsFaithful(loans, start, end, due);
    ghost var starts;
    pairs, starts := CollectPairs(Pager(loans, start, end, due), |loans|);
  }

  predicate Ascending(shares: seq<Share>, from: nat)
  {
    if shares == [] then true else
    shares[0].loan >= from && Ascending(shares[1..], shares[0].loan + 1)
  }

  predicate Claims(loans: seq<Fill>, start: nat, end: nat, due: Due, s: Share)
  {
    && s.loan < |loans| && s.contribution > 0 && s.claimable > 0
    && s.contribution == Overlap(start, end, loans[s.loan].start, loans[s.loan].end)
    && s.claimable == due(s.loan, s.contribution)
  }

  /** The claimable part of one loan's share. */
  function Claimed(loans: seq<Fill>, start: nat, end: nat, due: Due, j: nat): (r: seq<Share>)
    requires j < |loans|
    ensures forall s :: s in r <==> s.loan == j && Claims(loans, start, end, due, s)
  {
    var here := ShareIn(loans, start, end, due, j);
    if here != [] && here[0].claimable > 0 then here else []
  }

  lemma PairsSplit(loans: seq<Fill>, start: nat, end: nat, due: Due, j: nat)
    requires j < |loans|
    ensures Positive(SharesFrom(loans, start, end, due, j))
         == Claimed(loans, start, end, due, j) + Positive(SharesFrom(loans, start, end, due, j + 1))
  {
    var here := ShareIn(loans, start, end, due, j);
    PositiveAppend(here, SharesFrom(loans, start, end, due, j + 1));
    assert Positive(here) == Claimed(loans, start, end, due, j);
  }

  /** Said without pages: the pairs are the loans the position funded and can still claim from. */
  lemma {:induction false} PairsAreClaims(loans: seq<Fill>, start: nat, end: nat, due: Due, from: nat, s: Share)
    ensures s in Positive(SharesFrom(loans, start, end, due, from)) <==>
      (from <= s.loan && Claims(loans, start, end, due, s))
    decreases |loans| - from
  {
    if from < |loans| {
      PairsAreClaims(loans, start, end, due, from + 1, s);
      PairsSplit(loans, start, end, due, from);
    }
  }

  /** Each loan once, in fill order. */
  lemma {:induction false} PairsAscend(loans: seq<Fill>, start: nat, end: nat, due: Due, from: nat)
    ensures Ascending(Positive(SharesFrom(loans, start, end, due, from)), from)
    decreases |loans| - from
  {
    if from < |loans| {
      PairsAscend(loans, start, end, due, from + 1);
      PairsSplit(loans, start, end, due, from);
      var here := Claimed(loans, start, end, due, from);
      var later := Positive(SharesFrom(loans, start, end, due, from + 1));
      AscendingFrom(later, from + 1, from);
      assert here != [] ==> (here + later)[1..] == later;
      assert [] + later == later;
    }
  }

  lemma AscendingFrom(shares: seq<Share>, from: nat, less: nat)
    requires Ascending(shares, from) && less <= from
    ensures Ascending(shares, less)
  {
  }
}
