/**
 The Claim All preflight: what several reads agree is claimable, cached per wallet and pinned
 block, and the gate that lets a review begin.
 */
module Preflight {
  import opened Wrappers
  import opened Sequences
  import opened Sorting
  import opened Text
  import opened Identities

  datatype Source = Markets | Streams | Hydration | Verifier

  datatype ReadStatus = Loading | Ready | Partial | Unavailable

  datatype Outcome = Outcome(status: ReadStatus, current: bool, data: seq<string>, blockNumber: Option<nat>,
    blockHash: Option<string>)

  predicate FreshReady(o: Outcome)
  {
    o.status == Ready && o.current
  }

  datatype Block = Block(number: nat, hash: string)

  /** One attempt to read some of the sources, for one wallet at one block. */
  datatype Attempt = Attempt(identity: Identity, target: Block, sources: map<Source, Outcome>)

  datatype Reason = DiscoveryIncomplete | HydrationIncomplete | VerifierUnavailable | ProviderDisagreement
    | SnapshotMismatch

  datatype Verdict = StillLoading(reason: Reason) | Blocked(reason: Reason) | MayReview

  datatype Evaluation = Evaluation(verdict: Verdict, candidates: seq<string>)

  function Lookup(m: map<Source, Outcome>, s: Source): Option<Outcome>
  {
    if s in m then Some(m[s]) else None
  }

  /** The same wallet, and the same block by number and hash. */
  predicate SameScope(a: Attempt, b: Attempt)
  {
    && SameIdentity(a.identity, Some(b.identity))
    && a.target.number == b.target.number && Lower(a.target.hash) == Lower(b.target.hash)
  }

  // ---------------------------------------------------------------------------
  // Merging
  // ---------------------------------------------------------------------------

  /** A completed read is not given up for an incomplete one, except by the independent verifier. */
  function Keep(s: Source, cached: Option<Outcome>, next: Option<Outcome>): Option<Outcome>
  {
    if next.None? then cached
    else if s != Verifier && cached.Some? && FreshReady(cached.value) && !FreshReady(next.value) then cached
    else next
  }

  predicate Reusable(previous: Option<Attempt>, attempt: Attempt)
  {
    previous.Some? && SameScope(previous.value, attempt)
  }

  /** What a source holds after the merge. */
  function KeptAt(previous: Option<Attempt>, attempt: Attempt, s: Source): Option<Outcome>
  {
    Keep(s, if Reusable(previous, attempt) then Lookup(previous.value.sources, s) else None, Lookup(attempt.sources, s))
  }

  /** The cache is shaped like an attempt that read everything kept. */
  function Merge(previous: Option<Attempt>, attempt: Attempt): (cache: Attempt)
  {
    Attempt(attempt.identity, attempt.target,
            map s | s in {Markets, Streams, Hydration, Verifier} && KeptAt(previous, attempt, s).Some? ::
              KeptAt(previous, attempt, s).value)
  }

  lemma MergeAt(previous: Option<Attempt>, attempt: Attempt, s: Source)
    ensures Lookup(Merge(previous, attempt).sources, s) == KeptAt(previous, attempt, s)
  {
    assert s in {Markets, Streams, Hydration, Verifier};
  }

  /** The order in which the sources are merged. */
  function SourceAt(i: nat): (s: Source)
    requires i < 4
    ensures Rank(s) == i
  {
    match i
    case 0 => Markets
    case 1 => Streams
    case 2 => Hydration
    case _ => Verifier
  }

  function Rank(s: Source): (i: nat)
    ensures i < 4
  {
    match s
    case Markets => 0
    case Streams => 1
    case Hydration => 2
    case Verifier => 3
  }

  method MergeSources(base: map<Source, Outcome>, attempt: Attempt) returns (sources: map<Source, Outcome>)
    ensures forall s :: Lookup(sources, s) == Keep(s, Lookup(base, s), Lookup(attempt.sources, s))
  {
    sources := base;
    for i := 0 to 4
      invariant forall s :: Rank(s) < i ==> Lookup(sources, s) == Keep(s, Lookup(base, s), Lookup(attempt.sources, s))
      invariant forall s :: Rank(s) >= i ==> Lookup(sources, s) == Lookup(base, s)
    {
      var source := SourceAt(i);
      if source !in attempt.sources { continue; }
      var next := attempt.sources[source];
      if source != Verifier && source in sources && FreshReady(sources[source]) && !FreshReady(next) { continue; }
      sources := sources[source := next];
    }
  }

  method MergePreflightCache(previous: Option<Attempt>, attempt: Attempt) returns (cache: Attempt)
    ensures cache == Merge(previous, attempt)
  {
    var sources := MergeSources(if Reusable(previous, attempt) then previous.value.sources else map[], attempt);
    cache := Attempt(attempt.identity, attempt.target, sources);
    forall s ensures Lookup(sources, s) == Lookup(Merge(previous, attempt).sources, s) {
      MergeAt(previous, attempt, s);
    }
    SameLookups(sources, Merge(previous, attempt).sources);
  }

  lemma SameLookups(a: map<Source, Outcome>, b: map<Source, Outcome>)
    requires forall s :: Lookup(a, s) == Lookup(b, s)
    ensures a == b
  {
    forall s ensures s in a <==> s in b {
      assert Lookup(a, s) == Lookup(b, s);
    }
    forall s | s in a ensures a[s] == b[s] {
      assert Lookup(a, s) == Lookup(b, s);
    }
  }

  /** The cache after a session of attempts. */
  function Session(attempts: seq<Attempt>): Option<Attempt>
    decreases |attempts|
  {
    if attempts == [] then None
    else Some(Merge(Session(attempts[..|attempts| - 1]), attempts[|attempts| - 1]))
  }

  // ---------------------------------------------------------------------------
  // What a session's cache holds, said without the merge
  // ---------------------------------------------------------------------------

  /** The attempts since the wallet or the pinned block last changed. */
  function CurrentRun(attempts: seq<Attempt>): (run: seq<Attempt>)
    decreases |attempts|
  {
    if attempts == [] then []
    else
      var n := |attempts| - 1;
      (if n > 0 && SameScope(attempts[n - 1], attempts[n]) then CurrentRun(attempts[..n]) else []) + [attempts[n]]
  }

  /** The newest outcome of a source in the run, or the newest fresh one. */
  function Newest(run: seq<Attempt>, s: Source, onlyFresh: bool): Option<Outcome>
    decreases |run|
  {
    if run == [] then None
    else
      var o := Lookup(run[|run| - 1].sources, s);
      if o.Some? && (onlyFresh ==> FreshReady(o.value)) then o else Newest(run[..|run| - 1], s, onlyFresh)
  }

  /** The verifier is always its newest answer; any other source its newest fresh one, if it has any. */
  function Effective(run: seq<Attempt>, s: Source): Option<Outcome>
  {
    if s != Verifier && Newest(run, s, true).Some? then Newest(run, s, true) else Newest(run, s, false)
  }

  lemma {:induction false} CurrentRunIsSuffix(attempts: seq<Attempt>) returns (start: nat)
    requires attempts != []
    ensures start < |attempts| && CurrentRun(attempts) == attempts[start..]
    ensures forall i :: start <= i < |attempts| ==> SameScope(attempts[i], attempts[|attempts| - 1])
    ensures start > 0 ==> !SameScope(attempts[start - 1], attempts[start])
    decreases |attempts|
  {
    var n := |attempts| - 1;
    if n > 0 && SameScope(attempts[n - 1], attempts[n]) {
      var earlier := attempts[..n];
      start := CurrentRunIsSuffix(earlier);
      assert earlier[|earlier| - 1] == attempts[n - 1];
      assert earlier[start..] + [attempts[n]] == attempts[start..];
      forall i | start <= i < |attempts| ensures SameScope(attempts[i], attempts[n]) {
        if i < n {
          assert attempts[i] == earlier[i];
        }
      }
      assert start > 0 ==> attempts[start - 1] == earlier[start - 1] && attempts[start] == earlier[start];
    } else {
      start := n;
      assert attempts[n..] == [attempts[n]];
    }
  }

  lemma {:induction false} NewestFacts(run: seq<Attempt>, s: Source, onlyFresh: bool)
    ensures var o := Newest(run, s, onlyFresh);
      && (o.Some? && onlyFresh ==> FreshReady(o.value))
      && (o.Some? ==> exists i :: 0 <= i < |run| && Lookup(run[i].sources, s) == o)
    decreases |run|
  {
    if run != [] {
      var last := |run| - 1;
      NewestFacts(run[..last], s, onlyFresh);
    }
  }

  /** If nothing in the run is fresh, the newest outcome is not fresh either. */
  lemma {:induction false} NewestWithoutFresh(run: seq<Attempt>, s: Source)
    requires Newest(run, s, true).None? && Newest(run, s, false).Some?
    ensures !FreshReady(Newest(run, s, false).value)
    decreases |run|
  {
    var last := |run| - 1;
    if Lookup(run[last].sources, s).None? {
      NewestWithoutFresh(run[..last], s);
    }
  }

  /** One more attempt in the same run. */
  lemma EffectiveStep(run: seq<Attempt>, a: Attempt, s: Source)
    ensures Effective(run + [a], s) == Keep(s, Effective(run, s), Lookup(a.sources, s))
  {
    NewestFacts(run, s, true);
    if Newest(run, s, true).None? && Newest(run, s, false).Some? {
      NewestWithoutFresh(run, s);
    }
  }

  /** The newest attempt decides the scope, and what it leaves in a source is what is kept there. */
  lemma SessionLookup(attempts: seq<Attempt>, s: Source)
    requires attempts != []
    ensures var cache, n := Session(attempts).value, |attempts| - 1;
      && cache.identity == attempts[n].identity && cache.target == attempts[n].target
      && Lookup(cache.sources, s) == KeptAt(Session(attempts[..n]), attempts[n], s)
  {
    MergeAt(Session(attempts[..|attempts| - 1]), attempts[|attempts| - 1], s);
  }

  /**
   After any session, every source holds exactly what the current unbroken run supports:
   nothing survives a change of wallet or block, and nothing fresh is lost within a run.
   */
  lemma {:induction false} SessionIsEffective(attempts: seq<Attempt>, s: Source)
    requires attempts != []
    ensures var cache := Session(attempts).value;
      && cache.identity == attempts[|attempts| - 1].identity && cache.target == attempts[|attempts| - 1].target
      && Lookup(cache.sources, s) == Effective(CurrentRun(attempts), s)
    decreases |attempts|
  {
    var n := |attempts| - 1;
    SessionLookup(attempts, s);
    if n == 0 {
      EffectiveMerge(None, [], attempts[0], s);
      assert Session(attempts[..0]) == None;
    } else {
      SessionIsEffective(attempts[..n], s);
      EffectiveMerge(Session(attempts[..n]), CurrentRun(attempts[..n]), attempts[n], s);
    }
  }

  /** Merging into a cache that holds what a run supports gives what the longer run supports. */
  lemma EffectiveMerge(previous: Option<Attempt>, run: seq<Attempt>, a: Attempt, s: Source)
    requires previous.Some? ==> Lookup(previous.value.sources, s) == Effective(run, s)
    ensures KeptAt(previous, a, s) == Effective((if Reusable(previous, a) then run else []) + [a], s)
  {
    EffectiveStep(if Reusable(previous, a) then run else [], a, s);
  }

  lemma EffectiveHasSource(run: seq<Attempt>, s: Source) returns (k: nat)
    requires Effective(run, s).Some?
    ensures k < |run| && Lookup(run[k].sources, s) == Effective(run, s)
  {
    NewestFacts(run, s, true);
    NewestFacts(run, s, false);
    k :| 0 <= k < |run| && Lookup(run[k].sources, s) == Effective(run, s);
  }

  /** The scope in its parts: chain, account, block number and block hash, letter case aside. */
  predicate SameWalletAndBlock(a: Attempt, b: Attempt)
  {
    && a.identity.chainId == b.identity.chainId && Lower(a.identity.account) == Lower(b.identity.account)
    && a.target.number == b.target.number && Lower(a.target.hash) == Lower(b.target.hash)
  }

  /** Every cached outcome was read by an attempt for the current wallet and block. */
  lemma CachedOutcomeHasSource(attempts: seq<Attempt>, s: Source) returns (i: nat)
    requires attempts != [] && Lookup(Session(attempts).value.sources, s).Some?
    ensures i < |attempts| && SameWalletAndBlock(attempts[i], attempts[|attempts| - 1])
    ensures Lookup(attempts[i].sources, s) == Lookup(Session(attempts).value.sources, s)
    ensures forall j :: i <= j < |attempts| ==> SameWalletAndBlock(attempts[j], attempts[|attempts| - 1])
  {
    SessionIsEffective(attempts, s);
    var start := CurrentRunIsSuffix(attempts);
    var k := EffectiveHasSource(CurrentRun(attempts), s);
    i := start + k;
  }

  /** A fresh read is never downgraded while wallet and block stay the same. */
  lemma FreshStaysFresh(attempts: seq<Attempt>, next: Attempt, s: Source)
    requires attempts != [] && SameScope(attempts[|attempts| - 1], next) && s != Verifier
    requires Lookup(Session(attempts).value.sources, s).Some?
      && FreshReady(Lookup(Session(attempts).value.sources, s).value)
    ensures var o := Lookup(Session(attempts + [next]).value.sources, s); o.Some? && FreshReady(o.value)
  {
    assert (attempts + [next])[..|attempts|] == attempts;
    MergeAt(Session(attempts), next, s);
    SessionIsEffective(attempts, s);
  }

  // ---------------------------------------------------------------------------
  // Comparing candidate lists
  // ---------------------------------------------------------------------------

  function Dedup(s: seq<string>): (r: seq<string>)
    ensures Distinct(r) && forall x :: x in r <==> x in s
    decreases |s|
  {
    if s == [] then []
    else
      var n := |s| - 1;
      var rest := Dedup(s[..n]);
      assert s == s[..n] + [s[n]];
      if s[n] in rest then rest else rest + [s[n]]
  }

  function Normalized(candidates: seq<string>): seq<string>
  {
    Sort(Dedup(candidates), AtMost)
  }

  predicate SameCandidates(left: seq<string>, right: seq<string>)
  {
    |Normalized(left)| == |Normalized(right)|
    && forall i :: 0 <= i < |Normalized(left)| ==> Normalized(left)[i] == Normalized(right)[i]
  }

  lemma NormalizedFacts(s: seq<string>)
    ensures StrictlySortedBy(Normalized(s), Less) && forall x :: x in Normalized(s) <==> x in s
  {
    AtMostIsTotalPreorder();
    SortPermutes(Dedup(s), AtMost);
    SortSorts(Dedup(s), AtMost);
    DistinctPermutation(Dedup(s), Normalized(s));
  }

  /** The sorted comparison decides equality as sets. */
  lemma SameCandidatesIffSameSet(left: seq<string>, right: seq<string>)
    ensures SameCandidates(left, right) <==> Elements(left) == Elements(right)
  {
    NormalizedFacts(left);
    NormalizedFacts(right);
    if SameCandidates(left, right) {
      assert Normalized(left) == Normalized(right);
      assert forall x :: x in left <==> x in right;
    }
    if Elements(left) == Elements(right) {
      forall x ensures x in Normalized(left) <==> x in Normalized(right) {
        assert x in left <==> x in Elements(left);
        assert x in right <==> x in Elements(right);
      }
      forall x, y ensures !(Less(x, y) && Less(y, x)) {
        LessAsymmetric(x, y);
      }
      StrictlySortedUnique(Normalized(left), Normalized(right), Less);
    }
  }

  // ---------------------------------------------------------------------------
  // The gate
  // ---------------------------------------------------------------------------

  predicate Pinned(o: Outcome, target: Block)
  {
    o.blockNumber == Some(target.number) && o.blockHash.Some? && Lower(o.blockHash.value) == Lower(target.hash)
  }

  function FreshCandidates(o: Option<Outcome>): seq<string>
  {
    if o.Some? && FreshReady(o.value) then o.value.data else []
  }

  predicate IsLoading(o: Option<Outcome>)
  {
    o.None? || o.value.status == Loading
  }

  function Evaluate(cache: Attempt): Evaluation
  {
    var markets, streams := Lookup(cache.sources, Markets), Lookup(cache.sources, Streams);
    var hydration, verifier := Lookup(cache.sources, Hydration), Lookup(cache.sources, Verifier);
    var primary := Normalized(FreshCandidates(markets) + FreshCandidates(streams));
    if verifier.None? || !FreshReady(verifier.value) then
      Evaluation(
        if IsLoading(verifier) then StillLoading(DiscoveryIncomplete) else Blocked(VerifierUnavailable),
        primary)
    else if markets.None? || streams.None? || !FreshReady(markets.value) || !FreshReady(streams.value) then
      Evaluation(
        if IsLoading(markets) || IsLoading(streams) then StillLoading(DiscoveryIncomplete)
        else Blocked(DiscoveryIncomplete),
        primary)
    else if hydration.None? || !FreshReady(hydration.value) then
      Evaluation(
        if IsLoading(hydration) then StillLoading(HydrationIncomplete) else Blocked(HydrationIncomplete),
        primary)
    else if !(Pinned(markets.value, cache.target) && Pinned(streams.value, cache.target)
              && Pinned(hydration.value, cache.target) && Pinned(verifier.value, cache.target)) then
      Evaluation(Blocked(SnapshotMismatch), primary)
    else if !SameCandidates(primary, verifier.value.data) then Evaluation(Blocked(ProviderDisagreement), primary)
    else if !SameCandidates(primary, hydration.value.data) then Evaluation(Blocked(HydrationIncomplete), primary)
    else Evaluation(MayReview, primary)
  }

  predicate FreshAndPinned(cache: Attempt, s: Source)
  {
    s in cache.sources &&
    var o := cache.sources[s];
    && o.status == Ready && o.current && o.blockNumber == Some(cache.target.number)
    && o.blockHash.Some? && Lower(o.blockHash.value) == Lower(cache.target.hash)
  }

  /** Every source was read afresh at the target block. */
  predicate AllFreshAndPinned(cache: Attempt)
  {
    && FreshAndPinned(cache, Markets) && FreshAndPinned(cache, Streams)
    && FreshAndPinned(cache, Hydration) && FreshAndPinned(cache, Verifier)
  }

  function Primary(cache: Attempt): seq<string>
  {
    Normalized(FreshCandidates(Lookup(cache.sources, Markets)) + FreshCandidates(Lookup(cache.sources, Streams)))
  }

  lemma GateOpens(cache: Attempt)
    ensures Evaluate(cache).candidates == Primary(cache)
    ensures Evaluate(cache).verdict == MayReview <==>
      && AllFreshAndPinned(cache)
      && SameCandidates(Primary(cache), cache.sources[Verifier].data)
      && SameCandidates(Primary(cache), cache.sources[Hydration].data)
  {
  }

  lemma PrimaryIsBoth(cache: Attempt)
    requires AllFreshAndPinned(cache)
    ensures Elements(Primary(cache)) == Elements(cache.sources[Markets].data) + Elements(cache.sources[Streams].data)
  {
    NormalizedFacts(cache.sources[Markets].data + cache.sources[Streams].data);
  }

  /**
   The gate opens exactly when all four sources are fresh and pinned to the target block, and
   the verifier and the hydration each found the same candidates as the two primaries together.
   */
  lemma CanReviewIff(cache: Attempt)
    ensures Evaluate(cache).verdict == MayReview <==>
      && AllFreshAndPinned(cache)
      && Elements(cache.sources[Verifier].data)
         == Elements(cache.sources[Markets].data) + Elements(cache.sources[Streams].data)
      && Elements(cache.sources[Hydration].data)
         == Elements(cache.sources[Markets].data) + Elements(cache.sources[Streams].data)
  {
    GateOpens(cache);
    if AllFreshAndPinned(cache) {
      PrimaryIsBoth(cache);
      SameCandidatesIffSameSet(Primary(cache), cache.sources[Verifier].data);
      SameCandidatesIffSameSet(Primary(cache), cache.sources[Hydration].data);
    }
  }

  predicate Fresh(cache: Attempt, s: Source)
  {
    s in cache.sources && cache.sources[s].status == Ready && cache.sources[s].current
  }

  predicate StillReading(cache: Attempt, s: Source)
  {
    s !in cache.sources || cache.sources[s].status == Loading
  }

  predicate AllFresh(cache: Attempt)
  {
    Fresh(cache, Markets) && Fresh(cache, Streams) && Fresh(cache, Hydration) && Fresh(cache, Verifier)
  }

  /** What the two primaries found. */
  function Found(cache: Attempt): set<string>
    requires AllFresh(cache)
  {
    Elements(cache.sources[Markets].data) + Elements(cache.sources[Streams].data)
  }

  /**
   Why the gate stays shut: the first of verifier, primaries and hydration that is not fresh, as
   still loading while it is being read; then a source off the target block; then a verifier,
   then a hydration, that found something else.
   */
  lemma VerdictIff(cache: Attempt)
    ensures var v := Evaluate(cache).verdict;
      var discovered := Fresh(cache, Verifier) && Fresh(cache, Markets) && Fresh(cache, Streams);
      && (v == Blocked(VerifierUnavailable) <==> !Fresh(cache, Verifier) && !StillReading(cache, Verifier))
      && (v == StillLoading(DiscoveryIncomplete) <==>
            if Fresh(cache, Verifier)
            then !discovered && (StillReading(cache, Markets) || StillReading(cache, Streams))
            else StillReading(cache, Verifier))
      && (v == Blocked(DiscoveryIncomplete) <==>
            Fresh(cache, Verifier) && !discovered && !StillReading(cache, Markets) && !StillReading(cache, Streams))
      && (v == StillLoading(HydrationIncomplete) <==>
            discovered && !Fresh(cache, Hydration) && StillReading(cache, Hydration))
      && (v == Blocked(SnapshotMismatch) <==> AllFresh(cache) && !AllFreshAndPinned(cache))
      && (v == Blocked(ProviderDisagreement) <==>
            AllFreshAndPinned(cache) && Elements(cache.sources[Verifier].data) != Found(cache))
      && (v == Blocked(HydrationIncomplete) <==>
            || (discovered && !Fresh(cache, Hydration) && !StillReading(cache, Hydration))
            || (AllFreshAndPinned(cache) && Elements(cache.sources[Verifier].data) == Found(cache)
                && Elements(cache.sources[Hydration].data) != Found(cache)))
  {
    if AllFreshAndPinned(cache) {
      PrimaryIsBoth(cache);
      SameCandidatesIffSameSet(Primary(cache), cache.sources[Verifier].data);
      SameCandidatesIffSameSet(Primary(cache), cache.sources[Hydration].data);
    }
  }

  /** What the gate shows for review is exactly what was found. */
  lemma ReviewedCandidates(cache: Attempt)
    requires Evaluate(cache).verdict == MayReview
    ensures Elements(Evaluate(cache).candidates) == Elements(cache.sources[Verifier].data)
  {
    CanReviewIff(cache);
    GateOpens(cache);
    PrimaryIsBoth(cache);
  }
}
