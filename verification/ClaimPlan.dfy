/**
 The Claim All planner: pool claims batched per lending contract, then stream claims. The plan
 depends only on which claims are there, never on the order they arrive in.
 */
module ClaimPlan {
  import opened Wrappers
  import opened Sequences
  import opened Sorting
  import opened Text
  import opened ClaimTx

  datatype PoolInput = PoolInput(lending: Address, loanId: nat, claimable: int, asset: Address)

  datatype StreamInput = StreamInput(streamId: nat, withdrawable: int, asset: Address)

  datatype Input = Input(pools: seq<PoolInput>, streams: seq<StreamInput>)

  datatype PlanResult = Planned(plan: seq<QueuedTx>) | MixedAssets | ConflictingClaims

  // ---------------------------------------------------------------------------
  // What a plan is, said without the algorithm
  // ---------------------------------------------------------------------------

  /** Two positive claims can stand in one plan. */
  predicate Compatible(a: PoolInput, b: PoolInput)
  {
    a.claimable > 0 && b.claimable > 0 && SameAddress(a.lending, b.lending) ==>
      SameAddress(a.asset, b.asset) && (a.loanId == b.loanId ==> a.claimable == b.claimable)
  }

  ghost predicate Consistent(pools: seq<PoolInput>)
  {
    forall a, b :: a in pools && b in pools ==> Compatible(a, b)
  }

  /** `p` is a positive claim on this lending contract for the loan and amount of `c`. */
  predicate Backs(p: PoolInput, lending: string, c: PoolClaim)
  {
    p.claimable > 0 && Lower(p.lending) == lending && p.loanId == c.loanId && p.claimable == c.claimable
  }

  predicate ByLoan(a: PoolClaim, b: PoolClaim) { a.loanId < b.loanId }

  /** One pool transaction claims exactly what the input holds for its contract. */
  ghost predicate PoolTxOk(pools: seq<PoolInput>, t: QueuedTx)
  {
    && t.PoolClaims? && StrictlySortedBy(t.claims, ByLoan)
    && (forall c :: c in t.claims <==> exists p :: p in pools && Backs(p, Lower(t.lending), c))
    && t.claims != []
    && (forall p :: p in pools && p.claimable > 0 && SameAddress(t.lending, p.lending) ==>
      SameAddress(t.asset, p.asset))
  }

  /** Some transaction is for this lending contract. */
  ghost predicate Serves(txs: seq<QueuedTx>, lending: string)
  {
    exists i :: 0 <= i < |txs| && txs[i].PoolClaims? && Lower(txs[i].lending) == lending
  }

  /** One transaction per lending contract with a positive claim, in order of its address. */
  ghost predicate PoolPart(pools: seq<PoolInput>, txs: seq<QueuedTx>)
  {
    && (forall i :: 0 <= i < |txs| ==> PoolTxOk(pools, txs[i]))
    && (forall i, j :: 0 <= i < j < |txs| ==> Less(Lower(txs[i].lending), Lower(txs[j].lending)))
    && (forall p :: p in pools && p.claimable > 0 ==> Serves(txs, Lower(p.lending)))
  }

  function StreamTx(s: StreamInput): QueuedTx
  {
    StreamClaim(s.streamId, s.withdrawable, s.asset)
  }

  predicate ByStream(a: QueuedTx, b: QueuedTx)
  {
    a.StreamClaim? && b.StreamClaim? && a.streamId < b.streamId
  }

  /** The transaction claims the stream, for its whole amount and in its asset. */
  predicate Withdraws(t: QueuedTx, s: StreamInput)
  {
    t.StreamClaim? && t.streamId == s.streamId && t.withdrawable == s.withdrawable && t.asset == s.asset
  }

  ghost predicate StreamPart(streams: seq<StreamInput>, txs: seq<QueuedTx>)
  {
    && StrictlySortedBy(txs, ByStream)
    && (forall t :: t in txs <==> exists s :: s in streams && s.withdrawable > 0 && Withdraws(t, s))
  }

  /** The plan for an input: its pool part, then its stream part. */
  ghost predicate IsPlan(input: Input, plan: seq<QueuedTx>)
  {
    exists n :: 0 <= n <= |plan| && PoolPart(input.pools, plan[..n]) && StreamPart(input.streams, plan[n..])
  }

  /** Stream ids are unique among the streams with something to withdraw. */
  predicate StreamsDistinct(streams: seq<StreamInput>)
  {
    forall i, j :: 0 <= i < j < |streams| && streams[i].withdrawable > 0 && streams[j].withdrawable > 0 ==>
      streams[i].streamId != streams[j].streamId
  }

  predicate SamePlan(a: seq<QueuedTx>, b: seq<QueuedTx>)
  {
    |a| == |b| && forall i :: 0 <= i < |a| ==> SameTx(a[i], b[i])
  }

  /** Everything claimable in the input, by key. */
  function InputKeys(input: Input): set<Key>
  {
    (set p | p in input.pools && p.claimable > 0 :: PoolKey(Lower(p.lending), p.loanId))
    + (set s | s in input.streams && s.withdrawable > 0 :: StreamKey(s.streamId))
  }

  ghost function PlanKeys(plan: seq<QueuedTx>): set<Key>
  {
    set t, k | t in plan && k in Keys(t) :: k
  }

  // ---------------------------------------------------------------------------
  // The algorithm
  // ---------------------------------------------------------------------------

  datatype Entry = Entry(lending: Address, claims: seq<PoolClaim>, asset: Address)

  function EntryTx(e: Entry): QueuedTx
  {
    PoolClaims(e.lending, Sort(e.claims, LoanAtMost), e.asset)
  }

  predicate LoanAtMost(a: PoolClaim, b: PoolClaim) { a.loanId <= b.loanId }

  predicate StreamAtMost(a: StreamInput, b: StreamInput) { a.streamId <= b.streamId }

  predicate DistinctLoans(claims: seq<PoolClaim>)
  {
    forall i, j :: 0 <= i < j < |claims| ==> claims[i].loanId != claims[j].loanId
  }

  /** The entry for one lending contract after the claims in `seen`. */
  ghost predicate EntryOk(seen: seq<PoolInput>, key: string, e: Entry)
  {
    && Lower(e.lending) == key && e.claims != [] && DistinctLoans(e.claims)
    && (forall c :: c in e.claims <==> exists p :: p in seen && Backs(p, key, c))
    && (forall p :: p in seen && p.claimable > 0 && Lower(p.lending) == key ==> SameAddress(p.asset, e.asset))
  }

  ghost predicate Grouped(seen: seq<PoolInput>, byLending: map<string, Entry>, order: seq<string>)
  {
    && Distinct(order) && (forall k :: k in order <==> k in byLending)
    && (forall k :: k in byLending ==> EntryOk(seen, k, byLending[k]))
    && (forall p :: p in seen && p.claimable > 0 ==> Lower(p.lending) in byLending)
  }

  function FindLoan(claims: seq<PoolClaim>, loanId: nat): (r: Option<PoolClaim>)
    ensures r.Some? ==> r.value in claims && r.value.loanId == loanId
    ensures r.None? ==> forall c :: c in claims ==> c.loanId != loanId
  {
    if claims == [] then None
    else if claims[0].loanId == loanId then Some(claims[0])
    else FindLoan(claims[1..], loanId)
  }

  method GroupByLending(pools: seq<PoolInput>)
    returns (failed: Option<PlanResult>, byLending: map<string, Entry>, order: seq<string>)
    ensures failed.Some? ==> !failed.value.Planned? && !Consistent(pools)
    ensures failed.None? ==> Grouped(pools, byLending, order) && Consistent(pools)
  {
    failed, byLending, order := None, map[], [];
    var i := 0;
    while i < |pools|
      invariant 0 <= i <= |pools|
      invariant failed == None && Grouped(pools[..i], byLending, order) && Consistent(pools[..i])
    {
      var pool := pools[i];
      assert pools[..i + 1] == pools[..i] + [pool];
      i := i + 1;
      if pool.claimable <= 0 {
        SkipPool(pools[..i - 1], pool, byLending, order);
        continue;
      }
      var key := Lower(pool.lending);
      var known := key in byLending;
      var entry := if known then byLending[key] else Entry(pool.lending, [], pool.asset);
      if Lower(entry.asset) != Lower(pool.asset) {
        MixedIsInconsistent(pools, i - 1, byLending, order);
        return Some(MixedAssets), byLending, order;
      }
      var duplicate := FindLoan(entry.claims, pool.loanId);
      if duplicate.Some? {
        if duplicate.value.claimable != pool.claimable {
          ConflictIsInconsistent(pools, i - 1, byLending, order, duplicate.value);
          return Some(ConflictingClaims), byLending, order;
        }
        RepeatPool(pools[..i - 1], pool, byLending, order);
        continue;
      }
      AddPool(pools[..i - 1], pool, byLending, order);
      byLending := byLending[key := entry.(claims := entry.claims + [PoolClaim(pool.loanId, pool.claimable)])];
      if !known { order := order + [key]; }
    }
    assert pools[..|pools|] == pools;
  }

  method PlanClaimAll(input: Input) returns (r: PlanResult)
    // It fails exactly on inputs that no order of arrival could make plannable.
    ensures r.Planned? <==> Consistent(input.pools)
    ensures r.Planned? && StreamsDistinct(input.streams) ==> IsPlan(input, r.plan)
  {
    var failed, byLending, order := GroupByLending(input.pools);
    if failed.Some? { return failed.value; }
    SortPermutes(order, AtMost);
    var keys := Sort(order, AtMost);
    var poolClaims := seq(|keys|, i requires 0 <= i < |keys| && keys[i] in byLending => EntryTx(byLending[keys[i]]));
    var streams := Sort(Filter(input.streams, (s: StreamInput) => s.withdrawable > 0), StreamAtMost);
    var streamClaims := Map(streams, StreamTx);
    r := Planned(poolClaims + streamClaims);
    if StreamsDistinct(input.streams) {
      GroupedGivesPoolPart(input.pools, byLending, order, poolClaims);
      SortedGivesStreamPart(input.streams);
      assert r.plan[..|poolClaims|] == poolClaims && r.plan[|poolClaims|..] == streamClaims;
    }
  }

  // ---------------------------------------------------------------------------
  // The grouping loop, one input at a time
  // ---------------------------------------------------------------------------

  lemma SkipPool(seen: seq<PoolInput>, pool: PoolInput, byLending: map<string, Entry>, order: seq<string>)
    requires Grouped(seen, byLending, order) && Consistent(seen) && pool.claimable <= 0
    ensures Grouped(seen + [pool], byLending, order) && Consistent(seen + [pool])
  {
    forall k | k in byLending ensures EntryOk(seen + [pool], k, byLending[k]) {
      assert EntryOk(seen, k, byLending[k]);
      forall c ensures c in byLending[k].claims <==> exists p :: p in seen + [pool] && Backs(p, k, c) {
        assert forall p :: p in seen + [pool] && Backs(p, k, c) ==> p in seen;
        assert forall p :: p in seen ==> p in seen + [pool];
      }
    }
  }

  /** Someone before put the entry there: its asset is theirs, and so is each of its claims. */
  lemma EntryWitness(seen: seq<PoolInput>, byLending: map<string, Entry>, order: seq<string>, key: string)
    returns (p: PoolInput)
    requires Grouped(seen, byLending, order) && key in byLending
    ensures p in seen && p.claimable > 0 && Lower(p.lending) == key && SameAddress(p.asset, byLending[key].asset)
  {
    assert EntryOk(seen, key, byLending[key]);
    var c := byLending[key].claims[0];
    assert c in byLending[key].claims;
    p :| p in seen && Backs(p, key, c);
  }

  lemma MixedIsInconsistent(pools: seq<PoolInput>, i: nat, byLending: map<string, Entry>, order: seq<string>)
    requires i < |pools| && Grouped(pools[..i], byLending, order) && pools[i].claimable > 0
    requires Lower(pools[i].lending) in byLending
    requires !SameAddress(byLending[Lower(pools[i].lending)].asset, pools[i].asset)
    ensures !Consistent(pools)
  {
    var p := EntryWitness(pools[..i], byLending, order, Lower(pools[i].lending));
    assert p in pools && pools[i] in pools && !Compatible(p, pools[i]);
  }

  lemma ConflictIsInconsistent(pools: seq<PoolInput>, i: nat, byLending: map<string, Entry>, order: seq<string>,
                               c: PoolClaim)
    requires i < |pools| && Grouped(pools[..i], byLending, order) && pools[i].claimable > 0
    requires Lower(pools[i].lending) in byLending && c in byLending[Lower(pools[i].lending)].claims
    requires c.loanId == pools[i].loanId && c.claimable != pools[i].claimable
    ensures !Consistent(pools)
  {
    var key := Lower(pools[i].lending);
    assert EntryOk(pools[..i], key, byLending[key]);
    var p :| p in pools[..i] && Backs(p, key, c);
    assert p in pools && pools[i] in pools && !Compatible(p, pools[i]);
  }

  /** A pool that agrees with its entry is compatible with everything seen. */
  lemma AgreesWithEntry(seen: seq<PoolInput>, pool: PoolInput, byLending: map<string, Entry>, order: seq<string>)
    requires Grouped(seen, byLending, order) && Consistent(seen) && pool.claimable > 0
    requires var key := Lower(pool.lending);
      && (key in byLending ==> SameAddress(byLending[key].asset, pool.asset))
      && (key in byLending ==> forall c :: c in byLending[key].claims && c.loanId == pool.loanId ==>
        c.claimable == pool.claimable)
    ensures Consistent(seen + [pool])
  {
    var key := Lower(pool.lending);
    forall p | p in seen ensures Compatible(p, pool) && Compatible(pool, p) {
      if p.claimable > 0 && Lower(p.lending) == key {
        assert EntryOk(seen, key, byLending[key]);
        assert Backs(p, key, PoolClaim(p.loanId, p.claimable));
        assert PoolClaim(p.loanId, p.claimable) in byLending[key].claims;
      }
    }
  }

  lemma RepeatPool(seen: seq<PoolInput>, pool: PoolInput, byLending: map<string, Entry>, order: seq<string>)
    requires Grouped(seen, byLending, order) && Consistent(seen) && pool.claimable > 0
    requires var key := Lower(pool.lending);
      key in byLending && SameAddress(byLending[key].asset, pool.asset)
        && PoolClaim(pool.loanId, pool.claimable) in byLending[key].claims
    ensures Grouped(seen + [pool], byLending, order) && Consistent(seen + [pool])
  {
    var key, claim := Lower(pool.lending), PoolClaim(pool.loanId, pool.claimable);
    assert EntryOk(seen, key, byLending[key]);
    forall c | c in byLending[key].claims && c.loanId == pool.loanId ensures c == claim {
      var i :| 0 <= i < |byLending[key].claims| && byLending[key].claims[i] == c;
      var j :| 0 <= j < |byLending[key].claims| && byLending[key].claims[j] == claim;
    }
    AgreesWithEntry(seen, pool, byLending, order);
    forall k | k in byLending ensures EntryOk(seen + [pool], k, byLending[k]) {
      assert EntryOk(seen, k, byLending[k]);
      forall c ensures c in byLending[k].claims <==> exists p :: p in seen + [pool] && Backs(p, k, c) {
        assert Backs(pool, k, c) ==> k == key && c == claim;
        assert forall p :: p in seen + [pool] <==> p in seen || p == pool;
      }
    }
  }

  lemma AddPool(seen: seq<PoolInput>, pool: PoolInput, byLending: map<string, Entry>, order: seq<string>)
    requires Grouped(seen, byLending, order) && Consistent(seen) && pool.claimable > 0
    requires var key := Lower(pool.lending);
      && (key in byLending ==> SameAddress(byLending[key].asset, pool.asset))
      && (key in byLending ==> forall c :: c in byLending[key].claims ==> c.loanId != pool.loanId)
    ensures var key := Lower(pool.lending);
      var entry := if key in byLending then byLending[key] else Entry(pool.lending, [], pool.asset);
      var grown := byLending[key := entry.(claims := entry.claims + [PoolClaim(pool.loanId, pool.claimable)])];
      Grouped(seen + [pool], grown, if key in byLending then order else order + [key]) && Consistent(seen + [pool])
  {
    var key := Lower(pool.lending);
    var entry := if key in byLending then byLending[key] else Entry(pool.lending, [], pool.asset);
    var claim := PoolClaim(pool.loanId, pool.claimable);
    var grown := byLending[key := entry.(claims := entry.claims + [claim])];
    AgreesWithEntry(seen, pool, byLending, order);
    forall k | k in grown ensures EntryOk(seen + [pool], k, grown[k]) {
      GrownEntry(seen, pool, byLending, order, k, grown[k]);
    }
  }

  lemma GrownEntry(seen: seq<PoolInput>, pool: PoolInput, byLending: map<string, Entry>, order: seq<string>, k: string,
                   e: Entry)
    requires Grouped(seen, byLending, order) && pool.claimable > 0
    requires var key := Lower(pool.lending); var claim := PoolClaim(pool.loanId, pool.claimable);
      if k != key then k in byLending && e == byLending[k]
      else if key in byLending then
        && e == byLending[k].(claims := byLending[k].claims + [claim]) && SameAddress(e.asset, pool.asset)
        && forall c :: c in byLending[key].claims ==> c.loanId != pool.loanId
      else e == Entry(pool.lending, [claim], pool.asset)
    ensures EntryOk(seen + [pool], k, e)
  {
    var claim := PoolClaim(pool.loanId, pool.claimable);
    if k in byLending {
      assert EntryOk(seen, k, byLending[k]);
    }
    assert forall p :: p in seen + [pool] <==> p in seen || p == pool;
    forall c ensures c in e.claims <==> exists p :: p in seen + [pool] && Backs(p, k, c) {
      assert Backs(pool, k, c) <==> k == Lower(pool.lending) && c == claim;
    }
  }

  // ---------------------------------------------------------------------------
  // From the groups to the plan
  // ---------------------------------------------------------------------------

  lemma SortedKeys(order: seq<string>)
    requires Distinct(order)
    ensures var keys := Sort(order, AtMost);
      |keys| == |order| && (forall k :: k in keys <==> k in order)
      && forall i, j :: 0 <= i < j < |keys| ==> Less(keys[i], keys[j])
  {
    var keys := Sort(order, AtMost);
    AtMostIsTotalPreorder();
    SortPermutes(order, AtMost);
    SortSorts(order, AtMost);
    DistinctPermutation(order, keys);
  }

  lemma SortedClaims(claims: seq<PoolClaim>)
    requires DistinctLoans(claims)
    ensures var sorted := Sort(claims, LoanAtMost);
      StrictlySortedBy(sorted, ByLoan) && forall c :: c in sorted <==> c in claims
  {
    var sorted := Sort(claims, LoanAtMost);
    SortPermutes(claims, LoanAtMost);
    SortSorts(claims, LoanAtMost);
    DistinctPermutation(claims, sorted);
    forall i, j | 0 <= i < j < |sorted| ensures ByLoan(sorted[i], sorted[j]) {
      assert sorted[i] in sorted && sorted[j] in sorted;
      var a :| 0 <= a < |claims| && claims[a] == sorted[i];
      var b :| 0 <= b < |claims| && claims[b] == sorted[j];
    }
  }

  lemma GroupedGivesPoolPart(pools: seq<PoolInput>, byLending: map<string, Entry>, order: seq<string>,
                             txs: seq<QueuedTx>)
    requires Grouped(pools, byLending, order)
    requires var keys := Sort(order, AtMost); |txs| == |keys| && forall i :: 0 <= i < |keys| ==> keys[i] in byLending
    requires forall i, k :: 0 <= i < |txs| && k == Sort(order, AtMost)[i] ==> txs[i] == EntryTx(byLending[k])
    ensures PoolPart(pools, txs)
  {
    var keys := Sort(order, AtMost);
    SortedKeys(order);
    forall i | 0 <= i < |txs| ensures PoolTxOk(pools, txs[i]) && Lower(txs[i].lending) == keys[i] {
      EntryGivesTx(pools, byLending, order, keys[i], txs[i]);
    }
    forall p | p in pools && p.claimable > 0 ensures Serves(txs, Lower(p.lending)) {
      var i :| 0 <= i < |keys| && keys[i] == Lower(p.lending);
      assert Lower(txs[i].lending) == keys[i];
    }
  }

  lemma EntryGivesTx(pools: seq<PoolInput>, byLending: map<string, Entry>, order: seq<string>, key: string, t: QueuedTx)
    requires Grouped(pools, byLending, order) && key in byLending
    requires t == EntryTx(byLending[key])
    ensures Lower(t.lending) == key && PoolTxOk(pools, t)
  {
    assert EntryOk(pools, key, byLending[key]);
    SortedClaims(byLending[key].claims);
    var p := EntryWitness(pools, byLending, order, key);
  }

  lemma SortedGivesStreamPart(streams: seq<StreamInput>)
    requires StreamsDistinct(streams)
    ensures var sorted := Sort(Filter(streams, (s: StreamInput) => s.withdrawable > 0), StreamAtMost);
      StreamPart(streams, Map(sorted, StreamTx))
  {
    var keep := (s: StreamInput) => s.withdrawable > 0;
    var positive := Filter(streams, keep);
    var sorted := Sort(positive, StreamAtMost);
    SortPermutes(positive, StreamAtMost);
    SortSorts(positive, StreamAtMost);
    PositiveDistinct(streams);
    DistinctIdsPermutation(positive, sorted);
    var txs := Map(sorted, StreamTx);
    forall t ensures t in txs <==> exists s :: s in streams && s.withdrawable > 0 && Withdraws(t, s) {
      if t in txs {
        var i :| 0 <= i < |txs| && txs[i] == t;
        assert sorted[i] in sorted && Withdraws(t, sorted[i]);
      }
      if s :| s in streams && s.withdrawable > 0 && Withdraws(t, s) {
        assert s in sorted && t == StreamTx(s);
        var i :| 0 <= i < |sorted| && sorted[i] == s;
        assert txs[i] == t;
      }
    }
  }

  predicate DistinctIds(streams: seq<StreamInput>)
  {
    forall i, j :: 0 <= i < j < |streams| ==> streams[i].streamId != streams[j].streamId
  }

  lemma {:induction false} PositiveDistinct(streams: seq<StreamInput>)
    requires StreamsDistinct(streams)
    ensures DistinctIds(Filter(streams, (s: StreamInput) => s.withdrawable > 0))
  {
    if streams != [] {
      PositiveDistinct(streams[1..]);
      var keep := (s: StreamInput) => s.withdrawable > 0;
      var rest := Filter(streams[1..], keep);
      if keep(streams[0]) {
        assert Filter(streams, keep) == [streams[0]] + rest;
        forall j | 0 <= j < |rest| ensures streams[0].streamId != rest[j].streamId {
          assert rest[j] in rest;
          var k :| 0 <= k < |streams[1..]| && streams[1..][k] == rest[j];
          assert streams[k + 1] == rest[j];
        }
      } else {
        assert Filter(streams, keep) == rest;
      }
    }
  }

  lemma DistinctIdsPermutation(a: seq<StreamInput>, b: seq<StreamInput>)
    requires DistinctIds(a) && multiset(a) == multiset(b)
    ensures DistinctIds(b)
  {
    DistinctPermutation(a, b);
    forall i, j | 0 <= i < j < |b| ensures b[i].streamId != b[j].streamId {
      assert b[i] in multiset(b) && b[j] in multiset(b);
      assert b[i] in a && b[j] in a;
      var x :| 0 <= x < |a| && a[x] == b[i];
      var y :| 0 <= y < |a| && a[y] == b[j];
    }
  }

  // ---------------------------------------------------------------------------
  // The plan depends on what is claimable, not on how it was listed
  // ---------------------------------------------------------------------------

  /** A transaction of a plan has a positive claim behind it. */
  lemma TxWitness(pools: seq<PoolInput>, t: QueuedTx) returns (p: PoolInput)
    requires PoolTxOk(pools, t)
    ensures p in pools && p.claimable > 0 && Lower(p.lending) == Lower(t.lending)
  {
    var c := t.claims[0];
    assert c in t.claims;
    p :| p in pools && Backs(p, Lower(t.lending), c);
  }

  function Lendings(txs: seq<QueuedTx>): (r: seq<string>)
    requires forall i :: 0 <= i < |txs| ==> txs[i].PoolClaims?
    ensures |r| == |txs| && forall i :: 0 <= i < |txs| ==> r[i] == Lower(txs[i].lending)
  {
    seq(|txs|, i requires 0 <= i < |txs| => Lower(txs[i].lending))
  }

  lemma LendingsInclude(pools: seq<PoolInput>, others: seq<PoolInput>, a: seq<QueuedTx>, b: seq<QueuedTx>)
    requires forall p :: p in pools <==> p in others
    requires PoolPart(pools, a) && PoolPart(others, b)
    ensures forall k :: k in Lendings(a) ==> k in Lendings(b)
  {
    forall k | k in Lendings(a) ensures k in Lendings(b) {
      var i :| 0 <= i < |a| && Lendings(a)[i] == k;
      assert PoolTxOk(pools, a[i]);
      var p := TxWitness(pools, a[i]);
      assert Serves(b, k);
      var j :| 0 <= j < |b| && b[j].PoolClaims? && Lower(b[j].lending) == k;
      assert Lendings(b)[j] == k;
    }
  }

  lemma LendingsAgree(pools: seq<PoolInput>, others: seq<PoolInput>, a: seq<QueuedTx>, b: seq<QueuedTx>)
    requires forall p :: p in pools <==> p in others
    requires PoolPart(pools, a) && PoolPart(others, b)
    ensures Lendings(a) == Lendings(b)
  {
    forall x, y ensures !(Less(x, y) && Less(y, x)) {
      LessAsymmetric(x, y);
    }
    LendingsInclude(pools, others, a, b);
    LendingsInclude(others, pools, b, a);
    StrictlySortedUnique(Lendings(a), Lendings(b), Less);
  }

  lemma PoolTxDetermined(pools: seq<PoolInput>, others: seq<PoolInput>, a: QueuedTx, b: QueuedTx)
    requires forall p :: p in pools <==> p in others
    requires PoolTxOk(pools, a) && PoolTxOk(others, b) && SameAddress(a.lending, b.lending)
    ensures SameTx(a, b)
  {
    forall c ensures c in a.claims <==> c in b.claims {
      assert forall p :: (p in pools && Backs(p, Lower(a.lending), c)) <==>
        (p in others && Backs(p, Lower(b.lending), c));
    }
    StrictlySortedUnique(a.claims, b.claims, ByLoan);
    var p := TxWitness(pools, a);
    assert p in others;
  }

  lemma StreamsDetermined(streams: seq<StreamInput>, others: seq<StreamInput>, a: seq<QueuedTx>, b: seq<QueuedTx>)
    requires forall s :: s in streams <==> s in others
    requires StreamPart(streams, a) && StreamPart(others, b)
    ensures a == b
  {
    StrictlySortedUnique(a, b, ByStream);
  }

  /**
   Inputs that hold the same claims, in whatever order and however often repeated, have the
   same plan up to the spelling of addresses.
   */
  lemma PlanIgnoresOrder(input: Input, other: Input, plan: seq<QueuedTx>, plan': seq<QueuedTx>)
    requires forall p :: p in input.pools <==> p in other.pools
    requires forall s :: s in input.streams <==> s in other.streams
    requires IsPlan(input, plan) && IsPlan(other, plan')
    ensures SamePlan(plan, plan')
  {
    var n :| 0 <= n <= |plan| && PoolPart(input.pools, plan[..n]) && StreamPart(input.streams, plan[n..]);
    var m :| 0 <= m <= |plan'| && PoolPart(other.pools, plan'[..m]) && StreamPart(other.streams, plan'[m..]);
    PoolsAgree(input.pools, other.pools, plan[..n], plan'[..m]);
    StreamsDetermined(input.streams, other.streams, plan[n..], plan'[m..]);
    SamePlanAppend(plan, n, plan', m);
  }

  lemma SamePlanAppend(a: seq<QueuedTx>, n: nat, b: seq<QueuedTx>, m: nat)
    requires n <= |a| && m <= |b| && SamePlan(a[..n], b[..m]) && a[n..] == b[m..]
    ensures SamePlan(a, b)
  {
    forall i | 0 <= i < |a| ensures SameTx(a[i], b[i]) {
      if i < n {
        assert a[i] == a[..n][i] && b[i] == b[..m][i];
      } else {
        assert a[i] == a[n..][i - n] && b[i] == b[m..][i - m];
      }
    }
  }

  lemma PoolsAgree(pools: seq<PoolInput>, others: seq<PoolInput>, a: seq<QueuedTx>, b: seq<QueuedTx>)
    requires forall p :: p in pools <==> p in others
    requires PoolPart(pools, a) && PoolPart(others, b)
    ensures SamePlan(a, b)
  {
    LendingsAgree(pools, others, a, b);
    assert |Lendings(a)| == |a| && |Lendings(b)| == |b|;
    forall i | 0 <= i < |a| ensures SameTx(a[i], b[i]) {
      assert Lendings(a)[i] == Lendings(b)[i];
      PoolTxDetermined(pools, others, a[i], b[i]);
    }
  }

  /** So is failing: permuted inputs are either both plannable or both refused. */
  lemma FailureIgnoresOrder(pools: seq<PoolInput>, others: seq<PoolInput>)
    requires multiset(pools) == multiset(others)
    ensures Consistent(pools) <==> Consistent(others)
    ensures forall p :: p in pools <==> p in others
  {
    forall p ensures p in pools <==> p in others {
      assert p in pools <==> p in multiset(pools);
      assert p in others <==> p in multiset(others);
    }
  }

  lemma TwiceMeansTwo<T>(s: seq<T>, i: nat, j: nat)
    requires i < j < |s| && s[i] == s[j]
    ensures multiset(s)[s[i]] >= 2
  {
    assert s == s[..j] + s[j..];
    assert s[..j][i] == s[i] && s[j..][0] == s[i];
    assert s[i] in multiset(s[..j]) && s[i] in multiset(s[j..]);
  }

  lemma TwoPlaces<T>(s: seq<T>, x: T) returns (i: nat, j: nat)
    requires multiset(s)[x] >= 2
    ensures i < j < |s| && s[i] == s[j] == x
  {
    assert x in s;
    i :| i < |s| && s[i] == x;
    assert s == s[..i] + [x] + s[i + 1..];
    if x in s[..i] {
      j := i;
      i :| i < j && s[..j][i] == x;
    } else {
      assert x !in multiset(s[..i]);
      assert x in multiset(s[i + 1..]);
      var k :| 0 <= k < |s[i + 1..]| && s[i + 1..][k] == x;
      j := i + 1 + k;
    }
  }

  /** Two places of one order have two places in any other. */
  lemma PlacesMove<T>(a: seq<T>, b: seq<T>, i: nat, j: nat) returns (m: nat, n: nat)
    requires multiset(a) == multiset(b) && i < j < |b|
    ensures m < |a| && n < |a| && m != n && a[m] == b[i] && a[n] == b[j]
  {
    if b[i] == b[j] {
      TwiceMeansTwo(b, i, j);
      m, n := TwoPlaces(a, b[i]);
    } else {
      assert b[i] in multiset(a) && b[j] in multiset(a);
      m :| m < |a| && a[m] == b[i];
      n :| n < |a| && a[n] == b[j];
    }
  }

  /** Distinct positive streams stay so in any order of arrival. */
  lemma StreamsDistinctAnyOrder(streams: seq<StreamInput>, others: seq<StreamInput>)
    requires multiset(streams) == multiset(others) && StreamsDistinct(streams)
    ensures StreamsDistinct(others) && forall s :: s in streams <==> s in others
  {
    forall s ensures s in streams <==> s in others {
      assert s in streams <==> s in multiset(streams);
      assert s in others <==> s in multiset(others);
    }
    forall i, j | 0 <= i < j < |others| && others[i].withdrawable > 0 && others[j].withdrawable > 0
      ensures others[i].streamId != others[j].streamId
    {
      var m, n := PlacesMove(streams, others, i, j);
      assert m < n || n < m;
    }
  }

  /**
   Planning the same claims in two orders of arrival: both are refused or neither is, and
   with distinct positive streams the two plans are the same.
   */
  method PlanInBothOrders(input: Input, other: Input) returns (r: PlanResult, r': PlanResult)
    requires multiset(input.pools) == multiset(other.pools) && multiset(input.streams) == multiset(other.streams)
    ensures r.Planned? <==> r'.Planned?
    ensures r.Planned? <==> Consistent(input.pools)
    ensures r.Planned? && StreamsDistinct(input.streams) ==>
      IsPlan(input, r.plan) && IsPlan(other, r'.plan) && SamePlan(r.plan, r'.plan)
  {
    FailureIgnoresOrder(input.pools, other.pools);
    r := PlanClaimAll(input);
    r' := PlanClaimAll(other);
    if r.Planned? && StreamsDistinct(input.streams) {
      StreamsDistinctAnyOrder(input.streams, other.streams);
      PlanIgnoresOrder(input, other, r.plan, r'.plan);
    }
  }

  // ---------------------------------------------------------------------------
  // What the plan covers
  // ---------------------------------------------------------------------------

  lemma PoolKeysBacked(pools: seq<PoolInput>, t: QueuedTx, k: Key)
    requires PoolTxOk(pools, t)
    ensures k in Keys(t) <==> exists p :: p in pools && p.claimable > 0 && Lower(p.lending) == Lower(t.lending)
                                       && k == PoolKey(Lower(p.lending), p.loanId)
  {
    if k in Keys(t) {
      var c :| c in t.claims && k == PoolKey(Lower(t.lending), c.loanId);
      var p :| p in pools && Backs(p, Lower(t.lending), c);
    }
    if p :| p in pools && p.claimable > 0 && Lower(p.lending) == Lower(t.lending)
            && k == PoolKey(Lower(p.lending), p.loanId) {
      assert Backs(p, Lower(t.lending), PoolClaim(p.loanId, p.claimable));
      assert PoolClaim(p.loanId, p.claimable) in t.claims;
    }
  }

  lemma PoolPartKeys(pools: seq<PoolInput>, txs: seq<QueuedTx>)
    requires PoolPart(pools, txs)
    ensures PlanKeys(txs) == set p | p in pools && p.claimable > 0 :: PoolKey(Lower(p.lending), p.loanId)
  {
    forall t, k | t in txs && k in Keys(t)
      ensures k in set p | p in pools && p.claimable > 0 :: PoolKey(Lower(p.lending), p.loanId)
    {
      PoolKeysBacked(pools, t, k);
    }
    forall p | p in pools && p.claimable > 0 ensures PoolKey(Lower(p.lending), p.loanId) in PlanKeys(txs) {
      assert Serves(txs, Lower(p.lending));
      var i :| 0 <= i < |txs| && txs[i].PoolClaims? && Lower(txs[i].lending) == Lower(p.lending);
      PoolKeysBacked(pools, txs[i], PoolKey(Lower(p.lending), p.loanId));
      assert txs[i] in txs;
    }
  }

  lemma StreamPartKeys(streams: seq<StreamInput>, txs: seq<QueuedTx>)
    requires StreamPart(streams, txs)
    ensures PlanKeys(txs) == set s | s in streams && s.withdrawable > 0 :: StreamKey(s.streamId)
  {
    forall s | s in streams && s.withdrawable > 0 ensures StreamKey(s.streamId) in PlanKeys(txs) {
      assert StreamTx(s) in txs && StreamKey(s.streamId) in Keys(StreamTx(s));
    }
  }

  lemma PlanKeysSplit(plan: seq<QueuedTx>, n: nat)
    requires n <= |plan|
    ensures PlanKeys(plan) == PlanKeys(plan[..n]) + PlanKeys(plan[n..])
  {
    assert plan == plan[..n] + plan[n..];
    assert forall t :: t in plan <==> t in plan[..n] || t in plan[n..];
  }

  /** The plan's keys are exactly the input's positive claims. */
  lemma PlanCoversInput(input: Input, plan: seq<QueuedTx>)
    requires IsPlan(input, plan)
    ensures PlanKeys(plan) == InputKeys(input)
  {
    var n :| 0 <= n <= |plan| && PoolPart(input.pools, plan[..n]) && StreamPart(input.streams, plan[n..]);
    PoolPartKeys(input.pools, plan[..n]);
    StreamPartKeys(input.streams, plan[n..]);
    PlanKeysSplit(plan, n);
  }

  lemma PoolPartGroups(pools: seq<PoolInput>, txs: seq<QueuedTx>)
    requires PoolPart(pools, txs)
    ensures forall t :: t in txs ==> t.PoolClaims?
    ensures OnePerGroup(txs)
  {
    forall i, j | 0 <= i < j < |txs| ensures GroupOf(txs[i]) != GroupOf(txs[j]) {
      LessAsymmetric(Lower(txs[i].lending), Lower(txs[j].lending));
    }
  }

  lemma OnePerGroupAppend(a: seq<QueuedTx>, b: seq<QueuedTx>)
    requires OnePerGroup(a) && OnePerGroup(b)
    requires (forall t :: t in a ==> t.PoolClaims?) && (forall t :: t in b ==> t.StreamClaim?)
    ensures OnePerGroup(a + b)
  {
    forall i, j | 0 <= i < j < |a + b| ensures GroupOf((a + b)[i]) != GroupOf((a + b)[j]) {
      if i < |a| <= j {
        assert a[i] in a && b[j - |a|] in b;
      }
    }
  }

  /** One transaction per group: what the queue asks of its plans. */
  lemma PlanIsOnePerGroup(input: Input, plan: seq<QueuedTx>)
    requires IsPlan(input, plan)
    ensures OnePerGroup(plan) && Disjoint(plan)
  {
    var n :| 0 <= n <= |plan| && PoolPart(input.pools, plan[..n]) && StreamPart(input.streams, plan[n..]);
    PoolPartGroups(input.pools, plan[..n]);
    OnePerGroupAppend(plan[..n], plan[n..]);
    assert plan == plan[..n] + plan[n..];
    OnePerGroupDisjoint(plan);
  }

  /** `plan[x].claims[y]` claims this pool's loan. */
  predicate ClaimsAt(plan: seq<QueuedTx>, p: PoolInput, x: nat, y: nat)
  {
    && x < |plan| && plan[x].PoolClaims? && y < |plan[x].claims|
    && SameAddress(plan[x].lending, p.lending) && plan[x].claims[y].loanId == p.loanId
  }

  lemma TxClaimsOnce(pools: seq<PoolInput>, t: QueuedTx, p: PoolInput) returns (j: nat)
    requires PoolTxOk(pools, t) && p in pools && p.claimable > 0 && Lower(t.lending) == Lower(p.lending)
    ensures j < |t.claims| && t.claims[j] == PoolClaim(p.loanId, p.claimable)
    ensures forall y :: 0 <= y < |t.claims| && t.claims[y].loanId == p.loanId ==> y == j
  {
    assert Backs(p, Lower(t.lending), PoolClaim(p.loanId, p.claimable));
    assert PoolClaim(p.loanId, p.claimable) in t.claims;
    j :| 0 <= j < |t.claims| && t.claims[j] == PoolClaim(p.loanId, p.claimable);
  }

  /** Each positive pool claim is claimed by one transaction, once, for its amount. */
  lemma EachClaimOnce(input: Input, plan: seq<QueuedTx>, p: PoolInput) returns (i: nat, j: nat)
    requires IsPlan(input, plan) && p in input.pools && p.claimable > 0
    ensures ClaimsAt(plan, p, i, j) && plan[i].claims[j].claimable == p.claimable
    ensures forall x: nat, y: nat :: ClaimsAt(plan, p, x, y) ==> x == i && y == j
  {
    PlanIsOnePerGroup(input, plan);
    var n :| 0 <= n <= |plan| && PoolPart(input.pools, plan[..n]) && StreamPart(input.streams, plan[n..]);
    assert Serves(plan[..n], Lower(p.lending));
    i :| 0 <= i < n && plan[..n][i].PoolClaims? && Lower(plan[..n][i].lending) == Lower(p.lending);
    assert plan[i] == plan[..n][i];
    j := TxClaimsOnce(input.pools, plan[i], p);
    forall x: nat, y: nat | ClaimsAt(plan, p, x, y) ensures x == i && y == j {
      assert GroupOf(plan[x]) == GroupOf(plan[i]);
    }
  }

  /** Each positive stream is claimed by one transaction, for its whole amount and in its asset. */
  lemma EachStreamOnce(input: Input, plan: seq<QueuedTx>, s: StreamInput) returns (i: nat)
    requires IsPlan(input, plan) && s in input.streams && s.withdrawable > 0
    ensures i < |plan| && Withdraws(plan[i], s)
    ensures forall x :: 0 <= x < |plan| && plan[x].StreamClaim? && plan[x].streamId == s.streamId ==> x == i
  {
    PlanIsOnePerGroup(input, plan);
    var n :| 0 <= n <= |plan| && PoolPart(input.pools, plan[..n]) && StreamPart(input.streams, plan[n..]);
    var t := StreamClaim(s.streamId, s.withdrawable, s.asset);
    assert Withdraws(t, s) && t in plan[n..];
    var k :| 0 <= k < |plan[n..]| && plan[n..][k] == t;
    i := n + k;
    forall x | 0 <= x < |plan| && plan[x].StreamClaim? && plan[x].streamId == s.streamId ensures x == i {
      assert GroupOf(plan[x]) == GroupOf(plan[i]);
    }
  }
}
