/**
 Route selection over hydrated liquidity positions: take the largest positions first, at
 most `maxRouteIds` of them, until the borrow target is met.
 */
module Router {
  import opened Sequences
  import opened Sorting
  import opened Text

  const MAX_SAFE_INTEGER := 9007199254740991

  datatype Position = Position(id: nat, lender: Address, market: Address, aprBps: nat, availableLiquidity: int)

  datatype Borrower = Anyone | Account(address: Address)

  datatype RouteStatus = Ready | Fragmented | Insufficient

  datatype RouteResult =
    | BadLimit
    | ConservationFailed(projectedDepth: int, aggregateDepth: int)
    | Route(status: RouteStatus, publicDepth: int, executableDepth: int, fragmentedDepth: int,
            selfExcludedDepth: int, selectedDepth: int, selectedIds: seq<nat>)

  function Depth(s: seq<Position>): int
  {
    if s == [] then 0 else s[0].availableLiquidity + Depth(s[1..])
  }

  function IdsOf(s: seq<Position>): seq<nat>
  {
    Map(s, (p: Position) => p.id)
  }

  predicate Own(p: Position, borrower: Borrower)
  {
    borrower.Account? && SameAddress(p.lender, borrower.address)
  }

  /** Positions a borrower may draw on: their own supply is never one of them. */
  function Usable(s: seq<Position>, borrower: Borrower): seq<Position>
  {
    Filter(s, (p: Position) => p.availableLiquidity > 0 && !Own(p, borrower))
  }

  /** Larger liquidity first, then the smaller id. */
  predicate RankedBefore(a: Position, b: Position)
  {
    a.availableLiquidity > b.availableLiquidity
    || (a.availableLiquidity == b.availableLiquidity && a.id <= b.id)
  }

  /** How many members `slice(0, limit)` keeps. */
  function Within(limit: nat, s: seq<Position>): (k: nat)
    ensures k <= limit && k <= |s|
  {
    if limit < |s| then limit else |s|
  }

  predicate IdAtMost(a: nat, b: nat) { a <= b }

  /** A pick of positions from `from`, each used at most as often as it is listed. */
  ghost predicate PickFrom(pick: seq<Position>, from: seq<Position>)
  {
    multiset(pick) <= multiset(from)
  }

  /** A pick that a single route could execute: no own supply, few enough ids, enough liquidity. */
  ghost predicate CoveringRoute(pick: seq<Position>, positions: seq<Position>, borrower: Borrower, target: int,
                                limit: int)
  {
    && PickFrom(pick, positions)
    && (forall p :: p in pick ==> !Own(p, borrower))
    && |pick| <= limit
    && Depth(pick) >= target
  }

  /** The answer is ready exactly when a covering route exists, and is then one of the fewest members. */
  ghost predicate Optimal(r: RouteResult, positions: seq<Position>, borrower: Borrower, target: int, limit: int)
    requires r.Route?
  {
    && (r.status == Ready <==> exists pick :: CoveringRoute(pick, positions, borrower, target, limit))
    && (r.status == Ready ==>
          forall pick :: CoveringRoute(pick, positions, borrower, target, limit) ==> |r.selectedIds| <= |pick|)
  }

  /** Executable depth is the most any pick within the limit can draw. */
  ghost predicate ExecutableIsMaximal(executableDepth: int, positions: seq<Position>, borrower: Borrower, limit: int)
  {
    && (exists pick :: CoveringRoute(pick, positions, borrower, executableDepth, limit))
    && (forall pick | CoveringRoute(pick, positions, borrower, Depth(pick), limit) :: Depth(pick) <= executableDepth)
  }

  /** The most that can be drawn without own supply, however many positions it takes. */
  ghost predicate MostWithoutLimit(depth: int, positions: seq<Position>, borrower: Borrower)
  {
    && (exists pick :: CoveringRoute(pick, positions, borrower, depth, |pick|))
    && (forall pick | CoveringRoute(pick, positions, borrower, Depth(pick), |pick|) :: Depth(pick) <= depth)
  }

  /** What the borrower supplies: the sum over their own positions. */
  function OwnDepth(s: seq<Position>, borrower: Borrower): int
  {
    if s == [] then 0
    else (if Own(s[0], borrower) then s[0].availableLiquidity else 0) + OwnDepth(s[1..], borrower)
  }

  /** The pick is made of the largest usable positions, of equal ones those with the smaller ids. */
  ghost predicate RankedFirst(pick: seq<Position>, positions: seq<Position>, borrower: Borrower)
  {
    exists rest: seq<Position> ::
      && multiset(pick) + multiset(rest) == multiset(Usable(positions, borrower))
      && forall p, x :: p in pick && x in rest ==>
           p.availableLiquidity > x.availableLiquidity || (p.availableLiquidity == x.availableLiquidity && p.id <= x.id)
  }

  /** The ids and depth of the answer are those of the largest usable positions, within the limit. */
  ghost predicate Selects(r: RouteResult, pick: seq<Position>, positions: seq<Position>, borrower: Borrower, limit: int)
    requires r.Route?
  {
    && CoveringRoute(pick, positions, borrower, r.selectedDepth, limit) && r.selectedDepth == Depth(pick)
    && multiset(r.selectedIds) == multiset(IdsOf(pick)) && RankedFirst(pick, positions, borrower)
  }

  /**
   The three parts: what the limit lets a route draw, what more positions would add, and the
   borrower's own supply. They make up the published depth exactly when no usable lender reports
   negative liquidity.
   */
  ghost predicate ReportsDepths(r: RouteResult, positions: seq<Position>, borrower: Borrower, limit: int)
    requires r.Route?
  {
    && ExecutableIsMaximal(r.executableDepth, positions, borrower, limit)
    && MostWithoutLimit(r.executableDepth + r.fragmentedDepth, positions, borrower)
    && r.selfExcludedDepth == OwnDepth(positions, borrower)
    && (r.publicDepth == r.executableDepth + r.fragmentedDepth + r.selfExcludedDepth
        <==> forall p :: p in positions && p.availableLiquidity < 0 ==> Own(p, borrower))
  }

  /**
   Short of the target everything executable is selected, and it is called fragmented exactly
   when more positions would draw more.
   */
  ghost predicate ExplainsShortfall(r: RouteResult, positions: seq<Position>, borrower: Borrower)
    requires r.Route?
  {
    && r.selectedDepth == r.executableDepth && r.status != Ready
    && (r.status == Fragmented
        <==> exists pick :: CoveringRoute(pick, positions, borrower, r.executableDepth + 1, |pick|))
  }

  method SelectHydratedRoute(positions: seq<Position>, borrower: Borrower, target: int, aggregateDepth: int,
                             maxRouteIds: int)
    returns (r: RouteResult)
    ensures r.BadLimit? <==> !(0 < maxRouteIds <= MAX_SAFE_INTEGER)
    ensures r.ConservationFailed? <==> 0 < maxRouteIds <= MAX_SAFE_INTEGER && Depth(positions) != aggregateDepth
    ensures r.ConservationFailed? ==> r.projectedDepth == Depth(positions) && r.aggregateDepth == aggregateDepth
    ensures r.Route? ==> Optimal(r, positions, borrower, target, maxRouteIds)
    ensures r.Route? ==> SortedBy(r.selectedIds, IdAtMost)
    ensures r.Route? ==> exists pick :: Selects(r, pick, positions, borrower, maxRouteIds)
    ensures r.Route? ==> (r.status == Ready <==> r.selectedDepth >= target)
    ensures r.Route? && r.status != Ready ==> ExplainsShortfall(r, positions, borrower)
    ensures r.Route? ==> r.publicDepth == aggregateDepth && ReportsDepths(r, positions, borrower, maxRouteIds)
  {
    if !(0 < maxRouteIds <= MAX_SAFE_INTEGER) {
      return BadLimit;
    }
    if Depth(positions) != aggregateDepth {
      return ConservationFailed(Depth(positions), aggregateDepth);
    }
    var selfExcludedDepth := Depth(Filter(positions, (p: Position) => Own(p, borrower)));
    var ranked := Sort(Usable(positions, borrower), RankedBefore);
    var bounded := ranked[..Within(maxRouteIds, ranked)];
    var executableDepth := Depth(bounded);
    var fragmentedDepth := Depth(ranked) - executableDepth;
    var selected, selectedDepth := TakeUntil(bounded, target, ranked);
    var selectedIds := Sort(IdsOf(selected), IdAtMost);
    var status := if selectedDepth >= target then Ready else if fragmentedDepth > 0 then Fragmented else Insufficient;
    r := Route(status, aggregateDepth, executableDepth, fragmentedDepth, selfExcludedDepth, selectedDepth, selectedIds);

    SortPermutes(IdsOf(selected), IdAtMost);
    SortSorts(IdsOf(selected), IdAtMost);
    GreedyOptimal(r, positions, borrower, target, maxRouteIds, |selected|, ranked);
    PrefixIsSelected(r, positions, borrower, maxRouteIds, |selected|, ranked);
    DepthsReported(r, positions, borrower, maxRouteIds, ranked);
  }

  /** The shortest prefix that reaches the target, or everything when none does. */
  method TakeUntil(bounded: seq<Position>, target: int, ghost ranked: seq<Position>)
    returns (selected: seq<Position>, selectedDepth: int)
    requires bounded <= ranked
    ensures |selected| <= |bounded| && selected == ranked[..|selected|] && selectedDepth == Depth(selected)
    ensures selectedDepth < target ==> |selected| == |bounded|
    ensures forall k :: 0 <= k < |selected| ==> Depth(ranked[..k]) < target
  {
    selected, selectedDepth := [], 0;
    var i := 0;
    while i < |bounded| && selectedDepth < target
      invariant 0 <= i <= |bounded|
      invariant selected == ranked[..i] && selectedDepth == Depth(selected)
      invariant forall k :: 0 <= k < i ==> Depth(ranked[..k]) < target
    {
      assert ranked[..i + 1] == ranked[..i] + [bounded[i]];
      DepthAppend(ranked[..i], [bounded[i]]);
      selected := selected + [bounded[i]];
      selectedDepth := selectedDepth + bounded[i].availableLiquidity;
      i := i + 1;
    }
  }

  // ---------------------------------------------------------------------------
  // Sums
  // ---------------------------------------------------------------------------

  lemma DepthAppend(s: seq<Position>, t: seq<Position>)
    ensures Depth(s + t) == Depth(s) + Depth(t)
  {
    if s == [] {
      assert s + t == t;
    } else {
      assert (s + t)[1..] == s[1..] + t;
      DepthAppend(s[1..], t);
    }
  }

  lemma DepthWithout(before: seq<Position>, x: Position, after: seq<Position>)
    ensures Depth(before + [x] + after) == x.availableLiquidity + Depth(before + after)
  {
    DepthAppend(before + [x], after);
    DepthAppend(before, [x]);
    DepthAppend(before, after);
  }

  lemma DepthOfPrefix(r: seq<Position>, k: nat)
    requires 0 < k <= |r|
    ensures Depth(r[..k]) == r[0].availableLiquidity + Depth(r[1..][..k - 1])
  {
    assert r[..k][1..] == r[1..][..k - 1];
  }

  lemma DepthOfPermutation(s: seq<Position>, t: seq<Position>)
    requires multiset(s) == multiset(t)
    ensures Depth(s) == Depth(t)
  {
    if s == [] {
      assert t == [] by { assert |multiset(t)| == 0; }
    } else {
      assert s == [s[0]] + s[1..];
      assert s[0] in multiset(t);
      var before, after := RemoveOne(t, s[0]);
      DepthWithout(before, s[0], after);
      DepthOfPermutation(s[1..], before + after);
    }
  }

  lemma SortKeepsDepth(s: seq<Position>)
    ensures Depth(Sort(s, RankedBefore)) == Depth(s)
  {
    SortPermutes(s, RankedBefore);
    DepthOfPermutation(Sort(s, RankedBefore), s);
  }

  function NegativeDepth(s: seq<Position>, borrower: Borrower): int
  {
    Depth(Filter(s, (p: Position) => p.availableLiquidity < 0 && !Own(p, borrower)))
  }

  lemma NegativeDepthSign(s: seq<Position>)
    requires forall p :: p in s ==> p.availableLiquidity < 0
    ensures Depth(s) <= 0 && (Depth(s) == 0 <==> s == [])
  {
    if s != [] {
      NegativeDepthSign(s[1..]);
    }
  }

  lemma DepthPartition(s: seq<Position>, borrower: Borrower)
    ensures Depth(s) == Depth(Filter(s, (p: Position) => Own(p, borrower))) + Depth(Usable(s, borrower))
      + NegativeDepth(s, borrower)
  {
    if s != [] {
      DepthPartition(s[1..], borrower);
      var own, use, neg := (p: Position) => Own(p, borrower),
          (p: Position) => p.availableLiquidity > 0 && !Own(p, borrower),
          (p: Position) => p.availableLiquidity < 0 && !Own(p, borrower);
      FilterStep(s, own);
      FilterStep(s, use);
      FilterStep(s, neg);
    }
  }

  lemma FilterStep(s: seq<Position>, keep: Position -> bool)
    requires s != []
    ensures Depth(Filter(s, keep)) == (if keep(s[0]) then s[0].availableLiquidity else 0) + Depth(Filter(s[1..], keep))
  {
    DepthAppend(if keep(s[0]) then [s[0]] else [], Filter(s[1..], keep));
  }

  lemma DepthSplits(s: seq<Position>, borrower: Borrower)
    ensures (Depth(s) == Depth(Filter(s, (p: Position) => Own(p, borrower))) + Depth(Usable(s, borrower)))
       <==> (forall p :: p in s && p.availableLiquidity < 0 ==> Own(p, borrower))
  {
    DepthPartition(s, borrower);
    var negative := Filter(s, (p: Position) => p.availableLiquidity < 0 && !Own(p, borrower));
    NegativeDepthSign(negative);
    if negative != [] {
      assert negative[0] in negative;
    }
  }

  // ---------------------------------------------------------------------------
  // The greedy choice is optimal
  // ---------------------------------------------------------------------------

  ghost predicate Descending(s: seq<Position>)
  {
    && (forall i, j :: 0 <= i < j < |s| ==> s[i].availableLiquidity >= s[j].availableLiquidity)
    && (forall i :: 0 <= i < |s| ==> s[i].availableLiquidity > 0)
  }

  /** The failing family is inhabited: one lender that reports a negative amount. */
  lemma NegativeLiquidityBreaksSplit()
    ensures var s := [Position(1, "lender", "market", 500, -1)];
      Depth(s) == -1 && Depth(Filter(s, (p: Position) => Own(p, Anyone))) + Depth(Usable(s, Anyone)) == 0
  {
    var p := Position(1, "lender", "market", 500, -1);
    assert [p][1..] == [];
  }

  lemma RankedDescends(s: seq<Position>, borrower: Borrower)
    ensures Descending(Sort(Usable(s, borrower), RankedBefore))
  {
    SortSorts(Usable(s, borrower), RankedBefore);
    SortPermutes(Usable(s, borrower), RankedBefore);
    var ranked := Sort(Usable(s, borrower), RankedBefore);
    forall i | 0 <= i < |ranked| ensures ranked[i].availableLiquidity > 0 {
      assert ranked[i] in ranked;
    }
  }

  lemma RankedPrefixIsRoute(s: seq<Position>, borrower: Borrower, k: nat)
    requires k <= |Sort(Usable(s, borrower), RankedBefore)|
    ensures var pick := Sort(Usable(s, borrower), RankedBefore)[..k];
            PickFrom(pick, s) && forall p :: p in pick ==> !Own(p, borrower)
  {
    var ranked := Sort(Usable(s, borrower), RankedBefore);
    SortPermutes(Usable(s, borrower), RankedBefore);
    SubMultisetFilter(s, s, (p: Position) => p.availableLiquidity > 0 && !Own(p, borrower));
    SubMultisetPrefix(ranked, k);
    assert forall p :: p in ranked[..k] ==> p in ranked;
  }

  lemma RankedPrefixMonotone(ranked: seq<Position>, j: nat, k: nat)
    requires j <= k <= |ranked| && forall i :: 0 <= i < |ranked| ==> ranked[i].availableLiquidity > 0
    ensures Depth(ranked[..j]) <= Depth(ranked[..k])
    decreases k - j
  {
    if j < k {
      assert ranked[..j + 1] == ranked[..j] + [ranked[j]];
      DepthAppend(ranked[..j], [ranked[j]]);
      RankedPrefixMonotone(ranked, j + 1, k);
    }
  }

  /** Dropping the head of a descending list never lowers the sum of its first `k` members. */
  lemma ShiftedPrefix(r: seq<Position>, k: nat)
    requires Descending(r) && k < |r|
    ensures Depth(r[1..][..k]) <= Depth(r[..k])
  {
    if k > 0 {
      ShiftedPrefix(r, k - 1);
      assert r[1..][..k] == r[1..][..k - 1] + [r[k]];
      assert r[..k] == r[..k - 1] + [r[k - 1]];
      DepthAppend(r[1..][..k - 1], [r[k]]);
      DepthAppend(r[..k - 1], [r[k - 1]]);
    }
  }

  /** A pick holding the head of the list is the head and a pick from the tail. */
  lemma PickWithHead(pick: seq<Position>, r: seq<Position>) returns (rest: seq<Position>)
    requires r != [] && PickFrom(pick, r) && r[0] in pick
    ensures PickFrom(rest, r[1..]) && |rest| == |pick| - 1
    ensures Depth(pick) == r[0].availableLiquidity + Depth(rest)
  {
    var before, after := RemoveOne(pick, r[0]);
    rest := before + after;
    DepthWithout(before, r[0], after);
    SubMultisetTailWith(multiset(pick), r);
  }

  /** Exchange argument: no pick of `|pick|` members beats the first `|pick|` of a descending list. */
  lemma {:induction false} Exchange(pick: seq<Position>, r: seq<Position>)
    requires Descending(r) && PickFrom(pick, r)
    ensures |pick| <= |r| && Depth(pick) <= Depth(r[..|pick|])
    decreases |r|
  {
    SubMultisetSize(pick, r);
    if pick != [] {
      if r[0] in pick {
        var rest := PickWithHead(pick, r);
        Exchange(rest, r[1..]);
        DepthOfPrefix(r, |pick|);
      } else {
        SubMultisetTail(multiset(pick), r);
        Exchange(pick, r[1..]);
        ShiftedPrefix(r, |pick|);
      }
    }
  }

  /** Any pick without own supply is beaten by the ranked prefix of its size. */
  lemma GreedyIsBest(pick: seq<Position>, s: seq<Position>, borrower: Borrower)
    requires PickFrom(pick, s) && forall p :: p in pick ==> !Own(p, borrower)
    ensures var ranked := Sort(Usable(s, borrower), RankedBefore);
            Depth(pick) <= Depth(ranked[..Within(|pick|, ranked)])
  {
    var ranked := Sort(Usable(s, borrower), RankedBefore);
    var useful := Usable(pick, borrower);
    SubMultisetFilter(pick, s, (p: Position) => p.availableLiquidity > 0 && !Own(p, borrower));
    SortPermutes(Usable(s, borrower), RankedBefore);
    RankedDescends(s, borrower);
    Exchange(useful, ranked);
    RankedPrefixMonotone(ranked, |useful|, Within(|pick|, ranked));
    UsefulIsEnough(pick, borrower);
  }

  lemma ExecutableMaximal(s: seq<Position>, borrower: Borrower, limit: nat)
    ensures var ranked := Sort(Usable(s, borrower), RankedBefore);
            ExecutableIsMaximal(Depth(ranked[..Within(limit, ranked)]), s, borrower, limit)
  {
    var ranked := Sort(Usable(s, borrower), RankedBefore);
    var bounded := ranked[..Within(limit, ranked)];
    RankedPrefixIsRoute(s, borrower, |bounded|);
    assert CoveringRoute(bounded, s, borrower, Depth(bounded), limit);
    RankedDescends(s, borrower);
    forall pick | CoveringRoute(pick, s, borrower, Depth(pick), limit) ensures Depth(pick) <= Depth(bounded) {
      GreedyIsBest(pick, s, borrower);
      RankedPrefixMonotone(ranked, Within(|pick|, ranked), |bounded|);
    }
  }

  lemma RankedIsMost(s: seq<Position>, borrower: Borrower)
    ensures MostWithoutLimit(Depth(Sort(Usable(s, borrower), RankedBefore)), s, borrower)
  {
    var ranked := Sort(Usable(s, borrower), RankedBefore);
    RankedPrefixIsRoute(s, borrower, |ranked|);
    assert ranked[..|ranked|] == ranked;
    assert CoveringRoute(ranked, s, borrower, Depth(ranked), |ranked|);
    RankedDescends(s, borrower);
    forall pick | CoveringRoute(pick, s, borrower, Depth(pick), |pick|) ensures Depth(pick) <= Depth(ranked) {
      GreedyIsBest(pick, s, borrower);
      RankedPrefixMonotone(ranked, Within(|pick|, ranked), |ranked|);
    }
  }

  lemma MoreIffDeeper(most: int, executable: int, s: seq<Position>, borrower: Borrower)
    requires MostWithoutLimit(most, s, borrower)
    ensures most > executable <==> exists pick :: CoveringRoute(pick, s, borrower, executable + 1, |pick|)
  {
    var all :| CoveringRoute(all, s, borrower, most, |all|);
    if most > executable {
      assert CoveringRoute(all, s, borrower, executable + 1, |all|);
    }
    forall pick | CoveringRoute(pick, s, borrower, executable + 1, |pick|) ensures most > executable {
      assert CoveringRoute(pick, s, borrower, Depth(pick), |pick|);
    }
  }

  lemma OwnDepthIsFiltered(s: seq<Position>, borrower: Borrower)
    ensures Depth(Filter(s, (p: Position) => Own(p, borrower))) == OwnDepth(s, borrower)
  {
    if s != [] {
      OwnDepthIsFiltered(s[1..], borrower);
      FilterStep(s, (p: Position) => Own(p, borrower));
    }
  }

  /** A ranked prefix leaves nothing larger, and nothing equal with a smaller id, behind. */
  lemma PrefixRankedFirst(s: seq<Position>, borrower: Borrower, k: nat, ranked: seq<Position>)
    requires ranked == Sort(Usable(s, borrower), RankedBefore) && k <= |ranked|
    ensures RankedFirst(ranked[..k], s, borrower)
  {
    SortSorts(Usable(s, borrower), RankedBefore);
    SortPermutes(Usable(s, borrower), RankedBefore);
    var pick, rest := ranked[..k], ranked[k..];
    assert ranked == pick + rest;
    forall p, x | p in pick && x in rest
      ensures p.availableLiquidity > x.availableLiquidity
           || (p.availableLiquidity == x.availableLiquidity && p.id <= x.id)
    {
      var i :| 0 <= i < |pick| && pick[i] == p;
      var j :| 0 <= j < |rest| && rest[j] == x;
      assert RankedBefore(ranked[i], ranked[k + j]);
    }
  }

  lemma PrefixIsSelected(r: RouteResult, s: seq<Position>, borrower: Borrower, limit: nat, k: nat,
                         ranked: seq<Position>)
    requires ranked == Sort(Usable(s, borrower), RankedBefore) && k <= Within(limit, ranked)
    requires r.Route? && r.selectedDepth == Depth(ranked[..k])
    requires multiset(r.selectedIds) == multiset(IdsOf(ranked[..k]))
    ensures Selects(r, ranked[..k], s, borrower, limit)
  {
    RankedPrefixIsRoute(s, borrower, k);
    PrefixRankedFirst(s, borrower, k, ranked);
  }

  lemma DepthsReported(r: RouteResult, s: seq<Position>, borrower: Borrower, limit: nat, ranked: seq<Position>)
    requires ranked == Sort(Usable(s, borrower), RankedBefore) && r.Route? && r.publicDepth == Depth(s)
    requires r.executableDepth == Depth(ranked[..Within(limit, ranked)])
    requires r.fragmentedDepth == Depth(ranked) - r.executableDepth
    requires r.selfExcludedDepth == Depth(Filter(s, (p: Position) => Own(p, borrower)))
    ensures ReportsDepths(r, s, borrower, limit)
    ensures r.fragmentedDepth > 0 <==> exists pick :: CoveringRoute(pick, s, borrower, r.executableDepth + 1, |pick|)
  {
    ExecutableMaximal(s, borrower, limit);
    DepthSplits(s, borrower);
    SortKeepsDepth(Usable(s, borrower));
    RankedIsMost(s, borrower);
    OwnDepthIsFiltered(s, borrower);
    MoreIffDeeper(Depth(ranked), r.executableDepth, s, borrower);
  }

  /** Whatever covers the target is at least as long as some ranked prefix that covers it. */
  lemma CoveringNeedsPrefix(pick: seq<Position>, s: seq<Position>, borrower: Borrower, target: int, limit: nat)
    requires CoveringRoute(pick, s, borrower, target, limit)
    ensures var ranked := Sort(Usable(s, borrower), RankedBefore);
            Depth(ranked[..Within(|pick|, ranked)]) >= target
  {
    GreedyIsBest(pick, s, borrower);
  }

  /** The shortest ranked prefix reaching the target is optimal among all covering routes. */
  lemma GreedyOptimal(r: RouteResult, s: seq<Position>, borrower: Borrower, target: int, limit: nat, k: nat,
                      ranked: seq<Position>)
    requires ranked == Sort(Usable(s, borrower), RankedBefore) && k <= Within(limit, ranked)
    requires r.Route? && |r.selectedIds| == k && r.selectedDepth == Depth(ranked[..k])
    requires multiset(r.selectedIds) == multiset(IdsOf(ranked[..k]))
    requires r.status == Ready <==> r.selectedDepth >= target
    requires r.status == Ready || k == Within(limit, ranked)
    requires forall j :: 0 <= j < k ==> Depth(ranked[..j]) < target
    ensures Optimal(r, s, borrower, target, limit)
  {
    RankedPrefixIsRoute(s, borrower, k);
    assert r.status == Ready ==> CoveringRoute(ranked[..k], s, borrower, target, limit);
    forall pick | CoveringRoute(pick, s, borrower, target, limit) ensures r.status == Ready && k <= |pick| {
      NoShorterRoute(pick, s, borrower, target, limit, k, ranked);
    }
  }

  lemma NoShorterRoute(pick: seq<Position>, s: seq<Position>, borrower: Borrower, target: int, limit: nat, k: nat,
                       ranked: seq<Position>)
    requires ranked == Sort(Usable(s, borrower), RankedBefore) && k <= Within(limit, ranked)
    requires Depth(ranked[..k]) >= target || k == Within(limit, ranked)
    requires forall j :: 0 <= j < k ==> Depth(ranked[..j]) < target
    requires CoveringRoute(pick, s, borrower, target, limit)
    ensures k <= |pick| && Depth(ranked[..k]) >= target
  {
    CoveringNeedsPrefix(pick, s, borrower, target, limit);
    var m := Within(|pick|, ranked);
    assert Depth(ranked[..m]) >= target;
  }

  lemma UsefulIsEnough(pick: seq<Position>, borrower: Borrower)
    requires forall p :: p in pick ==> !Own(p, borrower)
    ensures Depth(pick) <= Depth(Usable(pick, borrower))
  {
    if pick != [] {
      UsefulIsEnough(pick[1..], borrower);
      FilterStep(pick, (p: Position) => p.availableLiquidity > 0 && !Own(p, borrower));
    }
  }
}
