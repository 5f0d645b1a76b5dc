/**
 * One epoch of an APR tick in the lending contract. Lender positions are laid end to end on a
 * tape, borrowers consume the tape from the left, and a loan is the stretch it consumed. No
 * position is read when a loan is made: who lent how much is derived afterwards by overlaying the
 * two divisions of the tape.
 */
module LendingTape {
  import opened PrefixSums
  import Tree = TickTree
  import PackedWord

  datatype Fill = Fill(start: nat, end: nat)

  datatype Tape = Tape(leaves: seq<nat>, filled: nat, loans: seq<Fill>)

  datatype Op =
    | Supply(units: nat)
    | Withdraw(position: nat)
    | Borrow(units: nat)

  const EMPTY: Tape := Tape([], 0, [])

  /** Wei in one unit of the tape, and the least amount worth supplying or borrowing. */
  const UNIT: nat := 1_000_000_000_000
  const MIN_LIQUIDITY_AMOUNT: nat := 1_000_000_000_000_000

  function Min(a: int, b: int): int
  {
    if a < b then a else b
  }

  /** Where a position starts; position `i` occupies the tape from its start to the next one's. */
  function Start(t: Tape, i: nat): nat
  {
    SumTo(t.leaves, i)
  }

  function Available(t: Tape): int
  {
    Total(t.leaves) - t.filled
  }

  /** The part of a position that borrowers have consumed. */
  function FilledHistory(t: Tape, i: nat): (h: nat)
    requires i < |t.leaves|
    ensures h <= t.leaves[i]
  {
    if t.filled > Start(t, i) then
      var consumed := t.filled - Start(t, i);
      if consumed < t.leaves[i] then consumed else t.leaves[i]
    else 0
  }

  function Unfilled(t: Tape, i: nat): nat
    requires i < |t.leaves|
  {
    t.leaves[i] - FilledHistory(t, i)
  }

  function Overlap(aStart: nat, aEnd: nat, bStart: nat, bEnd: nat): nat
  {
    var start := if aStart > bStart then aStart else bStart;
    var end := if aEnd < bEnd then aEnd else bEnd;
    if end > start then end - start else 0
  }

  /** How much of loan `j` position `i` funded. */
  function Contribution(t: Tape, i: nat, j: nat): nat
    requires i < |t.leaves| && j < |t.loans|
  {
    Overlap(Start(t, i), Start(t, i) + t.leaves[i], t.loans[j].start, t.loans[j].end)
  }

  // ---- The transitions; a call that reverts leaves the tape alone --------------------------

  predicate Accepts(t: Tape, op: Op)
  {
    match op
    case Supply(u) => Tree.AppendOutcome(t.leaves, u).Done?
    case Withdraw(i) => i < |t.leaves| && Unfilled(t, i) > 0
    case Borrow(u) => 0 < u <= Available(t)
  }

  function Step(t: Tape, op: Op): Tape
  {
    if !Accepts(t, op) then t else
    match op
    case Supply(u) => t.(leaves := t.leaves + [u])
    case Withdraw(i) => t.(leaves := t.leaves[i := FilledHistory(t, i)])
    case Borrow(u) => t.(filled := t.filled + u, loans := t.loans + [Fill(t.filled, t.filled + u)])
  }

  function Run(t: Tape, ops: seq<Op>): Tape
  {
    if ops == [] then t else Step(Run(t, ops[..|ops| - 1]), ops[|ops| - 1])
  }

  /** Underlying the contract takes in, or pays out when negative. */
  function Inflow(t: Tape, op: Op): int
  {
    if !Accepts(t, op) then 0 else
    match op
    case Supply(u) => u as int
    case Withdraw(i) => -(Unfilled(t, i) as int)
    case Borrow(u) => -(u as int)
  }

  function Held(t: Tape, ops: seq<Op>): int
  {
    if ops == [] then 0 else
    var before := ops[..|ops| - 1];
    Held(t, before) + Inflow(Run(t, before), ops[|ops| - 1])
  }

  // ---- What every reachable tape keeps -----------------------------------------------------

  /** The loans cover [0, end) in order, each with something in it. */
  predicate Tiles(loans: seq<Fill>, end: nat)
  {
    if loans == [] then end == 0 else
    var last := loans[|loans| - 1];
    last.start < last.end == end && Tiles(loans[..|loans| - 1], last.start)
  }

  predicate Inv(t: Tape)
  {
    t.filled <= Total(t.leaves) < PackedWord.LIMB && Tiles(t.loans, t.filled)
  }

  /** Nothing below `bound` on the tape has moved. */
  ghost predicate FrozenBelow(t: Tape, u: Tape, bound: nat)
  {
    && |t.leaves| <= |u.leaves|
    && forall i: nat :: i <= |t.leaves| ==> Min(Start(t, i), bound) == Min(Start(u, i), bound)
  }

  lemma StartBounds(t: Tape, i: nat)
    requires i < |t.leaves|
    ensures Start(t, i + 1) == Start(t, i) + t.leaves[i] <= Total(t.leaves)
  {
    SumToStep(t.leaves, i);
    SumToMonotone(t.leaves, i + 1, i + 1);
  }

  lemma WithdrawFreezes(t: Tape, i: nat, k: nat)
    requires i < |t.leaves| && t.filled <= Total(t.leaves)
    ensures var s := SumTo(t.leaves[i := FilledHistory(t, i)], k);
      s <= Start(t, k) && Min(Start(t, k), t.filled) == Min(s, t.filled)
  {
    SumToUpdate(t.leaves, i, FilledHistory(t, i), k);
    if k > i {
      StartBounds(t, i);
      SumToMonotone(t.leaves, i + 1, k);
    }
  }

  lemma StepKeeps(t: Tape, op: Op)
    requires Inv(t)
    ensures Inv(Step(t, op)) && t.filled <= Step(t, op).filled
  {
    if Accepts(t, op) {
      match op
      case Supply(u) =>
        SumToAppend(t.leaves, u, |t.leaves| + 1);
      case Withdraw(i) =>
        WithdrawFreezes(t, i, |t.leaves|);
      case Borrow(u) =>
        assert Step(t, op).loans[..|t.loans|] == t.loans;
    }
  }

  lemma StepFreezes(t: Tape, op: Op)
    requires Inv(t)
    ensures FrozenBelow(t, Step(t, op), t.filled)
    ensures t.loans <= Step(t, op).loans
  {
    var u := Step(t, op);
    forall k: nat | k <= |t.leaves|
      ensures Min(Start(t, k), t.filled) == Min(Start(u, k), t.filled)
    {
      if Accepts(t, op) {
        match op
        case Supply(x) => SumToAppend(t.leaves, x, k);
        case Withdraw(i) => WithdrawFreezes(t, i, k);
        case Borrow(x) =>
      }
    }
  }

  lemma {:induction false} RunKeeps(t: Tape, ops: seq<Op>)
    requires Inv(t)
    ensures Inv(Run(t, ops)) && t.filled <= Run(t, ops).filled
  {
    if ops != [] {
      RunKeeps(t, ops[..|ops| - 1]);
      StepKeeps(Run(t, ops[..|ops| - 1]), ops[|ops| - 1]);
    }
  }

  lemma {:induction false} RunFreezes(t: Tape, ops: seq<Op>)
    requires Inv(t)
    ensures FrozenBelow(t, Run(t, ops), t.filled)
    ensures t.loans <= Run(t, ops).loans
  {
    if ops != [] {
      var before := ops[..|ops| - 1];
      var m := Run(t, before);
      RunFreezes(t, before);
      RunKeeps(t, before);
      StepFreezes(m, ops[|ops| - 1]);
    }
  }

  // ---- Frozen history ----------------------------------------------------------------------

  /** An overlap is a difference of two of these: of one stretch's ends, held within the other. */
  function Clamp(x: int, lo: int, hi: int): int
  {
    if x < lo then lo else if x > hi then hi else x
  }

  lemma {:induction false} LoanInside(loans: seq<Fill>, end: nat, j: nat)
    requires Tiles(loans, end) && j < |loans|
    ensures loans[j].start < loans[j].end <= end
  {
    if j < |loans| - 1 {
      LoanInside(loans[..|loans| - 1], loans[|loans| - 1].start, j);
    }
  }

  /**
   * Frozen history: whatever is supplied, withdrawn and borrowed later, a loan that exists keeps
   * its stretch of tape, every position keeps its contribution to it, and a position opened
   * later contributes nothing.
   */
  lemma FrozenHistory(t: Tape, ops: seq<Op>, i: nat, j: nat)
    requires Inv(t) && j < |t.loans| && i < |Run(t, ops).leaves|
    ensures j < |Run(t, ops).loans| && Run(t, ops).loans[j] == t.loans[j]
    ensures Contribution(Run(t, ops), i, j) == if i < |t.leaves| then Contribution(t, i, j) else 0
  {
    var u := Run(t, ops);
    var loan := t.loans[j];
    RunFreezes(t, ops);
    LoanInside(t.loans, t.filled, j);
    StartBounds(u, i);
    if i < |t.leaves| {
      StartBounds(t, i);
      assert Min(Start(t, i), t.filled) == Min(Start(u, i), t.filled);
      assert Min(Start(t, i + 1), t.filled) == Min(Start(u, i + 1), t.filled);
    } else {
      assert Min(Start(t, |t.leaves|), t.filled) == Min(Start(u, |t.leaves|), t.filled);
      SumToMonotone(u.leaves, |t.leaves|, i);
    }
  }

  /** Borrowers only ever consume more of a position. */
  lemma HistoryNeverShrinks(t: Tape, ops: seq<Op>, i: nat)
    requires Inv(t) && i < |t.leaves|
    ensures i < |Run(t, ops).leaves| && FilledHistory(t, i) <= FilledHistory(Run(t, ops), i)
  {
    var u := Run(t, ops);
    RunFreezes(t, ops);
    RunKeeps(t, ops);
    StartBounds(t, i);
    StartBounds(u, i);
    assert Min(Start(t, i), t.filled) == Min(Start(u, i), t.filled);
    assert Min(Start(t, i + 1), t.filled) == Min(Start(u, i + 1), t.filled);
  }

  // ---- The two divisions of the tape agree -------------------------------------------------

  /** What the first `n` positions contributed to loan `j`. */
  function ByPosition(t: Tape, j: nat, n: nat): nat
    requires j < |t.loans| && n <= |t.leaves|
  {
    if n == 0 then 0 else ByPosition(t, j, n - 1) + Contribution(t, n - 1, j)
  }

  /** What position `i` contributed to the first `n` loans. */
  function ByLoan(t: Tape, i: nat, n: nat): nat
    requires i < |t.leaves| && n <= |t.loans|
  {
    if n == 0 then 0 else ByLoan(t, i, n - 1) + Contribution(t, i, n - 1)
  }

  function UnfilledUpTo(t: Tape, n: nat): nat
    requires n <= |t.leaves|
  {
    if n == 0 then 0 else UnfilledUpTo(t, n - 1) + Unfilled(t, n - 1)
  }

  lemma {:induction false} PositionsSum(t: Tape, j: nat, n: nat)
    requires j < |t.loans| && n <= |t.leaves| && t.loans[j].start <= t.loans[j].end
    ensures ByPosition(t, j, n) == Clamp(Start(t, n), t.loans[j].start, t.loans[j].end) - t.loans[j].start
  {
    if n > 0 {
      PositionsSum(t, j, n - 1);
      StartBounds(t, n - 1);
    }
  }

  /** Every loan is funded in full, each unit by one position. */
  lemma LoanFullyFunded(t: Tape, j: nat)
    requires Inv(t) && j < |t.loans|
    ensures ByPosition(t, j, |t.leaves|) == t.loans[j].end - t.loans[j].start
  {
    LoanInside(t.loans, t.filled, j);
    PositionsSum(t, j, |t.leaves|);
  }

  /** Where the first `n` loans end. */
  function EndOf(loans: seq<Fill>, n: nat): nat
    requires n <= |loans|
  {
    if n == 0 then 0 else loans[n - 1].end
  }

  lemma {:induction false} TilesMeet(loans: seq<Fill>, end: nat, j: nat)
    requires Tiles(loans, end) && j < |loans|
    ensures loans[j].start == EndOf(loans, j)
    ensures EndOf(loans, |loans|) == end
  {
    if j < |loans| - 1 {
      TilesMeet(loans[..|loans| - 1], loans[|loans| - 1].start, j);
    } else if |loans| > 1 {
      TilesMeet(loans[..|loans| - 1], loans[|loans| - 1].start, 0);
    }
  }

  lemma {:induction false} LoansSum(t: Tape, i: nat, n: nat)
    requires Inv(t) && i < |t.leaves| && n <= |t.loans|
    ensures ByLoan(t, i, n)
         == Clamp(EndOf(t.loans, n), Start(t, i), Start(t, i) + t.leaves[i]) - Start(t, i)
  {
    if n > 0 {
      LoansSum(t, i, n - 1);
      TilesMeet(t.loans, t.filled, n - 1);
      LoanInside(t.loans, t.filled, n - 1);
    }
  }

  /** A position's consumed part is what it contributed to loans, no more and no less. */
  lemma HistoryIsContributions(t: Tape, i: nat)
    requires Inv(t) && i < |t.leaves|
    ensures ByLoan(t, i, |t.loans|) == FilledHistory(t, i)
  {
    LoansSum(t, i, |t.loans|);
    if t.loans != [] {
      TilesMeet(t.loans, t.filled, 0);
    }
  }

  lemma {:induction false} UnfilledSum(t: Tape, n: nat)
    requires n <= |t.leaves|
    ensures UnfilledUpTo(t, n) == Start(t, n) - Min(Start(t, n), t.filled)
  {
    if n > 0 {
      UnfilledSum(t, n - 1);
      StartBounds(t, n - 1);
    }
  }

  /** What the contract holds is what all lenders together could withdraw. */
  lemma {:induction false} EscrowCovers(ops: seq<Op>)
    ensures Held(EMPTY, ops) == Available(Run(EMPTY, ops))
    ensures Held(EMPTY, ops) == UnfilledUpTo(Run(EMPTY, ops), |Run(EMPTY, ops).leaves|)
  {
    RunKeeps(EMPTY, ops);
    var u := Run(EMPTY, ops);
    UnfilledSum(u, |u.leaves|);
    if ops != [] {
      var before := ops[..|ops| - 1];
      EscrowCovers(before);
      InflowMatches(Run(EMPTY, before), ops[|ops| - 1]);
    }
  }

  /** First in, first lent: a borrow takes from each position what the earlier ones could not give. */
  lemma FirstInFirstLent(t: Tape, u: nat, i: nat)
    requires Inv(t) && 0 < u <= Available(t) && i < |t.leaves|
    ensures |Step(t, Borrow(u)).loans| == |t.loans| + 1 && Step(t, Borrow(u)).leaves == t.leaves
    ensures var taken, before := Contribution(Step(t, Borrow(u)), i, |t.loans|), UnfilledUpTo(t, i);
      taken == if u <= before then 0 else Min(u - before, Unfilled(t, i))
  {
    BorrowTakes(t, u, i);
    UnfilledSum(t, i);
    TakenFrom(Start(t, i), t.leaves[i], t.filled, u);
  }

  lemma BorrowTakes(t: Tape, u: nat, i: nat)
    requires 0 < u <= Available(t) && i < |t.leaves|
    ensures var s := Step(t, Borrow(u));
      && |s.loans| == |t.loans| + 1 && s.leaves == t.leaves
      && Contribution(s, i, |t.loans|) == Overlap(Start(t, i), Start(t, i) + t.leaves[i], t.filled, t.filled + u)
  {
  }

  /** The overlap of a position with the stretch that begins at the counter. */
  lemma TakenFrom(start: nat, leaf: nat, filled: nat, u: nat)
    ensures var before, consumed := start - Min(start, filled), if filled > start then Min(filled - start, leaf) else 0;
      Overlap(start, start + leaf, filled, filled + u) == if u <= before then 0 else Min(u - before, leaf - consumed)
  {
  }

  lemma InflowMatches(t: Tape, op: Op)
    ensures Available(Step(t, op)) == Available(t) + Inflow(t, op)
  {
    if Accepts(t, op) {
      match op
      case Supply(u) => SumToAppend(t.leaves, u, |t.leaves| + 1);
      case Withdraw(i) => SumToUpdate(t.leaves, i, FilledHistory(t, i), |t.leaves|);
      case Borrow(u) =>
    }
  }

  /** Supplying and withdrawing before any fill gives the whole amount back and disturbs nobody. */
  lemma SupplyThenWithdraw(t: Tape, u: nat, k: nat)
    requires Inv(t) && Accepts(t, Supply(u)) && u > 0
    ensures var n := |t.leaves|; var s := Step(t, Supply(u));
      Accepts(s, Withdraw(n)) && Unfilled(s, n) == u && Step(s, Withdraw(n)) == t.(leaves := t.leaves + [0])
    ensures SumTo(t.leaves + [0], k) == SumTo(t.leaves, k)
  {
    var n, s := |t.leaves|, Step(t, Supply(u));
    SumToAppend(t.leaves, u, n);
    assert s.leaves[n := 0] == t.leaves + [0];
    SumToAppend(t.leaves, 0, k);
  }

  /** A withdrawal leaves nothing to withdraw, and takes nothing another position could. */
  lemma WithdrawIsFinal(t: Tape, i: nat, k: nat)
    requires Inv(t) && Accepts(t, Withdraw(i)) && k < |t.leaves|
    ensures Unfilled(Step(t, Withdraw(i)), k) == if k == i then 0 else Unfilled(t, k)
    ensures FilledHistory(Step(t, Withdraw(i)), k) == FilledHistory(t, k)
  {
    var u := Step(t, Withdraw(i));
    WithdrawFreezes(t, i, k);
    WithdrawFreezes(t, i, k + 1);
    StartBounds(t, k);
    StartBounds(u, k);
  }

  // ---- The contract's storage --------------------------------------------------------------

  datatype Refund = Refunded(units: nat) | NothingToWithdraw

  datatype Supplied = Position(leafIndex: nat) | ZeroAmount | NotUnitAligned | BelowMinimum
    | Refused(reason: Tree.Outcome)

  datatype Measured = Overlaps(units: nat) | NoOverlap

  class Epoch {
    const tree: Tree.Tree
    var filled: nat
    var loans: seq<Fill>

    ghost function View(): Tape
      reads this, tree
    {
      Tape(tree.contents, filled, loans)
    }

    ghost predicate Valid()
      reads this, tree
    {
      tree.Valid() && Inv(View())
    }

    constructor ()
      ensures Valid() && View() == EMPTY && fresh(tree)
    {
      tree := new Tree.Tree();
      filled, loans := 0, [];
    }

    method Supply(units: nat) returns (outcome: Tree.Outcome, leafIndex: nat)
      requires Valid()
      modifies tree
      ensures Valid() && View() == Step(old(View()), Op.Supply(units))
      ensures outcome.Done? <==> Accepts(old(View()), Op.Supply(units))
      ensures outcome.Done? ==> leafIndex == |old(View()).leaves|
    {
      StepKeeps(View(), Op.Supply(units));
      outcome, leafIndex := tree.Append(units);
    }

    /** An amount in wei becomes a position of exactly that amount, or is refused for the first reason that applies. */
    method SupplyAmount(amount: nat) returns (r: Supplied)
      requires Valid()
      modifies tree
      ensures Valid()
      ensures r.ZeroAmount? <==> amount == 0
      ensures r.NotUnitAligned? <==> amount != 0 && amount % UNIT != 0
      ensures r.BelowMinimum? <==> 0 < amount < MIN_LIQUIDITY_AMOUNT && amount % UNIT == 0
      ensures r.Position? ==> r.leafIndex == |old(View()).leaves| && |View().leaves| == r.leafIndex + 1
                              && View().leaves[r.leafIndex] * UNIT == amount
                              && View() == Step(old(View()), Op.Supply(amount / UNIT))
      ensures !r.Position? ==> View() == old(View())
    {
      if amount == 0 {
        return ZeroAmount;
      }
      if amount % UNIT != 0 {
        return NotUnitAligned;
      }
      if amount < MIN_LIQUIDITY_AMOUNT {
        return BelowMinimum;
      }
      var outcome, leafIndex := Supply(amount / UNIT);
      r := if outcome.Done? then Position(leafIndex) else Refused(outcome);
    }

    method Withdraw(leafIndex: nat) returns (refund: Refund)
      requires Valid() && leafIndex < |View().leaves|
      modifies tree
      ensures Valid() && View() == Step(old(View()), Op.Withdraw(leafIndex))
      ensures refund == if Unfilled(old(View()), leafIndex) > 0
                        then Refunded(Unfilled(old(View()), leafIndex)) else NothingToWithdraw
    {
      ghost var before := View();
      var leafStart := tree.Prefix(leafIndex);
      var currentLeaf := tree.Leaf(leafIndex);
      var filledHistory := 0;
      if filled > leafStart.value {
        var consumed := filled - leafStart.value;
        filledHistory := if consumed < currentLeaf.value then consumed else currentLeaf.value;
      }
      assert filledHistory == FilledHistory(before, leafIndex);
      var unfilled := currentLeaf.value - filledHistory;
      if unfilled == 0 {
        return NothingToWithdraw;
      }
      StepKeeps(before, Op.Withdraw(leafIndex));
      var outcome := tree.SetLeaf(leafIndex, filledHistory);
      refund := Refunded(unfilled);
    }

    /** Advances the fill counter; the caller has sized the fill to what is available. */
    method Consume(units: nat) returns (seqNo: nat)
      requires Valid() && Accepts(View(), Borrow(units))
      modifies this
      ensures Valid() && View() == Step(old(View()), Borrow(units))
      ensures seqNo == |old(View()).loans|
    {
      StepKeeps(View(), Borrow(units));
      seqNo := |loans|;
      loans := loans + [Fill(filled, filled + units)];
      filled := filled + units;
    }

    method AvailableUnits() returns (units: nat)
      requires Valid()
      ensures units == Available(View())
    {
      var root := tree.Root();
      units := root - filled;
    }

    method OverlapUnits(leafIndex: nat, seqNo: nat) returns (r: Measured)
      requires Valid() && leafIndex < |View().leaves| && seqNo < |loans|
      ensures r == if Contribution(View(), leafIndex, seqNo) == 0 then NoOverlap
                   else Overlaps(Contribution(View(), leafIndex, seqNo))
    {
      var start := tree.Prefix(leafIndex);
      var leaf := tree.Leaf(leafIndex);
      var units := Overlap(start.value, start.value + leaf.value, loans[seqNo].start, loans[seqNo].end);
      r := if units == 0 then NoOverlap else Overlaps(units);
    }
  }
}
