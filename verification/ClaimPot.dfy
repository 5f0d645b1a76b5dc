/**
 * The money side of one loan: repayments and stream accrual come in, contributors take out their
 * pro-rata shares. Contributions are the loan's frozen funding, in position order.
 */
module ClaimPot {
  import opened Arithmetic
  import opened PrefixSums
  import opened ProRata
  import LendingTape

  const UINT128: int := 0x1_0000_0000_0000_0000_0000_0000_0000_0000

  datatype Loan = Loan(
    obligation: nat,
    drawn: nat,
    repaid: nat,
    closed: bool,
    proceeds: nat,
    received: seq<nat>,
    withdrawable: nat)

  datatype Op =
    | Accrue(amount: nat)
    | Repay(amount: nat)
    | Close
    | Claim(position: nat, amount: nat)

  function Min(a: int, b: int): int
  {
    if a < b then a else b
  }

  function Outstanding(s: Loan): int
  {
    s.obligation - s.drawn - s.repaid
  }

  /** What the stream can still give this loan. */
  function HarvestCap(s: Loan): nat
    requires Outstanding(s) >= 0
  {
    if s.closed then 0 else Min(s.withdrawable, Outstanding(s))
  }

  function Recovered(s: Loan): nat
    requires Outstanding(s) >= 0
  {
    s.drawn + s.repaid + HarvestCap(s)
  }

  predicate Inv(c: seq<nat>, s: Loan)
  {
    && Total(c) > 0 && |s.received| == |c| && s.obligation < UINT128
    && Outstanding(s) >= 0
    && s.proceeds + Total(s.received) == s.drawn + s.repaid
    && forall p :: 0 <= p < |c| ==> s.received[p] <= Entitlement(c, s, p)
  }

  function Entitlement(c: seq<nat>, s: Loan, p: nat): nat
    requires Total(c) > 0 && p < |c| && Outstanding(s) >= 0
  {
    MulDiv(c[p], Recovered(s), Total(c))
  }

  /** A claim is cut to the unpaid entitlement. */
  function Requested(c: seq<nat>, s: Loan, p: nat, amount: nat): nat
    requires Inv(c, s) && p < |c|
  {
    Min(amount, Entitlement(c, s, p) - s.received[p])
  }

  function Harvest(c: seq<nat>, s: Loan, p: nat, amount: nat): nat
    requires Inv(c, s) && p < |c|
  {
    var request := Requested(c, s, p, amount);
    if s.proceeds < request then Min(request - s.proceeds, HarvestCap(s)) else 0
  }

  function Payout(c: seq<nat>, s: Loan, p: nat, amount: nat): nat
    requires Inv(c, s) && p < |c|
  {
    Min(s.proceeds + Harvest(c, s, p, amount), Requested(c, s, p, amount))
  }

  /** The calls that do not revert. */
  predicate Accepts(c: seq<nat>, s: Loan, op: Op)
    requires Inv(c, s)
  {
    match op
    case Accrue(_) => true
    case Repay(amount) => !s.closed && 0 < amount <= Outstanding(s)
    case Close => !s.closed && s.withdrawable >= Outstanding(s)
    case Claim(p, amount) => p < |c| && c[p] > 0 && Payout(c, s, p, amount) != 0
  }

  function Step(c: seq<nat>, s: Loan, op: Op): Loan
    requires Inv(c, s)
  {
    if !Accepts(c, s, op) then s else
    match op
    case Accrue(amount) => s.(withdrawable := s.withdrawable + amount)
    case Repay(amount) =>
      s.(repaid := s.repaid + amount, proceeds := s.proceeds + amount, closed := amount == Outstanding(s))
    case Close =>
      s.(closed := true, drawn := s.drawn + Outstanding(s), proceeds := s.proceeds + Outstanding(s),
         withdrawable := s.withdrawable - Outstanding(s))
    case Claim(p, amount) =>
      var harvest, pay := Harvest(c, s, p, amount), Payout(c, s, p, amount);
      s.(received := s.received[p := s.received[p] + pay], proceeds := s.proceeds + harvest - pay,
         drawn := s.drawn + harvest, withdrawable := s.withdrawable - harvest)
  }

  /** Runs that begin from a state satisfying the invariant; see StepKeeps. */
  function Run(c: seq<nat>, s: Loan, ops: seq<Op>): (t: Loan)
    requires Inv(c, s)
    ensures Inv(c, t)
  {
    if ops == [] then s else
    var before := Run(c, s, ops[..|ops| - 1]);
    StepKeeps(c, before, ops[|ops| - 1]);
    Step(c, before, ops[|ops| - 1])
  }

  // ---- A claim is always paid what it asks for, up to the entitlement ----------------------

  /** The pot and the stream together cover every unpaid share. */
  lemma PotCovers(c: seq<nat>, s: Loan, p: nat)
    requires Inv(c, s) && p < |c|
    ensures s.proceeds + HarvestCap(s) >= Entitlement(c, s, p) - s.received[p]
  {
    UnpaidCovered(c, Recovered(s), Total(c), s.received, p, |c|);
    SharesOfWhole(c, Recovered(s), Total(c));
  }

  /** Whoever claimed before, a claim pays the lesser of what it asks and what it is owed. */
  lemma ClaimPaysInFull(c: seq<nat>, s: Loan, p: nat, amount: nat)
    requires Inv(c, s) && p < |c|
    ensures Payout(c, s, p, amount) == Requested(c, s, p, amount)
    ensures Harvest(c, s, p, amount) <= HarvestCap(s)
  {
    PotCovers(c, s, p);
  }

  /** A claim is accepted exactly when something is requested, and then pays just that. */
  lemma ClaimStep(c: seq<nat>, s: Loan, p: nat, amount: nat)
    requires Inv(c, s) && p < |c|
    ensures var request, harvest := Requested(c, s, p, amount), Harvest(c, s, p, amount);
      && harvest <= s.withdrawable && request <= s.proceeds + harvest
      && (Accepts(c, s, Claim(p, amount)) <==> c[p] > 0 && request > 0)
      && (c[p] > 0 && request > 0 ==>
            Step(c, s, Claim(p, amount)) ==
              s.(received := s.received[p := s.received[p] + request], proceeds := s.proceeds + harvest - request,
                 drawn := s.drawn + harvest, withdrawable := s.withdrawable - harvest))
  {
    ClaimPaysInFull(c, s, p, amount);
  }

  // ---- Every call keeps the books ----------------------------------------------------------

  /** Value recovered for the lenders is never lost, and no claim changes it. */
  lemma RecoveredNeverFalls(c: seq<nat>, s: Loan, op: Op)
    requires Inv(c, s)
    ensures var t := Step(c, s, op); Outstanding(t) >= 0 && Recovered(t) >= Recovered(s)
    ensures op.Claim? ==> Recovered(Step(c, s, op)) == Recovered(s)
  {
    if op.Claim? && op.position < |c| {
      ClaimPaysInFull(c, s, op.position, op.amount);
    }
  }

  lemma StepConserves(c: seq<nat>, s: Loan, op: Op)
    requires Inv(c, s)
    ensures var t := Step(c, s, op);
      t.proceeds + Total(t.received) == t.drawn + t.repaid && |t.received| == |c|
  {
    if op.Claim? && Accepts(c, s, op) {
      var p := op.position;
      SumToUpdate(s.received, p, s.received[p] + Payout(c, s, p, op.amount), |c|);
    }
  }

  lemma StepKeeps(c: seq<nat>, s: Loan, op: Op)
    requires Inv(c, s)
    ensures Inv(c, Step(c, s, op))
  {
    var t := Step(c, s, op);
    StepConserves(c, s, op);
    RecoveredNeverFalls(c, s, op);
    forall p | 0 <= p < |c|
      ensures t.received[p] <= Entitlement(c, t, p)
    {
      MulDivMonotone(c[p], Recovered(s), Recovered(t), Total(c));
      if op.Claim? && op.position == p {
        ClaimPaysInFull(c, s, p, op.amount);
      }
    }
  }

  const MAX_CLAIM: nat := UINT128 - 1

  lemma EntitlementFits(c: seq<nat>, s: Loan, p: nat)
    requires Inv(c, s) && p < |c|
    ensures Entitlement(c, s, p) <= Recovered(s) <= s.obligation
  {
    SumToStep(c, p);
    SumToMonotone(c, p + 1, p + 1);
    var q := Entitlement(c, s, p);
    MulMonotone(Recovered(s), c[p], Total(c));
    Cancel(Total(c), q, Recovered(s));
  }

  /** After claiming everything a contributor has received exactly its entitlement. */
  lemma MaxClaimSettles(c: seq<nat>, s: Loan, p: nat)
    requires Inv(c, s) && p < |c| && c[p] > 0
    ensures Step(c, s, Claim(p, MAX_CLAIM)).received[p] == Entitlement(c, s, p)
  {
    ClaimPaysInFull(c, s, p, MAX_CLAIM);
    EntitlementFits(c, s, p);
  }

  predicate OnlyClaims(ops: seq<Op>)
  {
    forall i :: 0 <= i < |ops| ==> ops[i].Claim?
  }

  lemma {:induction false} ClaimsKeepRecovered(c: seq<nat>, s: Loan, ops: seq<Op>)
    requires Inv(c, s) && OnlyClaims(ops)
    ensures Recovered(Run(c, s, ops)) == Recovered(s)
  {
    if ops != [] {
      var before := ops[..|ops| - 1];
      ClaimsKeepRecovered(c, s, before);
      RecoveredNeverFalls(c, Run(c, s, before), ops[|ops| - 1]);
    }
  }

  /**
   * Order independence: whatever claims the others make first, in whatever order and amounts, a
   * contributor that then claims everything ends with the same total.
   */
  lemma ClaimOrderIrrelevant(c: seq<nat>, s: Loan, ops: seq<Op>, p: nat)
    requires Inv(c, s) && OnlyClaims(ops) && p < |c| && c[p] > 0
    ensures Step(c, Run(c, s, ops), Claim(p, MAX_CLAIM)).received[p] == Entitlement(c, s, p)
  {
    ClaimsKeepRecovered(c, s, ops);
    MaxClaimSettles(c, Run(c, s, ops), p);
  }

  // ---- The end of a loan -------------------------------------------------------------------

  predicate Settled(c: seq<nat>, s: Loan)
    requires Inv(c, s)
  {
    s.closed && forall p :: 0 <= p < |c| ==> s.received[p] == Entitlement(c, s, p)
  }

  lemma {:induction false} AllPaid(c: seq<nat>, s: Loan, n: nat)
    requires Inv(c, s) && n <= |c|
    requires forall p :: 0 <= p < |c| ==> s.received[p] == Entitlement(c, s, p)
    ensures SumTo(s.received, n) == SharesTo(c, Recovered(s), Total(c), n)
  {
    if n > 0 {
      AllPaid(c, s, n - 1);
      SumToStep(s.received, n - 1);
    }
  }

  /** Once everyone is paid out of a closed loan, less than one unit a contributor is stranded. */
  lemma DustIsBounded(c: seq<nat>, s: Loan)
    requires Inv(c, s) && Settled(c, s)
    ensures s.proceeds < Contributors(c, |c|)
  {
    AllPaid(c, s, |c|);
    SharesOfWhole(c, Recovered(s), Total(c));
  }

  /** A loan only closes with its whole obligation recovered. */
  predicate ClosedInFull(s: Loan)
  {
    s.closed ==> Outstanding(s) == 0
  }

  lemma {:induction false} ClosesInFull(c: seq<nat>, s: Loan, ops: seq<Op>)
    requires Inv(c, s) && ClosedInFull(s)
    ensures ClosedInFull(Run(c, s, ops))
    ensures s.closed ==> Run(c, s, ops).closed
  {
    if ops != [] {
      var before := Run(c, s, ops[..|ops| - 1]);
      ClosesInFull(c, s, ops[..|ops| - 1]);
      var op := ops[|ops| - 1];
      if op.Claim? && op.position < |c| {
        ClaimPaysInFull(c, before, op.position, op.amount);
      }
    }
  }

  /** An open loan takes every repayment up to what is outstanding, all of it into the pot, and takes no other. */
  lemma RepayTaken(c: seq<nat>, s: Loan, amount: nat)
    requires Inv(c, s)
    ensures var t := Step(c, s, Repay(amount));
      if !s.closed && 0 < amount <= Outstanding(s)
      then t.repaid == s.repaid + amount && t.proceeds == s.proceeds + amount && t.received == s.received
           && t.drawn == s.drawn && t.withdrawable == s.withdrawable && Outstanding(t) == Outstanding(s) - amount
      else t == s
  {
  }

  /** A repay closes the loan exactly when it leaves nothing outstanding. */
  lemma RepayClosesIff(c: seq<nat>, s: Loan, amount: nat)
    requires Inv(c, s) && Accepts(c, s, Repay(amount))
    ensures var t := Step(c, s, Repay(amount));
      (t.closed <==> Outstanding(t) == 0) && Outstanding(t) == Outstanding(s) - amount
  {
  }

  /** Stream value that becomes withdrawable during a run. */
  function Accrued(ops: seq<Op>): nat
  {
    if ops == [] then 0 else
    var last := ops[|ops| - 1];
    Accrued(ops[..|ops| - 1]) + if last.Accrue? then last.amount else 0
  }

  lemma {:induction false} StreamConserved(c: seq<nat>, s: Loan, ops: seq<Op>)
    requires Inv(c, s)
    ensures var t := Run(c, s, ops);
      t.withdrawable + t.drawn == s.withdrawable + s.drawn + Accrued(ops) && t.obligation == s.obligation
  {
    if ops != [] {
      StreamConserved(c, s, ops[..|ops| - 1]);
    }
  }

  /**
   * No bad debt: once the stream has vested as much as the obligation, the loan can be closed,
   * however much was repaid or claimed on the way.
   */
  lemma VestedLoanCloses(c: seq<nat>, s: Loan, ops: seq<Op>)
    requires Inv(c, s) && s.drawn == 0
    ensures var t := Run(c, s, ops);
      s.withdrawable + Accrued(ops) >= s.obligation && !t.closed ==> Accepts(c, t, Close)
  {
    StreamConserved(c, s, ops);
  }

  // ---- What a claim is worth, from the history of the loan ---------------------------------

  function Opened(obligation: nat, positions: nat, accrued: nat): Loan
  {
    Loan(obligation, 0, 0, false, 0, seq(positions, i => 0), accrued)
  }

  lemma OpenedBalances(c: seq<nat>, obligation: nat, accrued: nat)
    requires Total(c) > 0 && obligation < UINT128
    ensures Inv(c, Opened(obligation, |c|, accrued))
  {
    NothingReceived(|c|, |c|);
  }

  /** What borrowers repaid during a run: the repayments that were accepted. */
  function RepaidDuring(c: seq<nat>, s: Loan, ops: seq<Op>): nat
    requires Inv(c, s)
  {
    if ops == [] then 0 else
    var before, last := ops[..|ops| - 1], ops[|ops| - 1];
    RepaidDuring(c, s, before) + if last.Repay? && Accepts(c, Run(c, s, before), last) then last.amount else 0
  }

  lemma {:induction false} RepaymentsCounted(c: seq<nat>, s: Loan, ops: seq<Op>)
    requires Inv(c, s)
    ensures Run(c, s, ops).repaid == s.repaid + RepaidDuring(c, s, ops)
  {
    if ops != [] {
      RepaymentsCounted(c, s, ops[..|ops| - 1]);
    }
  }

  /** What a contributor has received in all once it claims everything. */
  function ReceivedInAll(c: seq<nat>, s: Loan, p: nat): nat
    requires Inv(c, s) && p < |c|
  {
    var t := Step(c, s, Claim(p, MAX_CLAIM));
    if p < |t.received| then t.received[p] else 0
  }

  /**
   * Claiming everything brings a contributor to its share of what the loan has taken in or could
   * draw now, up to the obligation; of a closed loan, to its share of the obligation.
   */
  lemma ClaimReaches(c: seq<nat>, s: Loan, p: nat)
    requires Inv(c, s) && ClosedInFull(s) && p < |c| && c[p] > 0
    ensures !s.closed ==>
      ReceivedInAll(c, s, p) == MulDiv(c[p], Min(s.obligation, s.repaid + s.drawn + s.withdrawable), Total(c))
    ensures s.closed ==> ReceivedInAll(c, s, p) == MulDiv(c[p], s.obligation, Total(c))
  {
    RecoveredValue(s);
    InAllIsEntitlement(c, s, p);
  }

  /**
   * A claim for less pays just what it asks for, a claim for more what a claim for everything
   * would; either way nobody else's total moves, and claiming everything later ends the same.
   */
  lemma PartialClaim(c: seq<nat>, s: Loan, p: nat, amount: nat, other: nat)
    requires Inv(c, s) && p < |c| && c[p] > 0 && other < |c|
    ensures var t := Step(c, s, Claim(p, amount));
      && Inv(c, t) && |t.received| == |s.received| == |c|
      && t.received[p] == s.received[p] + Min(amount, ReceivedInAll(c, s, p) - s.received[p])
      && (other != p ==> t.received[other] == s.received[other])
      && (c[other] > 0 ==> ReceivedInAll(c, t, other) == ReceivedInAll(c, s, other))
  {
    var t := Step(c, s, Claim(p, amount));
    StepKeeps(c, s, Claim(p, amount));
    InAllIsEntitlement(c, s, p);
    ClaimStep(c, s, p, amount);
    RecoveredNeverFalls(c, s, Claim(p, amount));
    if c[other] > 0 {
      InAllIsEntitlement(c, s, other);
      InAllIsEntitlement(c, t, other);
    }
  }

  lemma RecoveredValue(s: Loan)
    requires Outstanding(s) >= 0 && ClosedInFull(s)
    ensures Recovered(s) == if s.closed then s.obligation else Min(s.obligation, s.repaid + s.drawn + s.withdrawable)
  {
  }

  lemma InAllIsEntitlement(c: seq<nat>, s: Loan, p: nat)
    requires Inv(c, s) && p < |c| && c[p] > 0
    ensures ReceivedInAll(c, s, p) == Entitlement(c, s, p)
  {
    MaxClaimSettles(c, s, p);
    StepConserves(c, s, Claim(p, MAX_CLAIM));
  }

  /** All that came in for the loan: what it starts with, what was repaid, what the stream vested. */
  function TakenIn(c: seq<nat>, s: Loan, ops: seq<Op>): nat
    requires Inv(c, s)
  {
    s.repaid + s.drawn + s.withdrawable + RepaidDuring(c, s, ops) + Accrued(ops)
  }

  /**
   * The same from the history alone: after any run, a contributor that claims everything has
   * received its share of all that came in, up to the obligation, whoever claimed what before.
   */
  lemma ClaimFromHistory(c: seq<nat>, s: Loan, ops: seq<Op>, p: nat)
    requires Inv(c, s) && ClosedInFull(s) && p < |c| && c[p] > 0
    ensures ReceivedInAll(c, Run(c, s, ops), p) == MulDiv(c[p], Min(s.obligation, TakenIn(c, s, ops)), Total(c))
  {
    var t := Run(c, s, ops);
    RecoveredFromHistory(c, s, ops, t);
    InAllIsEntitlement(c, t, p);
  }

  lemma RecoveredFromHistory(c: seq<nat>, s: Loan, ops: seq<Op>, t: Loan)
    requires Inv(c, s) && ClosedInFull(s) && t == Run(c, s, ops)
    ensures Recovered(t) == Min(s.obligation, TakenIn(c, s, ops))
  {
    ClosesInFull(c, s, ops);
    StreamConserved(c, s, ops);
    RepaymentsCounted(c, s, ops);
    RecoveredValue(t);
  }

  lemma WholeShare(c: nat, r: nat)
    requires c > 0
    ensures MulDiv(c, r, c) == r
  {
    MulDivUnique(c, r, c, r);
  }

  /** A sole contributor to a new loan is paid in all exactly what was repaid and vested, up to the obligation. */
  lemma SoleContributorPaid(c: seq<nat>, obligation: nat, accrued: nat, ops: seq<Op>, p: nat)
    requires obligation < UINT128 && p < |c| && c[p] == Total(c) > 0
    ensures Inv(c, Opened(obligation, |c|, accrued))
    ensures var s := Opened(obligation, |c|, accrued);
      ReceivedInAll(c, Run(c, s, ops), p) == Min(obligation, RepaidDuring(c, s, ops) + accrued + Accrued(ops))
  {
    OpenedBalances(c, obligation, accrued);
    var s := Opened(obligation, |c|, accrued);
    ClaimFromHistory(c, s, ops, p);
    WholeShare(c[p], Min(obligation, TakenIn(c, s, ops)));
  }

  /** The figure shown to lenders is what a claim for everything pays. */
  function ClaimableOf(c: seq<nat>, s: Loan, p: nat): nat
    requires Inv(c, s) && p < |c|
  {
    if Entitlement(c, s, p) > s.received[p] then Entitlement(c, s, p) - s.received[p] else 0
  }

  lemma ClaimableIsPaid(c: seq<nat>, s: Loan, p: nat)
    requires Inv(c, s) && p < |c|
    ensures ClaimableOf(c, s, p) == Payout(c, s, p, MAX_CLAIM)
  {
    ClaimPaysInFull(c, s, p, MAX_CLAIM);
    EntitlementFits(c, s, p);
  }

  // ---- Where contributions come from -------------------------------------------------------

  /** What each position of an epoch contributed to loan `j`. */
  function Funding(t: LendingTape.Tape, j: nat): seq<nat>
    requires j < |t.loans|
  {
    seq(|t.leaves|, i requires 0 <= i < |t.leaves| => LendingTape.Contribution(t, i, j))
  }

  lemma {:induction false} FundingSums(t: LendingTape.Tape, j: nat, n: nat)
    requires j < |t.loans| && n <= |t.leaves|
    ensures SumTo(Funding(t, j), n) == LendingTape.ByPosition(t, j, n)
  {
    if n > 0 {
      FundingSums(t, j, n - 1);
      SumToStep(Funding(t, j), n - 1);
    }
  }

  /** A loan's funding adds up to the loan, and stays what it is whatever happens to the tape. */
  lemma FundingIsFrozen(t: LendingTape.Tape, j: nat, ops: seq<LendingTape.Op>)
    requires LendingTape.Inv(t) && j < |t.loans|
    ensures Total(Funding(t, j)) == t.loans[j].end - t.loans[j].start > 0
    ensures var u := LendingTape.Run(t, ops);
      |t.leaves| <= |u.leaves| && j < |u.loans| && u.loans[j] == t.loans[j]
      && Funding(u, j)[..|t.leaves|] == Funding(t, j)
      && forall i :: |t.leaves| <= i < |u.leaves| ==> Funding(u, j)[i] == 0
  {
    var u := LendingTape.Run(t, ops);
    FundingSums(t, j, |t.leaves|);
    LendingTape.LoanFullyFunded(t, j);
    LendingTape.LoanInside(t.loans, t.filled, j);
    LendingTape.RunFreezes(t, ops);
    forall i: nat | i < |u.leaves|
      ensures Funding(u, j)[i] == if i < |t.leaves| then Funding(t, j)[i] else 0
    {
      LendingTape.FrozenHistory(t, ops, i, j);
    }
  }

  // ---- The contract's storage --------------------------------------------------------------

  datatype Outcome = Done | ZeroAmount | LoanClosed | RepayExceedsOutstanding | NotCovered | NoOverlap | NothingToClaim

  class Account {
    const obligation: nat
    const contributions: seq<nat>
    var drawn: nat
    var repaid: nat
    var closed: bool
    var proceeds: nat
    var received: seq<nat>
    var withdrawable: nat

    ghost function View(): Loan
      reads this
    {
      Loan(obligation, drawn, repaid, closed, proceeds, received, withdrawable)
    }

    ghost predicate Valid()
      reads this
    {
      Inv(contributions, View())
    }

    constructor (obligation_: nat, contributions_: seq<nat>, accrued: nat)
      requires Total(contributions_) > 0 && obligation_ < UINT128
      ensures Valid() && contributions == contributions_
      ensures View() == Loan(obligation_, 0, 0, false, 0, seq(|contributions_|, i => 0), accrued)
    {
      obligation, contributions := obligation_, contributions_;
      drawn, repaid, closed, proceeds, withdrawable := 0, 0, false, 0, accrued;
      received := seq(|contributions_|, i => 0);
      new;
      NothingReceived(|contributions_|, |contributions_|);
    }

    method Repay(amount: nat) returns (outcome: Outcome)
      requires Valid()
      modifies this
      ensures Valid() && View() == Step(contributions, old(View()), Op.Repay(amount))
      ensures outcome.Done? <==> Accepts(contributions, old(View()), Op.Repay(amount))
    {
      StepKeeps(contributions, View(), Op.Repay(amount));
      if closed {
        return LoanClosed;
      }
      if amount == 0 {
        return ZeroAmount;
      }
      var outstanding := obligation - drawn - repaid;
      if amount > outstanding {
        return RepayExceedsOutstanding;
      }
      repaid := repaid + amount;
      if outstanding - amount == 0 {
        closed := true;
      }
      proceeds := proceeds + amount;
      outcome := Done;
    }

    method Close() returns (outcome: Outcome)
      requires Valid()
      modifies this
      ensures Valid() && View() == Step(contributions, old(View()), Op.Close)
      ensures outcome.Done? <==> Accepts(contributions, old(View()), Op.Close)
    {
      StepKeeps(contributions, View(), Op.Close);
      if closed {
        return LoanClosed;
      }
      var outstanding := obligation - drawn - repaid;
      if withdrawable < outstanding {
        return NotCovered;
      }
      closed := true;
      if outstanding > 0 {
        drawn := drawn + outstanding;
        proceeds := proceeds + outstanding;
        withdrawable := withdrawable - outstanding;
      }
      outcome := Done;
    }

    /** How much a claim is paid and how much of it must first be drawn from the stream. */
    method Terms(position: nat, amount: nat) returns (request: nat, harvest: nat)
      requires Valid() && position < |contributions|
      ensures request == Requested(contributions, View(), position, amount)
      ensures harvest == Harvest(contributions, View(), position, amount)
    {
      var harvestCap := 0;
      var recovered := drawn + repaid;
      if !closed {
        harvestCap := Min(withdrawable, obligation - drawn - repaid);
        recovered := recovered + harvestCap;
      }
      var entitlement := MulDiv(contributions[position], recovered, Total(contributions));
      request := Min(amount, entitlement - received[position]);
      harvest := if proceeds < request then Min(request - proceeds, harvestCap) else 0;
    }

    method Claim(position: nat, amount: nat) returns (outcome: Outcome, paid: nat)
      requires Valid() && position < |contributions|
      modifies this
      ensures Valid() && View() == Step(contributions, old(View()), Op.Claim(position, amount))
      ensures outcome.Done? <==> Accepts(contributions, old(View()), Op.Claim(position, amount))
      ensures outcome.Done? ==> paid == Requested(contributions, old(View()), position, amount)
    {
      StepKeeps(contributions, View(), Op.Claim(position, amount));
      outcome, paid := Pay(position, amount);
    }

    method Pay(position: nat, amount: nat) returns (outcome: Outcome, paid: nat)
      requires Valid() && position < |contributions|
      modifies this
      ensures View() == Step(contributions, old(View()), Op.Claim(position, amount))
      ensures outcome.Done? <==> Accepts(contributions, old(View()), Op.Claim(position, amount))
      ensures outcome.Done? ==> paid == Requested(contributions, old(View()), position, amount)
    {
      ClaimStep(contributions, View(), position, amount);
      if contributions[position] == 0 {
        return NoOverlap, 0;
      }
      var request, harvest := Terms(position, amount);
      var pot := proceeds + harvest;
      paid := Min(pot, request);
      if paid == 0 {
        return NothingToClaim, 0;
      }
      Settle(position, pot, paid, harvest);
      outcome := Done;
    }

    method Settle(position: nat, pot: nat, paid: nat, harvest: nat)
      requires position < |received| && paid <= pot && harvest <= withdrawable
      modifies this
      ensures View() == old(View()).(received := old(received)[position := old(received)[position] + paid],
                                     proceeds := pot - paid,
                                     drawn := old(drawn) + harvest,
                                     withdrawable := old(withdrawable) - harvest)
    {
      received := received[position := received[position] + paid];
      proceeds := pot - paid;
      if harvest > 0 {
        drawn := drawn + harvest;
        withdrawable := withdrawable - harvest;
      }
    }
  }

  lemma {:induction false} NothingReceived(length: nat, n: nat)
    requires n <= length
    ensures SumTo(seq(length, i => 0), n) == 0
  {
    if n > 0 {
      NothingReceived(length, n - 1);
      SumToStep(seq(length, i => 0), n - 1);
    }
  }
}
