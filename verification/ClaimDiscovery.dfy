/**
 Claim discovery against the claim arithmetic: what the client's page walk finds for a lender
 position, and what the contract would pay on each pair it finds.
 */
module ClaimDiscovery {
  import opened LendingTape
  import opened PrefixSums
  import Pricing
  import ProRata
  import Pager = LoanPager
  import Pot = ClaimPot

  /** An epoch's tape with the account of each of its loans, in fill order. */
  datatype Book = Book(tape: Tape, accounts: seq<Pot.Loan>)

  /** The tape holds its invariant, and each loan is balanced for what the positions contributed to it. */
  ghost predicate Valid(b: Book)
  {
    && Inv(b.tape) && |b.accounts| == |b.tape.loans|
    && forall j :: 0 <= j < |b.accounts| ==> Balanced(b, j)
  }

  ghost predicate Balanced(b: Book, j: nat)
    requires j < |b.accounts| == |b.tape.loans|
  {
    Pot.Inv(Pot.Funding(b.tape, j), b.accounts[j])
  }

  // ---- Every reachable book is valid -------------------------------------------------------

  /** A call on the tape, with the terms of the loan it may open; or a call on one loan. */
  datatype Event =
    | OnTape(op: Op, obligation: nat, accrued: nat)
    | OnLoan(loan: nat, call: Pot.Op)

  /** A position that came later has received nothing. */
  function WithNewcomer(account: Pot.Loan): Pot.Loan
  {
    account.(received := account.received + [0])
  }

  function Newcomers(accounts: seq<Pot.Loan>): (r: seq<Pot.Loan>)
    ensures |r| == |accounts| && forall j :: 0 <= j < |r| ==> r[j] == WithNewcomer(accounts[j])
  {
    if accounts == [] then [] else Newcomers(accounts[..|accounts| - 1]) + [WithNewcomer(accounts[|accounts| - 1])]
  }

  ghost function BookStep(b: Book, e: Event): Book
    requires Valid(b)
  {
    match e
    case OnTape(op, obligation, accrued) =>
      var tape := Step(b.tape, op);
      if !Accepts(b.tape, op) || op.Withdraw? then b.(tape := tape)
      else if op.Supply? then Book(tape, Newcomers(b.accounts))
      else Book(tape, b.accounts + [Pot.Opened(obligation, |tape.leaves|, accrued)])
    case OnLoan(j, call) =>
      if j >= |b.accounts| then b else
      assert Balanced(b, j);
      b.(accounts := b.accounts[j := Pot.Step(Pot.Funding(b.tape, j), b.accounts[j], call)])
  }

  lemma NewcomerBalances(c: seq<nat>, account: Pot.Loan)
    requires Pot.Inv(c, account)
    ensures Pot.Inv(c + [0], WithNewcomer(account))
  {
    SumToAppend(c, 0, |c| + 1);
    SumToAppend(account.received, 0, |c| + 1);
    forall p | 0 <= p < |c| + 1
      ensures WithNewcomer(account).received[p] <= Pot.Entitlement(c + [0], WithNewcomer(account), p)
    {
      assert p < |c| ==> account.received[p] <= Pot.Entitlement(c, account, p);
    }
  }

  /** What the tape's step does to a loan's funding: a supply adds a zero, nothing else changes it. */
  lemma FundingAfter(t: Tape, op: Op, j: nat)
    requires Inv(t) && j < |t.loans|
    ensures var u := Step(t, op);
      j < |u.loans| && Pot.Funding(u, j) == Pot.Funding(t, j) + if Accepts(t, op) && op.Supply? then [0] else []
  {
    assert [op][..0] == [] && Run(t, [op]) == Step(t, op);
    Pot.FundingIsFrozen(t, j, [op]);
    var u := Step(t, op);
    var added := if Accepts(t, op) && op.Supply? then [0] else [];
    assert |u.leaves| == |t.leaves| + |added|;
    assert Pot.Funding(u, j) == Pot.Funding(u, j)[..|t.leaves|] + added;
  }

  lemma OnTapeKeeps(b: Book, op: Op, obligation: nat, accrued: nat, j: nat)
    requires Valid(b) && obligation < Pot.UINT128
    requires var b' := BookStep(b, OnTape(op, obligation, accrued));
      j < |b'.accounts| == |b'.tape.loans|
    ensures Balanced(BookStep(b, OnTape(op, obligation, accrued)), j)
  {
    var u := Step(b.tape, op);
    StepKeeps(b.tape, op);
    if j < |b.accounts| {
      assert Balanced(b, j);
      FundingAfter(b.tape, op, j);
      if Accepts(b.tape, op) && op.Supply? {
        NewcomerBalances(Pot.Funding(b.tape, j), b.accounts[j]);
      } else {
        assert Pot.Funding(u, j) == Pot.Funding(b.tape, j);
      }
    } else {
      Pot.FundingIsFrozen(u, j, []);
      Pot.OpenedBalances(Pot.Funding(u, j), obligation, accrued);
    }
  }

  /** Whatever is supplied, withdrawn, borrowed, accrued, repaid, closed and claimed, the book stays valid. */
  lemma BookStepKeeps(b: Book, e: Event)
    requires Valid(b) && Fits(e)
    ensures Valid(BookStep(b, e))
  {
    var b' := BookStep(b, e);
    match e {
      case OnTape(op, obligation, accrued) =>
        StepKeeps(b.tape, op);
        forall j | 0 <= j < |b'.accounts| ensures Balanced(b', j) {
          OnTapeKeeps(b, op, obligation, accrued, j);
        }
      case OnLoan(k, call) =>
        if k < |b.accounts| {
          assert Balanced(b, k);
          Pot.StepKeeps(Pot.Funding(b.tape, k), b.accounts[k], call);
        }
        forall j | 0 <= j < |b'.accounts| ensures Balanced(b', j) {
          assert Balanced(b, j);
        }
    }
  }

  predicate Fits(e: Event)
  {
    e.OnTape? ==> e.obligation < Pot.UINT128
  }

  /** The book after any history, from the empty one: it is always valid. */
  ghost function BookAfter(history: seq<Event>): (b: Book)
    requires forall e :: e in history ==> Fits(e)
    ensures Valid(b)
    decreases |history|
  {
    if history == [] then Book(EMPTY, [])
    else
      var earlier := BookAfter(history[..|history| - 1]);
      BookStepKeeps(earlier, history[|history| - 1]);
      BookStep(earlier, history[|history| - 1])
  }

  /**
   A loan of the size the contract gives it can always be closed once its stream has paid out
   what it still owed when the loan was opened, whatever was repaid or claimed meanwhile.
   */
  lemma SizedLoanCloses(b: Book, r: Pricing.Sizing, target: nat, terms: Pricing.Terms, accrued: nat,
                        ops: seq<Pot.Op>)
    requires Valid(b) && Pricing.IsSizing(b.tape, target, terms, r) && r.Sized? && r.obligation < Pot.UINT128
    ensures var j, b' := |b.accounts|, BookStep(b, OnTape(Borrow(r.units), r.obligation, accrued));
      && |b'.accounts| == |b'.tape.loans| == j + 1 && Balanced(b', j)
      && var c := Pot.Funding(b'.tape, j); var s := Pot.Run(c, b'.accounts[j], ops);
         Pot.Inv(c, s) && (accrued + Pot.Accrued(ops) >= terms.remaining && !s.closed ==> Pot.Accepts(c, s, Pot.Close))
  {
    var j, b' := |b.accounts|, BookStep(b, OnTape(Borrow(r.units), r.obligation, accrued));
    BookStepKeeps(b, OnTape(Borrow(r.units), r.obligation, accrued));
    assert Balanced(b', j);
    Pot.VestedLoanCloses(Pot.Funding(b'.tape, j), b'.accounts[j], ops);
  }

  // ---- What the view shows -----------------------------------------------------------------

  /** The view's figure: the pro-rata part of the overlap, less what the pair was already paid. */
  function ClaimableFor(loan: Fill, account: Pot.Loan, position: nat, overlap: nat): nat
  {
    if loan.start >= loan.end || Pot.Outstanding(account) < 0 || position >= |account.received| then 0 else
    var entitlement := ProRata.MulDiv(overlap, Pot.Recovered(account), loan.end - loan.start);
    if entitlement > account.received[position] then entitlement - account.received[position] else 0
  }

  function DueTo(b: Book, position: nat): Pager.Due
  {
    (j: nat, overlap: nat) =>
      if j >= |b.accounts| || j >= |b.tape.loans| then 0
      else ClaimableFor(b.tape.loans[j], b.accounts[j], position, overlap)
  }

  /** The view computes what a claim for everything would pay. */
  lemma DueIsPaid(b: Book, position: nat, j: nat)
    requires Valid(b) && position < |b.tape.leaves| && j < |b.tape.loans|
    ensures Balanced(b, j) && position < |Pot.Funding(b.tape, j)|
    ensures DueTo(b, position)(j, Contribution(b.tape, position, j))
         == Pot.Payout(Pot.Funding(b.tape, j), b.accounts[j], position, Pot.MAX_CLAIM)
  {
    assert Balanced(b, j);
    Pot.FundingIsFrozen(b.tape, j, []);
    Pot.ClaimableIsPaid(Pot.Funding(b.tape, j), b.accounts[j], position);
  }

  /** A pair a claim for everything would be accepted on, with what it contributed and what it would be paid. */
  ghost predicate Payable(b: Book, position: nat, s: Pager.Share)
    requires Valid(b) && position < |b.tape.leaves|
  {
    s.loan < |b.tape.loans| && Balanced(b, s.loan) &&
    var c := Pot.Funding(b.tape, s.loan);
    && Pot.Accepts(c, b.accounts[s.loan], Pot.Claim(position, Pot.MAX_CLAIM))
    && s.contribution == Contribution(b.tape, position, s.loan)
    && s.claimable == Pot.Payout(c, b.accounts[s.loan], position, Pot.MAX_CLAIM)
  }

  /** The view lists the pair for the position, with a figure above zero. */
  predicate Owed(b: Book, position: nat, s: Pager.Share)
    requires position < |b.tape.leaves|
  {
    var start := Start(b.tape, position);
    Pager.Claims(b.tape.loans, start, start + b.tape.leaves[position], DueTo(b, position), s)
  }

  lemma OwedIffPayable(b: Book, position: nat, s: Pager.Share)
    requires Valid(b) && position < |b.tape.leaves|
    ensures Owed(b, position, s) <==> Payable(b, position, s)
  {
    if s.loan < |b.tape.loans| {
      DueIsPaid(b, position, s.loan);
    }
  }

  /** Every share with something to claim on a position's stretch of the tape. */
  function Found(b: Book, position: nat): seq<Pager.Share>
    requires position < |b.tape.leaves|
  {
    var start := Start(b.tape, position);
    Pager.Positive(Pager.SharesFrom(b.tape.loans, start, start + b.tape.leaves[position], DueTo(b, position), 0))
  }

  lemma FoundIffOwed(b: Book, position: nat, s: Pager.Share)
    requires position < |b.tape.leaves|
    ensures s in Found(b, position) <==> Owed(b, position, s)
  {
    var start := Start(b.tape, position);
    Pager.PairsAreClaims(b.tape.loans, start, start + b.tape.leaves[position], DueTo(b, position), 0, s);
  }

  lemma FoundExactly(b: Book, position: nat)
    requires Valid(b) && position < |b.tape.leaves|
    ensures Pager.Ascending(Found(b, position), 0)
    ensures forall s :: s in Found(b, position) <==> Payable(b, position, s)
  {
    var start := Start(b.tape, position);
    Pager.PairsAscend(b.tape.loans, start, start + b.tape.leaves[position], DueTo(b, position), 0);
    forall s ensures s in Found(b, position) <==> Payable(b, position, s) {
      FoundIffOwed(b, position, s);
      OwedIffPayable(b, position, s);
    }
  }

  method WalkPages(b: Book, position: nat) returns (pairs: seq<Pager.Share>)
    requires Inv(b.tape) && position < |b.tape.leaves|
    ensures pairs == Found(b, position)
  {
    var start := Start(b.tape, position);
    Pager.TilesAreOrdered(b.tape.loans, b.tape.filled);
    pairs := Pager.ClaimablePairs(b.tape.loans, start, start + b.tape.leaves[position], DueTo(b, position));
  }

  /**
   End to end: the client's walk over the contract's pages returns exactly the loans on which
   claiming everything would be accepted, each once, in fill order, with the amount it pays.
   */
  method DiscoverClaims(b: Book, position: nat) returns (pairs: seq<Pager.Share>)
    requires Valid(b) && position < |b.tape.leaves|
    ensures Pager.Ascending(pairs, 0)
    ensures forall s :: s in pairs <==> Payable(b, position, s)
  {
    FoundExactly(b, position);
    pairs := WalkPages(b, position);
  }
}
