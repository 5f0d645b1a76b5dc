/** Pricing of a pledged stream and sizing of the fill it can back. */
module Pricing {
  import opened Arithmetic
  import opened ProRata
  import LendingTape

  const WAD: nat := 1_000_000_000_000_000_000
  const YEAR: nat := 31_536_000
  const BASIS_POINTS: nat := 10_000

  /** The ceiling of `c * r / l`. */
  function MulDivUp(c: nat, r: nat, l: nat): (q: nat)
    requires l > 0
    ensures c * r <= l * q < c * r + l
  {
    var q := MulDiv(c, r, l);
    if l * q < c * r then
      Distribute(l, q, 1, 0, 0, 0);
      q + 1
    else q
  }

  function Factor(aprBps: nat, timeToMaturity: nat): (f: nat)
    ensures f >= WAD
  {
    WAD + MulDiv(timeToMaturity, aprBps * WAD, YEAR * BASIS_POINTS)
  }

  function GrossPrice(remaining: nat, aprBps: nat, timeToMaturity: nat): nat
  {
    MulDiv(remaining, WAD, Factor(aprBps, timeToMaturity))
  }

  function Obligation(borrowAmount: nat, aprBps: nat, timeToMaturity: nat): nat
  {
    MulDivUp(borrowAmount, Factor(aprBps, timeToMaturity), WAD)
  }

  function ObligationForFill(borrowAmount: nat, grossPrice: nat, remaining: nat, aprBps: nat, timeToMaturity: nat): nat
  {
    if borrowAmount == grossPrice then remaining else Obligation(borrowAmount, aprBps, timeToMaturity)
  }

  function Fee(borrowAmount: nat, feeBps: nat): nat
  {
    if feeBps == 0 then 0 else MulDiv(borrowAmount, feeBps, BASIS_POINTS)
  }

  // ---- The pledged stream always covers the debt -------------------------------------------

  lemma Commute(a: nat, b: nat)
    ensures a * b == b * a
  {
  }

  lemma CeilWithin(c: nat, r: nat, l: nat, bound: nat)
    requires l > 0 && c * r <= l * bound
    ensures MulDivUp(c, r, l) <= bound
  {
    var q := MulDivUp(c, r, l);
    if bound < q {
      FloorGap(l, bound, q);
    }
  }

  lemma CeilAtLeast(c: nat, r: nat, l: nat)
    requires 0 < l <= r
    ensures MulDivUp(c, r, l) >= c
  {
    MulMonotone(c, l, r);
    Commute(c, l);
    Cancel(l, c, MulDivUp(c, r, l));
  }

  /** Borrowing no more than the gross price never owes more than the stream still pays. */
  lemma ObligationWithinStream(borrowAmount: nat, remaining: nat, aprBps: nat, timeToMaturity: nat)
    requires borrowAmount <= GrossPrice(remaining, aprBps, timeToMaturity)
    ensures Obligation(borrowAmount, aprBps, timeToMaturity) <= remaining
    ensures var g := GrossPrice(remaining, aprBps, timeToMaturity);
      borrowAmount <= ObligationForFill(borrowAmount, g, remaining, aprBps, timeToMaturity) <= remaining
  {
    var f, g := Factor(aprBps, timeToMaturity), GrossPrice(remaining, aprBps, timeToMaturity);
    MulMonotone(f, borrowAmount, g);
    Commute(f, borrowAmount);
    Commute(remaining, WAD);
    CeilWithin(borrowAmount, f, WAD, remaining);
    CeilAtLeast(borrowAmount, f, WAD);
  }

  lemma CeilMonotone(a: nat, b: nat, r: nat, l: nat)
    requires l > 0 && a <= b
    ensures MulDivUp(a, r, l) <= MulDivUp(b, r, l)
  {
    MulMonotone(r, a, b);
    Commute(r, a);
    Commute(r, b);
    CeilWithin(a, r, l, MulDivUp(b, r, l));
  }

  /** Borrowing more never owes less, the switch to the whole stream at the price included. */
  lemma ObligationMonotone(a: nat, b: nat, remaining: nat, aprBps: nat, timeToMaturity: nat)
    requires a <= b <= GrossPrice(remaining, aprBps, timeToMaturity)
    ensures var g := GrossPrice(remaining, aprBps, timeToMaturity);
      ObligationForFill(a, g, remaining, aprBps, timeToMaturity)
      <= ObligationForFill(b, g, remaining, aprBps, timeToMaturity)
  {
    ObligationWithinStream(a, remaining, aprBps, timeToMaturity);
    CeilMonotone(a, b, Factor(aprBps, timeToMaturity), WAD);
  }

  /** A loan owes its principal with interest, rounded up by less than one unit; at the price, the whole stream. */
  lemma ObligationIsInterest(borrowAmount: nat, remaining: nat, aprBps: nat, timeToMaturity: nat)
    ensures var f, owed := Factor(aprBps, timeToMaturity), Obligation(borrowAmount, aprBps, timeToMaturity);
      borrowAmount * f <= WAD * owed < borrowAmount * f + WAD
    ensures var g := GrossPrice(remaining, aprBps, timeToMaturity);
      ObligationForFill(borrowAmount, g, remaining, aprBps, timeToMaturity)
      == if borrowAmount == g then remaining else Obligation(borrowAmount, aprBps, timeToMaturity)
  {
  }

  /** One unit more than the gross price would owe more than the stream pays: the cap is exact. */
  lemma GrossPriceIsTheCap(borrowAmount: nat, remaining: nat, aprBps: nat, timeToMaturity: nat)
    ensures Obligation(borrowAmount, aprBps, timeToMaturity) <= remaining
       <==> borrowAmount <= GrossPrice(remaining, aprBps, timeToMaturity)
  {
    var f, g := Factor(aprBps, timeToMaturity), GrossPrice(remaining, aprBps, timeToMaturity);
    if borrowAmount <= g {
      ObligationWithinStream(borrowAmount, remaining, aprBps, timeToMaturity);
    } else {
      var q := Obligation(borrowAmount, aprBps, timeToMaturity);
      FloorGap(f, g, borrowAmount);
      Commute(f, borrowAmount);
      Commute(remaining, WAD);
      CancelStrict(WAD, remaining, q);
    }
  }

  /**
   * Interest is linear: the annual rate's share of the time to within one unit, nothing at maturity,
   * the annual rate over a year, never less for more rate or time.
   */
  lemma FactorIsLinear(aprBps: nat, timeToMaturity: nat, higher: nat, longer: nat)
    requires aprBps <= higher && timeToMaturity <= longer
    ensures Factor(aprBps, 0) == WAD
    ensures BASIS_POINTS * (Factor(aprBps, YEAR) - WAD) == aprBps * WAD
    ensures Factor(aprBps, timeToMaturity) <= Factor(higher, longer)
    ensures var l, interest := YEAR * BASIS_POINTS, Factor(aprBps, timeToMaturity) - WAD;
      l * interest <= timeToMaturity * (aprBps * WAD) < l * interest + l
  {
    var l := YEAR * BASIS_POINTS;
    MulDivUnique(0, aprBps * WAD, l, 0);
    YearlyRate(aprBps);
    MulDivMonotone(timeToMaturity, aprBps * WAD, higher * WAD, l);
    Commute(timeToMaturity, higher * WAD);
    Commute(longer, higher * WAD);
    MulMonotone(higher * WAD, timeToMaturity, longer);
    FloorMonotone(timeToMaturity, longer, higher * WAD, l);
  }

  lemma YearlyRate(aprBps: nat)
    ensures BASIS_POINTS * MulDiv(YEAR, aprBps * WAD, YEAR * BASIS_POINTS) == aprBps * WAD
  {
    var q := aprBps * 100_000_000_000_000;
    assert BASIS_POINTS * q == aprBps * WAD;
    MulDivUnique(YEAR, aprBps * WAD, YEAR * BASIS_POINTS, q);
  }

  lemma FloorMonotone(a: nat, b: nat, r: nat, l: nat)
    requires l > 0 && a * r <= b * r
    ensures MulDiv(a, r, l) <= MulDiv(b, r, l)
  {
    var p, q := MulDiv(a, r, l), MulDiv(b, r, l);
    if q < p {
      FloorGap(l, q, p);
    }
  }

  /** A dearer rate or a longer wait never raises the price, and at maturity nothing is discounted. */
  lemma PriceFalls(remaining: nat, aprBps: nat, timeToMaturity: nat, higher: nat, longer: nat)
    requires aprBps <= higher && timeToMaturity <= longer
    ensures GrossPrice(remaining, higher, longer) <= GrossPrice(remaining, aprBps, timeToMaturity) <= remaining
    ensures GrossPrice(remaining, aprBps, 0) == remaining
  {
    FactorIsLinear(aprBps, timeToMaturity, higher, longer);
    var f, g := Factor(aprBps, timeToMaturity), GrossPrice(remaining, higher, longer);
    SmallerDivisor(remaining, WAD, f, Factor(higher, longer));
    SmallerDivisor(remaining, WAD, WAD, f);
    Commute(WAD, remaining);
    MulDivUnique(remaining, WAD, WAD, remaining);
  }

  lemma SmallerDivisor(c: nat, r: nat, l: nat, m: nat)
    requires 0 < l <= m
    ensures MulDiv(c, r, m) <= MulDiv(c, r, l)
  {
    var p, q := MulDiv(c, r, m), MulDiv(c, r, l);
    if q < p {
      FloorGap(l, q, p);
      MulMonotone(p, l, m);
      Commute(p, l);
      Commute(p, m);
    }
  }

  // ---- Sizing a fill -----------------------------------------------------------------------

  datatype Sizing =
    | Sized(units: nat, actualBorrow: nat, obligation: nat, feeAmount: nat)
    | EmptyTick
    | BelowMinimum

  /** A fill of `units` asks for no more than the target, the depth and the price allow. */
  predicate Fits(units: nat, target: nat, available: int, grossPrice: nat)
  {
    units <= available && units * LendingTape.UNIT <= target && units * LendingTape.UNIT <= grossPrice
  }

  /** The fee is the rate's share of the amount to within one unit, rounded down, and never exceeds the amount. */
  lemma FeeWithin(amount: nat, feeBps: nat)
    requires feeBps <= BASIS_POINTS
    ensures Fee(amount, feeBps) <= amount
    ensures BASIS_POINTS * Fee(amount, feeBps) <= amount * feeBps < BASIS_POINTS * (Fee(amount, feeBps) + 1)
  {
    if feeBps > 0 {
      MulMonotone(amount, feeBps, BASIS_POINTS);
      Commute(amount, BASIS_POINTS);
      Cancel(BASIS_POINTS, Fee(amount, feeBps), amount);
    }
  }

  /** A pledged stream's remaining payout, the rate and time it is discounted by, and the fee rate. */
  datatype Terms = Terms(remaining: nat, aprBps: nat, timeToMaturity: nat, feeBps: nat)

  function PriceOf(terms: Terms): nat
  {
    GrossPrice(terms.remaining, terms.aprBps, terms.timeToMaturity)
  }

  /**
   * The fill is the largest that fits, it is one the tape accepts, and it owes at least what it
   * advances and at most what the stream still pays.
   */
  ghost predicate IsSizing(t: LendingTape.Tape, target: nat, terms: Terms, r: Sizing)
  {
    var available, g := LendingTape.Available(t), PriceOf(terms);
    match r
    case EmptyTick => available == 0
    case BelowMinimum =>
      && available > 0
      && forall u: nat :: Fits(u, target, available, g) ==> u * LendingTape.UNIT < LendingTape.MIN_LIQUIDITY_AMOUNT
    case Sized(units, actualBorrow, obligation, feeAmount) =>
      && Fits(units, target, available, g)
      && (forall u: nat :: Fits(u, target, available, g) ==> u <= units)
      && LendingTape.Accepts(t, LendingTape.Borrow(units))
      && actualBorrow == units * LendingTape.UNIT >= LendingTape.MIN_LIQUIDITY_AMOUNT
      && actualBorrow <= obligation <= terms.remaining
      && obligation == ObligationForFill(actualBorrow, g, terms.remaining, terms.aprBps, terms.timeToMaturity)
      && feeAmount == Fee(actualBorrow, terms.feeBps) <= actualBorrow
  }

  method SizeFill(t: LendingTape.Tape, available: nat, target: nat, remaining: nat, aprBps: nat,
                  timeToMaturity: nat, feeBps: nat)
    returns (r: Sizing)
    requires available == LendingTape.Available(t) && feeBps <= BASIS_POINTS
    ensures IsSizing(t, target, Terms(remaining, aprBps, timeToMaturity, feeBps), r)
  {
    var grossPrice := GrossPrice(remaining, aprBps, timeToMaturity);
    if available == 0 {
      return EmptyTick;
    }
    var targetUnits := target / LendingTape.UNIT;
    var units := if targetUnits < available then targetUnits else available;
    if units * LendingTape.UNIT > grossPrice {
      units := grossPrice / LendingTape.UNIT;
    }
    forall u: nat | Fits(u, target, available, grossPrice)
      ensures u <= units
    {
    }
    if units * LendingTape.UNIT < LendingTape.MIN_LIQUIDITY_AMOUNT {
      return BelowMinimum;
    }
    ObligationWithinStream(units * LendingTape.UNIT, remaining, aprBps, timeToMaturity);
    FeeWithin(units * LendingTape.UNIT, feeBps);
    r := Sized(units, units * LendingTape.UNIT,
               ObligationForFill(units * LendingTape.UNIT, grossPrice, remaining, aprBps, timeToMaturity),
               Fee(units * LendingTape.UNIT, feeBps));
  }
}
