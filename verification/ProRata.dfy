/** Rounding of pro-rata shares: what a floored division loses and what it never exceeds. */
module ProRata {
  import opened PrefixSums

  /** The floor of `c * r / l`. */
  function MulDiv(c: nat, r: nat, l: nat): (q: nat)
    requires l > 0
    ensures l * q <= c * r < l * q + l
  {
    var q := c * r / l;
    DivBounds(c * r, l);
    q
  }

  lemma DivBounds(x: nat, l: nat)
    requires l > 0
    ensures x / l >= 0 && l * (x / l) <= x < l * (x / l) + l
  {
    assert x == l * (x / l) + x % l;
  }

  lemma MulDivUnique(c: nat, r: nat, l: nat, q: nat)
    requires l > 0 && l * q <= c * r < l * q + l
    ensures MulDiv(c, r, l) == q
  {
    var d := MulDiv(c, r, l);
    if d < q {
      FloorGap(l, d, q);
    } else if q < d {
      FloorGap(l, q, d);
    }
  }

  lemma FloorGap(l: nat, a: nat, b: nat)
    requires a < b
    ensures l * a + l <= l * b
  {
    var d := b - a - 1;
    assert l * b == l * (a + 1) + l * d;
  }

  lemma MulDivMonotone(c: nat, r: nat, more: nat, l: nat)
    requires l > 0 && r <= more
    ensures MulDiv(c, r, l) <= MulDiv(c, more, l)
  {
    var a, b := MulDiv(c, r, l), MulDiv(c, more, l);
    assert c * r <= c * more;
    if b < a {
      FloorGap(l, b, a);
    }
  }

  /** The shares of the first `n` contributors. */
  function SharesTo(c: seq<nat>, r: nat, l: nat, n: nat): nat
    requires l > 0 && n <= |c|
  {
    if n == 0 then 0 else SharesTo(c, r, l, n - 1) + MulDiv(c[n - 1], r, l)
  }

  lemma Distribute(l: nat, a: nat, q: nat, t: nat, c: nat, r: nat)
    ensures l * (a + q) == l * a + l * q && (t + c) * r == t * r + c * r
  {
  }

  /** How many of the first `n` contributed at all. */
  function Contributors(c: seq<nat>, n: nat): nat
    requires n <= |c|
  {
    if n == 0 then 0 else Contributors(c, n - 1) + if c[n - 1] > 0 then 1 else 0
  }

  lemma {:induction false} SharesBounds(c: seq<nat>, r: nat, l: nat, n: nat)
    requires l > 0 && n <= |c|
    ensures l * SharesTo(c, r, l, n) <= SumTo(c, n) * r <= l * SharesTo(c, r, l, n) + Contributors(c, n) * l
    ensures Contributors(c, n) > 0 ==> SumTo(c, n) * r < l * SharesTo(c, r, l, n) + Contributors(c, n) * l
    ensures Contributors(c, n) == 0 ==> SumTo(c, n) == 0
  {
    if n > 0 {
      SharesBounds(c, r, l, n - 1);
      SumToStep(c, n - 1);
      var k := Contributors(c, n - 1);
      Distribute(l, SharesTo(c, r, l, n - 1), MulDiv(c[n - 1], r, l), SumTo(c, n - 1), c[n - 1], r);
      Distribute(0, 0, 0, k, 1, l);
      if c[n - 1] == 0 {
        MulDivUnique(0, r, l, 0);
      }
    }
  }

  lemma Cancel(l: nat, a: nat, b: nat)
    requires l > 0 && l * a <= l * b
    ensures a <= b
  {
    if b < a {
      FloorGap(l, b, a);
    }
  }

  lemma CancelStrict(l: nat, a: nat, b: nat)
    requires l > 0 && l * a < l * b
    ensures a < b
  {
    if b < a {
      FloorGap(l, b, a);
    }
  }

  /** Shares of the whole never exceed it, and lose less than one unit a contributor. */
  lemma SharesOfWhole(c: seq<nat>, r: nat, l: nat)
    requires l > 0 && Total(c) == l
    ensures SharesTo(c, r, l, |c|) <= r < SharesTo(c, r, l, |c|) + Contributors(c, |c|)
  {
    SharesBounds(c, r, l, |c|);
    var q, k := SharesTo(c, r, l, |c|), Contributors(c, |c|);
    Cancel(l, q, r);
    Distribute(l, q, k, 0, 0, 0);
    CancelStrict(l, r, q + k);
  }

  /** If nobody was paid beyond their share, everybody's unpaid share is covered by what was not paid. */
  lemma {:induction false} UnpaidCovered(c: seq<nat>, r: nat, l: nat, paid: seq<nat>, q: nat, n: nat)
    requires l > 0 && |paid| == |c| && n <= |c| && q < |c|
    requires forall p :: 0 <= p < |c| ==> paid[p] <= MulDiv(c[p], r, l)
    ensures SumTo(paid, n) + (if q < n then MulDiv(c[q], r, l) - paid[q] else 0) <= SharesTo(c, r, l, n)
  {
    if n > 0 {
      UnpaidCovered(c, r, l, paid, q, n - 1);
      SumToStep(paid, n - 1);
    }
  }
}
