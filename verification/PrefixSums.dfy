/** Prefix sums of a sequence of quantities. */
module PrefixSums {

  function Total(s: seq<nat>): nat
  {
    if s == [] then 0 else Total(s[..|s| - 1]) + s[|s| - 1]
  }

  /** The sum of the first `n` members, or of all when there are fewer. */
  function SumTo(s: seq<nat>, n: nat): nat
  {
    if n >= |s| then Total(s) else Total(s[..n])
  }

  lemma SumToStep(s: seq<nat>, n: nat)
    requires n < |s|
    ensures SumTo(s, n + 1) == SumTo(s, n) + s[n]
  {
    assert s[..n + 1][..n] == s[..n];
    assert n + 1 == |s| ==> s[..n + 1] == s;
  }

  lemma {:induction false} SumToMonotone(s: seq<nat>, m: nat, n: nat)
    requires m <= n
    ensures SumTo(s, m) <= SumTo(s, n) <= Total(s)
    decreases |s| - m, n - m
  {
    if m < |s| {
      SumToStep(s, m);
      SumToMonotone(s, m + 1, if m < n then n else n + 1);
    }
  }

  lemma SumToAppend(s: seq<nat>, v: nat, n: nat)
    ensures SumTo(s + [v], n) == SumTo(s, n) + if n > |s| then v else 0
  {
    assert (s + [v])[..|s|] == s;
    if n <= |s| {
      assert (s + [v])[..n] == s[..n];
      assert n == |s| ==> s[..n] == s;
    }
  }

  lemma {:induction false} SumToUpdate(s: seq<nat>, i: nat, v: nat, n: nat)
    requires i < |s|
    ensures SumTo(s[i := v], n) == if n > i then SumTo(s, n) - s[i] + v else SumTo(s, n)
    ensures n > i ==> SumTo(s, n) >= s[i]
    decreases n
  {
    var u := s[i := v];
    if n > |s| {
      SumToUpdate(s, i, v, |s|);
    } else if n > 0 {
      SumToStep(s, n - 1);
      SumToStep(u, n - 1);
      if n - 1 > i {
        SumToUpdate(s, i, v, n - 1);
      } else if n - 1 == i {
        assert u[..i] == s[..i];
      } else {
        assert u[..n] == s[..n];
      }
    }
  }
}
