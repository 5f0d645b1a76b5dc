/**
 Stream payoff arithmetic: the floor-rounded linear vesting curve, the closed-form
 date on which a debt becomes covered, and the countdown shown between reads.

 Amounts are unsigned on chain, so they are `nat` here; instants are plain integers.
 With non-negative operands the truncating bigint division is Dafny's `/`.
 */
module Payoff {
  import opened Arithmetic

  datatype Schedule = Schedule(start: int, end: int, deposited: nat, withdrawn: nat, refunded: nat)
  {
    /** What the stream can ever pay out; negative when more was refunded than deposited. */
    function Cap(): int { deposited - refunded }

    function Remaining(): int { deposited - withdrawn - refunded }
  }

  datatype CoverDate = Projected(at: int) | Covered(at: int) | Uncovered

  datatype LastRead = NoRead | Read(at: int, streamed: int)

  /** The three amounts Sablier reports for a stream. */
  datatype Buckets = Buckets(remaining: nat, claimable: nat, locked: nat)

  function Min(a: int, b: int): int { if a < b then a else b }

  function Clamp(x: int): nat { if x < 0 then 0 else x }

  function StreamedAmountOf(s: Schedule, now: int): nat
  {
    if s.Cap() <= 0 then 0
    else if now <= s.start then 0
    else if now >= s.end then s.Cap()
    else
      FloorGalois(s.deposited * (now - s.start), s.end - s.start, 0);
      Min(s.deposited * (now - s.start) / (s.end - s.start), s.Cap())
  }

  function InterpolateStreamed(s: Schedule, now: int, last: LastRead): nat
  {
    if last.Read? && now < last.at then
      Min(Clamp(last.streamed), StreamedAmountOf(s, s.end))
    else
      StreamedAmountOf(s, now)
  }

  /** The start plus the rounded-up share of the duration that vests `need`. */
  function CeilDate(s: Schedule, need: nat): int
    requires 0 < s.deposited
  {
    s.start + (need * (s.end - s.start) + s.deposited - 1) / s.deposited
  }

  function CoverDateOf(s: Schedule, outstanding: int, now: int): CoverDate
  {
    if outstanding <= 0 then Covered(now)
    else if s.Remaining() <= 0 || outstanding > s.Remaining() then Uncovered
    else
      var need := outstanding + s.withdrawn;
      var duration := s.end - s.start;
      if need <= 0 then Covered(now)
      else if duration <= 0 then
        (if s.Remaining() >= outstanding then Covered(now) else Uncovered)
      else
        var at := CeilDate(s, need);
        if at <= now then
          var claimable := Clamp(StreamedAmountOf(s, now) - s.withdrawn);
          if claimable >= outstanding then Covered(now) else Projected(at)
        else if at >= s.end then
          (if s.Remaining() >= outstanding then Projected(s.end) else Uncovered)
        else
          Projected(at)
  }

  function InterpolateOutstanding(s: Schedule, lastOutstanding: int, lastReadAt: int, now: int): nat
  {
    if lastOutstanding <= 0 then 0
    else if now <= lastReadAt then lastOutstanding
    else
      var thenStreamed := StreamedAmountOf(s, lastReadAt);
      var nowStreamed := InterpolateStreamed(s, now, Read(lastReadAt, thenStreamed));
      var additional := Clamp(nowStreamed - thenStreamed);
      if lastOutstanding > additional then lastOutstanding - additional else 0
  }

  function RepayPreview(s: Schedule, outstanding: int, repayAmount: int, now: int): (CoverDate, CoverDate)
  {
    var repay := Clamp(repayAmount);
    var next := if repay >= outstanding then 0 else outstanding - repay;
    (CoverDateOf(s, outstanding, now), CoverDateOf(s, next, now))
  }

  function StreamBuckets(deposited: nat, withdrawn: nat, refunded: nat, streamed: nat): Buckets
  {
    Buckets(Clamp(deposited - withdrawn - refunded),
            Clamp(streamed - withdrawn),
            Clamp(deposited - streamed - refunded))
  }

  function BucketsAt(s: Schedule, now: int, last: LastRead): Buckets
  {
    StreamBuckets(s.deposited, s.withdrawn, s.refunded, InterpolateStreamed(s, now, last))
  }

  // ---------------------------------------------------------------------------
  // Division facts
  // ---------------------------------------------------------------------------

  /** `n / d` is the largest quotient that fits: `k <= n / d` iff `k * d <= n`. */
  lemma FloorGalois(n: int, d: int, k: int)
    requires 0 < d
    ensures k <= n / d <==> k * d <= n
  {
    var q, r := n / d, n % d;
    assert n == q * d + r && 0 <= r < d;
    if k <= q {
      MulMonotone(d, k, q);
    } else {
      MulMonotone(d, q + 1, k);
      assert d * (q + 1) == q * d + d;
    }
  }

  /** `(n + d - 1) / d` is the smallest quotient that suffices: it is `<= k` iff `n <= k * d`. */
  lemma CeilGalois(n: int, d: int, k: int)
    requires 0 < d
    ensures (n + d - 1) / d <= k <==> n <= k * d
  {
    FloorGalois(n + d - 1, d, k + 1);
    assert (k + 1) * d == k * d + d;
  }

  // ---------------------------------------------------------------------------
  // The vesting curve
  // ---------------------------------------------------------------------------

  lemma StreamedMonotone(s: Schedule, t: int, u: int)
    requires t <= u
    ensures StreamedAmountOf(s, t) <= StreamedAmountOf(s, u) <= Clamp(s.Cap())
  {
    if 0 < s.Cap() && s.start < t && u < s.end {
      var d := s.end - s.start;
      MulMonotone(s.deposited, t - s.start, u - s.start);
      FloorGalois(s.deposited * (t - s.start), d, s.deposited * (t - s.start) / d);
      FloorGalois(s.deposited * (u - s.start), d, s.deposited * (t - s.start) / d);
    }
  }

  /** Nothing until the start, all from the end on; in between the elapsed share of the deposit, cut at the cap. */
  lemma StreamedIsLinear(s: Schedule, t: int)
    requires 0 < s.Cap()
    ensures t <= s.start ==> StreamedAmountOf(s, t) == 0
    ensures s.start < t && s.end <= t ==> StreamedAmountOf(s, t) == s.Cap()
    ensures s.start < t < s.end ==>
      var x, d := StreamedAmountOf(s, t), s.end - s.start;
      && x * d <= s.deposited * (t - s.start) && x <= s.Cap()
      && (x == s.Cap() || s.deposited * (t - s.start) < (x + 1) * d)
  {
    if s.start < t < s.end {
      var n, d := s.deposited * (t - s.start), s.end - s.start;
      var x := StreamedAmountOf(s, t);
      FloorGalois(n, d, x);
      FloorGalois(n, d, x + 1);
    }
  }

  /** The ceiling date of an amount the stream can pay lies inside the schedule. */
  lemma CeilDateInside(s: Schedule, need: nat)
    requires s.start < s.end && 0 < need <= s.Cap()
    ensures s.start < CeilDate(s, need) <= s.end
  {
    var d := s.end - s.start;
    CeilGalois(need * d, s.deposited, 0);
    MulMonotone(d, 1, need);
    MulMonotone(d, need, s.deposited);
    CeilGalois(need * d, s.deposited, d);
  }

  lemma CeilAgainstFloor(deposited: nat, d: nat, need: nat, e: int)
    requires 0 < d && 0 < deposited
    ensures (need * d + deposited - 1) / deposited <= e <==> need <= deposited * e / d
  {
    CeilGalois(need * d, deposited, e);
    FloorGalois(deposited * e, d, need);
  }

  /** Inverting the curve: an amount is reached exactly from its ceiling date on. */
  lemma StreamedReaches(s: Schedule, need: nat, t: int)
    requires s.start < s.end && 0 < need <= s.Cap()
    ensures StreamedAmountOf(s, t) >= need <==> CeilDate(s, need) <= t
  {
    CeilDateInside(s, need);
    if s.start < t < s.end {
      CeilAgainstFloor(s.deposited, s.end - s.start, need, t - s.start);
    }
  }

  // ---------------------------------------------------------------------------
  // The cover date is exact
  // ---------------------------------------------------------------------------

  /** The stream has vested enough at `t` to pay `outstanding` on top of what was withdrawn. */
  predicate Pays(s: Schedule, outstanding: int, t: int)
  {
    StreamedAmountOf(s, t) - s.withdrawn >= outstanding
  }

  /** What a cover date promises, said without the closed form. */
  ghost predicate Exact(s: Schedule, outstanding: int, now: int, c: CoverDate)
  {
    match c
    case Covered(at) => at == now && Pays(s, outstanding, now)
    case Projected(at) => now < at && Pays(s, outstanding, at) && forall t :: t < at ==> !Pays(s, outstanding, t)
    case Uncovered => forall t :: !Pays(s, outstanding, t)
  }

  /**
   For a positive debt the answer is exact unless the schedule is degenerate (`end <= start`),
   the instant is not past its start, and the debt is within what remains: that branch reports
   "covered" although nothing has streamed yet.
   */
  lemma CoverDateExact(s: Schedule, outstanding: int, now: int)
    requires 0 < outstanding
    ensures Exact(s, outstanding, now, CoverDateOf(s, outstanding, now))
       <==> (s.start < s.end || s.start < now || s.Remaining() < outstanding)
  {
    if s.Remaining() < outstanding {
      forall t ensures !Pays(s, outstanding, t) {
        StreamedMonotone(s, t, t);
      }
    } else if s.start < s.end {
      CoverDateClosedForm(s, outstanding, now);
      forall t ensures Pays(s, outstanding, t) <==> CeilDate(s, outstanding + s.withdrawn) <= t {
        StreamedReaches(s, outstanding + s.withdrawn, t);
      }
    }
  }

  /** On a proper schedule neither fallback is taken: a date reached by `now` is covered, one at `end` is projected. */
  lemma CoverDateClosedForm(s: Schedule, outstanding: int, now: int)
    requires s.start < s.end && 0 < outstanding <= s.Remaining()
    ensures var at := CeilDate(s, outstanding + s.withdrawn);
            CoverDateOf(s, outstanding, now) == if at <= now then Covered(now) else Projected(at)
  {
    CeilDateInside(s, outstanding + s.withdrawn);
    StreamedReaches(s, outstanding + s.withdrawn, now);
  }

  /** The failing family is inhabited: a zero-length stream is called covered before it starts. */
  lemma DegenerateScheduleNotExact()
    ensures var s := Schedule(10, 10, 5, 0, 0); !Exact(s, 5, 10, CoverDateOf(s, 5, 10))
  {
    CoverDateExact(Schedule(10, 10, 5, 0, 0), 5, 10);
  }

  // ---------------------------------------------------------------------------
  // Repaying
  // ---------------------------------------------------------------------------

  /** `a` is no later a promise than `b`. */
  predicate NoLater(a: CoverDate, b: CoverDate)
  {
    b.Uncovered? || a.Covered? || (a.Projected? && b.Projected? && a.at <= b.at)
  }

  lemma CoverDateMonotone(s: Schedule, less: int, more: int, now: int)
    requires less <= more
    ensures NoLater(CoverDateOf(s, less, now), CoverDateOf(s, more, now))
  {
    if 0 < less && s.start < s.end && more <= s.Remaining() {
      CoverDateClosedForm(s, less, now);
      CoverDateClosedForm(s, more, now);
      StreamedReaches(s, less + s.withdrawn, CeilDate(s, more + s.withdrawn));
      StreamedReaches(s, more + s.withdrawn, CeilDate(s, more + s.withdrawn));
    }
  }

  /** A repay, of any size and on any schedule, never moves the cover date later; a full one covers. */
  lemma RepayNeverLater(s: Schedule, outstanding: int, repayAmount: int, now: int)
    ensures var (current, next) := RepayPreview(s, outstanding, repayAmount, now);
            NoLater(next, current) && (repayAmount >= outstanding ==> next == Covered(now))
  {
    var next := if Clamp(repayAmount) >= outstanding then 0 else outstanding - Clamp(repayAmount);
    CoverDateMonotone(s, if outstanding < next then outstanding else next, outstanding, now);
  }

  /**
   The date shown for the debt a repay leaves is exact for that debt under the same condition as any
   cover date; a repay of nothing, or less, leaves the debt and its date alone.
   */
  lemma RepayPreviewExact(s: Schedule, outstanding: int, repayAmount: int, now: int)
    ensures var (current, next) := RepayPreview(s, outstanding, repayAmount, now);
      && current == CoverDateOf(s, outstanding, now)
      && (0 <= repayAmount < outstanding ==>
            (Exact(s, outstanding - repayAmount, now, next)
             <==> (s.start < s.end || s.start < now || s.Remaining() < outstanding - repayAmount)))
      && (repayAmount <= 0 < outstanding ==> next == current)
  {
    if 0 <= repayAmount < outstanding {
      CoverDateExact(s, outstanding - repayAmount, now);
    }
  }

  // ---------------------------------------------------------------------------
  // The countdown between reads
  // ---------------------------------------------------------------------------

  lemma CountdownClosedForm(s: Schedule, debt: nat, t0: int, t: int)
    requires t0 <= t
    ensures InterpolateOutstanding(s, debt, t0, t) == Clamp(debt - (StreamedAmountOf(s, t) - StreamedAmountOf(s, t0)))
  {
    StreamedMonotone(s, t0, t);
  }

  /** Refreshing half way changes nothing, despite the clamps and the floors. */
  lemma CountdownPathIndependent(s: Schedule, debt: int, t0: int, t1: int, t2: int)
    requires t0 <= t1 <= t2
    ensures InterpolateOutstanding(s, InterpolateOutstanding(s, debt, t0, t1), t1, t2)
         == InterpolateOutstanding(s, debt, t0, t2)
  {
    if 0 < debt {
      CountdownClosedForm(s, debt, t0, t1);
      CountdownClosedForm(s, InterpolateOutstanding(s, debt, t0, t1), t1, t2);
      CountdownClosedForm(s, debt, t0, t2);
      StreamedMonotone(s, t0, t1);
      StreamedMonotone(s, t1, t2);
    }
  }

  lemma CountdownNonIncreasing(s: Schedule, debt: int, t0: int, t: int, u: int)
    requires t <= u
    ensures InterpolateOutstanding(s, debt, t0, u) <= InterpolateOutstanding(s, debt, t0, t) <= Clamp(debt)
  {
    if 0 < debt && t0 < u {
      CountdownClosedForm(s, debt, t0, u);
      StreamedMonotone(s, t0, u);
      if t0 < t {
        CountdownClosedForm(s, debt, t0, t);
        StreamedMonotone(s, t, u);
        StreamedMonotone(s, t0, t);
      }
    }
  }

  /**
   The two displays agree: with everything vested so far already withdrawn, the countdown
   hits zero at exactly the date the cover projection names, and not a second before.
   */
  lemma CountdownMeetsCoverDate(s: Schedule, debt: int, t0: int, t: int)
    requires s.start < s.end && 0 < debt <= s.Remaining()
    requires s.withdrawn == StreamedAmountOf(s, t0) && t0 <= t
    ensures CoverDateOf(s, debt, t0).Projected?
    ensures InterpolateOutstanding(s, debt, t0, t) == 0 <==> CoverDateOf(s, debt, t0).at <= t
  {
    CoverDateClosedForm(s, debt, t0);
    StreamedReaches(s, debt + s.withdrawn, t0);
    StreamedReaches(s, debt + s.withdrawn, t);
    CountdownClosedForm(s, debt, t0, t);
  }

  // ---------------------------------------------------------------------------
  // The three buckets
  // ---------------------------------------------------------------------------

  lemma InterpolatedWithinCap(s: Schedule, now: int, last: LastRead)
    ensures InterpolateStreamed(s, now, last) <= Clamp(s.Cap())
  {
    StreamedMonotone(s, now, now);
    StreamedMonotone(s, s.end, s.end);
  }

  /**
   A clock that runs behind the last read does not undo it: the figure is the curve at the later of
   the two. Only on a degenerate schedule (`end <= start`) read past its start is the read lost.
   */
  lemma ClockBackHoldsIff(s: Schedule, now: int, at: int)
    ensures (InterpolateStreamed(s, now, Read(at, StreamedAmountOf(s, at)))
             == StreamedAmountOf(s, if now < at then at else now))
       <==> !(now < at && s.end <= s.start < at && 0 < s.Cap())
  {
    if at <= s.end {
      StreamedMonotone(s, at, s.end);
    } else {
      StreamedMonotone(s, s.end, at);
    }
  }

  /** What is shown as claimable pays a debt exactly when the cover date says the stream pays it now. */
  lemma ClaimablePays(s: Schedule, outstanding: int, now: int)
    requires 0 < outstanding
    ensures BucketsAt(s, now, NoRead).claimable >= outstanding <==> Pays(s, outstanding, now)
    ensures BucketsAt(s, now, NoRead).remaining >= outstanding <==> s.Remaining() >= outstanding
  {
  }

  /**
   Claimable plus locked is what remains exactly when the streamed figure is not behind the
   withdrawn one, or the stream has nothing left to lock.
   */
  lemma BucketsConserve(s: Schedule, now: int, last: LastRead)
    ensures var b := BucketsAt(s, now, last);
            (b.claimable + b.locked == b.remaining) <==>
            (s.withdrawn <= InterpolateStreamed(s, now, last) || s.Cap() <= InterpolateStreamed(s, now, last))
  {
    InterpolatedWithinCap(s, now, last);
  }

  /** The failing family is inhabited: half withdrawn, while the clock in hand says a tenth has streamed. */
  lemma LaggingClockBreaksBuckets()
    ensures var b := BucketsAt(Schedule(0, 100, 100, 50, 0), 10, NoRead);
      b == Buckets(50, 0, 90) && b.claimable + b.locked != b.remaining
  {
  }
}
