/**
 Approve optimistically; only after a revert that has the shape of a token refusing to change
 one non-zero allowance into another, clear the allowance to zero and approve once more.
 */
module ZeroFirstApprove {
  import opened Wrappers
  import opened Text

  /** What the write flow shows when the effect runs; a revert is told apart from other failures. */
  datatype Flags = Flags(isConfirmed: bool, hasFailed: bool, looksReverted: bool)

  /** An attempt, and which submission it belongs to. */
  datatype Attempt = Attempt(submission: nat, token: Address, spender: Address, amount: nat, allowance: nat)

  /** One approval sent to the wallet, and the flags it was sent on; none for the first. */
  datatype Write = Write(token: Address, spender: Address, amount: nat, seen: Option<Flags>)

  /** A call of `submit` and every approval sent on its behalf. */
  datatype Submission = Submission(token: Address, spender: Address, amount: nat, allowance: nat, writes: seq<Write>)

  datatype Approver = Approver(
    attempt: Option<Attempt>,
    pending: Option<Attempt>,
    clearing: bool,
    settled: bool,
    usedFallback: bool,
    log: seq<Submission>)

  const IDLE := Approver(None, None, false, false, false, [])

  function Send(log: seq<Submission>, a: Attempt, amount: nat, seen: Option<Flags>): seq<Submission>
  {
    if a.submission < |log| then
      var s := log[a.submission];
      log[a.submission := s.(writes := s.writes + [Write(a.token, a.spender, amount, seen)])]
    else
      log
  }

  function Submit(x: Approver, token: Address, spender: Address, amount: nat, allowance: nat): Approver
  {
    var a := Attempt(|x.log|, token, spender, amount, allowance);
    x.(attempt := Some(a), pending := None, usedFallback := false,
       log := Send(x.log + [Submission(token, spender, amount, allowance, [])], a, amount, None))
  }

  predicate LooksLikeNonZeroReset(a: Attempt, f: Flags)
  {
    a.allowance > 0 && a.amount > 0 && f.looksReverted
  }

  function Observe(x: Approver, f: Flags): Approver
  {
    if x.clearing then
      if !x.settled then
        (if !f.hasFailed && !f.isConfirmed then x.(settled := true) else x)
      else if f.isConfirmed && x.pending.Some? then
        var next := x.pending.value;
        x.(pending := None, clearing := false, settled := false, attempt := Some(next.(allowance := 0)),
           log := Send(x.log, next, next.amount, Some(f)))
      else if f.hasFailed then
        x.(pending := None, clearing := false, settled := false)
      else x
    else if f.isConfirmed then x.(attempt := None)
    else if !f.hasFailed || x.attempt.None? then x
    else
      var failed := x.attempt.value;
      if !LooksLikeNonZeroReset(failed, f) then x.(attempt := None)
      else
        x.(attempt := None, pending := Some(failed), settled := false, clearing := true, usedFallback := true,
           log := Send(x.log, failed, 0, Some(f)))
  }

  datatype Event =
    | Submits(token: Address, spender: Address, amount: nat, allowance: nat)
    | Renders(flags: Flags)

  function Step(x: Approver, e: Event): Approver
  {
    match e
    case Submits(token, spender, amount, allowance) => Submit(x, token, spender, amount, allowance)
    case Renders(flags) => Observe(x, flags)
  }

  function Run(events: seq<Event>): Approver
    decreases |events|
  {
    if events == [] then IDLE else Step(Run(events[..|events| - 1]), events[|events| - 1])
  }

  // ---------------------------------------------------------------------------
  // What may be written for one submission
  // ---------------------------------------------------------------------------

  /** The amount; then, only on a revert of a non-zero change, zero; then the same amount once more. */
  predicate WritesOk(s: Submission)
  {
    && 1 <= |s.writes| <= 3
    && (forall w :: w in s.writes ==> w.token == s.token && w.spender == s.spender)
    && s.writes[0].amount == s.amount && s.writes[0].seen == None
    && (|s.writes| >= 2 ==>
          && s.writes[1].amount == 0 && s.allowance > 0 && s.amount > 0
          && s.writes[1].seen.Some? && s.writes[1].seen.value.hasFailed && s.writes[1].seen.value.looksReverted)
    && (|s.writes| == 3 ==>
          s.writes[2].amount == s.amount && s.writes[2].seen.Some? && s.writes[2].seen.value.isConfirmed)
  }

  /** An attempt belongs to its submission. */
  predicate Belongs(x: Approver, a: Attempt)
  {
    && a.submission < |x.log|
    && a.token == x.log[a.submission].token && a.spender == x.log[a.submission].spender
    && a.amount == x.log[a.submission].amount
  }

  ghost predicate Inv(x: Approver)
  {
    && (forall i :: 0 <= i < |x.log| ==> WritesOk(x.log[i]))
    && !(x.attempt.Some? && x.pending.Some?)
    && (x.attempt.Some? ==>
          var a := x.attempt.value;
          Belongs(x, a) && if |x.log[a.submission].writes| == 1 then a.allowance == x.log[a.submission].allowance
                           else |x.log[a.submission].writes| == 3 && a.allowance == 0)
    && (x.pending.Some? ==>
          x.clearing && Belongs(x, x.pending.value) && |x.log[x.pending.value.submission].writes| == 2)
  }

  /** Sending touches one submission, by one more write. */
  lemma SendFacts(log: seq<Submission>, a: Attempt, amount: nat, seen: Option<Flags>)
    requires a.submission < |log|
    ensures var next := Send(log, a, amount, seen); var s := log[a.submission];
      && |next| == |log|
      && next[a.submission] == s.(writes := s.writes + [Write(a.token, a.spender, amount, seen)])
      && forall i :: 0 <= i < |log| && i != a.submission ==> next[i] == log[i]
  {
  }

  lemma SubmitKeeps(x: Approver, token: Address, spender: Address, amount: nat, allowance: nat)
    requires Inv(x)
    ensures Inv(Submit(x, token, spender, amount, allowance))
  {
    var a := Attempt(|x.log|, token, spender, amount, allowance);
    SendFacts(x.log + [Submission(token, spender, amount, allowance, [])], a, amount, None);
  }

  lemma RetryKeeps(x: Approver, f: Flags)
    requires Inv(x) && x.clearing && x.settled && f.isConfirmed && x.pending.Some?
    ensures Inv(Observe(x, f))
  {
    SendFacts(x.log, x.pending.value, x.pending.value.amount, Some(f));
  }

  lemma FallbackKeeps(x: Approver, f: Flags)
    requires Inv(x) && !x.clearing && !f.isConfirmed && f.hasFailed && x.attempt.Some?
      && LooksLikeNonZeroReset(x.attempt.value, f)
    ensures Inv(Observe(x, f))
  {
    SendFacts(x.log, x.attempt.value, 0, Some(f));
  }

  lemma StepKeeps(x: Approver, e: Event)
    requires Inv(x)
    ensures Inv(Step(x, e))
  {
    match e {
      case Submits(token, spender, amount, allowance) => SubmitKeeps(x, token, spender, amount, allowance);
      case Renders(f) =>
        if x.clearing && x.settled && f.isConfirmed && x.pending.Some? {
          RetryKeeps(x, f);
        } else if !x.clearing && !f.isConfirmed && f.hasFailed && x.attempt.Some?
          && LooksLikeNonZeroReset(x.attempt.value, f) {
          FallbackKeeps(x, f);
        }
    }
  }

  /**
   In every run, each submission sends at most three approvals, of the amount, zero and the same
   amount again, all for its own token and spender, and zero only on an observed revert with a
   non-zero allowance and a non-zero amount.
   */
  lemma {:induction false} AtMostThreeWrites(events: seq<Event>)
    ensures Inv(Run(events))
    ensures forall s :: s in Run(events).log ==> WritesOk(s)
    decreases |events|
  {
    if events != [] {
      var last := |events| - 1;
      AtMostThreeWrites(events[..last]);
      StepKeeps(Run(events[..last]), events[last]);
    }
  }

  /** A submission that has used its fallback sends nothing more, whatever is observed. */
  lemma FallbackHappensOnce(events: seq<Event>, e: Event, i: nat)
    requires i < |Run(events).log| && |Run(events).log[i].writes| == 3
    ensures Step(Run(events), e).log[i] == Run(events).log[i]
  {
    AtMostThreeWrites(events);
  }

  // ---------------------------------------------------------------------------
  // The fallback does happen
  // ---------------------------------------------------------------------------

  const REVERTED := Flags(false, true, true)
  const SETTLED := Flags(false, false, false)

  /** The amounts sent for the newest submission, in order. */
  function Sent(x: Approver): seq<nat>
    requires x.log != []
  {
    var writes := x.log[|x.log| - 1].writes;
    seq(|writes|, i requires 0 <= i < |writes| => writes[i].amount)
  }

  /**
   A submission whose approval is then seen to revert clears the allowance exactly when it would
   change one non-zero allowance into another and no clearing of an earlier one is still under way.
   */
  lemma RevertClearsIff(x: Approver, token: Address, spender: Address, amount: nat, allowance: nat)
    ensures var y := Observe(Submit(x, token, spender, amount, allowance), REVERTED);
      && y.log != []
      && Sent(y) == if !x.clearing && allowance > 0 && amount > 0 then [amount, 0] else [amount]
  {
    var y := Submit(x, token, spender, amount, allowance);
    assert y.log[|x.log|].writes == [Write(token, spender, amount, None)];
  }

  /** Any other failure, and a confirmation, leave it at the one approval and end the attempt. */
  lemma OtherwiseOneWrite(x: Approver, token: Address, spender: Address, amount: nat, allowance: nat, f: Flags)
    requires !x.clearing && (f.isConfirmed || (f.hasFailed && !f.looksReverted))
    ensures var y := Observe(Submit(x, token, spender, amount, allowance), f);
      y.log != [] && Sent(y) == [amount] && y.attempt == None && !y.clearing && !y.usedFallback
  {
  }

  /**
   Then, once the write flow has settled and the clearing is confirmed, the amount is approved
   again: exactly three approvals, of the amount, zero, and the amount. If the clearing fails
   instead, nothing more is sent and the approver is free again.
   */
  lemma FallbackCompletes(x: Approver, token: Address, spender: Address, amount: nat, allowance: nat, f: Flags)
    requires !x.clearing && allowance > 0 && amount > 0 && (f.isConfirmed || f.hasFailed)
    ensures var cleared := Observe(Submit(x, token, spender, amount, allowance), REVERTED);
      var y := Observe(Observe(cleared, SETTLED), f);
      && cleared.usedFallback && y.log != [] && !y.clearing && y.pending == None
      && Sent(y) == (if f.isConfirmed then [amount, 0, amount] else [amount, 0])
      && (f.isConfirmed ==> y.attempt == Some(Attempt(|x.log|, token, spender, amount, 0)))
  {
    var y := Submit(x, token, spender, amount, allowance);
    assert y.log[|x.log|].writes == [Write(token, spender, amount, None)];
  }

  /** Until the flow has shown itself idle once, what it still shows of the revert is not taken for the clearing's. */
  lemma UnsettledWaits(x: Approver, f: Flags)
    requires x.clearing && !x.settled
    ensures Observe(x, f).log == x.log && Observe(x, f).pending == x.pending && Observe(x, f).clearing
    ensures Observe(x, f).settled <==> !f.hasFailed && !f.isConfirmed
  {
  }

  /**
   A clearing ends exactly when, the flow having settled, it is seen to fail, or to be confirmed
   with an amount still to approve. A submission made meanwhile drops that amount, so no
   confirmation ends the clearing any more.
   */
  lemma ClearingEndsIff(x: Approver, f: Flags)
    requires x.clearing
    ensures !Observe(x, f).clearing <==> x.settled && (f.hasFailed || (f.isConfirmed && x.pending.Some?))
    ensures forall token, spender, amount, allowance ::
      var y := Submit(x, token, spender, amount, allowance); y.clearing && y.pending == None
  {
  }

  /** The logs differ by at most one write at the end of one submission. */
  predicate AtMostOneWrite(log: seq<Submission>, next: seq<Submission>)
    requires |log| == |next|
  {
    log == next ||
    exists i :: 0 <= i < |log| && |next[i].writes| == |log[i].writes| + 1
      && next == log[i := log[i].(writes := next[i].writes)] && log[i].writes <= next[i].writes
  }

  /** An observation sends at most one approval, and none for a submission that has sent three. */
  lemma ObserveWrites(x: Approver, f: Flags)
    requires Inv(x)
    ensures var next := Observe(x, f).log;
      && |next| == |x.log| && AtMostOneWrite(x.log, next)
      && forall i :: 0 <= i < |next| && |x.log[i].writes| == 3 ==> next[i] == x.log[i]
  {
    var next := Observe(x, f).log;
    if next != x.log {
      var a := if x.clearing then x.pending.value else x.attempt.value;
      SendFacts(x.log, a, if x.clearing then a.amount else 0, Some(f));
      var i := a.submission;
      assert next == x.log[i := x.log[i].(writes := next[i].writes)];
    }
  }

  // ---------------------------------------------------------------------------
  // The hook
  // ---------------------------------------------------------------------------

  class Hook {
    var attempt: Option<Attempt>
    var pending: Option<Attempt>
    var clearing: bool
    var settled: bool
    var usedFallback: bool
    var log: seq<Submission>

    function View(): Approver
      reads this
    {
      Approver(attempt, pending, clearing, settled, usedFallback, log)
    }

    /** Every submission so far sent what it may, and what is under way belongs to one of them. */
    ghost predicate Valid()
      reads this
    {
      Inv(View())
    }

    constructor ()
      ensures Valid() && View() == IDLE
    {
      attempt, pending, clearing, settled, usedFallback, log := None, None, false, false, false, [];
    }

    method SubmitApproval(token: Address, spender: Address, amount: nat, currentAllowance: nat)
      requires Valid()
      modifies this
      ensures Valid() && View() == Submit(old(View()), token, spender, amount, currentAllowance)
      ensures |log| == |old(log)| + 1 && log[..|old(log)|] == old(log)
    {
      SubmitKeeps(View(), token, spender, amount, currentAllowance);
      var a := Attempt(|log|, token, spender, amount, currentAllowance);
      log := log + [Submission(token, spender, amount, currentAllowance, [])];
      attempt := Some(a);
      pending := None;
      usedFallback := false;
      log := Send(log, a, amount, None);
    }

    /** At most one more approval, for one submission; one that has sent three sends no more. */
    method Effect(approveTx: Flags)
      requires Valid()
      modifies this
      ensures Valid() && View() == Observe(old(View()), approveTx)
      ensures |log| == |old(log)| && AtMostOneWrite(old(log), log)
      ensures forall i :: 0 <= i < |log| && |old(log)[i].writes| == 3 ==> log[i] == old(log)[i]
    {
      StepKeeps(View(), Renders(approveTx));
      ObserveWrites(View(), approveTx);
      React(approveTx);
    }

    method React(approveTx: Flags)
      modifies this
      ensures View() == Observe(old(View()), approveTx)
    {
      if clearing {
        if !settled {
          if !approveTx.hasFailed && !approveTx.isConfirmed { settled := true; }
          return;
        }
        if approveTx.isConfirmed && pending.Some? {
          var next := pending.value;
          pending := None;
          clearing := false;
          settled := false;
          attempt := Some(next.(allowance := 0));
          log := Send(log, next, next.amount, Some(approveTx));
          return;
        }
        if approveTx.hasFailed {
          pending := None;
          clearing := false;
          settled := false;
        }
        return;
      }
      if approveTx.isConfirmed {
        attempt := None;
        return;
      }
      if !approveTx.hasFailed { return; }
      if attempt.None? { return; }
      var failed := attempt.value;
      attempt := None;
      if !LooksLikeNonZeroReset(failed, approveTx) { return; }
      pending := Some(failed);
      settled := false;
      clearing := true;
      usedFallback := true;
      log := Send(log, failed, 0, Some(approveTx));
    }
  }
}
