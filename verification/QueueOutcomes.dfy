/**
 What the Claim All queue shows and does next for each way a promise can settle: which rows
 change, to what, and the one call that may follow.
 */
module QueueOutcomes {
  import opened Wrappers
  import opened Identities
  import opened ClaimTx
  import opened QueueModel
  import opened QueueSafety

  // ---------------------------------------------------------------------------
  // What can follow
  // ---------------------------------------------------------------------------

  /** Row `j` is the first from `index` on that is not finished. */
  predicate NextUnfinished(rows: seq<Row>, index: nat, j: nat)
  {
    index <= j < |rows| && !Finished(rows[j]) && forall i :: index <= i < j ==> Finished(rows[i])
  }

  /** Row `j` is handed to a rebuild, and nothing else happens. */
  predicate TakesUp(q: Queue, j: nat, q': Queue)
    requires j < |q.rows|
  {
    && q'.calls == q.calls + [Call(ToRebuild, j, Some(q.rows[j].tx), q.rows, q.identity, q.owner, Holds)]
    && q'.rows == q.rows[j := q.rows[j].(status := Preparing)]
    && q'.tasks == q.tasks + {Rebuilding(j, q.generation, q.rows[j].tx)}
    && q' == q.(calls := q'.calls, rows := q'.rows, tasks := q'.tasks)
  }

  /** Row `j` is paused for the reason, and nothing else happens. */
  predicate PausesAt(q: Queue, j: nat, reason: PauseReason, q': Queue)
    requires j < |q.rows|
  {
    && q'.rows == q.rows[j := q.rows[j].(status := Paused)]
    && q' == q.(rows := q'.rows, paused := true, pauseReason := Some(reason), running := false)
  }

  /** Row `j` shows the status, the queue is at rest, and nothing else happens. */
  predicate StopsAt(q: Queue, j: nat, status: Status, q': Queue)
    requires j < |q.rows|
  {
    q'.rows == q.rows[j := q.rows[j].(status := status)] && q' == q.(rows := q'.rows, running := false)
  }

  /** The guard in words: the owner's chain first, then the owner's account, then what the outside says. */
  predicate Guard(owner: Option<Identity>, current: Option<Identity>, external: Invariant, now: Invariant)
  {
    if owner.None? || current.None? then now == Broken(AccountChanged)
    else if owner.value.chainId != current.value.chainId then now == Broken(ChainChanged)
    else if !SameIdentity(owner.value, current) then now == Broken(AccountChanged)
    else now == external
  }

  /** The first unfinished row from `index` on is taken up, or paused at; without one the queue is at rest. */
  ghost predicate GoesOn(q: Queue, index: nat, external: Invariant, q': Queue)
  {
    && ((forall i :: index <= i < |q.rows| ==> Finished(q.rows[i])) ==> q' == q.(running := false))
    && forall j, now | NextUnfinished(q.rows, index, j) && Guard(q.owner, q.identity, external, now) ::
         if now.Holds? then TakesUp(q, j, q') else PausesAt(q, j, now.reason, q')
  }

  lemma {:induction false} ProcessSkips(q: Queue, index: nat, external: Invariant, j: nat)
    requires NextUnfinished(q.rows, index, j)
    ensures ProcessAt(q, index, external) == ProcessAt(q, j, external)
    decreases j - index
  {
    if index < j {
      ProcessSkips(q, index + 1, external, j);
    }
  }

  lemma {:induction false} ProcessRests(q: Queue, index: nat, external: Invariant)
    requires forall i :: index <= i < |q.rows| ==> Finished(q.rows[i])
    ensures ProcessAt(q, index, external) == q.(running := false)
    decreases |q.rows| - index
  {
    if index < |q.rows| {
      ProcessRests(q, index + 1, external);
    }
  }

  lemma PreparedTakesUp(q: Queue, j: nat)
    requires j < |q.rows| && !Finished(q.rows[j])
    ensures TakesUp(q, j, Prepared(q, j))
  {
  }

  lemma PauseAtPauses(q: Queue, j: nat, reason: PauseReason)
    requires j < |q.rows| && !Finished(q.rows[j])
    ensures PausesAt(q, j, reason, PauseAt(q, j, reason))
  {
  }

  lemma GuardIsInvariantNow(q: Queue, external: Invariant, now: Invariant)
    ensures Guard(q.owner, q.identity, external, now) <==> now == InvariantNow(q, external)
  {
  }

  /** The first unfinished row is taken up when the guard holds, and paused at when it does not. */
  lemma ProcessActs(q: Queue, index: nat, external: Invariant, j: nat, now: Invariant)
    requires NextUnfinished(q.rows, index, j) && Guard(q.owner, q.identity, external, now)
    ensures if now.Holds? then TakesUp(q, j, ProcessAt(q, index, external))
            else PausesAt(q, j, now.reason, ProcessAt(q, index, external))
  {
    ProcessSkips(q, index, external, j);
    GuardIsInvariantNow(q, external, now);
    if now.Holds? {
      PreparedTakesUp(q, j);
    } else {
      PauseAtPauses(q, j, now.reason);
    }
  }

  lemma ProcessGoesOn(q: Queue, index: nat, external: Invariant)
    ensures GoesOn(q, index, external, ProcessAt(q, index, external))
  {
    if forall i :: index <= i < |q.rows| ==> Finished(q.rows[i]) {
      ProcessRests(q, index, external);
    }
    forall j, now | NextUnfinished(q.rows, index, j) && Guard(q.owner, q.identity, external, now)
      ensures if now.Holds? then TakesUp(q, j, ProcessAt(q, index, external))
              else PausesAt(q, j, now.reason, ProcessAt(q, index, external))
    {
      ProcessActs(q, index, external, j, now);
    }
  }

  // ---------------------------------------------------------------------------
  // Each continuation, while its generation is current
  // ---------------------------------------------------------------------------

  /** The queue with the settled promise off the list and its row in the given state. */
  function Marked(q: Queue, t: Task, status: Status): Queue
    requires t.index < |q.rows|
  {
    q.(tasks := q.tasks - {t}, rows := q.rows[t.index := q.rows[t.index].(status := status)])
  }

  /** What a live rebuild leads to. */
  ghost predicate RebuildLeadsTo(q: Queue, t: Task, outcome: RebuildOutcome, external: Invariant, q': Queue)
    requires t.Rebuilding? && t.index < |q.rows|
  {
    var rest := q.(tasks := q.tasks - {t});
    match outcome
    case RebuildThrew => StopsAt(rest, t.index, Failed, q')
    case RebuildSkipped => GoesOn(Marked(q, t, Skipped), t.index + 1, external, q')
    case RebuildChanged(latest) =>
      && q'.rows == q.rows[t.index := Row(t.tx, ReviewNeeded, Some(latest))]
      && q' == rest.(rows := q'.rows, running := false)
    case RebuildReady =>
      forall now | Guard(q.owner, q.identity, external, now) ::
        if now.Holds? then HandsOver(rest, t, q') else PausesAt(rest, t.index, now.reason, q')
  }

  /** The transaction of the rebuild is handed to the executor, and nothing else happens. */
  predicate HandsOver(q: Queue, t: Task, q': Queue)
    requires t.Rebuilding?
  {
    && q'.calls == q.calls + [Call(ToConfirm, t.index, Some(t.tx), q.rows, q.identity, q.owner, Holds)]
    && q' == q.(calls := q'.calls, tasks := q.tasks + {Confirming(t.index, t.run, t.tx)})
  }

  lemma ReadyLeadsTo(q: Queue, t: Task, external: Invariant)
    requires t in q.tasks && t.run == q.generation && t.Rebuilding? && t.index < |q.rows| && !Finished(q.rows[t.index])
    ensures RebuildLeadsTo(q, t, RebuildReady, external, Step(q, Occurrence(RebuildSettles(t, RebuildReady), external)))
  {
    var rest := q.(tasks := q.tasks - {t});
    forall now | Guard(q.owner, q.identity, external, now) ensures now == InvariantNow(rest, external) {
      GuardIsInvariantNow(rest, external, now);
    }
    if InvariantNow(rest, external).Broken? {
      PauseAtPauses(rest, t.index, InvariantNow(rest, external).reason);
    }
  }

  lemma RebuildOutcomes(q: Queue, t: Task, outcome: RebuildOutcome, external: Invariant)
    requires Inv(q) && Live(q, t) && t.Rebuilding?
    ensures t.index < |q.rows|
    ensures RebuildLeadsTo(q, t, outcome, external, Step(q, Occurrence(RebuildSettles(t, outcome), external)))
  {
    assert AtWork(q, t);
    if outcome.RebuildReady? {
      ReadyLeadsTo(q, t, external);
    } else if outcome.RebuildSkipped? {
      ProcessGoesOn(Marked(q, t, Skipped), t.index + 1, external);
    }
  }

  /** The only complaints that mean there is nothing left to claim. */
  const MOOT: set<string> := {"nothing-claimable", "stream-not-owned"}

  predicate Moot(codes: seq<string>)
  {
    codes != [] && forall c :: c in codes ==> c in MOOT
  }

  predicate SameChain(a: Option<Identity>, b: Option<Identity>)
  {
    (a.None? && b.None?) || (a.Some? && b.Some? && a.value.chainId == b.value.chainId)
  }

  /** What a live confirmation leads to. */
  ghost predicate ConfirmLeadsTo(q: Queue, t: Task, outcome: ConfirmOutcome, external: Invariant, q': Queue)
    requires t.Confirming? && t.index < |q.rows|
  {
    var rest := q.(tasks := q.tasks - {t});
    match outcome
    case ConfirmSucceeded => GoesOn(Marked(q, t, Confirmed), t.index + 1, external, q')
    case ConfirmRefreshFailed => StopsAt(rest.(refreshFailure := Some(t.index)), t.index, RefreshLost, q')
    case ConfirmNeedsReview => StopsAt(rest, t.index, ReviewNeeded, q')
    case ConfirmIdentityChanged =>
      PausesAt(rest, t.index, if SameChain(q.owner, q.identity) then AccountChanged else ChainChanged, q')
    case ConfirmInvalid(codes) =>
      if Moot(codes) then GoesOn(Marked(q, t, Skipped), t.index + 1, external, q')
      else StopsAt(rest, t.index, Failed, q')
    case ConfirmThrew => StopsAt(rest, t.index, Failed, q')
    case ConfirmFailed => StopsAt(rest, t.index, Failed, q')
  }

  lemma ConfirmOutcomes(q: Queue, t: Task, outcome: ConfirmOutcome, external: Invariant)
    requires Inv(q) && Live(q, t) && t.Confirming?
    ensures t.index < |q.rows|
    ensures ConfirmLeadsTo(q, t, outcome, external, Step(q, Occurrence(ConfirmSettles(t, outcome), external)))
  {
    assert AtWork(q, t);
    if outcome.ConfirmSucceeded? || (outcome.ConfirmInvalid? && Moot(outcome.codes)) {
      FinishingLeadsTo(q, t, outcome, external);
    }
  }

  lemma FinishingLeadsTo(q: Queue, t: Task, outcome: ConfirmOutcome, external: Invariant)
    requires t in q.tasks && t.run == q.generation && t.Confirming? && t.index < |q.rows| && !Finished(q.rows[t.index])
    requires outcome.ConfirmSucceeded? || (outcome.ConfirmInvalid? && Moot(outcome.codes))
    ensures ConfirmLeadsTo(q, t, outcome, external, Step(q, Occurrence(ConfirmSettles(t, outcome), external)))
  {
    ProcessGoesOn(Marked(q, t, if outcome.ConfirmSucceeded? then Confirmed else Skipped), t.index + 1, external);
  }

  /** What a live refresh retry leads to: only its success finishes the row, and nothing else lets go of it. */
  ghost predicate RetryLeadsTo(q: Queue, t: Task, outcome: RetryOutcome, external: Invariant, q': Queue)
    requires t.Retrying? && t.index < |q.rows|
  {
    var rest := q.(tasks := q.tasks - {t});
    match outcome
    case RetrySucceeded => GoesOn(Marked(q, t, Confirmed).(refreshFailure := None), t.index + 1, external, q')
    case RetryIdentityChanged => PausesAt(rest, t.index, AccountChanged, q')
    case _ => StopsAt(rest, t.index, RefreshLost, q')
  }

  lemma RetryOutcomes(q: Queue, t: Task, outcome: RetryOutcome, external: Invariant)
    requires Inv(q) && Live(q, t) && t.Retrying?
    ensures t.index < |q.rows| && q.refreshFailure == Some(t.index)
    ensures RetryLeadsTo(q, t, outcome, external, Step(q, Occurrence(RetrySettles(t, outcome), external)))
  {
    assert AtWork(q, t);
    if outcome.RetrySucceeded? {
      ProcessGoesOn(Marked(q, t, Confirmed).(refreshFailure := None), t.index + 1, external);
    }
  }

  // ---------------------------------------------------------------------------
  // Each callback
  // ---------------------------------------------------------------------------

  /** A new generation of the current wallet, with these rows. */
  function Begun(q: Queue, rows: seq<Row>, running: bool): Queue
  {
    q.(generation := q.generation + 1, owner := q.identity, paused := false, pauseReason := None,
       refreshFailure := None, rows := rows, running := running)
  }

  /** Without a wallet no callback does anything, nor does starting on nothing. */
  lemma NothingToBegin(q: Queue, plan: seq<QueuedTx>, external: Invariant)
    ensures q.identity.None? ==>
      Start(q, plan, external) == Resume(q, plan, external) == AcceptReview(q, plan, external) == q
    ensures Start(q, [], external) == q
  {
  }

  /** Starting lists the plan afresh and goes on from its first row. */
  lemma StartOutcome(q: Queue, plan: seq<QueuedTx>, external: Invariant)
    requires plan != [] && q.identity.Some?
    ensures var rows := seq(|plan|, j requires 0 <= j < |plan| => Row(plan[j], Waiting, None));
      GoesOn(Begun(q, rows, true), 0, external, Start(q, plan, external))
  {
    var rows := seq(|plan|, j requires 0 <= j < |plan| => Row(plan[j], Waiting, None));
    assert Queued(plan) == rows;
    ProcessGoesOn(Begun(q, rows, true), 0, external);
  }

  /** Accepting a review keeps what is finished, lists what is left of the plan, and goes on with that. */
  lemma AcceptOutcome(q: Queue, plan: seq<QueuedTx>, external: Invariant)
    requires q.identity.Some?
    ensures var work, history := Current(plan, Completed(q.rows)), History(q.rows);
      var rows := history + seq(|work|, j requires 0 <= j < |work| => Row(work[j], Waiting, None));
      if work == [] then AcceptReview(q, plan, external) == Begun(q, rows, false)
      else GoesOn(Begun(q, rows, true), |history|, external, AcceptReview(q, plan, external))
  {
    var work, history := Current(plan, Completed(q.rows)), History(q.rows);
    var rows := history + seq(|work|, j requires 0 <= j < |work| => Row(work[j], Waiting, None));
    assert Queued(work) == seq(|work|, j requires 0 <= j < |work| => Row(work[j], Waiting, None));
    ProcessGoesOn(Begun(q, rows, true), |history|, external);
  }
}
