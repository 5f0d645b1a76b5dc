/**
 A claim that was mined but whose refresh failed: until the refresh succeeds, a review is
 accepted or the queue is started anew, the queue hands out no transaction at all, and every
 resume retries that refresh and nothing else.
 */
module QueueRefresh {
  import opened Wrappers
  import opened Identities
  import opened ClaimTx
  import opened QueueModel
  import opened QueueSafety
  import opened QueueOutcomes

  /** The queue holds on to the failed refresh of row `index`, which claimed `tx`. */
  ghost predicate Retains(q: Queue, index: nat, tx: QueuedTx)
  {
    Inv(q) && q.refreshFailure == Some(index) && q.rows[index].tx == tx
  }

  /** What lets go of a failed refresh: a start, an accepted review, or its own success. */
  predicate Releases(q: Queue, o: Occurrence)
  {
    match o.event
    case CallStart(plan) => plan != [] && q.identity.Some?
    case CallAcceptReview(_) => q.identity.Some?
    case RetrySettles(t, outcome) => Live(q, t) && t.Retrying? && outcome.RetrySucceeded?
    case _ => false
  }

  predicate Unreleased(q: Queue, events: seq<Occurrence>)
    decreases |events|
  {
    events == [] ||
    (Unreleased(q, events[..|events| - 1]) && !Releases(Run(q, events[..|events| - 1]), events[|events| - 1]))
  }

  /** From `q` to `q'` nothing was called but a retry of the refresh of row `index`. */
  ghost predicate OnlyRetries(q: Queue, q': Queue, index: nat)
  {
    && q.calls <= q'.calls
    && forall c :: c in CallsSince(q', |q.calls|) ==> c.kind == ToRetryRefresh && c.index == index && c.tx == None
  }

  lemma SettleRetains(q: Queue, o: Occurrence, t: Task, index: nat, tx: QueuedTx)
    requires Retains(q, index, tx) && PlansApart(o) && !Releases(q, o)
    requires t in q.tasks && SettledTask(o.event) == Some(t)
    ensures Retains(Step(q, o), index, tx) && Step(q, o).calls == q.calls
  {
    StepKeeps(q, o);
    if t.run == q.generation {
      assert Live(q, t) && AtWork(q, t);
    } else {
      StaleContinuationIsInert(q, o, t);
    }
  }

  lemma StepRetains(q: Queue, o: Occurrence, index: nat, tx: QueuedTx)
    requires Retains(q, index, tx) && PlansApart(o) && !Releases(q, o)
    ensures Retains(Step(q, o), index, tx) && OnlyRetries(q, Step(q, o), index)
  {
    if SettledTask(o.event).Some? && SettledTask(o.event).value in q.tasks {
      SettleRetains(q, o, SettledTask(o.event).value, index, tx);
    } else if o.event.CallResume? {
      ResumeRetains(q, o.event.plan, o.external, index, tx);
    } else {
      StepKeeps(q, o);
    }
  }

  lemma ResumeRetains(q: Queue, plan: seq<QueuedTx>, external: Invariant, index: nat, tx: QueuedTx)
    requires Retains(q, index, tx) && Disjoint(plan)
    ensures Retains(Resume(q, plan, external), index, tx) && OnlyRetries(q, Resume(q, plan, external), index)
  {
    ResumeKeeps(q, plan, external);
  }

  lemma {:induction false} RunRetains(q: Queue, events: seq<Occurrence>, index: nat, tx: QueuedTx)
    requires Retains(q, index, tx) && RunPlansApart(events) && Unreleased(q, events)
    ensures Retains(Run(q, events), index, tx) && OnlyRetries(q, Run(q, events), index)
    decreases |events|
  {
    if events != [] {
      var last := |events| - 1;
      assert forall o :: o in events[..last] ==> o in events;
      assert events[last] in events;
      RunRetains(q, events[..last], index, tx);
      StepRetains(Run(q, events[..last]), events[last], index, tx);
    }
  }

  /** A live confirmation that ends in a failed refresh is held on to. */
  lemma FailedRefreshRetained(q: Queue, t: Task, external: Invariant)
    requires Inv(q) && Live(q, t) && t.Confirming?
    ensures var q' := Step(q, Occurrence(ConfirmSettles(t, ConfirmRefreshFailed), external));
      Retains(q', t.index, t.tx) && q'.calls == q.calls && !q'.running && q'.rows[t.index].status == RefreshLost
  {
    StepKeeps(q, Occurrence(ConfirmSettles(t, ConfirmRefreshFailed), external));
    assert AtWork(q, t);
  }

  /** Resuming then retries the refresh of that row, and does nothing else. */
  lemma ResumeRetries(q: Queue, plan: seq<QueuedTx>, index: nat, tx: QueuedTx)
    requires Retains(q, index, tx) && q.identity.Some?
    ensures var q' := Resume(q, plan, Holds);
      && q'.calls == q.calls + [Call(ToRetryRefresh, index, None, q.rows, q.identity, q.identity, Holds)]
      && q'.rows == q.rows[index := q.rows[index].(status := Preparing)] && q'.running
      && Live(q', Retrying(index, q.generation + 1))
  {
    assert InvariantNow(Reopened(q).(running := true), Holds) == Holds;
  }

  /** With the invariants broken it pauses there instead, and still holds on to the failure. */
  lemma ResumePauses(q: Queue, plan: seq<QueuedTx>, index: nat, tx: QueuedTx, reason: PauseReason)
    requires Retains(q, index, tx) && q.identity.Some?
    ensures var q' := Resume(q, plan, Broken(reason));
      && PausesAt(q.(generation := q.generation + 1, owner := q.identity), index, reason, q')
      && q'.refreshFailure == Some(index)
  {
    assert InvariantNow(Reopened(q).(running := true), Broken(reason)) == Broken(reason);
  }

  /**
   Over every continuation: once a live confirmation has ended in a failed refresh, until a
   start, an accepted review or the success of its refresh, no transaction is handed to anyone,
   whatever it claims, and a resume with the invariants holding retries that row's refresh.
   */
  lemma FailedRefreshIsOnlyRetried(q: Queue, t: Task, external: Invariant, events: seq<Occurrence>,
                                   plan: seq<QueuedTx>)
    requires Inv(q) && Live(q, t) && t.Confirming? && RunPlansApart(events)
    requires Unreleased(Step(q, Occurrence(ConfirmSettles(t, ConfirmRefreshFailed), external)), events)
    ensures var failed := Step(q, Occurrence(ConfirmSettles(t, ConfirmRefreshFailed), external));
      var q' := Run(failed, events);
      && failed.calls == q.calls && OnlyRetries(q, q', t.index)
      && t.index < |q'.rows| && q'.rows[t.index].tx == t.tx && !Finished(q'.rows[t.index])
      && (q'.identity.Some? ==>
            Resume(q', plan, Holds).calls
            == q'.calls + [Call(ToRetryRefresh, t.index, None, q'.rows, q'.identity, q'.identity, Holds)])
  {
    var failed := Step(q, Occurrence(ConfirmSettles(t, ConfirmRefreshFailed), external));
    FailedRefreshRetained(q, t, external);
    RunRetains(failed, events, t.index, t.tx);
    var q' := Run(failed, events);
    if q'.identity.Some? {
      ResumeRetries(q', plan, t.index, t.tx);
    }
  }
}
