/**
 When the Claim All queue can hand one claimable thing to the executor twice. A confirmation
 that settles after its generation has passed is dropped, success or not, so its row is not
 finished by it; only what a row has finished is safe from being handed over again.
 */
module QueueRepeats {
  import opened Wrappers
  import opened Identities
  import opened ClaimTx
  import opened QueueModel
  import opened QueueSafety

  /** The run hands the key to the executor after the first `n` calls. */
  ghost predicate ConfirmsAgain(q: Queue, events: seq<Occurrence>, k: Key)
  {
    var q' := Run(q, events);
    |q.calls| <= |q'.calls| &&
    exists c :: c in CallsSince(q', |q.calls|) && c.kind == ToConfirm && c.tx.Some? && k in Keys(c.tx.value)
  }

  lemma RunSnoc(q: Queue, events: seq<Occurrence>, o: Occurrence)
    ensures Run(q, events + [o]) == Step(Run(q, events), o)
    ensures NoRestart(q, events + [o]) <==> NoRestart(q, events) && !Restarts(Run(q, events), o)
  {
    assert (events + [o])[..|events|] == events;
  }

  lemma RunThree(q: Queue, a: Occurrence, b: Occurrence, c: Occurrence)
    requires !a.event.CallStart? && !b.event.CallStart? && !c.event.CallStart?
    ensures Run(q, [a] + [b] + [c]) == Step(Step(Step(q, a), b), c) && NoRestart(q, [a] + [b] + [c])
  {
    RunSnoc(q, [], a);
    assert [] + [a] == [a];
    RunSnoc(q, [a], b);
    RunSnoc(q, [a] + [b], c);
  }

  /** Review the transaction alone and let its rebuild succeed. */
  function ReviewAgain(q: Queue, me: Identity, tx: QueuedTx): seq<Occurrence>
    requires WithoutCompleted(tx, Completed(q.rows)).Some?
  {
    [Occurrence(WalletIs(Some(me)), Holds)]
    + [Occurrence(CallAcceptReview([tx]), Holds)]
    + [Occurrence(RebuildSettles(ReviewTask(q, tx), RebuildReady), Holds)]
  }

  /** Accepting a review of the transaction alone prepares what is left of it. */
  lemma ReviewPrepares(q: Queue, tx: QueuedTx)
    requires q.identity.Some? && WithoutCompleted(tx, Completed(q.rows)).Some?
    ensures var left, n := WithoutCompleted(tx, Completed(q.rows)).value, |History(q.rows)|;
      var q' := AcceptReview(q, [tx], Holds);
      && q'.identity == q'.owner == q.identity && q'.generation == q.generation + 1
      && q'.tasks == q.tasks + {Rebuilding(n, q.generation + 1, left)}
      && |q'.calls| == |q.calls| + 1 && q.calls <= q'.calls
  {
    var done := Completed(q.rows);
    var left, n := WithoutCompleted(tx, done).value, |History(q.rows)|;
    assert Current([tx][1..], done) == [];
    assert Current([tx], done) == [left];
    assert Queued([left]) == [Row(left, Waiting, None)];
    var rows := History(q.rows) + [Row(left, Waiting, None)];
    var listed := Reopened(q).(refreshFailure := None, rows := rows, running := true);
    assert listed.rows[n] == Row(left, Waiting, None);
    assert InvariantNow(listed, Holds) == Holds;
  }

  /** A rebuild that is ready, on the owner's wallet, is handed to the executor. */
  lemma ReadyConfirms(q: Queue, t: Task)
    requires t in q.tasks && t.Rebuilding? && t.run == q.generation && q.identity.Some? && q.owner == q.identity
    ensures var q' := Step(q, Occurrence(RebuildSettles(t, RebuildReady), Holds));
      && |q'.calls| == |q.calls| + 1 && q.calls <= q'.calls
      && q'.calls[|q.calls|].kind == ToConfirm && q'.calls[|q.calls|].tx == Some(t.tx)
      && q'.generation == q.generation && q'.tasks == q.tasks - {t} + {Confirming(t.index, t.run, t.tx)}
  {
    assert InvariantNow(q.(tasks := q.tasks - {t}), Holds) == Holds;
  }

  function ReviewTask(q: Queue, tx: QueuedTx): Task
    requires WithoutCompleted(tx, Completed(q.rows)).Some?
  {
    Rebuilding(|History(q.rows)|, q.generation + 1, WithoutCompleted(tx, Completed(q.rows)).value)
  }

  /** The confirmation that follows the rebuild. */
  function ReviewConfirmation(q: Queue, tx: QueuedTx): Task
    requires WithoutCompleted(tx, Completed(q.rows)).Some?
  {
    var t := ReviewTask(q, tx);
    Confirming(t.index, t.run, t.tx)
  }

  lemma ReviewRun(q: Queue, me: Identity, tx: QueuedTx)
    requires WithoutCompleted(tx, Completed(q.rows)).Some?
    ensures var events := ReviewAgain(q, me, tx);
      && RunPlansApart(events) && NoRestart(q, events)
      && Run(q, events) == Step(AcceptReview(q.(identity := Some(me)), [tx], Holds),
                                Occurrence(RebuildSettles(ReviewTask(q, tx), RebuildReady), Holds))
  {
    RunThree(q, Occurrence(WalletIs(Some(me)), Holds), Occurrence(CallAcceptReview([tx]), Holds),
             Occurrence(RebuildSettles(ReviewTask(q, tx), RebuildReady), Holds));
  }

  lemma ReviewOutcome(q: Queue, me: Identity, tx: QueuedTx, q': Queue)
    requires WithoutCompleted(tx, Completed(q.rows)).Some?
    requires q' == Step(AcceptReview(q.(identity := Some(me)), [tx], Holds),
                        Occurrence(RebuildSettles(ReviewTask(q, tx), RebuildReady), Holds))
    ensures |q'.calls| == |q.calls| + 2 && q'.generation == q.generation + 1
    ensures q'.calls[|q.calls| + 1].kind == ToConfirm
    ensures q'.calls[|q.calls| + 1].tx == WithoutCompleted(tx, Completed(q.rows))
    ensures q.tasks - {ReviewTask(q, tx)} <= q'.tasks && ReviewConfirmation(q, tx) in q'.tasks
  {
    ReviewPrepares(q.(identity := Some(me)), tx);
    ReadyConfirms(AcceptReview(q.(identity := Some(me)), [tx], Holds), ReviewTask(q, tx));
  }

  lemma ReviewConfirms(q: Queue, me: Identity, tx: QueuedTx, k: Key)
    requires k in Keys(tx) && k !in Completed(q.rows)
    ensures var events := ReviewAgain(q, me, tx);
      && RunPlansApart(events) && NoRestart(q, events) && ConfirmsAgain(q, events, k)
      && q.tasks - {ReviewTask(q, tx)} <= Run(q, events).tasks && Run(q, events).generation == q.generation + 1
  {
    ReviewRun(q, me, tx);
    var q' := Run(q, ReviewAgain(q, me, tx));
    ReviewOutcome(q, me, tx, q');
    assert CallsSince(q', |q.calls|)[1] == q'.calls[|q.calls| + 1];
  }

  /**
   The exact condition: without a new `start`, a key can be handed to the executor again in some
   continuation if and only if no finished row claims it, whatever was confirmed or is still
   outstanding.
   */
  lemma CanConfirmAgainIff(q: Queue, tx: QueuedTx, k: Key)
    requires Inv(q) && k in Keys(tx)
    ensures k !in Completed(q.rows) <==>
      exists events :: RunPlansApart(events) && NoRestart(q, events) && ConfirmsAgain(q, events, k)
  {
    if k !in Completed(q.rows) {
      ReviewConfirms(q, Identity("", 0), tx, k);
    } else {
      forall events | RunPlansApart(events) && NoRestart(q, events) ensures !ConfirmsAgain(q, events, k) {
        FinishedNeverRepeats(q, events, k);
      }
    }
  }

  /** The outcomes that finish a row. */
  predicate Finishes(outcome: ConfirmOutcome)
  {
    outcome.ConfirmSucceeded? || (outcome.ConfirmInvalid? && NothingLeft(outcome.codes))
  }

  /** Marking an unfinished row adds its keys to the completed ones exactly when the mark finishes it. */
  lemma UpdateFinishes(rows: seq<Row>, index: nat, status: Status)
    requires index < |rows| && !Finished(rows[index])
    ensures Completed(UpdateRow(rows, index, status, None))
         == Completed(rows) + if status == Confirmed || status == Skipped then Keys(rows[index].tx) else {}
  {
    var updated := UpdateRow(rows, index, status, None);
    UpdateRowKeeps(rows, index, status, None);
    assert updated[index] == Row(rows[index].tx, status, rows[index].replacement);
    forall r | r in updated && Finished(r) ensures r in rows || r == updated[index] {
      var i :| 0 <= i < |updated| && updated[i] == r;
      assert i != index ==> rows[i] == r;
    }
  }

  /**
   A confirmation finishes what it claims exactly when it settles in its own generation, with
   success or with nothing left to claim; a late one, even a success, finishes nothing.
   */
  lemma ConfirmFinishesIff(q: Queue, t: Task, outcome: ConfirmOutcome, external: Invariant, k: Key)
    requires Inv(q) && t in q.tasks && t.Confirming? && k in Keys(t.tx)
    ensures var q' := Step(q, Occurrence(ConfirmSettles(t, outcome), external));
      && (t.run == q.generation ==> k !in Completed(q.rows) && (k in Completed(q'.rows) <==> Finishes(outcome)))
      && (t.run != q.generation ==> q'.rows == q.rows && q'.calls == q.calls)
  {
    if t.run == q.generation {
      assert Live(q, t) && AtWork(q, t);
      ActiveUnfinished(q.rows, t.index, k);
      if Finishes(outcome) {
        FinishCompletes(q.(tasks := q.tasks - {t}), t, outcome, external);
      } else {
        StopFinishesNothing(q.(tasks := q.tasks - {t}), t, outcome, external);
      }
    } else {
      StaleContinuationIsInert(q, Occurrence(ConfirmSettles(t, outcome), external), t);
    }
  }

  /** A confirmation that finishes its row completes what the row claims, and loses nothing. */
  lemma FinishCompletes(q: Queue, t: Task, outcome: ConfirmOutcome, external: Invariant)
    requires t.Confirming? && t.run == q.generation && Finishes(outcome)
    requires t.index < |q.rows| && !Finished(q.rows[t.index])
    ensures Completed(q.rows) + Keys(q.rows[t.index].tx) <= Completed(AfterConfirm(q, t, outcome, external).rows)
  {
    var status := if outcome.ConfirmSucceeded? then Confirmed else Skipped;
    UpdateFinishes(q.rows, t.index, status);
    ProcessKeepsFinished(SetRow(q, t.index, status), t.index + 1, external);
  }

  /** A confirmation that does not finish its row leaves it stopped, with nothing new completed. */
  lemma StopFinishesNothing(q: Queue, t: Task, outcome: ConfirmOutcome, external: Invariant)
    requires t.Confirming? && t.run == q.generation && !Finishes(outcome)
    requires t.index < |q.rows| && !Finished(q.rows[t.index])
    ensures Completed(AfterConfirm(q, t, outcome, external).rows) == Completed(q.rows)
  {
    match outcome {
      case ConfirmRefreshFailed => UpdateFinishes(q.rows, t.index, RefreshLost);
      case ConfirmNeedsReview => UpdateFinishes(q.rows, t.index, ReviewNeeded);
      case ConfirmIdentityChanged => UpdateFinishes(q.rows, t.index, Paused);
      case _ => UpdateFinishes(q.rows, t.index, Failed);
    }
  }

  lemma ActiveUnfinished(rows: seq<Row>, index: nat, k: Key)
    requires Apart(rows) && index < |rows| && !Finished(rows[index]) && k in Keys(rows[index].tx)
    ensures k !in Completed(rows)
  {
    forall r | r in rows && Finished(r) ensures k !in Keys(r.tx) {
      var i :| 0 <= i < |rows| && rows[i] == r;
    }
  }

  lemma {:induction false} ProcessKeepsFinished(q: Queue, index: nat, external: Invariant)
    ensures Completed(q.rows) <= Completed(ProcessAt(q, index, external).rows)
    decreases |q.rows| - index
  {
    if index < |q.rows| {
      if Finished(q.rows[index]) {
        ProcessKeepsFinished(q, index + 1, external);
      } else {
        UpdateFinishes(q.rows, index, Paused);
        UpdateFinishes(q.rows, index, Preparing);
      }
    }
  }

  /**
   It does happen: while a confirmation is outstanding its key can be handed to the executor a
   second time, and the success of the first then changes no row.
   */
  lemma LateSuccessIsDropped(q: Queue, t: Task, me: Identity, external: Invariant, k: Key)
    requires Inv(q) && Live(q, t) && t.Confirming? && k in Keys(t.tx)
    ensures k !in Completed(q.rows)
    ensures var events := ReviewAgain(q, me, t.tx); var q' := Run(q, events);
      && NoRestart(q, events) && ConfirmsAgain(q, events, k) && t in q'.tasks
      && Step(q', Occurrence(ConfirmSettles(t, ConfirmSucceeded), external)).rows == q'.rows
  {
    assert AtWork(q, t);
    ActiveUnfinished(q.rows, t.index, k);
    ReviewConfirms(q, me, t.tx, k);
    StaleContinuationIsInert(Run(q, ReviewAgain(q, me, t.tx)),
      Occurrence(ConfirmSettles(t, ConfirmSucceeded), external), t);
  }

  /** From an idle queue a confirmation of any transaction is reached, and its success can be dropped. */
  lemma DroppedFromIdle(me: Identity, tx: QueuedTx, external: Invariant, k: Key)
    requires k in Keys(tx)
    ensures WithoutCompleted(tx, Completed(IDLE.rows)).Some?
    ensures var t, q := ReviewConfirmation(IDLE, tx), Run(IDLE, ReviewAgain(IDLE, me, tx));
      && Inv(q) && Live(q, t) && k in Keys(t.tx) && WithoutCompleted(t.tx, Completed(q.rows)).Some?
      && ConfirmsAgain(q, ReviewAgain(q, me, t.tx), k)
      && var q' := Run(q, ReviewAgain(q, me, t.tx));
         t in q'.tasks && Step(q', Occurrence(ConfirmSettles(t, ConfirmSucceeded), external)).rows == q'.rows
  {
    var t, q := ReviewConfirmation(IDLE, tx), Run(IDLE, ReviewAgain(IDLE, me, tx));
    ReviewRun(IDLE, me, tx);
    ReviewOutcome(IDLE, me, tx, q);
    RunKeeps(IDLE, ReviewAgain(IDLE, me, tx));
    LateSuccessIsDropped(q, t, me, external, k);
  }
}
