/**
 The Claim All queue hook: refs and state as fields, callbacks and promise continuations as
 methods. Each method is proved to take exactly the step the queue's state machine prescribes;
 each callback keeps the queue's invariant and, a new `start` aside, its history.
 */
module TxQueue {
  import opened Wrappers
  import opened Text
  import opened Identities
  import opened ClaimTx
  import Model = QueueModel
  import opened QueueModel
  import Safety = QueueSafety

  class Hook {
    var identity: Option<Identity>
    var owner: Option<Identity>
    var generation: nat
    var rows: seq<Row>
    var refreshFailure: Option<nat>
    var running: bool
    var paused: bool
    var pauseReason: Option<PauseReason>
    var tasks: set<Task>
    ghost var calls: seq<Call>

    /** The state machine's view of the object. */
    ghost function View(): Queue
      reads this
    {
      Queue(identity, owner, generation, rows, refreshFailure, running, paused, pauseReason, tasks, calls)
    }

    /** One row at work at most, keys apart, and every call made so far guarded. */
    ghost predicate Valid()
      reads this
    {
      Safety.Inv(View())
    }

    constructor ()
      ensures Valid() && View() == IDLE && Safety.HonestRunning(View())
    {
      identity, owner, generation, rows, refreshFailure := None, None, 0, [], None;
      running, paused, pauseReason, tasks, calls := false, false, None, {}, [];
    }

    /** What the safety theorems say of the step about to be taken. */
    lemma Kept(o: Occurrence)
      requires Valid() && Safety.PlansApart(o)
      ensures Safety.Inv(Step(View(), o))
      ensures !Safety.Restarts(View(), o) ==> Safety.Continues(View(), Step(View(), o))
      ensures Safety.HonestRunning(View()) && !o.event.Unmount? ==> Safety.HonestRunning(Step(View(), o))
    {
      Safety.StepKeeps(View(), o);
      if Safety.HonestRunning(View()) && !o.event.Unmount? {
        Safety.StepHonest(View(), o);
      }
    }

    method UpdateRow(index: nat, status: Status, replacement: Option<QueuedTx>)
      modifies this`rows
      ensures rows == Model.UpdateRow(old(rows), index, status, replacement)
    {
      if index < |rows| && rows[index].status != Confirmed {
        var row := rows[index];
        rows := rows[index := row.(status := status)];
        if replacement.Some? {
          rows := rows[index := rows[index].(replacement := replacement)];
        }
      }
    }

    method PauseAt(index: nat, reason: PauseReason)
      modifies this
      ensures View() == Model.PauseAt(old(View()), index, reason)
    {
      UpdateRow(index, Paused, None);
      pauseReason := Some(reason);
      paused := true;
      running := false;
    }

    /** Work on the row ends without finishing it. */
    method StopAt(index: nat, status: Status)
      modifies this
      ensures View() == Stopped(old(View()), index, status)
    {
      UpdateRow(index, status, None);
      running := false;
    }

    method InvariantNow(external: Invariant) returns (now: Invariant)
      ensures now == Model.InvariantNow(View(), external)
      ensures now == Holds <==> external == Holds && owner.Some? && SameIdentity(owner.value, identity)
      ensures owner.Some? && SameIdentity(owner.value, identity) ==> now == external
      ensures owner.Some? && identity.Some? && !SameIdentity(owner.value, identity) ==>
        now == Broken(if owner.value.chainId == identity.value.chainId then AccountChanged else ChainChanged)
    {
      if owner.None? || identity.None? { return Broken(AccountChanged); }
      if owner.value.chainId != identity.value.chainId { return Broken(ChainChanged); }
      if Lower(owner.value.account) != Lower(identity.value.account) { return Broken(AccountChanged); }
      return external;
    }

    method ProcessAt(index: nat, run: nat, external: Invariant)
      requires generation == run
      modifies this
      ensures View() == Model.ProcessAt(old(View()), index, external)
      decreases |rows| - index
    {
      if index >= |rows| {
        running := false;
        return;
      }
      var row := rows[index];
      if row.status == Confirmed || row.status == Skipped {
        ProcessAt(index + 1, run, external);
        return;
      }
      var beforeRebuild := InvariantNow(external);
      if beforeRebuild.Broken? {
        PauseAt(index, beforeRebuild.reason);
        return;
      }
      calls := calls + [Call(ToRebuild, index, Some(row.tx), rows, identity, owner, beforeRebuild)];
      UpdateRow(index, Preparing, None);
      tasks := tasks + {Rebuilding(index, run, row.tx)};
    }

    /** The row is finished, and the next is taken up. */
    method FinishAt(index: nat, status: Status, run: nat, external: Invariant)
      requires generation == run
      modifies this
      ensures View() == Model.ProcessAt(SetRow(old(View()), index, status), index + 1, external)
    {
      UpdateRow(index, status, None);
      ProcessAt(index + 1, run, external);
    }

    /** A new generation, owned by the current wallet; older continuations are stale from here on. */
    method Reopen()
      modifies this
      ensures View() == Reopened(old(View()))
    {
      generation := generation + 1;
      owner := identity;
      paused := false;
      pauseReason := None;
    }

    /** Replace the list and go on from a row, if any. */
    method Relist(next: seq<Row>, from: Option<nat>, external: Invariant)
      modifies this
      ensures View() == Relisted(old(View()), next, from, external)
    {
      rows := next;
      running := from.Some?;
      if from.Some? {
        ProcessAt(from.value, generation, external);
      }
    }

    method Start(plan: seq<QueuedTx>, external: Invariant)
      requires Valid() && Disjoint(plan)
      modifies this
      ensures View() == Model.Start(old(View()), plan, external)
      ensures Valid()
      ensures old(identity).None? || plan == [] ==> Safety.Continues(old(View()), View())
      ensures old(Safety.HonestRunning(View())) ==> Safety.HonestRunning(View())
    {
      Kept(Occurrence(CallStart(plan), external));
      if |plan| == 0 || identity.None? { return; }
      Reopen();
      refreshFailure := None;
      Relist(Queued(plan), Some(0), external);
    }

    method Resume(freshPlan: seq<QueuedTx>, external: Invariant)
      requires Valid() && Disjoint(freshPlan)
      modifies this
      ensures View() == Model.Resume(old(View()), freshPlan, external)
      ensures Valid() && Safety.Continues(old(View()), View())
      ensures old(Safety.HonestRunning(View())) ==> Safety.HonestRunning(View())
    {
      Kept(Occurrence(CallResume(freshPlan), external));
      if identity.None? { return; }
      Reopen();
      if refreshFailure.Some? {
        running := true;
        ResumeRefresh(refreshFailure.value, external);
        return;
      }
      var next, from := Reconciliation(freshPlan);
      Relist(next, from, external);
    }

    /** The list a resume continues with, and where: nowhere when something needs review or nothing waits. */
    method Reconciliation(freshPlan: seq<QueuedTx>) returns (next: seq<Row>, from: Option<nat>)
      ensures next == History(rows) + Unresolved(rows, freshPlan)
      ensures from == ResumeAt(rows, freshPlan)
    {
      var completed := Completed(rows);
      var current := Current(freshPlan, completed);
      var listed, matched, changed := ReconcileRows(current, completed);
      var unresolved, requiresReview := AddUnmatched(current, matched, listed, changed);
      assert unresolved == Unresolved(rows, freshPlan);
      var history := History(rows);
      next := history + unresolved;
      from := FirstPending(|history|, unresolved, requiresReview);
    }

    static method FirstPending(finished: nat, unresolved: seq<Row>, requiresReview: bool) returns (from: Option<nat>)
      requires requiresReview <==> NeedsReview(unresolved)
      ensures from == FirstToResume(finished, unresolved)
    {
      var firstPending := FirstWaiting(unresolved);
      from := if requiresReview || firstPending.None? then None else Some(finished + firstPending.value);
    }

    method ResumeRefresh(index: nat, external: Invariant)
      modifies this
      ensures View() == Model.ResumeRefresh(old(View()), index, external)
    {
      var now := InvariantNow(external);
      if now.Broken? {
        PauseAt(index, now.reason);
        return;
      }
      calls := calls + [Call(ToRetryRefresh, index, None, rows, identity, owner, now)];
      UpdateRow(index, Preparing, None);
      tasks := tasks + {Retrying(index, generation)};
    }

    /** First loop of a resume: compare every unfinished row with the fresh plan. */
    method ReconcileRows(current: seq<QueuedTx>, completed: set<Key>)
      returns (unresolved: seq<Row>, matched: set<Group>, requiresReview: bool)
      ensures unresolved == Reconciled(rows, current, completed) && matched == Matched(rows, current, completed)
      ensures requiresReview <==> NeedsReview(unresolved)
    {
      unresolved, matched, requiresReview := [], {}, false;
      var i := 0;
      while i < |rows|
        invariant 0 <= i <= |rows|
        invariant unresolved == Reconciled(rows[..i], current, completed)
        invariant matched == Matched(rows[..i], current, completed)
        invariant requiresReview <==> NeedsReview(unresolved)
      {
        var row := rows[i];
        ReconciledNext(rows, i, current, completed);
        MatchedNext(rows, i, current, completed);
        i := i + 1;
        if row.status == Confirmed || row.status == Skipped { continue; }
        var reviewed := WithoutCompleted(row.tx, completed);
        if reviewed.None? { continue; }
        var latest := LatestOf(current, GroupOf(reviewed.value));
        if latest.Some? { matched := matched + {GroupOf(reviewed.value)}; }
        var next := Reconcile(reviewed.value, latest);
        unresolved := unresolved + [next];
        if next.status == ReviewNeeded { requiresReview := true; }
      }
      assert rows[..|rows|] == rows;
    }

    /** Second loop: whatever no row stands for is listed, but only for review. */
    method AddUnmatched(current: seq<QueuedTx>, matched: set<Group>, listed: seq<Row>, changed: bool)
      returns (unresolved: seq<Row>, requiresReview: bool)
      requires changed <==> NeedsReview(listed)
      ensures unresolved == listed + Added(current, matched)
      ensures requiresReview <==> NeedsReview(unresolved)
    {
      unresolved, requiresReview := listed, changed;
      var j := 0;
      while j < |current|
        invariant 0 <= j <= |current|
        invariant unresolved == listed + Added(current[..j], matched)
        invariant requiresReview <==> NeedsReview(unresolved)
      {
        var tx := current[j];
        AddedNext(current, j, matched);
        j := j + 1;
        if GroupOf(tx) in matched { continue; }
        unresolved := unresolved + [Row(tx, ReviewNeeded, Some(tx))];
        requiresReview := true;
      }
      assert current[..|current|] == current;
    }

    method AcceptReview(reviewedPlan: seq<QueuedTx>, external: Invariant)
      requires Valid() && Disjoint(reviewedPlan)
      modifies this
      ensures View() == Model.AcceptReview(old(View()), reviewedPlan, external)
      ensures Valid() && Safety.Continues(old(View()), View())
      ensures old(Safety.HonestRunning(View())) ==> Safety.HonestRunning(View())
    {
      Kept(Occurrence(CallAcceptReview(reviewedPlan), external));
      if identity.None? { return; }
      Reopen();
      refreshFailure := None;
      var history := History(rows);
      var pending := Queued(Current(reviewedPlan, Completed(rows)));
      Relist(history + pending, if |pending| == 0 then None else Some(|history|), external);
    }

    method Unmount(external: Invariant)
      requires Valid()
      modifies this
      ensures View() == Step(old(View()), Occurrence(Event.Unmount, external))
      ensures Valid() && Safety.Continues(old(View()), View())
      ensures forall t :: t in tasks ==> t.run < generation
    {
      Kept(Occurrence(Event.Unmount, external));
      generation := generation + 1;
    }

    /** Every render hands the hook the wallet it now sees. */
    method Render(current: Option<Identity>, external: Invariant)
      requires Valid()
      modifies this
      ensures View() == Step(old(View()), Occurrence(WalletIs(current), external))
      ensures Valid() && Safety.Continues(old(View()), View())
      ensures old(Safety.HonestRunning(View())) ==> Safety.HonestRunning(View())
    {
      Kept(Occurrence(WalletIs(current), external));
      identity := current;
    }

    /** The continuation after `rebuild`, whenever its promise settles. */
    method OnRebuild(task: Task, rebuilt: RebuildOutcome, external: Invariant)
      requires Valid() && task in tasks && task.Rebuilding?
      modifies this
      ensures View() == Step(old(View()), Occurrence(RebuildSettles(task, rebuilt), external))
      ensures Valid() && Safety.Continues(old(View()), View())
      ensures old(Safety.HonestRunning(View())) ==> Safety.HonestRunning(View())
    {
      Kept(Occurrence(RebuildSettles(task, rebuilt), external));
      AfterRebuild(task, rebuilt, external);
    }

    method AfterRebuild(task: Task, rebuilt: RebuildOutcome, external: Invariant)
      requires task in tasks && task.Rebuilding?
      modifies this
      ensures View() == Step(old(View()), Occurrence(RebuildSettles(task, rebuilt), external))
    {
      tasks := tasks - {task};
      if generation != task.run { return; }
      match rebuilt {
        case RebuildThrew =>
          StopAt(task.index, Failed);
        case RebuildSkipped =>
          FinishAt(task.index, Skipped, task.run, external);
        case RebuildChanged(latest) =>
          UpdateRow(task.index, ReviewNeeded, Some(latest));
          running := false;
        case RebuildReady =>
          var beforeExecutor := InvariantNow(external);
          if beforeExecutor.Broken? {
            PauseAt(task.index, beforeExecutor.reason);
            return;
          }
          calls := calls + [Call(ToConfirm, task.index, Some(task.tx), rows, identity, owner, beforeExecutor)];
          tasks := tasks + {Confirming(task.index, task.run, task.tx)};
      }
    }

    /** The continuation after `executor.confirm`. */
    method OnConfirm(task: Task, result: ConfirmOutcome, external: Invariant)
      requires Valid() && task in tasks && task.Confirming?
      modifies this
      ensures View() == Step(old(View()), Occurrence(ConfirmSettles(task, result), external))
      ensures Valid() && Safety.Continues(old(View()), View())
      ensures old(Safety.HonestRunning(View())) ==> Safety.HonestRunning(View())
    {
      Kept(Occurrence(ConfirmSettles(task, result), external));
      AfterConfirm(task, result, external);
    }

    method AfterConfirm(task: Task, result: ConfirmOutcome, external: Invariant)
      requires task in tasks && task.Confirming?
      modifies this
      ensures View() == Step(old(View()), Occurrence(ConfirmSettles(task, result), external))
    {
      tasks := tasks - {task};
      if generation != task.run { return; }
      match result {
        case ConfirmSucceeded =>
          FinishAt(task.index, Confirmed, task.run, external);
        case ConfirmRefreshFailed =>
          refreshFailure := Some(task.index);
          StopAt(task.index, RefreshLost);
        case ConfirmNeedsReview =>
          StopAt(task.index, ReviewNeeded);
        case ConfirmIdentityChanged =>
          PauseAt(task.index, IdentityPause(owner, identity));
        case ConfirmInvalid(codes) =>
          if NothingLeft(codes) {
            FinishAt(task.index, Skipped, task.run, external);
          } else {
            StopAt(task.index, Failed);
          }
        case ConfirmThrew =>
          StopAt(task.index, Failed);
        case ConfirmFailed =>
          StopAt(task.index, Failed);
      }
    }

    /** The continuation after `executor.retryRefresh`. */
    method OnRetry(task: Task, result: RetryOutcome, external: Invariant)
      requires Valid() && task in tasks && task.Retrying?
      modifies this
      ensures View() == Step(old(View()), Occurrence(RetrySettles(task, result), external))
      ensures Valid() && Safety.Continues(old(View()), View())
      ensures old(Safety.HonestRunning(View())) ==> Safety.HonestRunning(View())
    {
      Kept(Occurrence(RetrySettles(task, result), external));
      AfterRetry(task, result, external);
    }

    method AfterRetry(task: Task, result: RetryOutcome, external: Invariant)
      requires task in tasks && task.Retrying?
      modifies this
      ensures View() == Step(old(View()), Occurrence(RetrySettles(task, result), external))
    {
      tasks := tasks - {task};
      if generation != task.run { return; }
      match result {
        case RetrySucceeded =>
          refreshFailure := None;
          FinishAt(task.index, Confirmed, task.run, external);
        case RetryIdentityChanged =>
          PauseAt(task.index, AccountChanged);
        case RetryRefreshFailed =>
          refreshFailure := Some(task.index);
          StopAt(task.index, RefreshLost);
        case RetryThrew =>
          StopAt(task.index, RefreshLost);
        case RetryNothing =>
          StopAt(task.index, RefreshLost);
      }
    }
  }

  // ---------------------------------------------------------------------------
  // One more element for the loops
  // ---------------------------------------------------------------------------

  lemma {:induction false} ReconciledAppend(a: seq<Row>, b: seq<Row>, current: seq<QueuedTx>, done: set<Key>)
    ensures Reconciled(a + b, current, done) == Reconciled(a, current, done) + Reconciled(b, current, done)
  {
    if a == [] {
      assert a + b == b;
    } else {
      assert (a + b)[1..] == a[1..] + b;
      ReconciledAppend(a[1..], b, current, done);
    }
  }

  lemma ReconciledNext(rows: seq<Row>, i: nat, current: seq<QueuedTx>, done: set<Key>)
    requires i < |rows|
    ensures Reconciled(rows[..i + 1], current, done)
         == Reconciled(rows[..i], current, done) + ReconciledRow(rows[i], current, done)
  {
    assert rows[..i + 1] == rows[..i] + [rows[i]];
    ReconciledAppend(rows[..i], [rows[i]], current, done);
    assert Reconciled([rows[i]], current, done) == ReconciledRow(rows[i], current, done);
  }

  lemma MatchedNext(rows: seq<Row>, i: nat, current: seq<QueuedTx>, done: set<Key>)
    requires i < |rows|
    ensures var r := rows[i];
      Matched(rows[..i + 1], current, done) == Matched(rows[..i], current, done) +
        if !Finished(r) && WithoutCompleted(r.tx, done).Some? && LatestOf(current, GroupOf(r.tx)).Some?
        then {GroupOf(r.tx)} else {}
  {
    assert rows[..i + 1] == rows[..i] + [rows[i]];
  }

  lemma {:induction false} AddedAppend(a: seq<QueuedTx>, b: seq<QueuedTx>, matched: set<Group>)
    ensures Added(a + b, matched) == Added(a, matched) + Added(b, matched)
  {
    if a == [] {
      assert a + b == b;
    } else {
      assert (a + b)[1..] == a[1..] + b;
      AddedAppend(a[1..], b, matched);
    }
  }

  lemma AddedNext(current: seq<QueuedTx>, j: nat, matched: set<Group>)
    requires j < |current|
    ensures Added(current[..j + 1], matched) == Added(current[..j], matched) +
              if GroupOf(current[j]) in matched then [] else [Row(current[j], ReviewNeeded, Some(current[j]))]
  {
    assert current[..j + 1] == current[..j] + [current[j]];
    AddedAppend(current[..j], [current[j]], matched);
  }

}
