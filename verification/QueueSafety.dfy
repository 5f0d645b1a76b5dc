/**
 What every run of the Claim All queue keeps, whatever the interleaving of callbacks, wallet
 changes and late promises.
 */
module QueueSafety {
  import opened Wrappers
  import opened Text
  import opened Identities
  import opened ClaimTx
  import opened QueueModel

  // ---------------------------------------------------------------------------
  // The invariant
  // ---------------------------------------------------------------------------

  /** Row `i` is the one being worked on: all before it finished, all after it untouched or skipped. */
  predicate ActiveAt(rows: seq<Row>, i: nat)
  {
    && i < |rows|
    && (forall j :: 0 <= j < i ==> Finished(rows[j]))
    && (forall j :: i < j < |rows| ==> rows[j].status == Waiting || rows[j].status == Skipped)
  }

  /** No two rows claim the same thing. */
  predicate Apart(rows: seq<Row>)
  {
    forall i, j :: 0 <= i < j < |rows| ==> Keys(rows[i].tx) !! Keys(rows[j].tx)
  }

  /** A continuation that will still find its own generation current. */
  predicate Live(q: Queue, t: Task)
  {
    t in q.tasks && t.run == q.generation
  }

  /** What holds of the row a live continuation will come back to. */
  predicate AtWork(q: Queue, t: Task)
  {
    && ActiveAt(q.rows, t.index) && q.rows[t.index].status == Preparing
    && (if t.Retrying? then q.refreshFailure == Some(t.index)
        else q.refreshFailure == None && q.rows[t.index].tx == t.tx)
  }

  predicate RefreshRetained(q: Queue)
  {
    q.refreshFailure.Some? ==>
      && ActiveAt(q.rows, q.refreshFailure.value)
      && q.rows[q.refreshFailure.value].status in {Preparing, RefreshLost, Paused}
  }

  /** What is true of every call the queue makes, at the moment it makes it. */
  predicate CallOk(c: Call)
  {
    && c.guard == Holds && c.owner.Some? && SameIdentity(c.owner.value, c.current)
    && Apart(c.rows) && ActiveAt(c.rows, c.index)
    && match c.kind
       case ToRebuild => c.tx == Some(c.rows[c.index].tx) && c.rows[c.index].status == Waiting
       case ToConfirm => c.tx == Some(c.rows[c.index].tx) && c.rows[c.index].status == Preparing
       case ToRetryRefresh => c.tx == None && c.rows[c.index].status in {Preparing, RefreshLost, Paused}
  }

  ghost predicate NoLive(q: Queue)
  {
    forall t :: t in q.tasks ==> t.run < q.generation
  }

  ghost predicate Inv(q: Queue)
  {
    && (forall t :: t in q.tasks ==> t.run <= q.generation)
    && (forall t, u :: Live(q, t) && Live(q, u) ==> t == u)
    && (forall t :: Live(q, t) ==> AtWork(q, t))
    && RefreshRetained(q)
    && Apart(q.rows)
    && (forall c :: c in q.calls ==> CallOk(c))
  }

  /** The plans handed to the queue never list one claimable thing twice. */
  predicate PlansApart(o: Occurrence)
  {
    match o.event
    case CallStart(plan) => Disjoint(plan)
    case CallResume(plan) => Disjoint(plan)
    case CallAcceptReview(plan) => Disjoint(plan)
    case _ => true
  }

  function ConfirmedKeys(rows: seq<Row>): set<Key>
  {
    set r, k | r in rows && r.status == Confirmed && k in Keys(r.tx) :: k
  }

  /** Nothing confirmed or otherwise finished is lost from one list to the other. */
  predicate HistoryKept(rows: seq<Row>, rows': seq<Row>)
  {
    ConfirmedKeys(rows) <= ConfirmedKeys(rows') && Completed(rows) <= Completed(rows')
  }

  /** `q'` continues `q`: no history is lost, and every new call was made with it still in place. */
  ghost predicate Continues(q: Queue, q': Queue)
  {
    && HistoryKept(q.rows, q'.rows)
    && q.calls <= q'.calls
    && (forall i :: |q.calls| <= i < |q'.calls| ==> HistoryKept(q.rows, q'.calls[i].rows))
  }

  // ---------------------------------------------------------------------------
  // Steps inside one generation
  // ---------------------------------------------------------------------------

  lemma UpdateRowKeeps(rows: seq<Row>, index: nat, status: Status, replacement: Option<QueuedTx>)
    requires index < |rows| && !Finished(rows[index])
    ensures var updated := UpdateRow(rows, index, status, replacement);
            HistoryKept(rows, updated) && (Apart(rows) ==> Apart(updated))
  {
    var updated := UpdateRow(rows, index, status, replacement);
    forall r | r in rows && Finished(r) ensures r in updated {
      var i :| 0 <= i < |rows| && rows[i] == r;
      assert updated[i] == r;
    }
  }

  /** Ready to hand over from row `index`: nothing live, and everything from there on untouched. */
  ghost predicate Poised(q: Queue, index: nat)
  {
    && NoLive(q) && q.refreshFailure == None && Apart(q.rows)
    && (forall c :: c in q.calls ==> CallOk(c))
    && (forall j :: 0 <= j < index && j < |q.rows| ==> Finished(q.rows[j]))
    && (forall j :: index <= j < |q.rows| ==> q.rows[j].status == Waiting || q.rows[j].status == Skipped)
  }

  lemma {:induction false} ProcessKeeps(q: Queue, index: nat, external: Invariant)
    requires Poised(q, index)
    ensures Inv(ProcessAt(q, index, external)) && Continues(q, ProcessAt(q, index, external))
    decreases |q.rows| - index
  {
    if index < |q.rows| {
      if Finished(q.rows[index]) {
        ProcessKeeps(q, index + 1, external);
      } else if InvariantNow(q, external) != Holds {
        StopKeeps(q, index, Paused, None, ProcessAt(q, index, external));
      } else {
        PrepareKeeps(q, index);
      }
    }
  }

  /** Handing an unfinished row to a rebuild, with the guard in force. */
  lemma PrepareKeeps(q: Queue, index: nat)
    requires Poised(q, index) && index < |q.rows| && !Finished(q.rows[index])
    requires q.owner.Some? && SameIdentity(q.owner.value, q.identity)
    ensures Inv(Prepared(q, index)) && Continues(q, Prepared(q, index))
  {
    UpdateRowKeeps(q.rows, index, Preparing, None);
    var next := Prepared(q, index);
    assert forall c :: c in next.calls ==> c in q.calls || c == next.calls[|q.calls|];
  }

  /** Ending work on the active row in any way but finishing it. */
  lemma StopKeeps(q: Queue, index: nat, status: Status, replacement: Option<QueuedTx>, next: Queue)
    requires NoLive(q) && Apart(q.rows) && (forall c :: c in q.calls ==> CallOk(c)) && ActiveAt(q.rows, index)
      && !Finished(q.rows[index])
    requires next.tasks == q.tasks && next.generation == q.generation && next.calls == q.calls
    requires next.rows == UpdateRow(q.rows, index, status, replacement)
    requires next.refreshFailure == None ||
             (next.refreshFailure == Some(index) && status in {RefreshLost, Paused})
    ensures Inv(next) && Continues(q, next)
  {
    UpdateRowKeeps(q.rows, index, status, replacement);
  }

  /** Taking the live continuation off the list leaves none live. */
  lemma TakeLive(q: Queue, t: Task)
    requires Inv(q) && t in q.tasks
    ensures var rest := q.(tasks := q.tasks - {t});
            && (t.run == q.generation ==> NoLive(rest) && AtWork(q, t))
            && (t.run != q.generation ==> Inv(rest) && Continues(q, rest))
  {
    if t.run == q.generation {
      assert Live(q, t);
      forall u | u in q.tasks - {t} ensures u.run < q.generation {
        assert Live(q, u) <==> u.run == q.generation;
      }
    } else {
      var rest := q.(tasks := q.tasks - {t});
      forall u | Live(rest, u) ensures Live(q, u) {
      }
    }
  }

  lemma FinishKeeps(q: Queue, index: nat, status: Status, external: Invariant)
    requires NoLive(q) && Apart(q.rows) && (forall c :: c in q.calls ==> CallOk(c))
    requires ActiveAt(q.rows, index) && q.rows[index].status == Preparing && q.refreshFailure == None
    requires status == Confirmed || status == Skipped
    ensures var next := ProcessAt(SetRow(q, index, status), index + 1, external);
            Inv(next) && Continues(q, next)
  {
    UpdateRowKeeps(q.rows, index, status, None);
    var finished := SetRow(q, index, status);
    ProcessKeeps(finished, index + 1, external);
  }

  /** A queue whose one live continuation has just been taken off the list. */
  ghost predicate Resumed(q: Queue, t: Task)
  {
    && NoLive(q) && Apart(q.rows) && (forall c :: c in q.calls ==> CallOk(c))
    && t.run == q.generation && AtWork(q, t)
  }

  lemma RebuildKeeps(q: Queue, t: Task, outcome: RebuildOutcome, external: Invariant)
    requires Resumed(q, t) && t.Rebuilding?
    ensures Inv(AfterRebuild(q, t, outcome, external)) && Continues(q, AfterRebuild(q, t, outcome, external))
  {
    var next := AfterRebuild(q, t, outcome, external);
    match outcome {
      case RebuildThrew => StopKeeps(q, t.index, Failed, None, next);
      case RebuildSkipped => FinishKeeps(q, t.index, Skipped, external);
      case RebuildChanged(latest) => StopKeeps(q, t.index, ReviewNeeded, Some(latest), next);
      case RebuildReady =>
        if InvariantNow(q, external) != Holds {
          StopKeeps(q, t.index, Paused, None, next);
        }
    }
  }

  lemma ConfirmKeeps(q: Queue, t: Task, outcome: ConfirmOutcome, external: Invariant)
    requires Resumed(q, t) && t.Confirming?
    ensures Inv(AfterConfirm(q, t, outcome, external)) && Continues(q, AfterConfirm(q, t, outcome, external))
  {
    var next := AfterConfirm(q, t, outcome, external);
    match outcome {
      case ConfirmSucceeded => FinishKeeps(q, t.index, Confirmed, external);
      case ConfirmRefreshFailed => StopKeeps(q, t.index, RefreshLost, None, next);
      case ConfirmNeedsReview => StopKeeps(q, t.index, ReviewNeeded, None, next);
      case ConfirmIdentityChanged => StopKeeps(q, t.index, Paused, None, next);
      case ConfirmInvalid(codes) =>
        if NothingLeft(codes) {
          FinishKeeps(q, t.index, Skipped, external);
        } else {
          StopKeeps(q, t.index, Failed, None, next);
        }
      case ConfirmThrew => StopKeeps(q, t.index, Failed, None, next);
      case ConfirmFailed => StopKeeps(q, t.index, Failed, None, next);
    }
  }

  lemma RetryKeeps(q: Queue, t: Task, outcome: RetryOutcome, external: Invariant)
    requires Resumed(q, t) && t.Retrying?
    ensures Inv(AfterRetry(q, t, outcome, external)) && Continues(q, AfterRetry(q, t, outcome, external))
  {
    var next := AfterRetry(q, t, outcome, external);
    match outcome {
      case RetrySucceeded => FinishKeeps(q.(refreshFailure := None), t.index, Confirmed, external);
      case RetryIdentityChanged => StopKeeps(q, t.index, Paused, None, next);
      case _ => StopKeeps(q, t.index, RefreshLost, None, next);
    }
  }

  /** Settling any outstanding promise, live or stale, keeps the invariant. */
  lemma SettleKeeps(q: Queue, o: Occurrence, t: Task)
    requires Inv(q) && t in q.tasks && SettledTask(o.event) == Some(t)
    ensures Inv(Step(q, o)) && Continues(q, Step(q, o))
  {
    var rest := q.(tasks := q.tasks - {t});
    TakeLive(q, t);
    if t.run == q.generation {
      assert Resumed(rest, t);
      match o.event {
        case RebuildSettles(_, outcome) => if t.Rebuilding? { RebuildKeeps(rest, t, outcome, o.external); }
        case ConfirmSettles(_, outcome) => if t.Confirming? { ConfirmKeeps(rest, t, outcome, o.external); }
        case RetrySettles(_, outcome) => if t.Retrying? { RetryKeeps(rest, t, outcome, o.external); }
      }
    } else {
      StaleContinuationIsInert(q, o, t);
    }
  }

  // ---------------------------------------------------------------------------
  // Steps that open a new generation
  // ---------------------------------------------------------------------------

  lemma {:induction false} RelistKeeps(q: Queue, rows: seq<Row>, from: Option<nat>, external: Invariant)
    requires NoLive(q) && q.refreshFailure == None && Apart(rows) && (forall c :: c in q.calls ==> CallOk(c))
    requires from.Some? ==> forall j :: 0 <= j < |rows| ==>
               if j < from.value then Finished(rows[j]) else rows[j].status == Waiting || rows[j].status == Skipped
    ensures Inv(Relisted(q, rows, from, external))
    ensures Continues(q.(rows := rows), Relisted(q, rows, from, external))
  {
    var listed := q.(rows := rows, running := from.Some?);
    if from.Some? {
      ProcessKeeps(listed, from.value, external);
    }
  }

  lemma StartKeeps(q: Queue, plan: seq<QueuedTx>, external: Invariant)
    requires Inv(q) && Disjoint(plan)
    ensures Inv(Start(q, plan, external))
  {
    if plan != [] && q.identity.Some? {
      RelistKeeps(Reopened(q).(refreshFailure := None), Queued(plan), Some(0), external);
    }
  }

  lemma ApartTail(rows: seq<Row>)
    requires rows != [] && Apart(rows)
    ensures Apart(rows[1..]) && forall y :: y in rows[1..] ==> Keys(rows[0].tx) !! Keys(y.tx)
  {
    forall y | y in rows[1..] ensures Keys(rows[0].tx) !! Keys(y.tx) {
      var j :| 0 <= j < |rows[1..]| && rows[1..][j] == y;
      assert rows[j + 1] == y;
    }
  }

  lemma {:induction false} HistoryApart(rows: seq<Row>)
    requires Apart(rows)
    ensures Apart(History(rows))
  {
    if rows != [] {
      ApartTail(rows);
      HistoryApart(rows[1..]);
    }
  }

  lemma HistoryFacts(rows: seq<Row>)
    ensures forall x :: x in History(rows) ==> Finished(x) && Keys(x.tx) <= Completed(rows)
    ensures HistoryKept(rows, History(rows))
  {
    forall r | r in rows && Finished(r) ensures r in History(rows) {
    }
  }

  lemma {:induction false} CurrentFacts(plan: seq<QueuedTx>, done: set<Key>)
    ensures forall c :: c in Current(plan, done) ==>
      Keys(c) !! done && exists p :: p in plan && Keys(c) <= Keys(p) && GroupOf(c) == GroupOf(p)
  {
    if plan != [] {
      CurrentFacts(plan[1..], done);
      forall c | c in Current(plan, done)
        ensures Keys(c) !! done && exists p :: p in plan && Keys(c) <= Keys(p) && GroupOf(c) == GroupOf(p)
      {
        if c in Current(plan[1..], done) {
          var p :| p in plan[1..] && Keys(c) <= Keys(p) && GroupOf(c) == GroupOf(p);
          assert p in plan;
        } else {
          assert WithoutCompleted(plan[0], done) == Some(c);
          assert plan[0] in plan;
        }
      }
    }
  }

  lemma {:induction false} CurrentApart(plan: seq<QueuedTx>, done: set<Key>)
    requires Disjoint(plan)
    ensures Disjoint(Current(plan, done))
  {
    if plan != [] {
      CurrentApart(plan[1..], done);
      CurrentFacts(plan[1..], done);
      var rest := Current(plan[1..], done);
      var left := WithoutCompleted(plan[0], done);
      if left.Some? {
        assert Current(plan, done) == [left.value] + rest;
        forall j | 0 <= j < |rest| ensures Keys(left.value) !! Keys(rest[j]) {
          var p :| p in plan[1..] && Keys(rest[j]) <= Keys(p);
          var i :| 0 <= i < |plan[1..]| && plan[1..][i] == p;
          assert plan[i + 1] == p;
        }
      } else {
        assert Current(plan, done) == rest;
      }
    }
  }

  /** Work that shares no key with the history may be listed after it. */
  lemma ListedApart(rows: seq<Row>, work: seq<Row>)
    requires Apart(rows) && Apart(work) && forall y :: y in work ==> Keys(y.tx) !! Completed(rows)
    ensures Apart(History(rows) + work)
  {
    HistoryApart(rows);
    HistoryFacts(rows);
  }

  lemma AcceptedWork(plan: seq<QueuedTx>, done: set<Key>)
    requires Disjoint(plan)
    ensures var work := Queued(Current(plan, done));
            Apart(work) && forall y :: y in work ==> y.status == Waiting && Keys(y.tx) !! done
  {
    CurrentApart(plan, done);
    CurrentFacts(plan, done);
    var work := Queued(Current(plan, done));
    forall y | y in work ensures y.status == Waiting && Keys(y.tx) !! done {
      assert y.tx in Current(plan, done);
    }
  }

  /** Listing work after the history, under a new generation, continues the run. */
  lemma ListKeeps(q: Queue, begun: Queue, work: seq<Row>, from: Option<nat>, external: Invariant)
    requires NoLive(begun) && begun.refreshFailure == None && begun.calls == q.calls
      && (forall c :: c in q.calls ==> CallOk(c))
    requires Apart(History(q.rows) + work)
    requires from.Some? ==> |History(q.rows)| <= from.value
    requires from.Some? ==> forall j :: 0 <= j < |work| ==>
               if j + |History(q.rows)| < from.value then Finished(work[j])
               else work[j].status == Waiting || work[j].status == Skipped
    ensures var next := Relisted(begun, History(q.rows) + work, from, external);
            Inv(next) && Continues(q, next)
  {
    HistoryFinished(q.rows, work);
    RelistKeeps(begun, History(q.rows) + work, from, external);
  }

  lemma AcceptKeeps(q: Queue, plan: seq<QueuedTx>, external: Invariant)
    requires Inv(q) && Disjoint(plan)
    ensures Inv(AcceptReview(q, plan, external)) && Continues(q, AcceptReview(q, plan, external))
  {
    if q.identity.Some? {
      var work := Queued(Current(plan, Completed(q.rows)));
      AcceptedWork(plan, Completed(q.rows));
      ListedApart(q.rows, work);
      ListKeeps(q, Reopened(q).(refreshFailure := None), work,
                if work == [] then None else Some(|History(q.rows)|), external);
    }
  }

  lemma HistoryFinished(rows: seq<Row>, work: seq<Row>)
    ensures forall j :: 0 <= j < |History(rows)| ==> Finished((History(rows) + work)[j])
  {
    forall j | 0 <= j < |History(rows)| ensures Finished((History(rows) + work)[j]) {
      assert History(rows)[j] in History(rows);
    }
  }

  // ---------------------------------------------------------------------------
  // Resuming
  // ---------------------------------------------------------------------------

  /** A reconciled row comes from an unfinished one and claims no more than it did. */
  lemma {:induction false} ReconciledSource(rows: seq<Row>, current: seq<QueuedTx>, done: set<Key>, x: Row)
    returns (source: Row)
    requires x in Reconciled(rows, current, done)
    ensures source in rows && !Finished(source) && WithoutCompleted(source.tx, done) == Some(x.tx)
    ensures x == Reconcile(x.tx, LatestOf(current, GroupOf(x.tx)))
  {
    if x in ReconciledRow(rows[0], current, done) {
      source := rows[0];
    } else {
      source := ReconciledSource(rows[1..], current, done, x);
    }
  }

  /** Every unfinished row with something left is listed again. */
  lemma {:induction false} ReconciledKeeps(rows: seq<Row>, current: seq<QueuedTx>, done: set<Key>, source: Row)
    requires source in rows && !Finished(source) && WithoutCompleted(source.tx, done).Some?
    ensures var reviewed := WithoutCompleted(source.tx, done).value;
            Reconcile(reviewed, LatestOf(current, GroupOf(reviewed))) in Reconciled(rows, current, done)
  {
    if source == rows[0] {
    } else {
      ReconciledKeeps(rows[1..], current, done, source);
    }
  }

  lemma {:induction false} ReconciledApart(rows: seq<Row>, current: seq<QueuedTx>, done: set<Key>)
    requires Apart(rows)
    ensures Apart(Reconciled(rows, current, done))
  {
    if rows != [] {
      ApartTail(rows);
      ReconciledApart(rows[1..], current, done);
      var first, rest := ReconciledRow(rows[0], current, done), Reconciled(rows[1..], current, done);
      forall x, y | x in first && y in rest ensures Keys(x.tx) !! Keys(y.tx) {
        var source := ReconciledSource(rows[1..], current, done, y);
      }
    }
  }

  lemma {:induction false} AddedFacts(current: seq<QueuedTx>, matched: set<Group>)
    ensures forall x :: x in Added(current, matched) <==>
              (x == Row(x.tx, ReviewNeeded, Some(x.tx)) && x.tx in current && GroupOf(x.tx) !in matched)
  {
    if current != [] {
      AddedFacts(current[1..], matched);
      assert current == [current[0]] + current[1..];
    }
  }

  lemma {:induction false} AddedApart(current: seq<QueuedTx>, matched: set<Group>)
    requires Disjoint(current)
    ensures Apart(Added(current, matched))
  {
    if current != [] {
      AddedApart(current[1..], matched);
      AddedFacts(current[1..], matched);
      var first := if GroupOf(current[0]) in matched then [] else [Row(current[0], ReviewNeeded, Some(current[0]))];
      forall x, y | x in first && y in Added(current[1..], matched) ensures Keys(x.tx) !! Keys(y.tx) {
        var j :| 0 <= j < |current[1..]| && current[1..][j] == y.tx;
        assert current[j + 1] == y.tx;
      }
    }
  }

  /** Rows already listed and rows added for review stand for different groups. */
  lemma ReconciledVersusAdded(rows: seq<Row>, current: seq<QueuedTx>, done: set<Key>, x: Row, y: Row)
    requires x in Reconciled(rows, current, done) && y in Added(current, Matched(rows, current, done))
    ensures Keys(x.tx) !! Keys(y.tx)
  {
    var source := ReconciledSource(rows, current, done, x);
    AddedFacts(current, Matched(rows, current, done));
    assert LatestOf(current, GroupOf(y.tx)).Some?;
    assert GroupOf(source.tx) != GroupOf(y.tx);
    forall k | k in Keys(x.tx) ensures k !in Keys(y.tx) {
      KeysShareGroup(x.tx, k);
    }
  }

  lemma UnresolvedApart(rows: seq<Row>, plan: seq<QueuedTx>)
    requires Apart(rows) && Disjoint(plan)
    ensures Apart(Unresolved(rows, plan))
  {
    var done := Completed(rows);
    var current := Current(plan, done);
    CurrentApart(plan, done);
    ReconciledApart(rows, current, done);
    AddedApart(current, Matched(rows, current, done));
    forall x, y | x in Reconciled(rows, current, done) && y in Added(current, Matched(rows, current, done))
      ensures Keys(x.tx) !! Keys(y.tx)
    {
      ReconciledVersusAdded(rows, current, done, x, y);
    }
  }

  /** No unresolved row claims anything completed, and each waits, is skipped, or needs review. */
  lemma UnresolvedFacts(rows: seq<Row>, plan: seq<QueuedTx>)
    ensures forall x :: x in Unresolved(rows, plan) ==>
              Keys(x.tx) !! Completed(rows) && x.status in {Waiting, Skipped, ReviewNeeded}
  {
    var done := Completed(rows);
    var current := Current(plan, done);
    forall x | x in Unresolved(rows, plan) ensures Keys(x.tx) !! done && x.status in {Waiting, Skipped, ReviewNeeded} {
      if x in Reconciled(rows, current, done) {
        var source := ReconciledSource(rows, current, done, x);
      } else {
        AddedFacts(current, Matched(rows, current, done));
        CurrentFacts(plan, done);
      }
    }
  }

  /** Without a review, everything up to the first waiting row is finished and everything after it untouched. */
  lemma ResumePoised(rows: seq<Row>, plan: seq<QueuedTx>)
    requires ResumeAt(rows, plan).Some?
    ensures var unresolved, from := Unresolved(rows, plan), ResumeAt(rows, plan).value;
            |History(rows)| <= from && forall j :: 0 <= j < |unresolved| ==>
              if j + |History(rows)| < from then Finished(unresolved[j])
              else unresolved[j].status == Waiting || unresolved[j].status == Skipped
  {
    var unresolved := Unresolved(rows, plan);
    UnresolvedFacts(rows, plan);
    forall j | 0 <= j < |unresolved| ensures unresolved[j].status == Waiting || unresolved[j].status == Skipped {
      assert unresolved[j] in unresolved;
    }
  }

  lemma ResumeKeeps(q: Queue, plan: seq<QueuedTx>, external: Invariant)
    requires Inv(q) && Disjoint(plan)
    ensures Inv(Resume(q, plan, external)) && Continues(q, Resume(q, plan, external))
  {
    if q.identity.Some? {
      if q.refreshFailure.Some? {
        ResumeRefreshKeeps(Reopened(q).(running := true), q.refreshFailure.value, external);
      } else {
        UnresolvedApart(q.rows, plan);
        UnresolvedFacts(q.rows, plan);
        ListedApart(q.rows, Unresolved(q.rows, plan));
        if ResumeAt(q.rows, plan).Some? {
          ResumePoised(q.rows, plan);
        }
        ListKeeps(q, Reopened(q), Unresolved(q.rows, plan), ResumeAt(q.rows, plan), external);
      }
    }
  }

  lemma ResumeRefreshKeeps(q: Queue, index: nat, external: Invariant)
    requires NoLive(q) && Apart(q.rows) && (forall c :: c in q.calls ==> CallOk(c))
    requires q.refreshFailure == Some(index) && RefreshRetained(q)
    ensures Inv(ResumeRefresh(q, index, external)) && Continues(q, ResumeRefresh(q, index, external))
  {
    if InvariantNow(q, external) != Holds {
      StopKeeps(q, index, Paused, None, ResumeRefresh(q, index, external));
    } else {
      RetriedKeeps(q, index);
    }
  }

  /** Retrying the refresh of the row that retains its failure, with the guard in force. */
  lemma RetriedKeeps(q: Queue, index: nat)
    requires NoLive(q) && Apart(q.rows) && (forall c :: c in q.calls ==> CallOk(c))
    requires q.refreshFailure == Some(index) && RefreshRetained(q)
    requires q.owner.Some? && SameIdentity(q.owner.value, q.identity)
    ensures Inv(Retried(q, index)) && Continues(q, Retried(q, index))
  {
    UpdateRowKeeps(q.rows, index, Preparing, None);
    var next, t := Retried(q, index), Retrying(index, q.generation);
    assert next.calls == q.calls + [next.calls[|q.calls|]] && CallOk(next.calls[|q.calls|]);
    assert AtWork(next, t);
    forall u | Live(next, u) ensures u == t {
    }
  }

  // ---------------------------------------------------------------------------
  // Every run
  // ---------------------------------------------------------------------------

  predicate Restarts(q: Queue, o: Occurrence)
  {
    o.event.CallStart? && o.event.plan != [] && q.identity.Some?
  }

  lemma WalletKeeps(q: Queue, identity: Option<Identity>)
    requires Inv(q)
    ensures Inv(q.(identity := identity))
  {
    var next := q.(identity := identity);
    forall t | Live(next, t) ensures Live(q, t) && AtWork(next, t) {
      assert Live(q, t);
      assert AtWork(q, t);
    }
  }

  lemma StepKeeps(q: Queue, o: Occurrence)
    requires Inv(q) && PlansApart(o)
    ensures Inv(Step(q, o))
    ensures !Restarts(q, o) ==> Continues(q, Step(q, o))
  {
    match o.event {
      case CallStart(plan) => StartKeeps(q, plan, o.external);
      case CallResume(plan) => ResumeKeeps(q, plan, o.external);
      case CallAcceptReview(plan) => AcceptKeeps(q, plan, o.external);
      case WalletIs(identity) =>
        WalletKeeps(q, identity);
      case Unmount =>
      case RebuildSettles(t, _) => if t in q.tasks { SettleKeeps(q, o, t); }
      case ConfirmSettles(t, _) => if t in q.tasks { SettleKeeps(q, o, t); }
      case RetrySettles(t, _) => if t in q.tasks { SettleKeeps(q, o, t); }
    }
  }

  ghost predicate RunPlansApart(events: seq<Occurrence>)
  {
    forall o :: o in events ==> PlansApart(o)
  }

  /** The invariant holds at every moment of every run from the idle queue. */
  lemma {:induction false} RunKeeps(q: Queue, events: seq<Occurrence>)
    requires Inv(q) && RunPlansApart(events)
    ensures Inv(Run(q, events))
    decreases |events|
  {
    if events != [] {
      var last := |events| - 1;
      assert forall o :: o in events[..last] ==> o in events;
      RunKeeps(q, events[..last]);
      assert events[last] in events;
      StepKeeps(Run(q, events[..last]), events[last]);
    }
  }

  /** No effective `start` happens anywhere in the run. */
  predicate NoRestart(q: Queue, events: seq<Occurrence>)
    decreases |events|
  {
    events == [] ||
    (NoRestart(q, events[..|events| - 1]) && !Restarts(Run(q, events[..|events| - 1]), events[|events| - 1]))
  }

  lemma {:induction false} RunContinues(q: Queue, events: seq<Occurrence>)
    requires Inv(q) && RunPlansApart(events) && NoRestart(q, events)
    ensures Continues(q, Run(q, events))
    decreases |events|
  {
    if events != [] {
      var last := |events| - 1;
      assert forall o :: o in events[..last] ==> o in events;
      RunContinues(q, events[..last]);
      RunKeeps(q, events[..last]);
      assert events[last] in events;
      StepKeeps(Run(q, events[..last]), events[last]);
    }
  }

  // ---------------------------------------------------------------------------
  // What a reader takes away
  // ---------------------------------------------------------------------------

  /** The calls made after the first `n`. */
  function CallsSince(q: Queue, n: nat): seq<Call>
    requires n <= |q.calls|
  {
    q.calls[n..]
  }

  /** The key is in a transaction that one of the calls after the first `n` was handed. */
  ghost predicate HandedSince(q: Queue, n: nat, k: Key)
    requires n <= |q.calls|
  {
    exists c :: c in CallsSince(q, n) && c.tx.Some? && k in Keys(c.tx.value)
  }

  /** Finished once, finished for good: over every continuation without a new `start`. */
  lemma FinishedNeverRepeats(q: Queue, events: seq<Occurrence>, k: Key)
    requires Inv(q) && RunPlansApart(events) && NoRestart(q, events) && k in Completed(q.rows)
    ensures var q' := Run(q, events);
            k in Completed(q'.rows) && |q.calls| <= |q'.calls| && !HandedSince(q', |q.calls|, k)
  {
    var q' := Run(q, events);
    RunKeeps(q, events);
    RunContinues(q, events);
    forall c | c in CallsSince(q', |q.calls|) && c.tx.Some? ensures k !in Keys(c.tx.value) {
      var i :| |q.calls| <= i < |q'.calls| && q'.calls[i] == c;
      assert CallOk(c);
      ActiveRowUnfinished(c, k);
    }
  }

  /**
   Confirmed once, confirmed for good: over every continuation of every run without a new
   `start`, a confirmed key stays confirmed and is never again part of a transaction handed
   to a rebuild or to the executor.
   */
  lemma ConfirmedNeverRepeats(prefix: seq<Occurrence>, events: seq<Occurrence>, k: Key)
    requires RunPlansApart(prefix) && RunPlansApart(events)
    requires var q := Run(IDLE, prefix); NoRestart(q, events) && k in ConfirmedKeys(q.rows)
    ensures var q := Run(IDLE, prefix); var q' := Run(q, events);
            && k in ConfirmedKeys(q'.rows)
            && |q.calls| <= |q'.calls|
            && forall c :: c in CallsSince(q', |q.calls|) && c.tx.Some? ==> k !in Keys(c.tx.value)
  {
    RunKeeps(IDLE, prefix);
    RunContinues(Run(IDLE, prefix), events);
    FinishedNeverRepeats(Run(IDLE, prefix), events, k);
  }

  lemma ActiveRowUnfinished(c: Call, k: Key)
    requires CallOk(c) && c.tx.Some? && k in Completed(c.rows)
    ensures k !in Keys(c.tx.value)
  {
    var r :| r in c.rows && Finished(r) && k in Keys(r.tx);
    var i :| 0 <= i < |c.rows| && c.rows[i] == r;
    assert i != c.index;
  }

  /**
   Every call of every run is made on the owner's wallet with the invariants ready, for the
   one row being worked on: all rows before it finished, all after it untouched or skipped.
   Only a row that was waiting is rebuilt, so a row needing review, failed or paused never
   reaches the executor.
   */
  lemma EveryCallGuarded(events: seq<Occurrence>, c: Call)
    requires RunPlansApart(events) && c in Run(IDLE, events).calls
    ensures c.guard == Holds && c.owner.Some? && c.current.Some?
    ensures c.owner.value.chainId == c.current.value.chainId
    ensures Lower(c.owner.value.account) == Lower(c.current.value.account)
    ensures ActiveAt(c.rows, c.index)
    ensures c.kind == ToRebuild ==> c.rows[c.index].status == Waiting && c.tx == Some(c.rows[c.index].tx)
    ensures c.kind == ToConfirm ==> c.rows[c.index].status == Preparing && c.tx == Some(c.rows[c.index].tx)
  {
    RunKeeps(IDLE, events);
    assert CallOk(c);
  }

  function SettledTask(e: Event): Option<Task>
  {
    match e
    case RebuildSettles(t, _) => Some(t)
    case ConfirmSettles(t, _) => Some(t)
    case RetrySettles(t, _) => Some(t)
    case _ => None
  }

  /** A continuation of an older generation is forgotten: no row changes and no call is made. */
  lemma StaleContinuationIsInert(q: Queue, o: Occurrence, t: Task)
    requires SettledTask(o.event) == Some(t) && t.run != q.generation
    ensures Step(q, o) == q || Step(q, o) == q.(tasks := q.tasks - {t})
  {
  }

  // ---------------------------------------------------------------------------
  // Resuming loses nothing and executes nothing unreviewed
  // ---------------------------------------------------------------------------

  lemma {:induction false} CurrentOnePerGroup(plan: seq<QueuedTx>, done: set<Key>)
    requires OnePerGroup(plan)
    ensures OnePerGroup(Current(plan, done))
  {
    if plan != [] {
      CurrentOnePerGroup(plan[1..], done);
      CurrentFacts(plan[1..], done);
      var rest := Current(plan[1..], done);
      var left := WithoutCompleted(plan[0], done);
      if left.Some? {
        assert Current(plan, done) == [left.value] + rest;
        forall j | 0 <= j < |rest| ensures GroupOf(left.value) != GroupOf(rest[j]) {
          assert rest[j] in rest;
          var p :| p in plan[1..] && GroupOf(rest[j]) == GroupOf(p);
          var i :| 0 <= i < |plan[1..]| && plan[1..][i] == p;
          assert plan[i + 1] == p;
        }
      } else {
        assert Current(plan, done) == rest;
      }
    }
  }

  lemma {:induction false} CurrentKeeps(plan: seq<QueuedTx>, done: set<Key>, tx: QueuedTx)
    requires tx in plan && WithoutCompleted(tx, done).Some?
    ensures WithoutCompleted(tx, done).value in Current(plan, done)
  {
    if tx != plan[0] {
      CurrentKeeps(plan[1..], done, tx);
    }
  }

  /** The row stands for the key: it would claim it, or shows a replacement that would. */
  predicate StandsFor(r: Row, k: Key)
  {
    k in Keys(r.tx) || (r.replacement.Some? && k in Keys(r.replacement.value))
  }

  /** With one transaction per group, every uncompleted key of the fresh plan is listed somewhere. */
  lemma ResumeCovers(rows: seq<Row>, plan: seq<QueuedTx>, tx: QueuedTx, k: Key) returns (r: Row)
    requires OnePerGroup(plan) && tx in plan && k in Keys(tx) && k !in Completed(rows)
    ensures r in Unresolved(rows, plan) && StandsFor(r, k)
  {
    var done := Completed(rows);
    var current := Current(plan, done);
    var left := WithoutCompleted(tx, done).value;
    CurrentKeeps(plan, done, tx);
    CurrentOnePerGroup(plan, done);
    var matched := Matched(rows, current, done);
    if GroupOf(left) in matched {
      var source :| source in rows && !Finished(source) && WithoutCompleted(source.tx, done).Some?
        && GroupOf(source.tx) == GroupOf(left);
      var reviewed := WithoutCompleted(source.tx, done).value;
      ReconciledKeeps(rows, current, done, source);
      r := Reconcile(reviewed, LatestOf(current, GroupOf(reviewed)));
      if SameTx(reviewed, left) {
        SameTxSameKeys(reviewed, left);
      }
    } else {
      AddedFacts(current, matched);
      r := Row(left, ReviewNeeded, Some(left));
      assert r in Added(current, matched);
    }
  }

  /** A row left waiting is, spelling of addresses aside, what the fresh plan lists for its group. */
  lemma WaitingIsReviewed(rows: seq<Row>, plan: seq<QueuedTx>, r: Row)
    requires r in Unresolved(rows, plan) && r.status == Waiting
    ensures exists tx :: tx in Current(plan, Completed(rows)) && GroupOf(tx) == GroupOf(r.tx) && SameTx(r.tx, tx)
  {
    var done := Completed(rows);
    var current := Current(plan, done);
    AddedFacts(current, Matched(rows, current, done));
    var source := ReconciledSource(rows, current, done, r);
  }

  /** Processing touches one unfinished row's status and makes at most one call, for that row. */
  lemma {:induction false} ProcessShape(q: Queue, index: nat, external: Invariant)
    ensures var q' := ProcessAt(q, index, external);
      && |q'.rows| == |q.rows|
      && (forall j :: 0 <= j < |q.rows| ==>
            && q'.rows[j].tx == q.rows[j].tx && q'.rows[j].replacement == q.rows[j].replacement
            && (q'.rows[j].status == q.rows[j].status
              || (!Finished(q.rows[j]) && q'.rows[j].status in {Preparing, Paused})))
      && (q'.calls == q.calls ||
          exists i :: 0 <= i < |q.rows| && !Finished(q.rows[i]) && q'.calls == q.calls +
            [Call(ToRebuild, i, Some(q.rows[i].tx), q.rows, q.identity, q.owner, InvariantNow(q, external))])
    decreases |q.rows| - index
  {
    if index < |q.rows| && Finished(q.rows[index]) {
      ProcessShape(q, index + 1, external);
    }
  }

  /** The transaction is, spelling of addresses aside, one the fresh plan still lists. */
  ghost predicate Listed(plan: seq<QueuedTx>, done: set<Key>, tx: QueuedTx)
  {
    exists now :: now in Current(plan, done) && GroupOf(now) == GroupOf(tx) && SameTx(tx, now)
  }

  lemma ResumeKeepsKey(q: Queue, plan: seq<QueuedTx>, external: Invariant, tx: QueuedTx, k: Key) returns (r: Row)
    requires q.identity.Some? && q.refreshFailure == None && OnePerGroup(plan)
    requires tx in plan && k in Keys(tx) && k !in Completed(q.rows)
    ensures r in Resume(q, plan, external).rows && StandsFor(r, k)
  {
    var listed := History(q.rows) + Unresolved(q.rows, plan);
    ResumeShape(q, plan, external, listed, Resume(q, plan, external));
    var source := ResumeCovers(q.rows, plan, tx, k);
    assert source in listed;
    var j :| 0 <= j < |listed| && listed[j] == source;
    r := Resume(q, plan, external).rows[j];
  }

  lemma ResumeExecutable(q: Queue, plan: seq<QueuedTx>, external: Invariant, r: Row)
    requires q.identity.Some? && q.refreshFailure == None
    requires r in Resume(q, plan, external).rows && r.status !in {Confirmed, Skipped, ReviewNeeded}
    ensures Listed(plan, Completed(q.rows), r.tx)
  {
    var q' := Resume(q, plan, external);
    ResumeShape(q, plan, external, History(q.rows) + Unresolved(q.rows, plan), q');
    var j :| 0 <= j < |q'.rows| && q'.rows[j] == r;
    ExecutableIsListed(q.rows, plan, j);
  }

  lemma ResumeCall(q: Queue, plan: seq<QueuedTx>, external: Invariant, c: Call)
    requires q.identity.Some? && q.refreshFailure == None
    requires var q' := Resume(q, plan, external); |q.calls| <= |q'.calls| && c in CallsSince(q', |q.calls|)
    ensures c.kind == ToRebuild && c.tx.Some? && Listed(plan, Completed(q.rows), c.tx.value)
  {
    var listed := History(q.rows) + Unresolved(q.rows, plan);
    ResumeShape(q, plan, external, listed, Resume(q, plan, external));
    var i :| 0 <= i < |listed| && !Finished(listed[i]) && c.kind == ToRebuild && c.tx == Some(listed[i].tx);
    ExecutableIsListed(q.rows, plan, i);
  }

  /**
   Resuming without a retained refresh failure: every uncompleted key of the fresh plan stays
   listed, every row left to be executed is exactly what the fresh plan lists, and the only
   call it may make is a rebuild of such a row.
   */
  lemma ResumeLosesNothing(q: Queue, plan: seq<QueuedTx>, external: Invariant)
    requires q.identity.Some? && q.refreshFailure == None && OnePerGroup(plan)
    ensures var q', done := Resume(q, plan, external), Completed(q.rows);
      && (forall tx, k :: tx in plan && k in Keys(tx) && k !in done ==> exists r :: r in q'.rows && StandsFor(r, k))
      && (forall r :: r in q'.rows && r.status !in {Confirmed, Skipped, ReviewNeeded} ==> Listed(plan, done, r.tx))
      && |q.calls| <= |q'.calls| && q.calls == q'.calls[..|q.calls|]
      && (forall c :: c in CallsSince(q', |q.calls|) ==>
        c.kind == ToRebuild && c.tx.Some? && Listed(plan, done, c.tx.value))
  {
    var q', done := Resume(q, plan, external), Completed(q.rows);
    ResumeShape(q, plan, external, History(q.rows) + Unresolved(q.rows, plan), q');
    forall tx, k | tx in plan && k in Keys(tx) && k !in done ensures exists r :: r in q'.rows && StandsFor(r, k) {
      var r := ResumeKeepsKey(q, plan, external, tx, k);
    }
    forall r | r in q'.rows && r.status !in {Confirmed, Skipped, ReviewNeeded} ensures Listed(plan, done, r.tx) {
      ResumeExecutable(q, plan, external, r);
    }
    forall c | c in CallsSince(q', |q.calls|)
      ensures c.kind == ToRebuild && c.tx.Some? && Listed(plan, done, c.tx.value)
    {
      ResumeCall(q, plan, external, c);
    }
  }

  lemma ResumeShape(q: Queue, plan: seq<QueuedTx>, external: Invariant, listed: seq<Row>, q': Queue)
    requires q.identity.Some? && q.refreshFailure == None && q' == Resume(q, plan, external)
    requires listed == History(q.rows) + Unresolved(q.rows, plan)
    ensures |q'.rows| == |listed|
    ensures forall j :: 0 <= j < |listed| ==>
              && q'.rows[j].tx == listed[j].tx && q'.rows[j].replacement == listed[j].replacement
              && (q'.rows[j].status == listed[j].status || (!Finished(listed[j]) && ResumeAt(q.rows, plan).Some?))
    ensures |q.calls| <= |q'.calls| && q.calls == q'.calls[..|q.calls|]
    ensures forall c :: c in CallsSince(q', |q.calls|) ==>
              ResumeAt(q.rows, plan).Some? &&
              exists i :: 0 <= i < |listed| && !Finished(listed[i]) && c.kind == ToRebuild && c.tx == Some(listed[i].tx)
  {
    if ResumeAt(q.rows, plan).Some? {
      ProcessShape(Reopened(q).(rows := listed, running := true), ResumeAt(q.rows, plan).value, external);
    }
  }

  /** Once nothing needs review, an unfinished row of the new list is one the fresh plan lists. */
  lemma ExecutableIsListed(rows: seq<Row>, plan: seq<QueuedTx>, j: nat)
    requires var listed := History(rows) + Unresolved(rows, plan);
             j < |listed| && !Finished(listed[j]) && (listed[j].status != ReviewNeeded || ResumeAt(rows, plan).Some?)
    ensures Listed(plan, Completed(rows), (History(rows) + Unresolved(rows, plan))[j].tx)
  {
    var unresolved := Unresolved(rows, plan);
    var listed := History(rows) + unresolved;
    HistoryFinished(rows, unresolved);
    assert listed[j] in unresolved;
    UnresolvedFacts(rows, plan);
    WaitingIsReviewed(rows, plan, listed[j]);
  }

  /** With a retained refresh failure the only call a resume may make is one refresh retry. */
  lemma ResumeOnlyRetries(q: Queue, plan: seq<QueuedTx>, external: Invariant)
    requires q.identity.Some? && q.refreshFailure.Some?
    ensures var q' := Resume(q, plan, external);
      && |q.calls| <= |q'.calls| <= |q.calls| + 1 && q.calls == q'.calls[..|q.calls|]
      && (forall c :: c in CallsSince(q', |q.calls|) ==> c.kind == ToRetryRefresh && c.index == q.refreshFailure.value)
      && (forall j :: 0 <= j < |q.rows| && j != q.refreshFailure.value ==>
        |q'.rows| == |q.rows| && q'.rows[j] == q.rows[j])
  {
  }

  // ---------------------------------------------------------------------------
  // Running means someone is at work
  // ---------------------------------------------------------------------------

  /** The queue shows itself as running exactly while a live continuation is outstanding. */
  ghost predicate HonestRunning(q: Queue)
  {
    q.running <==> exists t :: Live(q, t)
  }

  lemma {:induction false} ProcessHonest(q: Queue, index: nat, external: Invariant)
    requires NoLive(q) && q.running
    ensures HonestRunning(ProcessAt(q, index, external))
    decreases |q.rows| - index
  {
    if index < |q.rows| {
      if Finished(q.rows[index]) {
        ProcessHonest(q, index + 1, external);
      } else if InvariantNow(q, external) == Holds {
        assert Live(ProcessAt(q, index, external), Rebuilding(index, q.generation, q.rows[index].tx));
      }
    }
  }

  lemma RebuildHonest(rest: Queue, t: Task, outcome: RebuildOutcome, external: Invariant)
    requires NoLive(rest) && rest.running && t.Rebuilding? && t.run == rest.generation
    ensures HonestRunning(AfterRebuild(rest, t, outcome, external))
  {
    if outcome.RebuildSkipped? {
      ProcessHonest(SetRow(rest, t.index, Skipped), t.index + 1, external);
    } else if outcome.RebuildReady? && InvariantNow(rest, external) == Holds {
      assert Live(AfterRebuild(rest, t, outcome, external), Confirming(t.index, t.run, t.tx));
    }
  }

  lemma ConfirmHonest(rest: Queue, t: Task, outcome: ConfirmOutcome, external: Invariant)
    requires NoLive(rest) && rest.running && t.Confirming? && t.run == rest.generation
    ensures HonestRunning(AfterConfirm(rest, t, outcome, external))
  {
    if outcome.ConfirmSucceeded? {
      ProcessHonest(SetRow(rest, t.index, Confirmed), t.index + 1, external);
    } else if outcome.ConfirmInvalid? && NothingLeft(outcome.codes) {
      ProcessHonest(SetRow(rest, t.index, Skipped), t.index + 1, external);
    }
  }

  lemma RetryHonest(rest: Queue, t: Task, outcome: RetryOutcome, external: Invariant)
    requires NoLive(rest) && rest.running && t.Retrying? && t.run == rest.generation
    ensures HonestRunning(AfterRetry(rest, t, outcome, external))
  {
    if outcome.RetrySucceeded? {
      ProcessHonest(SetRow(rest, t.index, Confirmed).(refreshFailure := None), t.index + 1, external);
    }
  }

  lemma StaleHonest(q: Queue, t: Task)
    requires HonestRunning(q) && t.run != q.generation
    ensures HonestRunning(q.(tasks := q.tasks - {t}))
  {
    var rest := q.(tasks := q.tasks - {t});
    assert forall u :: Live(rest, u) <==> Live(q, u);
  }

  lemma SettleHonest(q: Queue, t: Task, o: Occurrence)
    requires Inv(q) && HonestRunning(q) && t in q.tasks && SettledTask(o.event) == Some(t)
    ensures HonestRunning(Step(q, o))
  {
    var rest := q.(tasks := q.tasks - {t});
    if t.run == q.generation {
      TakeLive(q, t);
      assert Live(q, t);
      match o.event {
        case RebuildSettles(_, outcome) => if t.Rebuilding? { RebuildHonest(rest, t, outcome, o.external); }
        case ConfirmSettles(_, outcome) => if t.Confirming? { ConfirmHonest(rest, t, outcome, o.external); }
        case RetrySettles(_, outcome) => if t.Retrying? { RetryHonest(rest, t, outcome, o.external); }
      }
    } else {
      StaleContinuationIsInert(q, o, t);
      StaleHonest(q, t);
    }
  }

  lemma ResumeRefreshHonest(q: Queue, index: nat, external: Invariant)
    requires NoLive(q) && q.running
    ensures HonestRunning(ResumeRefresh(q, index, external))
  {
    if InvariantNow(q, external) == Holds {
      assert Live(ResumeRefresh(q, index, external), Retrying(index, q.generation));
    }
  }

  lemma RelistHonest(q: Queue, rows: seq<Row>, from: Option<nat>, external: Invariant)
    requires NoLive(q)
    ensures HonestRunning(Relisted(q, rows, from, external))
  {
    if from.Some? {
      ProcessHonest(q.(rows := rows, running := true), from.value, external);
    }
  }

  lemma StepHonest(q: Queue, o: Occurrence)
    requires Inv(q) && HonestRunning(q) && !o.event.Unmount?
    ensures HonestRunning(Step(q, o))
  {
    match o.event {
      case CallStart(plan) => RelistHonest(Reopened(q).(refreshFailure := None), Queued(plan), Some(0), o.external);
      case CallResume(plan) =>
        RelistHonest(Reopened(q), History(q.rows) + Unresolved(q.rows, plan), ResumeAt(q.rows, plan), o.external);
        if q.refreshFailure.Some? {
          ResumeRefreshHonest(Reopened(q).(running := true), q.refreshFailure.value, o.external);
        }
      case CallAcceptReview(plan) =>
        var work := Queued(Current(plan, Completed(q.rows)));
        RelistHonest(Reopened(q).(refreshFailure := None), History(q.rows) + work,
                     if work == [] then None else Some(|History(q.rows)|), o.external);
      case WalletIs(identity) => assert forall t :: Live(Step(q, o), t) <==> Live(q, t);
      case RebuildSettles(t, _) => if t in q.tasks { SettleHonest(q, t, o); }
      case ConfirmSettles(t, _) => if t in q.tasks { SettleHonest(q, t, o); }
      case RetrySettles(t, _) => if t in q.tasks { SettleHonest(q, t, o); }
    }
  }

  /** While mounted, the queue never claims to run with nobody at work, nor works unannounced. */
  lemma {:induction false} RunningIsHonest(events: seq<Occurrence>)
    requires RunPlansApart(events) && forall o :: o in events ==> !o.event.Unmount?
    ensures HonestRunning(Run(IDLE, events))
    decreases |events|
  {
    if events != [] {
      var last := |events| - 1;
      assert forall o :: o in events[..last] ==> o in events;
      RunningIsHonest(events[..last]);
      RunKeeps(IDLE, events[..last]);
      assert events[last] in events;
      StepHonest(Run(IDLE, events[..last]), events[last]);
    }
  }
}
