/**
 The Claim All queue as a state machine. Each step is one stretch of the hook's code that
 runs without awaiting; between steps any callback may be invoked, the wallet may change, and
 any promise still outstanding, however stale, may settle. Every call the queue makes to the
 outside is journalled with what the queue looked like when its guard was asked.
 */
module QueueModel {
  import opened Wrappers
  import opened Sequences
  import opened Text
  import opened Identities
  import opened ClaimTx

  datatype PauseReason = Completeness | Agreement | Hydration | AccountChanged | ChainChanged

  /** The answer of the injected preflight invariants. */
  datatype Invariant = Holds | Broken(reason: PauseReason)

  datatype Status = Waiting | Preparing | Confirmed | Skipped | ReviewNeeded | Paused | RefreshLost | Failed

  datatype Row = Row(tx: QueuedTx, status: Status, replacement: Option<QueuedTx>)

  /** A promise the queue awaits, with what its continuation closed over. */
  datatype Task =
    | Rebuilding(index: nat, run: nat, tx: QueuedTx)
    | Confirming(index: nat, run: nat, tx: QueuedTx)
    | Retrying(index: nat, run: nat)

  datatype RebuildOutcome = RebuildThrew | RebuildReady | RebuildSkipped | RebuildChanged(latest: QueuedTx)

  datatype ConfirmOutcome =
    | ConfirmThrew | ConfirmSucceeded | ConfirmRefreshFailed | ConfirmNeedsReview
    | ConfirmIdentityChanged | ConfirmInvalid(codes: seq<string>) | ConfirmFailed

  datatype RetryOutcome = RetryThrew | RetrySucceeded | RetryIdentityChanged | RetryRefreshFailed | RetryNothing

  datatype CallKind = ToRebuild | ToConfirm | ToRetryRefresh

  /**
   One call outwards, and the queue as the guard found it: just before the row is marked as being
   prepared for a rebuild or a refresh retry. A refresh retry is handed no transaction.
   */
  datatype Call = Call(kind: CallKind, index: nat, tx: Option<QueuedTx>, rows: seq<Row>,
                       current: Option<Identity>, owner: Option<Identity>, guard: Invariant)

  datatype Queue = Queue(
    identity: Option<Identity>,
    owner: Option<Identity>,
    generation: nat,
    rows: seq<Row>,
    refreshFailure: Option<nat>,
    running: bool,
    paused: bool,
    pauseReason: Option<PauseReason>,
    tasks: set<Task>,
    calls: seq<Call>)

  const IDLE := Queue(None, None, 0, [], None, false, false, None, {}, [])

  // ---------------------------------------------------------------------------
  // Shared pieces
  // ---------------------------------------------------------------------------

  predicate Finished(r: Row)
  {
    r.status == Confirmed || r.status == Skipped
  }

  /** A confirmed row is never touched again. */
  function UpdateRow(rows: seq<Row>, index: nat, status: Status, replacement: Option<QueuedTx>): (r: seq<Row>)
    ensures |r| == |rows|
  {
    if index < |rows| && rows[index].status != Confirmed then
      var row := rows[index];
      rows[index := Row(row.tx, status, if replacement.Some? then replacement else row.replacement)]
    else
      rows
  }

  function SetRow(q: Queue, index: nat, status: Status): Queue
  {
    q.(rows := UpdateRow(q.rows, index, status, None))
  }

  function PauseAt(q: Queue, index: nat, reason: PauseReason): Queue
  {
    SetRow(q, index, Paused).(pauseReason := Some(reason), paused := true, running := false)
  }

  function InvariantNow(q: Queue, external: Invariant): Invariant
  {
    if q.owner.None? || q.identity.None? then Broken(AccountChanged)
    else if q.owner.value.chainId != q.identity.value.chainId then Broken(ChainChanged)
    else if Lower(q.owner.value.account) != Lower(q.identity.value.account) then Broken(AccountChanged)
    else external
  }

  function Journal(q: Queue, kind: CallKind, index: nat, tx: Option<QueuedTx>, guard: Invariant): Queue
  {
    q.(calls := q.calls + [Call(kind, index, tx, q.rows, q.identity, q.owner, guard)])
  }

  /** From row `index` on: pass over finished rows, then prepare the first other one. */
  function ProcessAt(q: Queue, index: nat, external: Invariant): Queue
    decreases |q.rows| - index
  {
    if index >= |q.rows| then q.(running := false)
    else if Finished(q.rows[index]) then ProcessAt(q, index + 1, external)
    else
      var now := InvariantNow(q, external);
      if now.Broken? then PauseAt(q, index, now.reason)
      else Prepared(q, index)
  }

  /** The row is handed to a rebuild, and marked as being prepared. */
  function Prepared(q: Queue, index: nat): Queue
    requires index < |q.rows|
  {
    var tx := q.rows[index].tx;
    SetRow(Journal(q, ToRebuild, index, Some(tx), Holds), index, Preparing)
      .(tasks := q.tasks + {Rebuilding(index, q.generation, tx)})
  }

  // ---------------------------------------------------------------------------
  // Callbacks
  // ---------------------------------------------------------------------------

  function Start(q: Queue, plan: seq<QueuedTx>, external: Invariant): Queue
  {
    if plan == [] || q.identity.None? then q
    else
      Relisted(Reopened(q).(refreshFailure := None), Queued(plan), Some(0), external)
  }

  function Queued(plan: seq<QueuedTx>): seq<Row>
  {
    Map(plan, (tx: QueuedTx) => Row(tx, Waiting, None))
  }

  function History(rows: seq<Row>): seq<Row>
  {
    Filter(rows, (r: Row) => Finished(r))
  }

  /** Every key of a finished row. */
  function Completed(rows: seq<Row>): set<Key>
  {
    set r, k | r in rows && Finished(r) && k in Keys(r.tx) :: k
  }

  /** The fresh plan with everything already completed struck out. */
  function Current(plan: seq<QueuedTx>, done: set<Key>): seq<QueuedTx>
  {
    if plan == [] then []
    else
      var left := WithoutCompleted(plan[0], done);
      (if left.Some? then [left.value] else []) + Current(plan[1..], done)
  }

  /** The entry a map built from `current` holds for the group: the last one wins. */
  function LatestOf(current: seq<QueuedTx>, group: Group): (r: Option<QueuedTx>)
    ensures r.Some? ==> r.value in current && GroupOf(r.value) == group
    ensures r.None? <==> forall tx :: tx in current ==> GroupOf(tx) != group
    decreases |current|
  {
    if current == [] then None
    else
      assert current == current[..|current| - 1] + [current[|current| - 1]];
      if GroupOf(current[|current| - 1]) == group then Some(current[|current| - 1])
      else LatestOf(current[..|current| - 1], group)
  }

  /** Compare a reviewed transaction with what the fresh plan says now. */
  function Reconcile(reviewed: QueuedTx, latest: Option<QueuedTx>): Row
  {
    if latest.None? then Row(reviewed, Skipped, None)
    else if SameTx(reviewed, latest.value) then Row(reviewed, Waiting, None)
    else Row(reviewed, ReviewNeeded, latest)
  }

  function ReconciledRow(row: Row, current: seq<QueuedTx>, done: set<Key>): seq<Row>
  {
    if Finished(row) then []
    else
      var reviewed := WithoutCompleted(row.tx, done);
      if reviewed.None? then [] else [Reconcile(reviewed.value, LatestOf(current, GroupOf(reviewed.value)))]
  }

  function Reconciled(rows: seq<Row>, current: seq<QueuedTx>, done: set<Key>): seq<Row>
  {
    if rows == [] then [] else ReconciledRow(rows[0], current, done) + Reconciled(rows[1..], current, done)
  }

  /** Groups of the fresh plan that an unfinished row already stands for. */
  function Matched(rows: seq<Row>, current: seq<QueuedTx>, done: set<Key>): set<Group>
  {
    set r | r in rows && !Finished(r) && WithoutCompleted(r.tx, done).Some?
            && LatestOf(current, GroupOf(r.tx)).Some? :: GroupOf(r.tx)
  }

  /** New work is listed, but only for review. */
  function Added(current: seq<QueuedTx>, matched: set<Group>): seq<Row>
  {
    if current == [] then []
    else (if GroupOf(current[0]) in matched then [] else [Row(current[0], ReviewNeeded, Some(current[0]))])
         + Added(current[1..], matched)
  }

  function Unresolved(rows: seq<Row>, plan: seq<QueuedTx>): seq<Row>
  {
    var done := Completed(rows);
    var current := Current(plan, done);
    Reconciled(rows, current, done) + Added(current, Matched(rows, current, done))
  }

  predicate NeedsReview(rows: seq<Row>)
  {
    exists r :: r in rows && r.status == ReviewNeeded
  }

  function FirstWaiting(rows: seq<Row>): (r: Option<nat>)
    ensures r.Some? ==> r.value < |rows| && rows[r.value].status == Waiting
                        && forall j :: 0 <= j < r.value ==> rows[j].status != Waiting
    ensures r.None? ==> forall j :: 0 <= j < |rows| ==> rows[j].status != Waiting
  {
    if rows == [] then None
    else if rows[0].status == Waiting then Some(0)
    else
      var rest := FirstWaiting(rows[1..]);
      assert forall j :: 0 < j < |rows| ==> rows[j] == rows[1..][j - 1];
      if rest.Some? then Some(rest.value + 1) else None
  }

  /** The row a resumed queue goes on from, unless something must be reviewed or nothing waits. */
  function ResumeAt(rows: seq<Row>, plan: seq<QueuedTx>): Option<nat>
  {
    FirstToResume(|History(rows)|, Unresolved(rows, plan))
  }

  function FirstToResume(finished: nat, unresolved: seq<Row>): Option<nat>
  {
    var first := FirstWaiting(unresolved);
    if NeedsReview(unresolved) || first.None? then None else Some(finished + first.value)
  }

  /** A new generation, owned by the current wallet. */
  function Reopened(q: Queue): Queue
  {
    q.(generation := q.generation + 1, owner := q.identity, paused := false, pauseReason := None)
  }

  function Relisted(q: Queue, rows: seq<Row>, from: Option<nat>, external: Invariant): Queue
  {
    var listed := q.(rows := rows, running := from.Some?);
    if from.None? then listed else ProcessAt(listed, from.value, external)
  }

  function Resume(q: Queue, plan: seq<QueuedTx>, external: Invariant): Queue
  {
    if q.identity.None? then q
    else if q.refreshFailure.Some? then
      ResumeRefresh(Reopened(q).(running := true), q.refreshFailure.value, external)
    else
      Relisted(Reopened(q), History(q.rows) + Unresolved(q.rows, plan), ResumeAt(q.rows, plan), external)
  }

  /** A retained refresh failure is retried as a refresh; nothing is rebuilt or executed. */
  function ResumeRefresh(q: Queue, index: nat, external: Invariant): Queue
  {
    var now := InvariantNow(q, external);
    if now.Broken? then PauseAt(q, index, now.reason) else Retried(q, index)
  }

  function Retried(q: Queue, index: nat): Queue
  {
    SetRow(Journal(q, ToRetryRefresh, index, None, Holds), index, Preparing)
      .(tasks := q.tasks + {Retrying(index, q.generation)})
  }

  function AcceptReview(q: Queue, plan: seq<QueuedTx>, external: Invariant): Queue
  {
    if q.identity.None? then q
    else
      var work := Queued(Current(plan, Completed(q.rows)));
      Relisted(Reopened(q).(refreshFailure := None), History(q.rows) + work,
               if work == [] then None else Some(|History(q.rows)|), external)
  }

  // ---------------------------------------------------------------------------
  // Continuations
  // ---------------------------------------------------------------------------

  function Stopped(q: Queue, index: nat, status: Status): Queue
  {
    SetRow(q, index, status).(running := false)
  }

  function AfterRebuild(q: Queue, t: Task, outcome: RebuildOutcome, external: Invariant): Queue
    requires t.Rebuilding?
  {
    if q.generation != t.run then q
    else match outcome
      case RebuildThrew => Stopped(q, t.index, Failed)
      case RebuildSkipped => ProcessAt(SetRow(q, t.index, Skipped), t.index + 1, external)
      case RebuildChanged(latest) =>
        q.(rows := UpdateRow(q.rows, t.index, ReviewNeeded, Some(latest)), running := false)
      case RebuildReady =>
        var now := InvariantNow(q, external);
        if now.Broken? then PauseAt(q, t.index, now.reason)
        else Journal(q, ToConfirm, t.index, Some(t.tx), now).(tasks := q.tasks + {Confirming(t.index, t.run, t.tx)})
  }

  predicate NothingLeft(codes: seq<string>)
  {
    |codes| > 0 && forall c :: c in codes ==> c == "nothing-claimable" || c == "stream-not-owned"
  }

  /** Which of chain and account to blame when the executor saw the identity change. */
  function IdentityPause(owner: Option<Identity>, current: Option<Identity>): PauseReason
  {
    var ownerChain := if owner.Some? then Some(owner.value.chainId) else None;
    var currentChain := if current.Some? then Some(current.value.chainId) else None;
    if ownerChain != currentChain then ChainChanged else AccountChanged
  }

  function AfterConfirm(q: Queue, t: Task, outcome: ConfirmOutcome, external: Invariant): Queue
    requires t.Confirming?
  {
    if q.generation != t.run then q
    else match outcome
      case ConfirmThrew => Stopped(q, t.index, Failed)
      case ConfirmSucceeded => ProcessAt(SetRow(q, t.index, Confirmed), t.index + 1, external)
      case ConfirmRefreshFailed => Stopped(q, t.index, RefreshLost).(refreshFailure := Some(t.index))
      case ConfirmNeedsReview => Stopped(q, t.index, ReviewNeeded)
      case ConfirmIdentityChanged => PauseAt(q, t.index, IdentityPause(q.owner, q.identity))
      case ConfirmInvalid(codes) =>
        if NothingLeft(codes) then ProcessAt(SetRow(q, t.index, Skipped), t.index + 1, external)
        else Stopped(q, t.index, Failed)
      case ConfirmFailed => Stopped(q, t.index, Failed)
  }

  function AfterRetry(q: Queue, t: Task, outcome: RetryOutcome, external: Invariant): Queue
    requires t.Retrying?
  {
    if q.generation != t.run then q
    else match outcome
      case RetrySucceeded =>
        ProcessAt(SetRow(q, t.index, Confirmed).(refreshFailure := None), t.index + 1, external)
      case RetryIdentityChanged => PauseAt(q, t.index, AccountChanged)
      case RetryRefreshFailed => Stopped(q, t.index, RefreshLost).(refreshFailure := Some(t.index))
      case _ => Stopped(q, t.index, RefreshLost)
  }

  // ---------------------------------------------------------------------------
  // Runs
  // ---------------------------------------------------------------------------

  datatype Event =
    | CallStart(plan: seq<QueuedTx>)
    | CallResume(plan: seq<QueuedTx>)
    | CallAcceptReview(plan: seq<QueuedTx>)
    | WalletIs(identity: Option<Identity>)
    | Unmount
    | RebuildSettles(task: Task, rebuilt: RebuildOutcome)
    | ConfirmSettles(task: Task, confirmed: ConfirmOutcome)
    | RetrySettles(task: Task, retried: RetryOutcome)

  /** One event, with what the injected invariants would say if asked during it. */
  datatype Occurrence = Occurrence(event: Event, external: Invariant)

  function Step(q: Queue, o: Occurrence): Queue
  {
    match o.event
    case CallStart(plan) => Start(q, plan, o.external)
    case CallResume(plan) => Resume(q, plan, o.external)
    case CallAcceptReview(plan) => AcceptReview(q, plan, o.external)
    case WalletIs(identity) => q.(identity := identity)
    case Unmount => q.(generation := q.generation + 1)
    case RebuildSettles(t, outcome) =>
      if t in q.tasks && t.Rebuilding? then AfterRebuild(q.(tasks := q.tasks - {t}), t, outcome, o.external) else q
    case ConfirmSettles(t, outcome) =>
      if t in q.tasks && t.Confirming? then AfterConfirm(q.(tasks := q.tasks - {t}), t, outcome, o.external) else q
    case RetrySettles(t, outcome) =>
      if t in q.tasks && t.Retrying? then AfterRetry(q.(tasks := q.tasks - {t}), t, outcome, o.external) else q
  }

  function Run(q: Queue, events: seq<Occurrence>): Queue
    decreases |events|
  {
    if events == [] then q else Step(Run(q, events[..|events| - 1]), events[|events| - 1])
  }
}
