/**
 When a resumed Claim All queue goes on, with what, and when it stops for a review instead.
 */
module QueueResume {
  import opened Wrappers
  import opened Sequences
  import opened Identities
  import opened ClaimTx
  import opened QueueModel
  import opened QueueSafety
  import opened QueueProgress

  /** What the unfinished rows still claim, in order; a row that claims nothing is dropped. */
  function Remaining(rows: seq<Row>): seq<QueuedTx>
  {
    if rows == [] then []
    else (if !Finished(rows[0]) && Keys(rows[0].tx) != {} then [rows[0].tx] else []) + Remaining(rows[1..])
  }

  /** The plan has `now` for the group, once what is completed has been struck out. */
  predicate Lists(plan: seq<QueuedTx>, done: set<Key>, group: Group, now: QueuedTx)
  {
    exists p :: p in plan && GroupOf(p) == group && WithoutCompleted(p, done) == Some(now)
  }

  /** Whatever the fresh plan has for the group of the transaction is that transaction. */
  ghost predicate AsReviewed(plan: seq<QueuedTx>, done: set<Key>, tx: QueuedTx)
  {
    forall now :: Lists(plan, done, GroupOf(tx), now) ==> SameTx(tx, now)
  }

  /** Nothing in the fresh plan differs from what the unfinished rows show, and nothing in it is new. */
  ghost predicate NothingToReview(rows: seq<Row>, plan: seq<QueuedTx>)
  {
    var done := Completed(rows);
    && (forall tx :: tx in Remaining(rows) ==> AsReviewed(plan, done, tx))
    && (forall group, now :: Lists(plan, done, group, now) ==>
          exists tx :: tx in Remaining(rows) && GroupOf(tx) == group)
  }

  ghost predicate StillListed(plan: seq<QueuedTx>, done: set<Key>, tx: QueuedTx)
  {
    exists now :: Lists(plan, done, GroupOf(tx), now)
  }

  /** The fates fit the plan: a remaining transaction has vanished exactly when the plan has nothing for its group. */
  ghost predicate FatesFit(rows: seq<Row>, plan: seq<QueuedTx>, fates: seq<Fate>)
  {
    var work := Remaining(rows);
    && |fates| == |work|
    && forall j :: 0 <= j < |work| ==> (fates[j].Vanished? <==> !StillListed(plan, Completed(rows), work[j]))
  }

  // ---------------------------------------------------------------------------
  // The list after a resume
  // ---------------------------------------------------------------------------

  lemma {:induction false} CurrentListsIff(plan: seq<QueuedTx>, done: set<Key>, now: QueuedTx)
    ensures now in Current(plan, done) <==> Lists(plan, done, GroupOf(now), now)
  {
    if plan != [] {
      CurrentListsIff(plan[1..], done, now);
      assert plan == [plan[0]] + plan[1..];
      if Lists(plan, done, GroupOf(now), now) && WithoutCompleted(plan[0], done) != Some(now) {
        var p :| p in plan && GroupOf(p) == GroupOf(now) && WithoutCompleted(p, done) == Some(now);
        assert p in plan[1..];
      }
    }
  }

  lemma LatestIsListed(plan: seq<QueuedTx>, done: set<Key>, group: Group)
    ensures var latest := LatestOf(Current(plan, done), group);
      && (latest.Some? ==> Lists(plan, done, group, latest.value))
      && (latest.None? ==> forall now :: !Lists(plan, done, group, now))
  {
    var latest := LatestOf(Current(plan, done), group);
    if latest.Some? {
      CurrentListsIff(plan, done, latest.value);
    } else {
      forall now ensures !Lists(plan, done, group, now) {
        CurrentListsIff(plan, done, now);
      }
    }
  }

  /** Each transaction as a resume lists it: waiting, or skipped when the plan has nothing for its group. */
  function AsListed(work: seq<QueuedTx>, current: seq<QueuedTx>): (rows: seq<Row>)
    ensures |rows| == |work|
    ensures forall j :: 0 <= j < |work| ==>
      rows[j] == Row(work[j], if LatestOf(current, GroupOf(work[j])).Some? then Waiting else Skipped, None)
  {
    if work == [] then []
    else [Row(work[0], if LatestOf(current, GroupOf(work[0])).Some? then Waiting else Skipped, None)]
         + AsListed(work[1..], current)
  }

  lemma RowAsReviewed(row: Row, plan: seq<QueuedTx>, done: set<Key>)
    requires !Finished(row) ==> Keys(row.tx) !! done
    requires !Finished(row) && Keys(row.tx) != {} ==> AsReviewed(plan, done, row.tx)
    ensures ReconciledRow(row, Current(plan, done), done)
         == AsListed(if !Finished(row) && Keys(row.tx) != {} then [row.tx] else [], Current(plan, done))
  {
    if !Finished(row) {
      NothingStruck(row.tx, done);
      LatestIsListed(plan, done, GroupOf(row.tx));
    }
  }

  lemma {:induction false} AsListedAppend(a: seq<QueuedTx>, b: seq<QueuedTx>, current: seq<QueuedTx>)
    ensures AsListed(a + b, current) == AsListed(a, current) + AsListed(b, current)
  {
  }

  /** Rows whose keys are all still to be claimed, and that are as reviewed, reconcile to themselves. */
  lemma {:induction false} ReconciledAsReviewed(rows: seq<Row>, plan: seq<QueuedTx>, done: set<Key>)
    requires forall r :: r in rows && !Finished(r) ==> Keys(r.tx) !! done
    requires forall tx :: tx in Remaining(rows) ==> AsReviewed(plan, done, tx)
    ensures Reconciled(rows, Current(plan, done), done) == AsListed(Remaining(rows), Current(plan, done))
  {
    if rows != [] {
      var first := if !Finished(rows[0]) && Keys(rows[0].tx) != {} then [rows[0].tx] else [];
      var rest := Remaining(rows[1..]);
      assert Remaining(rows) == first + rest;
      assert forall r :: r in rows[1..] ==> r in rows;
      assert forall tx :: tx in rest ==> tx in first + rest;
      ReconciledAsReviewed(rows[1..], plan, done);
      assert rows[0] in rows;
      assert !Finished(rows[0]) && Keys(rows[0].tx) != {} ==> rows[0].tx in first + rest;
      RowAsReviewed(rows[0], plan, done);
      AsListedAppend(first, rest, Current(plan, done));
    }
  }

  lemma ListedByFates(rows: seq<Row>, plan: seq<QueuedTx>, fates: seq<Fate>)
    requires FatesFit(rows, plan, fates)
    ensures AsListed(Remaining(rows), Current(plan, Completed(rows))) == RowsAt(Remaining(rows), fates, 0, false)
  {
    var done, work := Completed(rows), Remaining(rows);
    forall j | 0 <= j < |work|
      ensures LatestOf(Current(plan, done), GroupOf(work[j])).Some? <==> !fates[j].Vanished?
    {
      LatestIsListed(plan, done, GroupOf(work[j]));
    }
  }

  lemma {:induction false} RemainingFacts(rows: seq<Row>, tx: QueuedTx)
    ensures tx in Remaining(rows) <==> exists r :: r in rows && !Finished(r) && Keys(r.tx) != {} && r.tx == tx
  {
    if rows != [] {
      RemainingFacts(rows[1..], tx);
      assert rows == [rows[0]] + rows[1..];
    }
  }

  lemma UnfinishedUncompleted(rows: seq<Row>, r: Row)
    requires Apart(rows) && r in rows && !Finished(r)
    ensures Keys(r.tx) !! Completed(rows)
  {
    var i :| 0 <= i < |rows| && rows[i] == r;
    forall f | f in rows && Finished(f) ensures Keys(f.tx) !! Keys(r.tx) {
      var j :| 0 <= j < |rows| && rows[j] == f;
    }
  }

  lemma {:induction false} NothingAdded(current: seq<QueuedTx>, matched: set<Group>)
    requires forall c :: c in current ==> GroupOf(c) in matched
    ensures Added(current, matched) == []
  {
    if current != [] {
      NothingAdded(current[1..], matched);
    }
  }

  lemma AllMatched(rows: seq<Row>, plan: seq<QueuedTx>)
    requires Apart(rows) && NothingToReview(rows, plan)
    ensures var done := Completed(rows);
      forall c :: c in Current(plan, done) ==> GroupOf(c) in Matched(rows, Current(plan, done), done)
  {
    var done := Completed(rows);
    var current := Current(plan, done);
    forall c | c in current ensures GroupOf(c) in Matched(rows, current, done) {
      CurrentListsIff(plan, done, c);
      var tx :| tx in Remaining(rows) && GroupOf(tx) == GroupOf(c);
      RemainingFacts(rows, tx);
      var r :| r in rows && !Finished(r) && Keys(r.tx) != {} && r.tx == tx;
      UnfinishedUncompleted(rows, r);
      NothingStruck(r.tx, done);
    }
  }

  lemma UnresolvedAsReviewed(rows: seq<Row>, plan: seq<QueuedTx>, fates: seq<Fate>)
    requires Apart(rows) && NothingToReview(rows, plan) && FatesFit(rows, plan, fates)
    ensures Unresolved(rows, plan) == RowsAt(Remaining(rows), fates, 0, false)
  {
    var done := Completed(rows);
    forall r | r in rows && !Finished(r) ensures Keys(r.tx) !! done {
      UnfinishedUncompleted(rows, r);
    }
    ReconciledAsReviewed(rows, plan, done);
    ListedByFates(rows, plan, fates);
    AllMatched(rows, plan);
    NothingAdded(Current(plan, done), Matched(rows, Current(plan, done), done));
  }

  /** Where rows listed by their fates are resumed: at the first that has not vanished. */
  function ResumePoint(finished: nat, fates: seq<Fate>): Option<nat>
  {
    if Upcoming(fates, 0) < |fates| then Some(finished + Upcoming(fates, 0)) else None
  }

  lemma FirstWaitingIsUpcoming(work: seq<QueuedTx>, fates: seq<Fate>, finished: nat)
    requires |work| == |fates|
    ensures FirstToResume(finished, RowsAt(work, fates, 0, false)) == ResumePoint(finished, fates)
  {
    var rows, m := RowsAt(work, fates, 0, false), Upcoming(fates, 0);
    assert forall j :: 0 <= j < |fates| ==> rows[j].status == if fates[j].Vanished? then Skipped else Waiting;
    assert FirstWaiting(rows).Some? ==> FirstWaiting(rows).value >= m;
    assert !NeedsReview(rows);
  }

  /** The unresolved rows are the remaining transactions, as their fates list them. */
  ghost predicate ListedAs(rows: seq<Row>, plan: seq<QueuedTx>, fates: seq<Fate>)
  {
    |fates| == |Remaining(rows)| && Unresolved(rows, plan) == RowsAt(Remaining(rows), fates, 0, false)
  }

  // ---------------------------------------------------------------------------
  // Going on
  // ---------------------------------------------------------------------------

  function ResumedJob(q: Queue, fates: seq<Fate>): Job
    requires q.identity.Some?
  {
    JobOf(q, History(q.rows), Remaining(q.rows), fates)
  }

  lemma ResumeIsRelisted(q: Queue, plan: seq<QueuedTx>, unresolved: seq<Row>)
    requires q.identity.Some? && q.refreshFailure == None && unresolved == Unresolved(q.rows, plan)
    ensures Resume(q, plan, Holds)
         == Relisted(Reopened(q), History(q.rows) + unresolved, FirstToResume(|History(q.rows)|, unresolved), Holds)
  {
  }

  lemma RelistedWorks(job: Job, q: Queue, rows: seq<Row>)
    requires Sound(job) && q.identity == q.owner == Some(job.who) && q.generation == job.run
    requires !q.paused && q.pauseReason == None && q.calls == job.calls
    requires rows == job.history + RowsAt(job.plan, job.fates, 0, false)
    ensures Working(job, 0, Relisted(q, rows, ResumePoint(|job.history|, job.fates), Holds))
  {
    if Upcoming(job.fates, 0) < |job.fates| {
      RelistWorks(job, q, rows, |job.history| + Upcoming(job.fates, 0));
    } else {
      NothingWorks(job, q, rows);
    }
  }

  lemma ListingWorks(q: Queue, plan: seq<QueuedTx>, fates: seq<Fate>)
    requires q.identity.Some? && q.refreshFailure == None
    requires ListedAs(q.rows, plan, fates) && Sound(ResumedJob(q, fates))
    ensures Working(ResumedJob(q, fates), 0, Resume(q, plan, Holds))
  {
    var unresolved := RowsAt(Remaining(q.rows), fates, 0, false);
    FirstWaitingIsUpcoming(Remaining(q.rows), fates, |History(q.rows)|);
    ResumeIsRelisted(q, plan, unresolved);
    RelistedWorks(ResumedJob(q, fates), Reopened(q), History(q.rows) + unresolved);
  }

  /** The remaining transactions before `first` are no longer listed, and `first`, if there is one, is. */
  ghost predicate FirstListed(rows: seq<Row>, plan: seq<QueuedTx>, first: nat)
  {
    var work := Remaining(rows);
    && first <= |work| && (first < |work| ==> StillListed(plan, Completed(rows), work[first]))
    && forall j :: 0 <= j < first ==> !StillListed(plan, Completed(rows), work[j])
  }

  ghost function FatesOf(rows: seq<Row>, plan: seq<QueuedTx>): (fates: seq<Fate>)
    ensures FatesFit(rows, plan, fates)
  {
    var work := Remaining(rows);
    seq(|work|, j requires 0 <= j < |work| => if StillListed(plan, Completed(rows), work[j]) then Claims else Vanished)
  }

  lemma FirstListedIsUpcoming(rows: seq<Row>, plan: seq<QueuedTx>, first: nat)
    requires FirstListed(rows, plan, first)
    ensures Upcoming(FatesOf(rows, plan), 0) == first
  {
  }

  lemma RelistTakes(q: Queue, rows: seq<Row>, at: nat)
    requires at < |rows| && !Finished(rows[at]) && q.identity.Some? && q.owner == q.identity
    ensures var q' := Relisted(q, rows, Some(at), Holds);
      q'.running && q'.calls == q.calls + [Call(ToRebuild, at, Some(rows[at].tx), rows, q.identity, q.owner, Holds)]
  {
    assert InvariantNow(q.(rows := rows, running := true), Holds) == Holds;
  }

  lemma ListingGoesOn(q: Queue, plan: seq<QueuedTx>, fates: seq<Fate>)
    requires q.identity.Some? && q.refreshFailure == None && ListedAs(q.rows, plan, fates)
    ensures OneRebuild(q, Upcoming(fates, 0), Resume(q, plan, Holds))
  {
    var work, first := Remaining(q.rows), Upcoming(fates, 0);
    var unresolved := RowsAt(work, fates, 0, false);
    FirstWaitingIsUpcoming(work, fates, |History(q.rows)|);
    ResumeIsRelisted(q, plan, unresolved);
    if first < |work| {
      var rows, at := History(q.rows) + unresolved, |History(q.rows)| + first;
      assert rows[at] == Row(work[first], Waiting, None);
      RelistTakes(Reopened(q), rows, at);
    }
  }

  /** One call was made, a rebuild of that remaining transaction; without it, none, and the queue is at rest. */
  predicate OneRebuild(q: Queue, first: nat, q': Queue)
  {
    var work := Remaining(q.rows);
    if first >= |work| then q'.calls == q.calls && !q'.running
    else
      && q'.running && |q'.calls| == |q.calls| + 1 && q.calls <= q'.calls
      && q'.calls[|q.calls|].kind == ToRebuild && q'.calls[|q.calls|].tx == Some(work[first])
  }

  /**
   With no failed refresh held on to and nothing to review, a resume makes exactly one call: a
   rebuild of the first remaining transaction the fresh plan still lists; without one, none.
   */
  lemma ResumeGoesOn(q: Queue, plan: seq<QueuedTx>, first: nat)
    requires Inv(q) && q.identity.Some? && q.refreshFailure == None
    requires NothingToReview(q.rows, plan) && FirstListed(q.rows, plan, first)
    ensures OneRebuild(q, first, Resume(q, plan, Holds))
  {
    UnresolvedAsReviewed(q.rows, plan, FatesOf(q.rows, plan));
    ListingGoesOn(q, plan, FatesOf(q.rows, plan));
    FirstListedIsUpcoming(q.rows, plan, first);
  }

  /** And it then works off everything that remains, once each and in order, keeping what was finished. */
  lemma ResumedPlanIsClaimed(q: Queue, plan: seq<QueuedTx>, fates: seq<Fate>)
    requires Inv(q) && q.identity.Some? && q.refreshFailure == None
    requires NothingToReview(q.rows, plan) && FatesFit(q.rows, plan, fates)
    requires forall f :: f in fates && f.MootAtLast? ==> QueueOutcomes.Moot(f.codes)
    ensures var job := ResumedJob(q, fates);
      AllDone(job, Run(Resume(q, plan, Holds), Uneventful(job)))
  {
    HistoryFacts(q.rows);
    UnresolvedAsReviewed(q.rows, plan, fates);
    ListingWorks(q, plan, fates);
    WorkEnds(ResumedJob(q, fates), Resume(q, plan, Holds));
  }

  // ---------------------------------------------------------------------------
  // Stopping for a review
  // ---------------------------------------------------------------------------

  /** The row asks for a review, and shows what the fresh plan has instead. */
  predicate AsksReview(plan: seq<QueuedTx>, done: set<Key>, r: Row)
  {
    r.status == ReviewNeeded && r.replacement.Some? && Lists(plan, done, GroupOf(r.tx), r.replacement.value)
  }

  lemma ChangedAsksReview(rows: seq<Row>, plan: seq<QueuedTx>, tx: QueuedTx, now: QueuedTx) returns (r: Row)
    requires Apart(rows) && OnePerGroup(plan) && tx in Remaining(rows)
    requires Lists(plan, Completed(rows), GroupOf(tx), now) && !SameTx(tx, now)
    ensures r in Unresolved(rows, plan) && AsksReview(plan, Completed(rows), r)
  {
    var done := Completed(rows);
    RemainingFacts(rows, tx);
    var source :| source in rows && !Finished(source) && Keys(source.tx) != {} && source.tx == tx;
    UnfinishedUncompleted(rows, source);
    NothingStruck(tx, done);
    ReconciledKeeps(rows, Current(plan, done), done, source);
    var latest := LatestOf(Current(plan, done), GroupOf(tx));
    LatestIsListed(plan, done, GroupOf(tx));
    OneListed(plan, done, GroupOf(tx), now, latest.value);
    r := Reconcile(tx, latest);
  }

  lemma OneListed(plan: seq<QueuedTx>, done: set<Key>, group: Group, a: QueuedTx, b: QueuedTx)
    requires OnePerGroup(plan) && Lists(plan, done, group, a) && Lists(plan, done, group, b)
    ensures a == b
  {
    var p :| p in plan && GroupOf(p) == group && WithoutCompleted(p, done) == Some(a);
    var r :| r in plan && GroupOf(r) == group && WithoutCompleted(r, done) == Some(b);
    var i :| 0 <= i < |plan| && plan[i] == p;
    var j :| 0 <= j < |plan| && plan[j] == r;
    assert i < j || i == j || j < i;
  }

  lemma NewAsksReview(rows: seq<Row>, plan: seq<QueuedTx>, group: Group, now: QueuedTx) returns (r: Row)
    requires Apart(rows) && Lists(plan, Completed(rows), group, now)
    requires forall tx :: tx in Remaining(rows) ==> GroupOf(tx) != group
    ensures r in Unresolved(rows, plan) && AsksReview(plan, Completed(rows), r)
  {
    var done := Completed(rows);
    var current := Current(plan, done);
    CurrentListsIff(plan, done, now);
    AddedFacts(current, Matched(rows, current, done));
    r := Row(now, ReviewNeeded, Some(now));
    forall source | source in rows && !Finished(source) && WithoutCompleted(source.tx, done).Some?
      ensures GroupOf(source.tx) != group
    {
      UnfinishedUncompleted(rows, source);
      NothingStruck(source.tx, done);
      RemainingFacts(rows, source.tx);
    }
  }

  /**
   If anything in the fresh plan differs from what the unfinished rows show, or is new, a resume
   calls nothing and comes to rest, and some row shows what the plan has now for review.
   */
  lemma ResumeStopsForReview(q: Queue, plan: seq<QueuedTx>, external: Invariant)
    requires Inv(q) && q.identity.Some? && q.refreshFailure == None && OnePerGroup(plan)
    requires !NothingToReview(q.rows, plan)
    ensures var q' := Resume(q, plan, external);
      && q'.calls == q.calls && !q'.running
      && exists r :: r in q'.rows && AsksReview(plan, Completed(q.rows), r)
  {
    var done := Completed(q.rows);
    var r: Row;
    if tx :| tx in Remaining(q.rows) && !AsReviewed(plan, done, tx) {
      var now :| Lists(plan, done, GroupOf(tx), now) && !SameTx(tx, now);
      r := ChangedAsksReview(q.rows, plan, tx, now);
    } else {
      var group, now :| Lists(plan, done, group, now) && forall tx :: tx in Remaining(q.rows) ==> GroupOf(tx) != group;
      r := NewAsksReview(q.rows, plan, group, now);
    }
    assert NeedsReview(Unresolved(q.rows, plan));
    assert r in Resume(q, plan, external).rows;
  }
}
