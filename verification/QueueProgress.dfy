/**
 What the Claim All queue achieves: left to itself a generation comes to an end, and when
 nothing stops it, it works off every row it was given, once and in order, whether the queue
 was started, resumed, or sent on after a review.
 */
module QueueProgress {
  import opened Wrappers
  import opened Identities
  import opened ClaimTx
  import opened QueueModel
  import opened QueueSafety
  import opened QueueRepeats
  import opened QueueOutcomes

  // ---------------------------------------------------------------------------
  // A list of work and how it goes
  // ---------------------------------------------------------------------------

  /**
   How a row ends when nothing stops the queue: claimed; gone by the time it is rebuilt; nothing
   left to claim when it is confirmed; or listed as skipped to begin with.
   */
  datatype Fate = Claims | Gone | MootAtLast(codes: seq<string>) | Vanished

  /** The work of one generation: after which rows, for whom, and after which calls. */
  datatype Job = Job(who: Identity, run: nat, history: seq<Row>, plan: seq<QueuedTx>, fates: seq<Fate>,
                     calls: seq<Call>)

  predicate Sound(job: Job)
  {
    && |job.fates| == |job.plan|
    && (forall f :: f in job.fates && f.MootAtLast? ==> Moot(f.codes))
    && forall r :: r in job.history ==> Finished(r)
  }

  /** The first row from `n` on that is to be worked at. */
  function Upcoming(fates: seq<Fate>, n: nat): (m: nat)
    requires n <= |fates|
    ensures n <= m <= |fates| && (m < |fates| ==> !fates[m].Vanished?)
    ensures forall j :: n <= j < m ==> fates[j].Vanished?
    decreases |fates| - n
  {
    if n == |fates| || !fates[n].Vanished? then n else Upcoming(fates, n + 1)
  }

  function StatusAt(fates: seq<Fate>, n: nat, working: bool, j: nat): Status
    requires n <= |fates| && j < |fates|
  {
    if fates[j].Vanished? then Skipped
    else if j < n then (if fates[j].Claims? then Confirmed else Skipped)
    else if working && j == Upcoming(fates, n) then Preparing
    else Waiting
  }

  /** The rows once the first `n` are done, with the next one being worked at or not yet. */
  function RowsAt(plan: seq<QueuedTx>, fates: seq<Fate>, n: nat, working: bool): (rows: seq<Row>)
    requires n <= |plan| == |fates|
    ensures |rows| == |plan|
  {
    seq(|plan|, j requires 0 <= j < |plan| => Row(plan[j], StatusAt(fates, n, working, j), None))
  }

  function RebuildOf(job: Job, n: nat): Task
    requires n < |job.plan|
  {
    Rebuilding(|job.history| + n, job.run, job.plan[n])
  }

  function ConfirmOf(job: Job, n: nat): Task
    requires n < |job.plan|
  {
    Confirming(|job.history| + n, job.run, job.plan[n])
  }

  /** How the promises of row `n` settle. */
  function RowEvents(job: Job, n: nat): seq<Occurrence>
    requires n < |job.plan| == |job.fates|
  {
    var ready := Occurrence(RebuildSettles(RebuildOf(job, n), RebuildReady), Holds);
    match job.fates[n]
    case Claims => [ready] + [Occurrence(ConfirmSettles(ConfirmOf(job, n), ConfirmSucceeded), Holds)]
    case MootAtLast(codes) => [ready] + [Occurrence(ConfirmSettles(ConfirmOf(job, n), ConfirmInvalid(codes)), Holds)]
    case Gone => [Occurrence(RebuildSettles(RebuildOf(job, n), RebuildSkipped), Holds)]
    case Vanished => []
  }

  function AllEvents(job: Job): seq<seq<Occurrence>>
    requires |job.plan| == |job.fates|
  {
    seq(|job.plan|, n requires 0 <= n < |job.plan| => RowEvents(job, n))
  }

  /** The first `n` stretches of events, one after the other. */
  function Joined(stretches: seq<seq<Occurrence>>, n: nat): seq<Occurrence>
    requires n <= |stretches|
  {
    if n == 0 then [] else Joined(stretches, n - 1) + stretches[n - 1]
  }

  /** The promises of all rows settle, one row after the other. */
  function Uneventful(job: Job): seq<Occurrence>
    requires |job.plan| == |job.fates|
  {
    Joined(AllEvents(job), |job.plan|)
  }

  /** What the calls handed to the executor, in order. */
  function Executed(calls: seq<Call>): seq<Option<QueuedTx>>
  {
    if calls == [] then []
    else
      var last := calls[|calls| - 1];
      Executed(calls[..|calls| - 1]) + if last.kind == ToConfirm then [last.tx] else []
  }

  /** The transactions of the first `n` rows that reach the executor. */
  function Handed(plan: seq<QueuedTx>, fates: seq<Fate>, n: nat): seq<Option<QueuedTx>>
    requires n <= |plan| == |fates|
  {
    if n == 0 then []
    else
      var reaches := fates[n - 1].Claims? || fates[n - 1].MootAtLast?;
      Handed(plan, fates, n - 1) + if reaches then [Some(plan[n - 1])] else []
  }

  /** The queue belongs to the job, with the given rows, and has handed out the first `n` so far. */
  ghost predicate On(job: Job, n: nat, rows: seq<Row>, q: Queue)
    requires n <= |job.plan| == |job.fates|
  {
    && q.identity == q.owner == Some(job.who) && q.generation == job.run && !q.paused && q.pauseReason == None
    && q.rows == job.history + rows
    && job.calls <= q.calls && Executed(q.calls[|job.calls|..]) == Handed(job.plan, job.fates, n)
  }

  /** The first `n` rows are done, and the next one is with its rebuild, or the queue is at rest. */
  ghost predicate Working(job: Job, n: nat, q: Queue)
    requires n <= |job.plan| == |job.fates|
  {
    && On(job, n, RowsAt(job.plan, job.fates, n, true), q)
    && var m := Upcoming(job.fates, n);
       (q.running <==> m < |job.plan|) && (m < |job.plan| ==> RebuildOf(job, m) in q.tasks)
  }

  // ---------------------------------------------------------------------------
  // One row
  // ---------------------------------------------------------------------------

  lemma ExecutedSnoc(calls: seq<Call>, n: nat, c: Call)
    requires n <= |calls|
    ensures Executed((calls + [c])[n..]) == Executed(calls[n..]) + if c.kind == ToConfirm then [c.tx] else []
  {
    assert (calls + [c])[n..] == calls[n..] + [c];
    assert (calls[n..] + [c])[..|calls[n..]|] == calls[n..];
  }

  lemma MarkUpcoming(job: Job, n: nat)
    requires n <= |job.plan| == |job.fates| && Upcoming(job.fates, n) < |job.plan|
    ensures var m := Upcoming(job.fates, n);
      (job.history + RowsAt(job.plan, job.fates, n, false))[|job.history| + m := Row(job.plan[m], Preparing, None)]
      == job.history + RowsAt(job.plan, job.fates, n, true)
  {
  }

  lemma NextIsUpcoming(job: Job, n: nat, from: nat)
    requires Sound(job) && n <= |job.plan| && |job.history| + n <= from <= |job.history| + Upcoming(job.fates, n)
    ensures var rows, m := job.history + RowsAt(job.plan, job.fates, n, false), Upcoming(job.fates, n);
      if m < |job.plan| then NextUnfinished(rows, from, |job.history| + m)
      else forall i :: from <= i < |rows| ==> Finished(rows[i])
  {
  }

  lemma UpcomingTaken(job: Job, n: nat, q: Queue, q': Queue)
    requires Sound(job) && n <= |job.plan| && On(job, n, RowsAt(job.plan, job.fates, n, false), q) && q.running
    requires Upcoming(job.fates, n) < |job.plan| && TakesUp(q, |job.history| + Upcoming(job.fates, n), q')
    ensures Working(job, n, q')
  {
    MarkUpcoming(job, n);
    ExecutedSnoc(q.calls, |job.calls|, q'.calls[|q.calls|]);
  }

  /** From where the work stands, processing takes up the next row or comes to rest. */
  lemma Proceeds(job: Job, n: nat, from: nat, q: Queue)
    requires Sound(job) && n <= |job.plan| && On(job, n, RowsAt(job.plan, job.fates, n, false), q) && q.running
    requires |job.history| + n <= from <= |job.history| + Upcoming(job.fates, n)
    ensures Working(job, n, ProcessAt(q, from, Holds))
  {
    var m := Upcoming(job.fates, n);
    NextIsUpcoming(job, n, from);
    if m < |job.plan| {
      ProcessActs(q, from, Holds, |job.history| + m, Holds);
      UpcomingTaken(job, n, q, ProcessAt(q, from, Holds));
    } else {
      ProcessRests(q, from, Holds);
      assert RowsAt(job.plan, job.fates, n, true) == RowsAt(job.plan, job.fates, n, false);
    }
  }

  /** Marking row `n` as its fate says leaves the rows of `n + 1` with nothing taken up yet. */
  lemma RowDone(job: Job, n: nat)
    requires Sound(job) && n < |job.plan| && !job.fates[n].Vanished?
    ensures (job.history + RowsAt(job.plan, job.fates, n, true))
              [|job.history| + n := Row(job.plan[n], if job.fates[n].Claims? then Confirmed else Skipped, None)]
         == job.history + RowsAt(job.plan, job.fates, n + 1, false)
  {
  }

  /** A row that was listed as skipped changes nothing. */
  lemma PassOver(job: Job, n: nat, q: Queue)
    requires Sound(job) && n < |job.plan| && job.fates[n].Vanished? && Working(job, n, q)
    ensures Working(job, n + 1, q)
  {
    assert RowsAt(job.plan, job.fates, n, true) == RowsAt(job.plan, job.fates, n + 1, true);
  }

  /** The row is gone by the time it is rebuilt. */
  lemma RowGone(job: Job, n: nat, q: Queue)
    requires Sound(job) && n < |job.plan| && job.fates[n].Gone? && Working(job, n, q)
    ensures Working(job, n + 1, Step(q, Occurrence(RebuildSettles(RebuildOf(job, n), RebuildSkipped), Holds)))
  {
    var t := RebuildOf(job, n);
    var done := SetRow(q.(tasks := q.tasks - {t}), t.index, Skipped);
    RowDone(job, n);
    Proceeds(job, n + 1, t.index + 1, done);
  }

  /** The rebuild of row `n` is ready and its transaction goes to the executor. */
  lemma RowExecutes(job: Job, n: nat, q: Queue)
    requires Sound(job) && n < |job.plan| && (job.fates[n].Claims? || job.fates[n].MootAtLast?) && Working(job, n, q)
    ensures var q' := Step(q, Occurrence(RebuildSettles(RebuildOf(job, n), RebuildReady), Holds));
      On(job, n + 1, RowsAt(job.plan, job.fates, n, true), q') && q'.running && ConfirmOf(job, n) in q'.tasks
  {
    var t := RebuildOf(job, n);
    var rest := q.(tasks := q.tasks - {t});
    assert InvariantNow(rest, Holds) == Holds;
    var q' := Step(q, Occurrence(RebuildSettles(t, RebuildReady), Holds));
    ExecutedSnoc(q.calls, |job.calls|, q'.calls[|q.calls|]);
  }

  /** The executor finishes row `n`, and the queue goes on. */
  lemma RowFinishes(job: Job, n: nat, q: Queue, outcome: ConfirmOutcome)
    requires Sound(job) && n < |job.plan| && On(job, n + 1, RowsAt(job.plan, job.fates, n, true), q)
    requires q.running && ConfirmOf(job, n) in q.tasks
    requires Ends(job.fates[n], outcome)
    ensures Working(job, n + 1, Step(q, Occurrence(ConfirmSettles(ConfirmOf(job, n), outcome), Holds)))
  {
    assert job.fates[n] in job.fates;
    var done := EndingConfirms(q, ConfirmOf(job, n), outcome, job.fates[n]);
    FinishedGoesOn(job, n, q, done);
  }

  lemma FinishedGoesOn(job: Job, n: nat, q: Queue, done: Queue)
    requires Sound(job) && n < |job.plan| && !job.fates[n].Vanished? && q.running
    requires On(job, n + 1, RowsAt(job.plan, job.fates, n, true), q)
    requires MarkedFrom(q, |job.history| + n, if job.fates[n].Claims? then Confirmed else Skipped, done)
    ensures Working(job, n + 1, ProcessAt(done, |job.history| + n + 1, Holds))
  {
    DoneIsOn(job, n, q, done);
    Proceeds(job, n + 1, |job.history| + n + 1, done);
  }

  /** Only the row's status and the list of promises have changed. */
  predicate MarkedFrom(q: Queue, index: nat, status: Status, done: Queue)
  {
    done == q.(tasks := done.tasks, rows := UpdateRow(q.rows, index, status, None))
  }

  lemma DoneIsOn(job: Job, n: nat, q: Queue, done: Queue)
    requires Sound(job) && n < |job.plan| && !job.fates[n].Vanished?
    requires On(job, n + 1, RowsAt(job.plan, job.fates, n, true), q)
    requires MarkedFrom(q, |job.history| + n, if job.fates[n].Claims? then Confirmed else Skipped, done)
    ensures done.running == q.running
    ensures On(job, n + 1, RowsAt(job.plan, job.fates, n + 1, false), done)
  {
    RowDone(job, n);
  }

  /** The outcome of the confirmation is the one the fate says. */
  predicate Ends(fate: Fate, outcome: ConfirmOutcome)
  {
    match fate
    case Claims => outcome == ConfirmSucceeded
    case MootAtLast(codes) => outcome == ConfirmInvalid(codes)
    case _ => false
  }

  lemma EndingConfirms(q: Queue, t: Task, outcome: ConfirmOutcome, fate: Fate) returns (done: Queue)
    requires t.Confirming? && t in q.tasks && t.run == q.generation
    requires Ends(fate, outcome) && (fate.MootAtLast? ==> Moot(fate.codes))
    ensures MarkedFrom(q, t.index, if fate.Claims? then Confirmed else Skipped, done)
    ensures Step(q, Occurrence(ConfirmSettles(t, outcome), Holds)) == ProcessAt(done, t.index + 1, Holds)
  {
    done := SetRow(q.(tasks := q.tasks - {t}), t.index, if fate.Claims? then Confirmed else Skipped);
  }

  lemma RunOne(q: Queue, o: Occurrence)
    ensures Run(q, [o]) == Step(q, o)
  {
    assert [o][..0] == [];
  }

  lemma RunTwo(q: Queue, a: Occurrence, b: Occurrence)
    ensures Run(q, [a] + [b]) == Step(Step(q, a), b)
  {
    RunOne(q, a);
    RunSnoc(q, [a], b);
  }

  lemma RowIsWorkedOff(job: Job, n: nat, q: Queue)
    requires Sound(job) && n < |job.plan| && Working(job, n, q)
    ensures Working(job, n + 1, Run(q, RowEvents(job, n)))
  {
    var ready := Occurrence(RebuildSettles(RebuildOf(job, n), RebuildReady), Holds);
    match job.fates[n] {
      case Vanished => PassOver(job, n, q);
      case Gone =>
        RunOne(q, Occurrence(RebuildSettles(RebuildOf(job, n), RebuildSkipped), Holds));
        RowGone(job, n, q);
      case Claims =>
        RunTwo(q, ready, Occurrence(ConfirmSettles(ConfirmOf(job, n), ConfirmSucceeded), Holds));
        RowExecutes(job, n, q);
        RowFinishes(job, n, Step(q, ready), ConfirmSucceeded);
      case MootAtLast(codes) =>
        RunTwo(q, ready, Occurrence(ConfirmSettles(ConfirmOf(job, n), ConfirmInvalid(codes)), Holds));
        RowExecutes(job, n, q);
        RowFinishes(job, n, Step(q, ready), ConfirmInvalid(codes));
    }
  }

  // ---------------------------------------------------------------------------
  // The whole list
  // ---------------------------------------------------------------------------

  lemma {:induction false} RunAppend(q: Queue, a: seq<Occurrence>, b: seq<Occurrence>)
    ensures Run(q, a + b) == Run(Run(q, a), b)
    decreases |b|
  {
    if b == [] {
      assert a + b == a;
    } else {
      var last := |b| - 1;
      assert a + b == (a + b[..last]) + [b[last]];
      RunSnoc(q, a + b[..last], b[last]);
      RunAppend(q, a, b[..last]);
    }
  }

  /** The queue after the first `n` stretches, stretch by stretch. */
  function Through(q: Queue, stretches: seq<seq<Occurrence>>, n: nat): Queue
    requires n <= |stretches|
  {
    if n == 0 then q else Run(Through(q, stretches, n - 1), stretches[n - 1])
  }

  lemma {:induction false} JoinedIsThrough(q: Queue, stretches: seq<seq<Occurrence>>, n: nat)
    requires n <= |stretches|
    ensures Run(q, Joined(stretches, n)) == Through(q, stretches, n)
  {
    if n > 0 {
      JoinedIsThrough(q, stretches, n - 1);
      RunAppend(q, Joined(stretches, n - 1), stretches[n - 1]);
    }
  }

  lemma {:induction false} WorkedOff(job: Job, n: nat, q: Queue, stretches: seq<seq<Occurrence>>)
    requires Sound(job) && n <= |job.plan| && Working(job, 0, q) && stretches == AllEvents(job)
    ensures Working(job, n, Through(q, stretches, n))
  {
    if n > 0 {
      WorkedOff(job, n - 1, q, stretches);
      RowIsWorkedOff(job, n - 1, Through(q, stretches, n - 1));
    }
  }

  /**
   The queue is at rest, every row has ended as its fate says, and the executor was handed, once
   each and in order, exactly the transactions that were still there to claim.
   */
  ghost predicate AllDone(job: Job, q: Queue)
    requires |job.plan| == |job.fates|
  {
    && !q.running && !q.paused && |q.rows| == |job.history| + |job.plan| && job.history <= q.rows
    && (forall j :: 0 <= j < |job.plan| ==>
          q.rows[|job.history| + j] == Row(job.plan[j], if job.fates[j].Claims? then Confirmed else Skipped, None))
    && job.calls <= q.calls && Executed(q.calls[|job.calls|..]) == Handed(job.plan, job.fates, |job.plan|)
  }

  lemma WorkEnds(job: Job, q: Queue)
    requires Sound(job) && Working(job, 0, q)
    ensures AllDone(job, Run(q, Uneventful(job)))
  {
    JoinedIsThrough(q, AllEvents(job), |job.plan|);
    WorkedOff(job, |job.plan|, q, AllEvents(job));
  }

  lemma RelistWorks(job: Job, q: Queue, rows: seq<Row>, from: nat)
    requires Sound(job) && q.identity == q.owner == Some(job.who) && q.generation == job.run
    requires !q.paused && q.pauseReason == None && q.calls == job.calls
    requires rows == job.history + RowsAt(job.plan, job.fates, 0, false)
    requires |job.history| <= from <= |job.history| + Upcoming(job.fates, 0)
    ensures Working(job, 0, Relisted(q, rows, Some(from), Holds))
  {
    var listed := q.(rows := rows, running := true);
    assert listed.calls[|job.calls|..] == [];
    Proceeds(job, 0, from, listed);
  }

  lemma NothingWorks(job: Job, q: Queue, rows: seq<Row>)
    requires Sound(job) && q.identity == q.owner == Some(job.who) && q.generation == job.run
    requires !q.paused && q.pauseReason == None && q.calls == job.calls && Upcoming(job.fates, 0) == |job.plan|
    requires rows == job.history + RowsAt(job.plan, job.fates, 0, false)
    ensures Working(job, 0, Relisted(q, rows, None, Holds))
  {
    assert RowsAt(job.plan, job.fates, 0, true) == RowsAt(job.plan, job.fates, 0, false);
    assert q.calls[|job.calls|..] == [];
  }

  /** The work a callback of the current wallet begins. */
  function JobOf(q: Queue, history: seq<Row>, plan: seq<QueuedTx>, fates: seq<Fate>): Job
    requires q.identity.Some?
  {
    Job(q.identity.value, q.generation + 1, history, plan, fates, q.calls)
  }

  /** Started on a plan with nothing in the way, the queue works off the plan. */
  lemma PlanIsClaimed(q: Queue, plan: seq<QueuedTx>, fates: seq<Fate>)
    requires plan != [] && q.identity.Some? && |fates| == |plan|
    requires forall f :: f in fates ==> !f.Vanished? && (f.MootAtLast? ==> Moot(f.codes))
    ensures var job := JobOf(q, [], plan, fates);
      AllDone(job, Run(Start(q, plan, Holds), Uneventful(job)))
  {
    StartWorks(q, plan, fates);
    WorkEnds(JobOf(q, [], plan, fates), Start(q, plan, Holds));
  }

  lemma StartWorks(q: Queue, plan: seq<QueuedTx>, fates: seq<Fate>)
    requires plan != [] && q.identity.Some? && |fates| == |plan| && Sound(JobOf(q, [], plan, fates))
    requires forall f :: f in fates ==> !f.Vanished?
    ensures Working(JobOf(q, [], plan, fates), 0, Start(q, plan, Holds))
  {
    assert Queued(plan) == [] + RowsAt(plan, fates, 0, false);
    RelistWorks(JobOf(q, [], plan, fates), Reopened(q).(refreshFailure := None), Queued(plan), 0);
  }

  /** A plan none of which is completed is taken up as it is. */
  lemma {:induction false} CurrentIsPlan(plan: seq<QueuedTx>, done: set<Key>)
    requires forall tx :: tx in plan ==> Keys(tx) != {} && Keys(tx) !! done
    ensures Current(plan, done) == plan
  {
    if plan != [] {
      CurrentIsPlan(plan[1..], done);
      NothingStruck(plan[0], done);
    }
  }

  /** After an accepted review it works off what is left of the reviewed plan, and keeps what was finished. */
  lemma ReviewIsClaimed(q: Queue, plan: seq<QueuedTx>, fates: seq<Fate>)
    requires q.identity.Some? && |fates| == |Current(plan, Completed(q.rows))|
    requires forall f :: f in fates ==> !f.Vanished? && (f.MootAtLast? ==> Moot(f.codes))
    ensures var work := Current(plan, Completed(q.rows));
      var job := JobOf(q, History(q.rows), work, fates);
      AllDone(job, Run(AcceptReview(q, plan, Holds), Uneventful(job)))
  {
    var work := Current(plan, Completed(q.rows));
    HistoryFacts(q.rows);
    ReviewWorks(q, plan, fates);
    WorkEnds(JobOf(q, History(q.rows), work, fates), AcceptReview(q, plan, Holds));
  }

  lemma ReviewWorks(q: Queue, plan: seq<QueuedTx>, fates: seq<Fate>)
    requires q.identity.Some? && |fates| == |Current(plan, Completed(q.rows))|
    requires Sound(JobOf(q, History(q.rows), Current(plan, Completed(q.rows)), fates))
    requires forall f :: f in fates ==> !f.Vanished?
    ensures Working(JobOf(q, History(q.rows), Current(plan, Completed(q.rows)), fates), 0, AcceptReview(q, plan, Holds))
  {
    var work := Current(plan, Completed(q.rows));
    var job := JobOf(q, History(q.rows), work, fates);
    var begun := Reopened(q).(refreshFailure := None);
    assert Queued(work) == RowsAt(work, fates, 0, false);
    if work == [] {
      NothingWorks(job, begun, History(q.rows) + Queued(work));
    } else {
      RelistWorks(job, begun, History(q.rows) + Queued(work), |History(q.rows)|);
    }
  }

  // ---------------------------------------------------------------------------
  // Every generation comes to an end
  // ---------------------------------------------------------------------------

  /** The most live continuations there can be from this one on, itself included. */
  function Work(q: Queue, t: Task): int
  {
    2 * (|q.rows| - t.index) - if t.Rebuilding? then 0 else 1
  }

  /** Whatever is live after the step has less left to do than `bound`. */
  ghost predicate Below(q: Queue, bound: int)
  {
    forall t :: Live(q, t) ==> 0 < Work(q, t) < bound
  }

  lemma {:induction false} ProcessBelow(q: Queue, index: nat, external: Invariant, bound: int)
    requires NoLive(q) && 2 * (|q.rows| - index) < bound
    ensures Below(ProcessAt(q, index, external), bound)
    decreases |q.rows| - index
  {
    if index < |q.rows| && Finished(q.rows[index]) {
      ProcessBelow(q, index + 1, external, bound);
    }
  }

  /** The event resumes a continuation that is still live. */
  predicate Resumes(q: Queue, o: Occurrence)
  {
    match o.event
    case RebuildSettles(t, _) => Live(q, t) && t.Rebuilding?
    case ConfirmSettles(t, _) => Live(q, t) && t.Confirming?
    case RetrySettles(t, _) => Live(q, t) && t.Retrying?
    case _ => false
  }

  lemma RebuildBelow(rest: Queue, t: Task, outcome: RebuildOutcome, external: Invariant)
    requires NoLive(rest) && t.Rebuilding? && t.run == rest.generation && t.index < |rest.rows|
    ensures Below(AfterRebuild(rest, t, outcome, external), Work(rest, t))
  {
    if outcome.RebuildSkipped? {
      ProcessBelow(SetRow(rest, t.index, Skipped), t.index + 1, external, Work(rest, t));
    }
  }

  lemma ConfirmBelow(rest: Queue, t: Task, outcome: ConfirmOutcome, external: Invariant)
    requires NoLive(rest) && t.Confirming? && t.run == rest.generation && t.index < |rest.rows|
    ensures Below(AfterConfirm(rest, t, outcome, external), Work(rest, t))
  {
    if Finishes(outcome) {
      var status := if outcome.ConfirmSucceeded? then Confirmed else Skipped;
      ProcessBelow(SetRow(rest, t.index, status), t.index + 1, external, Work(rest, t));
    }
  }

  lemma RetryBelow(rest: Queue, t: Task, outcome: RetryOutcome, external: Invariant)
    requires NoLive(rest) && t.Retrying? && t.run == rest.generation && t.index < |rest.rows|
    ensures Below(AfterRetry(rest, t, outcome, external), Work(rest, t))
  {
    if outcome.RetrySucceeded? {
      ProcessBelow(SetRow(rest, t.index, Confirmed).(refreshFailure := None), t.index + 1, external, Work(rest, t));
    }
  }

  /** A live continuation, however it settles, leaves strictly less to do. */
  lemma SettleBelow(q: Queue, t: Task, o: Occurrence)
    requires Inv(q) && SettledTask(o.event) == Some(t) && Resumes(q, o)
    ensures 0 < Work(q, t) && Below(Step(q, o), Work(q, t))
  {
    var rest := q.(tasks := q.tasks - {t});
    TakeLive(q, t);
    match o.event {
      case RebuildSettles(_, outcome) => RebuildBelow(rest, t, outcome, o.external);
      case ConfirmSettles(_, outcome) => ConfirmBelow(rest, t, outcome, o.external);
      case RetrySettles(_, outcome) => RetryBelow(rest, t, outcome, o.external);
    }
  }

  /** How often the run resumes a live continuation. */
  function Resumptions(q: Queue, events: seq<Occurrence>): nat
    decreases |events|
  {
    if events == [] then 0
    else
      var earlier := events[..|events| - 1];
      Resumptions(q, earlier) + if Resumes(Run(q, earlier), events[|events| - 1]) then 1 else 0
  }

  predicate Callback(e: Event)
  {
    e.CallStart? || e.CallResume? || e.CallAcceptReview?
  }

  /** With `spent` resumptions behind it, the queue has at most the rest of its `bound` ahead. */
  ghost predicate Within(q: Queue, spent: nat, bound: nat)
  {
    spent <= bound && forall t :: Live(q, t) ==> spent + Work(q, t) <= bound
  }

  lemma StepWithin(q: Queue, o: Occurrence, spent: nat, bound: nat)
    requires Inv(q) && !Callback(o.event) && Within(q, spent, bound)
    ensures Within(Step(q, o), spent + if Resumes(q, o) then 1 else 0, bound)
  {
    if Resumes(q, o) {
      SettleBelow(q, SettledTask(o.event).value, o);
    } else {
      forall t | Live(Step(q, o), t) ensures Live(q, t) {
      }
    }
  }

  lemma {:induction false} RunWithin(q: Queue, events: seq<Occurrence>)
    requires Inv(q) && forall o :: o in events ==> !Callback(o.event)
    ensures Inv(Run(q, events)) && Within(Run(q, events), Resumptions(q, events), 2 * |q.rows|)
    decreases |events|
  {
    if events == [] {
      assert forall t :: Live(q, t) ==> AtWork(q, t);
    } else {
      var last := |events| - 1;
      assert forall o :: o in events[..last] ==> o in events;
      RunWithin(q, events[..last]);
      assert events[last] in events;
      StepWithin(Run(q, events[..last]), events[last], Resumptions(q, events[..last]), 2 * |q.rows|);
      StepKeeps(Run(q, events[..last]), events[last]);
    }
  }

  /**
   However its promises settle and the wallet changes, until a callback is invoked the queue
   resumes at most twice per row; once it has, nothing that could still move it is outstanding.
   */
  lemma GenerationEnds(q: Queue, events: seq<Occurrence>)
    requires Inv(q) && forall o :: o in events ==> !Callback(o.event)
    ensures Resumptions(q, events) <= 2 * |q.rows|
    ensures Resumptions(q, events) == 2 * |q.rows| ==> forall t :: !Live(Run(q, events), t)
  {
    RunWithin(q, events);
    var q' := Run(q, events);
    forall t | Live(q', t) ensures Work(q', t) > 0 {
      assert AtWork(q', t);
    }
  }
}
