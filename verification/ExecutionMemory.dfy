/**
 How long the registry remembers that a refresh failed, over every interleaving of confirmations,
 settlements, retries and resets.
 */
module ExecutionMemory {
  import opened ExecutionRegistry

  /** A key is remembered when a retained entry of its own is there. */
  lemma RememberedByEntry(x: Executor, key: string)
    requires DistinctKeys(x.entries)
    ensures Remembered(x, key) <==> exists e :: e in x.entries && e.key == key && e.state == Retained
  {
    var i := IndexOf(x.entries, key);
    if i < |x.entries| {
      assert x.entries[i] in x.entries;
    }
    forall e | e in x.entries && e.key == key ensures i < |x.entries| && e == x.entries[i] {
      var j :| 0 <= j < |x.entries| && x.entries[j] == e;
      IndexUnique(x.entries, j);
    }
  }

  /** Settling the run evicts the key: more than the bound are then retained from it on. */
  predicate Evicts(x: Executor, promise: nat, refreshFailed: bool, key: string)
  {
    promise in x.running &&
    var i := IndexOf(x.entries, key);
    RetainedCount(x.entries[i..]) +
      (if refreshFailed && IndexOf(x.entries, x.running[promise]) > i then 1 else 0) > MAX_RETAINED
  }

  /** The event makes the registry forget a key it remembers. */
  predicate Forgets(x: Executor, e: Event, key: string)
  {
    match e
    case Confirms(_) => false
    case Settles(promise, failed) => Evicts(x, promise, failed, key)
    case RetryResolves(active, outcome) => active == key && outcome == RefreshedAtLast
    case Resets(active) => active == key
  }

  lemma SettleMemory(x: Executor, promise: nat, refreshFailed: bool, key: string)
    requires Inv(x) && Remembered(x, key)
    ensures Remembered(Settle(x, promise, refreshFailed), key) <==> !Evicts(x, promise, refreshFailed, key)
  {
    if promise in x.running {
      if refreshFailed {
        FailureForgetsIff(x, promise, key);
      } else {
        SuccessForgetsIff(x, promise, key);
      }
    }
  }

  lemma OtherEntryStays(x: Executor, y: Executor, key: string)
    requires Remembered(x, key) && DistinctKeys(x.entries) && DistinctKeys(y.entries)
    requires forall e :: e in x.entries && e.key == key ==> e in y.entries
    ensures Remembered(y, key)
  {
    RememberedByEntry(y, key);
    assert x.entries[IndexOf(x.entries, key)] in x.entries;
  }

  lemma ConfirmMemory(x: Executor, other: string, key: string)
    requires Inv(x) && Remembered(x, key)
    ensures Remembered(Execute(x, other), key)
  {
    ExecuteKeeps(x, other);
    OtherEntryStays(x, Execute(x, other), key);
  }

  lemma RemovalMemory(x: Executor, other: string, key: string)
    requires Inv(x) && Remembered(x, key)
    ensures var i := IndexOf(x.entries, other);
      i < |x.entries| ==> (Remembered(x.(entries := Without(x.entries, i)), key) <==> other != key)
  {
    var i := IndexOf(x.entries, other);
    if i < |x.entries| {
      WithoutFacts(x.entries, i);
      if other == key {
        NoOtherEntry(x.entries, i);
      } else {
        OtherEntryStays(x, x.(entries := Without(x.entries, i)), key);
      }
    }
  }

  lemma RetryMemory(x: Executor, other: string, outcome: RetryOutcome, key: string)
    requires Inv(x) && Remembered(x, key)
    ensures Remembered(ResolveRetry(x, other, outcome), key) <==> !Forgets(x, RetryResolves(other, outcome), key)
  {
    var i := IndexOf(x.entries, other);
    var y := ResolveRetry(x, other, outcome);
    match outcome {
      case WalletChanged =>
      case RefreshedAtLast => RemovalMemory(x, other, key);
      case RefreshFailedAgain =>
        if i < |x.entries| {
          ReplacedFacts(x.entries, i, Entry(other, x.next, Retained));
        }
        if other == key {
          assert y.entries[i] == Entry(other, x.next, Retained);
          IndexUnique(y.entries, i);
        } else {
          OtherEntryStays(x, y, key);
        }
    }
  }

  /** One event at a time, a remembered key is forgotten exactly when the event says so. */
  lemma StepMemory(x: Executor, e: Event, key: string)
    requires Inv(x) && Remembered(x, key)
    ensures Remembered(Step(x, e), key) <==> !Forgets(x, e, key)
  {
    match e {
      case Confirms(other) => ConfirmMemory(x, other, key);
      case Settles(promise, failed) => SettleMemory(x, promise, failed, key);
      case RetryResolves(other, outcome) => RetryMemory(x, other, outcome, key);
      case Resets(other) => RemovalMemory(x, other, key);
    }
  }

  lemma RememberedNotRunning(x: Executor, key: string)
    requires Inv(x) && Remembered(x, key)
    ensures forall p :: p in x.running ==> x.running[p] != key
  {
    forall p | p in x.running ensures x.running[p] != key {
      var k := RunningEntry(x, p);
    }
  }

  /** Some event of the run makes the registry forget the key. */
  ghost predicate ForgottenDuring(x: Executor, events: seq<Event>, key: string)
  {
    exists n :: 0 <= n < |events| && Forgets(Run(x, events[..n]), events[n], key)
  }

  /**
   Over every run, a key that ended in a failed refresh stays remembered, no run is in flight
   under it and confirming it starts none, until an event evicts it, resets it or refreshes it
   at last.
   */
  lemma {:induction false} FailedIsNotRunAgain(x: Executor, events: seq<Event>, key: string)
    requires Inv(x) && Remembered(x, key) && RetriesApart(x, events)
    ensures Inv(Run(x, events))
    ensures !ForgottenDuring(x, events, key) ==>
      && Remembered(Run(x, events), key) && Execute(Run(x, events), key) == Run(x, events)
      && forall p :: p in Run(x, events).running ==> Run(x, events).running[p] != key
    decreases |events|
  {
    if events == [] {
      RememberedNotRunning(x, key);
    } else {
      var last := |events| - 1;
      var before := Run(x, events[..last]);
      FailedIsNotRunAgain(x, events[..last], key);
      StepKeeps(before, events[last]);
      if !ForgottenDuring(x, events, key) {
        EarlierNotForgotten(x, events, key);
        StepMemory(before, events[last], key);
        RememberedNotRunning(Run(x, events), key);
      }
    }
  }

  lemma EarlierNotForgotten(x: Executor, events: seq<Event>, key: string)
    requires events != [] && !ForgottenDuring(x, events, key)
    ensures !ForgottenDuring(x, events[..|events| - 1], key)
    ensures !Forgets(Run(x, events[..|events| - 1]), events[|events| - 1], key)
  {
    var front := events[..|events| - 1];
    forall n | 0 <= n < |front| ensures !Forgets(Run(x, front[..n]), front[n], key) {
      assert front[..n] == events[..n] && front[n] == events[n];
    }
  }

  /** Within the bound, only a failing refresh evicts, and then the oldest retained entry of a full registry. */
  lemma EvictionNeedsFull(x: Executor, promise: nat, refreshFailed: bool, key: string)
    requires Inv(x) && RetainedCount(x.entries) <= MAX_RETAINED && Remembered(x, key)
    requires Evicts(x, promise, refreshFailed, key)
    ensures refreshFailed && OldestOfFull(x, key)
  {
    var i := IndexOf(x.entries, key);
    CountAppend(x.entries[..i], x.entries[i..]);
    assert x.entries == x.entries[..i] + x.entries[i..];
  }

  /** The registry retains as many failures as it may, and this key's came first. */
  predicate OldestOfFull(x: Executor, key: string)
  {
    RetainedCount(x.entries) == MAX_RETAINED && RetainedCount(x.entries[..IndexOf(x.entries, key)]) == 0
  }

  /** Confirmations and settlements only. */
  predicate NoRetryOrReset(events: seq<Event>)
  {
    forall i :: 0 <= i < |events| ==> events[i].Confirms? || events[i].Settles?
  }

  /** At some settlement of the run the key was the oldest failure of a full registry. */
  ghost predicate EvictedDuring(x: Executor, events: seq<Event>, key: string)
  {
    exists n :: 0 <= n < |events| && events[n].Settles? && OldestOfFull(Run(x, events[..n]), key)
  }

  lemma EvictedEarlier(x: Executor, events: seq<Event>, key: string)
    requires events != [] && EvictedDuring(x, events[..|events| - 1], key)
    ensures EvictedDuring(x, events, key)
  {
    var front := events[..|events| - 1];
    var n :| 0 <= n < |front| && front[n].Settles? && OldestOfFull(Run(x, front[..n]), key);
    assert front[..n] == events[..n] && events[n] == front[n];
  }

  /**
   Over every interleaving of confirmations and settlements, a key that ended in a failed refresh
   is not run again unless, at some settlement, it was the oldest failure of a full registry.
   */
  lemma {:induction false} NotRunAgainUnlessEvicted(x: Executor, events: seq<Event>, key: string)
    requires Inv(x) && RetainedCount(x.entries) <= MAX_RETAINED && Remembered(x, key) && NoRetryOrReset(events)
    ensures Inv(Run(x, events)) && RetainedCount(Run(x, events).entries) <= MAX_RETAINED
    ensures EvictedDuring(x, events, key)
         || (Remembered(Run(x, events), key)
             && forall p :: p in Run(x, events).running ==> Run(x, events).running[p] != key)
    decreases |events|
  {
    if events == [] {
      RememberedNotRunning(x, key);
    } else {
      var last := |events| - 1;
      var front, e := events[..last], events[last];
      NotRunAgainUnlessEvicted(x, front, key);
      StepBound(Run(x, front), e);
      if EvictedDuring(x, front, key) {
        EvictedEarlier(x, events, key);
      } else {
        StepMemory(Run(x, front), e, key);
        if Forgets(Run(x, front), e, key) {
          EvictionNeedsFull(Run(x, front), e.promise, e.refreshFailed, key);
          assert events[last].Settles? && OldestOfFull(Run(x, events[..last]), key);
        } else {
          RememberedNotRunning(Run(x, events), key);
        }
      }
    }
  }

  // ---------------------------------------------------------------------------
  // The failure that is forgotten at once can happen
  // ---------------------------------------------------------------------------

  /** Keys told apart by their length. */
  function KeyNo(n: nat): (key: string)
    ensures |key| == n
  {
    if n == 0 then "" else KeyNo(n - 1) + "k"
  }

  /** One run starts; then `n` later ones each start and fail their refresh. */
  function Crowd(n: nat): seq<Event>
  {
    if n == 0 then [Confirms(KeyNo(0))] else Crowd(n - 1) + [Confirms(KeyNo(n))] + [Settles(n, true)]
  }

  function LaterFailures(n: nat): seq<Entry>
  {
    if n == 0 then [] else LaterFailures(n - 1) + [Entry(KeyNo(n), n, Retained)]
  }

  lemma {:induction false} LaterFacts(n: nat)
    ensures RetainedCount(LaterFailures(n)) == n
    ensures forall e :: e in LaterFailures(n) ==> 1 <= |e.key| <= n
  {
    if n > 0 {
      LaterFacts(n - 1);
      CountAppend(LaterFailures(n - 1), [Entry(KeyNo(n), n, Retained)]);
    }
  }

  /** The one early run in flight, in front of `n` remembered failures. */
  function Crowded(n: nat): Executor
  {
    Executor([Entry(KeyNo(0), 0, InFlight)] + LaterFailures(n), map[0 := KeyNo(0)], n + 1)
  }

  lemma AbsentKey(entries: seq<Entry>, key: string, e: Entry)
    requires e.key == key && forall x :: x in entries ==> x.key != key
    ensures IndexOf(entries, key) == |entries| && IndexOf(entries + [e], key) == |entries|
  {
    assert forall i :: 0 <= i < |entries| ==> entries[i] in entries && (entries + [e])[i] == entries[i];
    assert (entries + [e])[|entries|].key == key;
  }

  lemma CrowdEntries(n: nat)
    ensures RetainedCount(Crowded(n).entries) == n
    ensures forall e :: e in Crowded(n).entries ==> |e.key| <= n
  {
    LaterFacts(n);
    CountAppend([Entry(KeyNo(0), 0, InFlight)], LaterFailures(n));
  }

  lemma CrowdStarts(n: nat)
    ensures var x := Crowded(n);
      Execute(x, KeyNo(n + 1)) ==
        Executor(x.entries + [Entry(KeyNo(n + 1), n + 1, InFlight)], map[0 := KeyNo(0), n + 1 := KeyNo(n + 1)], n + 2)
  {
    CrowdEntries(n);
    AbsentKey(Crowded(n).entries, KeyNo(n + 1), Entry(KeyNo(n + 1), n + 1, InFlight));
  }

  lemma CrowdMarked(n: nat)
    ensures var entries := Crowded(n).entries + [Entry(KeyNo(n + 1), n + 1, InFlight)];
      |Crowded(n).entries| < |entries| && Marked(entries, |Crowded(n).entries|) == Crowded(n + 1).entries
  {
    var first, later := [Entry(KeyNo(0), 0, InFlight)], LaterFailures(n);
    assert first + (later + [Entry(KeyNo(n + 1), n + 1, Retained)])
        == (first + later) + [Entry(KeyNo(n + 1), n + 1, Retained)];
  }

  lemma CrowdGrows(n: nat)
    requires n < MAX_RETAINED
    ensures Settle(Execute(Crowded(n), KeyNo(n + 1)), n + 1, true) == Crowded(n + 1)
  {
    var y := Execute(Crowded(n), KeyNo(n + 1));
    CrowdStarts(n);
    CrowdEntries(n);
    AbsentKey(Crowded(n).entries, KeyNo(n + 1), Entry(KeyNo(n + 1), n + 1, InFlight));
    CrowdMarked(n);
    CrowdEntries(n + 1);
    assert y.running[n + 1] == KeyNo(n + 1);
    assert y.running - {n + 1} == map[0 := KeyNo(0)];
  }

  lemma {:induction false} CrowdReaches(n: nat)
    requires n <= MAX_RETAINED
    ensures Run(EMPTY, Crowd(n)) == Crowded(n)
  {
    if n == 0 {
      RunAppend(EMPTY, [], Confirms(KeyNo(0)));
      assert [] + [Confirms(KeyNo(0))] == Crowd(0);
      assert Crowded(0).entries == [Entry(KeyNo(0), 0, InFlight)];
    } else {
      CrowdReaches(n - 1);
      RunAppend(EMPTY, Crowd(n - 1), Confirms(KeyNo(n)));
      RunAppend(EMPTY, Crowd(n - 1) + [Confirms(KeyNo(n))], Settles(n, true));
      CrowdGrows(n - 1);
    }
  }

  /**
   A failure can be forgotten the moment it happens, from the empty registry on: a run that
   outlasts 128 later ones which all failed their refresh is itself the entry evicted.
   */
  lemma FailureCanBeForgottenAtOnce()
    ensures var events := Crowd(MAX_RETAINED) + [Settles(0, true)];
      0 in Run(EMPTY, Crowd(MAX_RETAINED)).running && !Remembered(Run(EMPTY, events), KeyNo(0))
  {
    OutlastedIsForgotten(MAX_RETAINED);
  }

  lemma OutlastedIsForgotten(n: nat)
    requires n == MAX_RETAINED
    ensures 0 in Run(EMPTY, Crowd(n)).running && !Remembered(Run(EMPTY, Crowd(n) + [Settles(0, true)]), KeyNo(0))
  {
    CrowdReaches(n);
    CrowdApart(n);
    NeverTwoInFlight(Crowd(n));
    RunAppend(EMPTY, Crowd(n), Settles(0, true));
    CrowdEntries(n);
    var x := Crowded(n);
    assert IndexOf(x.entries, KeyNo(0)) == 0 && x.entries[0..] == x.entries;
    FailureRememberedIff(x, 0);
  }

  lemma {:induction false} CrowdApart(n: nat)
    ensures RetriesApart(EMPTY, Crowd(n))
  {
    if n > 0 {
      CrowdApart(n - 1);
      var one := Crowd(n - 1) + [Confirms(KeyNo(n))];
      assert one[..|one| - 1] == Crowd(n - 1);
      assert Crowd(n)[..|Crowd(n)| - 1] == one;
    } else {
      assert Crowd(0)[..0] == [];
    }
  }
}
