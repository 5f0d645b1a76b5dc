/**
 The keyed single-flight registry around action execution. Entries keep the order in which
 their keys were inserted; a run that ended in a failed refresh is retained under its key, up
 to a bound, so that confirming again does not write again.
 */
module ExecutionRegistry {
  const MAX_RETAINED := 128

  datatype State = InFlight | Retained

  datatype Entry = Entry(key: string, promise: nat, state: State)

  /** The registry, the executions not yet settled (promise to key), and the next fresh promise. */
  datatype Executor = Executor(entries: seq<Entry>, running: map<nat, string>, next: nat)

  const EMPTY := Executor([], map[], 0)

  function IndexOf(entries: seq<Entry>, key: string): (i: nat)
    ensures i <= |entries| && (i < |entries| ==> entries[i].key == key)
    ensures forall j :: 0 <= j < i ==> entries[j].key != key
  {
    if entries == [] || entries[0].key == key then 0
    else
      assert forall j :: 0 < j < |entries| ==> entries[j] == entries[1..][j - 1];
      1 + IndexOf(entries[1..], key)
  }

  function RetainedCount(entries: seq<Entry>): nat
  {
    if entries == [] then 0 else (if entries[0].state == Retained then 1 else 0) + RetainedCount(entries[1..])
  }

  /** The registry without its first `n` retained entries. */
  function DropRetained(entries: seq<Entry>, n: nat): seq<Entry>
  {
    if entries == [] || n == 0 then entries
    else if entries[0].state == Retained then DropRetained(entries[1..], n - 1)
    else [entries[0]] + DropRetained(entries[1..], n)
  }

  function Excess(entries: seq<Entry>): nat
  {
    if RetainedCount(entries) <= MAX_RETAINED then 0 else RetainedCount(entries) - MAX_RETAINED
  }

  function Trimmed(entries: seq<Entry>): seq<Entry>
  {
    DropRetained(entries, Excess(entries))
  }

  function Without(entries: seq<Entry>, i: nat): seq<Entry>
    requires i < |entries|
  {
    entries[..i] + entries[i + 1..]
  }

  function Marked(entries: seq<Entry>, i: nat): seq<Entry>
    requires i < |entries|
  {
    entries[i := entries[i].(state := Retained)]
  }

  // ---------------------------------------------------------------------------
  // Steps
  // ---------------------------------------------------------------------------

  /** Confirm under a key: join the entry that is there, or start a run. */
  function Execute(x: Executor, key: string): Executor
  {
    if IndexOf(x.entries, key) < |x.entries| then x
    else Executor(x.entries + [Entry(key, x.next, InFlight)], x.running[x.next := key], x.next + 1)
  }

  /** A run settles, in a failed refresh or in any other way. */
  function Settle(x: Executor, promise: nat, refreshFailed: bool): Executor
  {
    if promise !in x.running then x
    else
      var rest := x.(running := x.running - {promise});
      var i := IndexOf(x.entries, x.running[promise]);
      if i == |x.entries| || x.entries[i].promise != promise then rest
      else rest.(entries := Trimmed(if refreshFailed then Marked(x.entries, i) else Without(x.entries, i)))
  }

  datatype RetryOutcome = RefreshedAtLast | RefreshFailedAgain | WalletChanged

  /** A refresh retry writes the registry under whatever key is active when it resolves. */
  function ResolveRetry(x: Executor, activeKey: string, outcome: RetryOutcome): Executor
  {
    var i := IndexOf(x.entries, activeKey);
    match outcome
    case WalletChanged => x
    case RefreshedAtLast => if i < |x.entries| then x.(entries := Without(x.entries, i)) else x
    case RefreshFailedAgain =>
      var resolved := Entry(activeKey, x.next, Retained);
      x.(entries := if i < |x.entries| then x.entries[i := resolved] else x.entries + [resolved], next := x.next + 1)
  }

  function Reset(x: Executor, activeKey: string): Executor
  {
    var i := IndexOf(x.entries, activeKey);
    if i < |x.entries| && x.entries[i].state == Retained then x.(entries := Without(x.entries, i)) else x
  }

  datatype Event =
    | Confirms(key: string)
    | Settles(promise: nat, refreshFailed: bool)
    | RetryResolves(key: string, outcome: RetryOutcome)
    | Resets(key: string)

  function Step(x: Executor, e: Event): Executor
  {
    match e
    case Confirms(key) => Execute(x, key)
    case Settles(promise, failed) => Settle(x, promise, failed)
    case RetryResolves(key, outcome) => ResolveRetry(x, key, outcome)
    case Resets(key) => Reset(x, key)
  }

  function Run(x: Executor, events: seq<Event>): Executor
    decreases |events|
  {
    if events == [] then x else Step(Run(x, events[..|events| - 1]), events[|events| - 1])
  }

  // ---------------------------------------------------------------------------
  // The invariant
  // ---------------------------------------------------------------------------

  predicate DistinctKeys(entries: seq<Entry>)
  {
    forall i, j :: 0 <= i < j < |entries| ==> entries[i].key != entries[j].key
  }

  /** Entries in flight and unsettled runs are the same thing. */
  ghost predicate Tracks(x: Executor)
  {
    && (forall e :: e in x.entries && e.state == InFlight ==> e.promise in x.running && x.running[e.promise] == e.key)
    && (forall p :: p in x.running ==> Entry(x.running[p], p, InFlight) in x.entries)
    && (forall p :: p in x.running ==> p < x.next)
  }

  ghost predicate Inv(x: Executor)
  {
    DistinctKeys(x.entries) && Tracks(x)
  }

  /** At most one unsettled run per key. */
  ghost predicate SingleFlight(x: Executor)
  {
    forall p, q :: p in x.running && q in x.running && x.running[p] == x.running[q] ==> p == q
  }

  lemma InvIsSingleFlight(x: Executor)
    requires Inv(x)
    ensures SingleFlight(x)
  {
    forall p, q | p in x.running && q in x.running && x.running[p] == x.running[q] ensures p == q {
      var i :| 0 <= i < |x.entries| && x.entries[i] == Entry(x.running[p], p, InFlight);
      var j :| 0 <= j < |x.entries| && x.entries[j] == Entry(x.running[q], q, InFlight);
    }
  }

  /** Confirming starts exactly one run when the key has no entry, and otherwise changes nothing. */
  lemma ConfirmStartsIff(x: Executor, key: string)
    ensures var y := Execute(x, key);
      if exists e :: e in x.entries && e.key == key then y == x
      else y.running == x.running[x.next := key] && y.entries == x.entries + [Entry(key, x.next, InFlight)]
  {
    var i := IndexOf(x.entries, key);
    if i < |x.entries| {
      assert x.entries[i] in x.entries;
    }
  }

  // ---------------------------------------------------------------------------
  // Trimming
  // ---------------------------------------------------------------------------

  /** Only retained entries go, and what stays, stays in place order. */
  lemma {:induction false} DropKeeps(entries: seq<Entry>, n: nat)
    ensures forall e :: e in DropRetained(entries, n) ==> e in entries
    ensures forall e :: e in entries && e.state == InFlight ==> e in DropRetained(entries, n)
    ensures DistinctKeys(entries) ==> DistinctKeys(DropRetained(entries, n))
    ensures n <= RetainedCount(entries) ==> RetainedCount(DropRetained(entries, n)) == RetainedCount(entries) - n
  {
    if entries != [] && n > 0 {
      var rest := entries[1..];
      DropKeeps(rest, if entries[0].state == Retained then n - 1 else n);
      assert entries == [entries[0]] + rest;
      if DistinctKeys(entries) {
        HeadKeyFresh(entries);
      }
    }
  }

  lemma HeadKeyFresh(entries: seq<Entry>)
    requires entries != [] && DistinctKeys(entries)
    ensures DistinctKeys(entries[1..]) && forall e :: e in entries[1..] ==> e.key != entries[0].key
  {
    forall e | e in entries[1..] ensures e.key != entries[0].key {
      var j :| 0 <= j < |entries[1..]| && entries[1..][j] == e;
      assert entries[j + 1] == e;
    }
  }

  /** After trimming the bound holds. */
  lemma TrimBounds(entries: seq<Entry>)
    ensures RetainedCount(Trimmed(entries)) <= MAX_RETAINED
  {
    DropKeeps(entries, Excess(entries));
  }

  /** Eviction follows insertion order: an entry goes exactly when it is among the first retained ones. */
  lemma {:induction false} EvictionInOrder(entries: seq<Entry>, n: nat, i: nat)
    requires DistinctKeys(entries) && i < |entries| && entries[i].state == Retained
    ensures entries[i] in DropRetained(entries, n) <==> RetainedCount(entries[..i]) >= n
  {
    if n > 0 {
      var rest := entries[1..];
      HeadKeyFresh(entries);
      if i == 0 {
        DropKeeps(rest, n - 1);
        assert entries[..0] == [];
      } else {
        assert entries[i] == rest[i - 1];
        assert entries[..i][1..] == rest[..i - 1];
        EvictionInOrder(rest, if entries[0].state == Retained then n - 1 else n, i - 1);
      }
    }
  }

  // ---------------------------------------------------------------------------
  // Every step keeps the invariant
  // ---------------------------------------------------------------------------

  lemma WithoutFacts(entries: seq<Entry>, i: nat)
    requires DistinctKeys(entries) && i < |entries|
    ensures DistinctKeys(Without(entries, i))
    ensures forall e :: e in Without(entries, i) <==> e in entries && e != entries[i]
  {
    forall e | e in entries && e != entries[i] ensures e in Without(entries, i) {
      var j :| 0 <= j < |entries| && entries[j] == e;
      assert e in if j < i then entries[..i] else entries[i + 1..];
    }
    forall e | e in Without(entries, i) ensures e in entries && e != entries[i] {
      var j :| 0 <= j < |Without(entries, i)| && Without(entries, i)[j] == e;
      assert e == entries[if j < i then j else j + 1];
    }
  }

  lemma ReplacedFacts(entries: seq<Entry>, i: nat, replacement: Entry)
    requires DistinctKeys(entries) && i < |entries| && replacement.key == entries[i].key
    ensures DistinctKeys(entries[i := replacement])
    ensures forall e :: e in entries[i := replacement] <==> e == replacement || (e in entries && e != entries[i])
  {
    var updated := entries[i := replacement];
    forall e | e == replacement || (e in entries && e != entries[i]) ensures e in updated {
      if e == replacement {
        assert updated[i] == e;
      } else {
        var j :| 0 <= j < |entries| && entries[j] == e;
        assert updated[j] == e;
      }
    }
    forall e | e in updated ensures e == replacement || (e in entries && e != entries[i]) {
      var j :| 0 <= j < |updated| && updated[j] == e;
      assert j != i ==> entries[j] == e;
    }
  }

  lemma ExecuteKeeps(x: Executor, key: string)
    requires Inv(x)
    ensures Inv(Execute(x, key))
  {
    if IndexOf(x.entries, key) == |x.entries| {
      var x' := Execute(x, key);
      forall p | p in x'.running ensures Entry(x'.running[p], p, InFlight) in x'.entries {
        if p != x.next {
          assert Entry(x.running[p], p, InFlight) in x.entries;
        } else {
          assert x'.entries[|x.entries|] == Entry(key, p, InFlight);
        }
      }
    }
  }

  lemma IndexUnique(entries: seq<Entry>, i: nat)
    requires DistinctKeys(entries) && i < |entries|
    ensures IndexOf(entries, entries[i].key) == i
  {
  }

  /** The entry of an unsettled run is the one its key finds. */
  lemma RunningEntry(x: Executor, promise: nat) returns (k: nat)
    requires Inv(x) && promise in x.running
    ensures k < |x.entries| && k == IndexOf(x.entries, x.running[promise])
    ensures x.entries[k] == Entry(x.running[promise], promise, InFlight)
  {
    assert Entry(x.running[promise], promise, InFlight) in x.entries;
    k :| 0 <= k < |x.entries| && x.entries[k] == Entry(x.running[promise], promise, InFlight);
    IndexUnique(x.entries, k);
  }

  /** Once the entry of a settled run is replaced or removed, trimming loses no run. */
  lemma SettledTracks(x: Executor, promise: nat, kept: seq<Entry>)
    requires Inv(x) && promise in x.running && DistinctKeys(kept)
    requires var settled := Entry(x.running[promise], promise, InFlight);
      && (forall e :: e in kept && e.state == InFlight ==> e in x.entries && e != settled)
      && (forall e :: e in x.entries && e.state == InFlight && e != settled ==> e in kept)
    ensures Inv(Executor(Trimmed(kept), x.running - {promise}, x.next))
  {
    DropKeeps(kept, Excess(kept));
    var settled := Entry(x.running[promise], promise, InFlight);
    forall e | e in Trimmed(kept) && e.state == InFlight
      ensures e.promise in x.running - {promise} && (x.running - {promise})[e.promise] == e.key
    {
      assert e in x.entries && e != settled;
    }
    forall p | p in x.running - {promise} ensures Entry(x.running[p], p, InFlight) in Trimmed(kept) {
      assert Entry(x.running[p], p, InFlight) in x.entries;
    }
  }

  lemma SettleKeeps(x: Executor, promise: nat, refreshFailed: bool)
    requires Inv(x)
    ensures Inv(Settle(x, promise, refreshFailed))
    ensures promise in x.running ==> RetainedCount(Settle(x, promise, refreshFailed).entries) <= MAX_RETAINED
  {
    if promise in x.running {
      var k := RunningEntry(x, promise);
      WithoutFacts(x.entries, k);
      ReplacedFacts(x.entries, k, x.entries[k].(state := Retained));
      var kept := if refreshFailed then Marked(x.entries, k) else Without(x.entries, k);
      SettledTracks(x, promise, kept);
      TrimBounds(kept);
    }
  }

  /** The entry under the active key, if any, is not an execution in flight. */
  predicate NotInFlight(x: Executor, key: string)
  {
    var i := IndexOf(x.entries, key);
    i < |x.entries| ==> x.entries[i].state == Retained
  }

  /** Taking an entry away keeps the registry in step exactly when no run stands behind it. */
  lemma RemoveKeepsIff(x: Executor, i: nat)
    requires Inv(x) && i < |x.entries|
    ensures Inv(x.(entries := Without(x.entries, i))) <==> x.entries[i].state == Retained
  {
    var e, x' := x.entries[i], x.(entries := Without(x.entries, i));
    WithoutFacts(x.entries, i);
    assert e in x.entries;
    if e.state == InFlight {
      assert e.promise in x'.running && Entry(x'.running[e.promise], e.promise, InFlight) == e;
      assert !Tracks(x');
    }
  }

  lemma ReplaceKeepsIff(x: Executor, i: nat)
    requires Inv(x) && i < |x.entries|
    ensures Inv(x.(entries := x.entries[i := Entry(x.entries[i].key, x.next, Retained)], next := x.next + 1))
       <==> x.entries[i].state == Retained
  {
    var e := x.entries[i];
    var x' := x.(entries := x.entries[i := Entry(e.key, x.next, Retained)], next := x.next + 1);
    ReplacedFacts(x.entries, i, Entry(e.key, x.next, Retained));
    assert e in x.entries;
    if e.state == InFlight {
      assert e.promise in x'.running && Entry(x'.running[e.promise], e.promise, InFlight) == e;
      assert !Tracks(x');
    }
  }

  /**
   A resolving retry keeps the registry in step with the runs exactly when it writes nothing or
   the active key has no run in flight.
   */
  lemma RetryKeepsIff(x: Executor, key: string, outcome: RetryOutcome)
    requires Inv(x)
    ensures Inv(ResolveRetry(x, key, outcome)) <==> (outcome.WalletChanged? || NotInFlight(x, key))
  {
    var i := IndexOf(x.entries, key);
    if i < |x.entries| {
      RemoveKeepsIff(x, i);
      ReplaceKeepsIff(x, i);
    }
  }

  lemma ResetKeeps(x: Executor, key: string)
    requires Inv(x)
    ensures Inv(Reset(x, key))
  {
    var i := IndexOf(x.entries, key);
    if i < |x.entries| {
      WithoutFacts(x.entries, i);
    }
  }

  /** No retry resolves in the run while a run is in flight under its key. */
  predicate RetriesApart(x: Executor, events: seq<Event>)
    decreases |events|
  {
    events == [] ||
    (var before, e := Run(x, events[..|events| - 1]), events[|events| - 1];
     RetriesApart(x, events[..|events| - 1]) &&
     (e.RetryResolves? ==> e.outcome.WalletChanged? || NotInFlight(before, e.key)))
  }

  lemma {:induction false} RunKeeps(x: Executor, events: seq<Event>)
    requires Inv(x) && RetriesApart(x, events)
    ensures Inv(Run(x, events)) && SingleFlight(Run(x, events))
    decreases |events|
  {
    if events != [] {
      var last := |events| - 1;
      RunKeeps(x, events[..last]);
      StepKeeps(Run(x, events[..last]), events[last]);
    }
    InvIsSingleFlight(Run(x, events));
  }

  /** Over every interleaving, each key has at most one unsettled run. */
  lemma NeverTwoInFlight(events: seq<Event>)
    requires RetriesApart(EMPTY, events)
    ensures Inv(Run(EMPTY, events)) && SingleFlight(Run(EMPTY, events))
  {
    RunKeeps(EMPTY, events);
  }

  /**
   The very next confirmation of the active key starts a second run exactly when the retry
   succeeded while a run was in flight; one that failed again leaves an entry to join for now.
   */
  lemma SecondRunIff(x: Executor, key: string, outcome: RetryOutcome)
    requires Inv(x)
    ensures SingleFlight(Execute(ResolveRetry(x, key, outcome), key))
       <==> !(outcome.RefreshedAtLast? && !NotInFlight(x, key))
  {
    InvIsSingleFlight(x);
    var i := IndexOf(x.entries, key);
    var retried := ResolveRetry(x, key, outcome);
    if outcome.WalletChanged? || NotInFlight(x, key) {
      RetryKeepsIff(x, key, outcome);
      ExecuteKeeps(retried, key);
      InvIsSingleFlight(Execute(retried, key));
    } else if outcome.RefreshFailedAgain? {
      ReplacedFacts(x.entries, i, Entry(key, x.next, Retained));
      assert retried.entries[i].key == key;
      IndexUnique(retried.entries, i);
    } else {
      WithoutFacts(x.entries, i);
      NoOtherEntry(x.entries, i);
      var p := x.entries[i].promise;
      assert x.entries[i] in x.entries && p in x.running && p < x.next;
      var again := Execute(retried, key);
      assert again.running[p] == key && again.running[x.next] == key;
    }
  }

  /** Once its entry is gone, a key is not found. */
  lemma NoOtherEntry(entries: seq<Entry>, i: nat)
    requires DistinctKeys(entries) && i < |entries|
    ensures IndexOf(Without(entries, i), entries[i].key) == |Without(entries, i)|
  {
    var rest := Without(entries, i);
    forall j | 0 <= j < |rest| ensures rest[j].key != entries[i].key {
      assert rest[j] == entries[if j < i then j else j + 1];
    }
  }

  /** A retry that fails again hides the run in flight; a reset then removes what hid it. */
  lemma ResetUncoversRun(x: Executor, key: string)
    requires Inv(x) && !NotInFlight(x, key)
    ensures !SingleFlight(Execute(Reset(ResolveRetry(x, key, RefreshFailedAgain), key), key))
  {
    var i := IndexOf(x.entries, key);
    var hidden := x.entries[i := Entry(key, x.next, Retained)];
    ReplacedFacts(x.entries, i, Entry(key, x.next, Retained));
    IndexUnique(hidden, i);
    NoOtherEntry(hidden, i);
    var p := x.entries[i].promise;
    assert x.entries[i] in x.entries && p in x.running && p < x.next;
    var again := Execute(Reset(ResolveRetry(x, key, RefreshFailedAgain), key), key);
    assert again.running[p] == key && again.running[x.next + 1] == key;
  }

  /** Some continuation, with every later retry apart from runs, has two runs of one key unsettled. */
  ghost predicate CanRunTwice(x: Executor)
  {
    exists events :: RetriesApart(x, events) && !SingleFlight(Run(x, events))
  }

  /**
   The exact condition: a resolving retry makes a second run of some key possible, now or later,
   if and only if it writes the registry while a run is in flight under the active key.
   */
  lemma SecondRunPossibleIff(x: Executor, key: string, outcome: RetryOutcome)
    requires Inv(x)
    ensures CanRunTwice(ResolveRetry(x, key, outcome)) <==> !(outcome.WalletChanged? || NotInFlight(x, key))
  {
    var retried := ResolveRetry(x, key, outcome);
    RetryKeepsIff(x, key, outcome);
    if outcome.WalletChanged? || NotInFlight(x, key) {
      forall events | RetriesApart(retried, events) ensures SingleFlight(Run(retried, events)) {
        RunKeeps(retried, events);
      }
    } else if outcome.RefreshedAtLast? {
      SecondRunIff(x, key, outcome);
      OneEvent(retried, Confirms(key));
    } else {
      ResetUncoversRun(x, key);
      OneEvent(retried, Resets(key));
      RunAppend(retried, [Resets(key)], Confirms(key));
    }
  }

  lemma OneEvent(x: Executor, e: Event)
    requires !e.RetryResolves?
    ensures Run(x, [e]) == Step(x, e) && RetriesApart(x, [e])
  {
    RunAppend(x, [], e);
    assert [] + [e] == [e];
  }

  /** The refresh of `a` fails; then `b` is confirmed and becomes the active key. */
  function ThenAnother(a: string, b: string): seq<Event>
  {
    [Confirms(a)] + [Settles(0, true)] + [Confirms(b)]
  }

  lemma AnotherInFlight(a: string, b: string)
    requires a != b
    ensures var x := Run(EMPTY, ThenAnother(a, b)); Inv(x) && !NotInFlight(x, b)
  {
    var failed := [Confirms(a)] + [Settles(0, true)];
    FailedRun(a);
    RunAppend(EMPTY, failed, Confirms(b));
    var x := Run(EMPTY, ThenAnother(a, b));
    assert IndexOf([Entry(a, 0, Retained)], b) == 1;
    assert x == Executor([Entry(a, 0, Retained), Entry(b, 1, InFlight)], map[1 := b], 2);
    IndexUnique(x.entries, 1);
    assert x.entries[1] == Entry(b, 1, InFlight);
  }

  /** It happens: the retry of `a` succeeds while `b` is in flight, and `b` is confirmed again. */
  lemma RetryCanBreakSingleFlight(a: string, b: string)
    requires a != b
    ensures var events := ThenAnother(a, b) + [RetryResolves(b, RefreshedAtLast)] + [Confirms(b)];
      !SingleFlight(Run(EMPTY, events))
  {
    AnotherInFlight(a, b);
    SecondRunIff(Run(EMPTY, ThenAnother(a, b)), b, RefreshedAtLast);
    RunAppend(EMPTY, ThenAnother(a, b), RetryResolves(b, RefreshedAtLast));
    RunAppend(EMPTY, ThenAnother(a, b) + [RetryResolves(b, RefreshedAtLast)], Confirms(b));
  }

  /** And so does this: the retry fails again, the hook is reset, and `b` is confirmed again. */
  lemma ResetCanBreakSingleFlight(a: string, b: string)
    requires a != b
    ensures var events := ThenAnother(a, b) + [RetryResolves(b, RefreshFailedAgain)] + [Resets(b)] + [Confirms(b)];
      !SingleFlight(Run(EMPTY, events))
  {
    var retried := ThenAnother(a, b) + [RetryResolves(b, RefreshFailedAgain)];
    AnotherInFlight(a, b);
    ResetUncoversRun(Run(EMPTY, ThenAnother(a, b)), b);
    RunAppend(EMPTY, ThenAnother(a, b), RetryResolves(b, RefreshFailedAgain));
    RunAppend(EMPTY, retried, Resets(b));
    RunAppend(EMPTY, retried + [Resets(b)], Confirms(b));
  }

  /** One run whose refresh fails is all the registry then holds. */
  lemma FailedRun(a: string)
    ensures Run(EMPTY, [Confirms(a)] + [Settles(0, true)]) == Executor([Entry(a, 0, Retained)], map[], 1)
  {
    var one := Executor([Entry(a, 0, InFlight)], map[0 := a], 1);
    RunAppend(EMPTY, [], Confirms(a));
    assert [] + [Confirms(a)] == [Confirms(a)];
    RunAppend(EMPTY, [Confirms(a)], Settles(0, true));
    assert Run(EMPTY, [Confirms(a)]) == one && IndexOf(one.entries, a) == 0;
    assert Marked(one.entries, 0) == [Entry(a, 0, Retained)];
    assert RetainedCount([Entry(a, 0, Retained)]) == 1;
    assert one.running - {0} == map[];
  }

  lemma RunAppend(x: Executor, events: seq<Event>, e: Event)
    ensures Run(x, events + [e]) == Step(Run(x, events), e)
  {
    assert (events + [e])[..|events|] == events;
  }

  // ---------------------------------------------------------------------------
  // A failed refresh is not run again
  // ---------------------------------------------------------------------------

  predicate Holds(entries: seq<Entry>, key: string)
  {
    var i := IndexOf(entries, key);
    i < |entries| && entries[i].state == Retained
  }

  /** The key ended in a failed refresh and is remembered. */
  predicate Remembered(x: Executor, key: string)
  {
    Holds(x.entries, key)
  }

  lemma {:induction false} CountMarked(entries: seq<Entry>, i: nat)
    requires i < |entries| && entries[i].state == InFlight
    ensures RetainedCount(Marked(entries, i)) == RetainedCount(entries) + 1
  {
    if i > 0 {
      CountMarked(entries[1..], i - 1);
      assert Marked(entries, i)[1..] == Marked(entries[1..], i - 1);
    }
  }

  lemma CountSplit(entries: seq<Entry>, i: nat)
    requires i <= |entries|
    ensures RetainedCount(entries) == RetainedCount(entries[..i]) + RetainedCount(entries[i..])
  {
    CountAppend(entries[..i], entries[i..]);
    assert entries == entries[..i] + entries[i..];
  }

  /** Trimming keeps a failure exactly when no more than the bound are retained from it on. */
  lemma TrimmedKeepsIff(entries: seq<Entry>, i: nat)
    requires DistinctKeys(entries) && i < |entries| && entries[i].state == Retained
    ensures Holds(Trimmed(entries), entries[i].key) <==> RetainedCount(entries[i..]) <= MAX_RETAINED
  {
    var n := Excess(entries);
    EvictionInOrder(entries, n, i);
    CountSplit(entries, i);
    TrimmedHolds(entries, n, i);
  }

  lemma TrimmedHolds(entries: seq<Entry>, n: nat, i: nat)
    requires DistinctKeys(entries) && i < |entries| && entries[i].state == Retained
    ensures Holds(DropRetained(entries, n), entries[i].key) <==> entries[i] in DropRetained(entries, n)
  {
    DropKeeps(entries, n);
    KeyStays(entries, DropRetained(entries, n), i);
  }

  /** Marking a run's entry adds one to what is retained from any entry not after it. */
  lemma MarkedSuffix(entries: seq<Entry>, k: nat, i: nat)
    requires k < |entries| && i <= |entries| && entries[k].state == InFlight
    ensures RetainedCount(Marked(entries, k)[i..]) == RetainedCount(entries[i..]) + if k >= i then 1 else 0
  {
    if k < i {
      assert Marked(entries, k)[i..] == entries[i..];
    } else {
      assert Marked(entries, k)[i..] == Marked(entries[i..], k - i);
      CountMarked(entries[i..], k - i);
    }
  }

  /** Where an entry stands once a run's entry is gone; what is retained from it on is the same. */
  lemma WithoutSuffix(entries: seq<Entry>, k: nat, i: nat) returns (j: nat)
    requires k < |entries| && i < |entries| && k != i && entries[k].state == InFlight
    ensures j < |Without(entries, k)| && Without(entries, k)[j] == entries[i]
    ensures RetainedCount(Without(entries, k)[j..]) == RetainedCount(entries[i..])
  {
    if k < i {
      j := i - 1;
      assert Without(entries, k)[j..] == entries[i..];
    } else {
      j := i;
      assert Without(entries, k)[j..] == Without(entries[i..], k - i);
      CountWithout(entries[i..], k - i);
    }
  }

  /**
   A refresh that fails is remembered exactly when fewer than the bound are retained of the
   failures inserted after it: eviction goes by insertion, so otherwise it is itself evicted.
   */
  lemma FailureRememberedIff(x: Executor, promise: nat)
    requires Inv(x) && promise in x.running
    ensures var key := x.running[promise];
      Remembered(Settle(x, promise, true), key)
      <==> RetainedCount(x.entries[IndexOf(x.entries, key)..]) < MAX_RETAINED
  {
    var k := RunningEntry(x, promise);
    ReplacedFacts(x.entries, k, x.entries[k].(state := Retained));
    TrimmedKeepsIff(Marked(x.entries, k), k);
    MarkedSuffix(x.entries, k, k);
  }

  /** In a sublist with distinct keys, a key is found exactly when its entry stayed. */
  lemma KeyStays(entries: seq<Entry>, kept: seq<Entry>, k: nat)
    requires DistinctKeys(entries) && DistinctKeys(kept) && k < |entries| && entries[k].state == Retained
    requires forall e :: e in kept ==> e in entries
    ensures Holds(kept, entries[k].key) <==> entries[k] in kept
  {
    var i := IndexOf(kept, entries[k].key);
    if i < |kept| {
      assert kept[i] in kept;
      var j :| 0 <= j < |entries| && entries[j] == kept[i];
      IndexUnique(entries, j);
      IndexUnique(entries, k);
      assert kept[i] == entries[k];
    }
    if entries[k] in kept {
      var j :| 0 <= j < |kept| && kept[j] == entries[k];
      IndexUnique(kept, j);
    }
  }

  /** A run that ends well forgets a failure exactly when more than the bound are retained from it on. */
  lemma SuccessForgetsIff(x: Executor, promise: nat, key: string)
    requires Inv(x) && Remembered(x, key) && promise in x.running
    ensures Remembered(Settle(x, promise, false), key)
       <==> RetainedCount(x.entries[IndexOf(x.entries, key)..]) <= MAX_RETAINED
  {
    var k := RunningEntry(x, promise);
    var i := IndexOf(x.entries, key);
    WithoutFacts(x.entries, k);
    var j := WithoutSuffix(x.entries, k, i);
    TrimmedKeepsIff(Without(x.entries, k), j);
  }

  /** A run that ends well frees its key: the next confirmation of it starts a new run. */
  lemma SuccessFreesKey(x: Executor, promise: nat)
    requires Inv(x) && promise in x.running
    ensures var y, key := Settle(x, promise, false), x.running[promise];
      && y.running == x.running - {promise} && y.next == x.next
      && (forall e :: e in y.entries ==> e.key != key && e in x.entries)
      && Execute(y, key).running == y.running[y.next := key]
  {
    var key := x.running[promise];
    var k := RunningEntry(x, promise);
    WithoutFacts(x.entries, k);
    NoOtherEntry(x.entries, k);
    DropKeeps(Without(x.entries, k), Excess(Without(x.entries, k)));
    ConfirmStartsIff(Settle(x, promise, false), key);
  }

  /** A run whose refresh fails does so counting itself, when it was inserted later. */
  lemma FailureForgetsIff(x: Executor, promise: nat, key: string)
    requires Inv(x) && Remembered(x, key) && promise in x.running
    ensures var i := IndexOf(x.entries, key);
      Remembered(Settle(x, promise, true), key)
      <==> RetainedCount(x.entries[i..]) + (if IndexOf(x.entries, x.running[promise]) > i then 1 else 0) <= MAX_RETAINED
  {
    var k := RunningEntry(x, promise);
    var i := IndexOf(x.entries, key);
    ReplacedFacts(x.entries, k, x.entries[k].(state := Retained));
    TrimmedKeepsIff(Marked(x.entries, k), i);
    MarkedSuffix(x.entries, k, i);
  }

  lemma {:induction false} CountWithout(entries: seq<Entry>, k: nat)
    requires k < |entries| && entries[k].state == InFlight
    ensures RetainedCount(Without(entries, k)) == RetainedCount(entries)
  {
    if k == 0 {
      assert Without(entries, 0) == entries[1..];
    } else {
      assert Without(entries, k)[1..] == Without(entries[1..], k - 1);
      CountWithout(entries[1..], k - 1);
    }
  }

  lemma {:induction false} CountAppend(a: seq<Entry>, b: seq<Entry>)
    ensures RetainedCount(a + b) == RetainedCount(a) + RetainedCount(b)
  {
    if a == [] {
      assert a + b == b;
    } else {
      assert (a + b)[1..] == a[1..] + b;
      CountAppend(a[1..], b);
    }
  }

  lemma CountRemoved(entries: seq<Entry>, i: nat)
    requires i < |entries|
    ensures RetainedCount(Without(entries, i)) <= RetainedCount(entries)
  {
    CountAppend(entries[..i], entries[i..]);
    CountAppend(entries[..i], entries[i + 1..]);
    assert entries[i..][1..] == entries[i + 1..] && entries == entries[..i] + entries[i..];
  }

  lemma StepKeeps(x: Executor, e: Event)
    requires Inv(x) && (e.RetryResolves? ==> e.outcome.WalletChanged? || NotInFlight(x, e.key))
    ensures Inv(Step(x, e))
  {
    match e {
      case Confirms(key) => ExecuteKeeps(x, key);
      case Settles(promise, failed) => SettleKeeps(x, promise, failed);
      case RetryResolves(key, outcome) => RetryKeepsIff(x, key, outcome);
      case Resets(key) => ResetKeeps(x, key);
    }
  }

  /** Without a retry that fails again, an event keeps the bound; with one, it is passed by at most one. */
  lemma StepBound(x: Executor, e: Event)
    requires Inv(x) && (e.RetryResolves? ==> e.outcome.WalletChanged? || NotInFlight(x, e.key))
    ensures Inv(Step(x, e))
    ensures RetainedCount(Step(x, e).entries) <= RetainedCount(x.entries) + (if FailsAgain(e) then 1 else 0)
         || (e.Settles? && RetainedCount(Step(x, e).entries) <= MAX_RETAINED)
    ensures e.Settles? && e.promise in x.running ==> RetainedCount(Step(x, e).entries) <= MAX_RETAINED
  {
    StepKeeps(x, e);
    match e {
      case Confirms(key) => CountAppend(x.entries, [Entry(key, x.next, InFlight)]);
      case Settles(promise, failed) => SettleKeeps(x, promise, failed);
      case RetryResolves(key, outcome) =>
        var i := IndexOf(x.entries, key);
        if i < |x.entries| {
          CountRemoved(x.entries, i);
          CountReplaced(x.entries, i, Entry(key, x.next, Retained));
        } else {
          CountAppend(x.entries, [Entry(key, x.next, Retained)]);
        }
      case Resets(key) =>
        if IndexOf(x.entries, key) < |x.entries| {
          CountRemoved(x.entries, IndexOf(x.entries, key));
        }
    }
  }

  lemma CountReplaced(entries: seq<Entry>, i: nat, e: Entry)
    requires i < |entries|
    ensures RetainedCount(entries[i := e]) <= RetainedCount(entries) + 1
  {
    CountAppend(entries[..i], entries[i..]);
    CountAppend(entries[..i], entries[i := e][i..]);
    assert entries == entries[..i] + entries[i..] && entries[i := e] == entries[..i] + entries[i := e][i..];
    assert entries[i..][1..] == entries[i := e][i..][1..];
  }

  predicate FailsAgain(e: Event)
  {
    e.RetryResolves? && e.outcome == RefreshFailedAgain
  }

  /** Retries that failed again since a run last settled: they insert without trimming. */
  function Untrimmed(x: Executor, events: seq<Event>): nat
    decreases |events|
  {
    if events == [] then 0 else
    var front, e := events[..|events| - 1], events[|events| - 1];
    if e.Settles? && e.promise in Run(x, front).running then 0
    else Untrimmed(x, front) + if FailsAgain(e) then 1 else 0
  }

  /**
   The bound on remembered failures holds at every moment of every run, passed only by the
   retries that failed again since a run last settled.
   */
  lemma {:induction false} BoundAlwaysHolds(events: seq<Event>)
    requires RetriesApart(EMPTY, events)
    ensures Inv(Run(EMPTY, events))
    ensures RetainedCount(Run(EMPTY, events).entries) <= MAX_RETAINED + Untrimmed(EMPTY, events)
    ensures (forall e :: e in events ==> !FailsAgain(e)) ==> RetainedCount(Run(EMPTY, events).entries) <= MAX_RETAINED
    decreases |events|
  {
    if events != [] {
      var last := |events| - 1;
      BoundAlwaysHolds(events[..last]);
      StepBound(Run(EMPTY, events[..last]), events[last]);
      assert forall e :: e in events[..last] ==> e in events;
      assert events[last] in events;
    }
  }

  // ---------------------------------------------------------------------------
  // The registry as it is written
  // ---------------------------------------------------------------------------

  class Registry {
    var entries: seq<Entry>
    var running: map<nat, string>
    var next: nat

    function View(): Executor
      reads this
    {
      Executor(entries, running, next)
    }

    constructor ()
      ensures View() == EMPTY
    {
      entries, running, next := [], map[], 0;
    }

    /** Delete retained entries from the front until the bound holds. */
    method TrimRegistry()
      modifies this`entries
      ensures entries == Trimmed(old(entries))
    {
      var retained := RetainedCount(entries);
      if retained <= MAX_RETAINED { return; }
      var i := 0;
      while i < |entries|
        invariant 0 <= i <= |entries|
        invariant retained > MAX_RETAINED && retained - MAX_RETAINED <= RetainedCount(entries[i..])
        invariant Trimmed(old(entries)) == entries[..i] + DropRetained(entries[i..], retained - MAX_RETAINED)
        decreases |entries| - i
      {
        if entries[i].state != Retained {
          assert entries[..i + 1] == entries[..i] + [entries[i]];
          i := i + 1;
          continue;
        }
        assert Without(entries, i)[..i] == entries[..i]
          && Without(entries, i)[i..] == entries[i + 1..] == entries[i..][1..];
        entries := Without(entries, i);
        retained := retained - 1;
        if retained <= MAX_RETAINED {
          assert entries[..i] + entries[i..] == entries;
          return;
        }
      }
    }

    /** Join the run under the key, or start one; the promise to await comes back. */
    method ExecuteOnce(key: string) returns (promise: nat)
      modifies this
      ensures View() == Execute(old(View()), key)
      ensures exists e :: e in entries && e.key == key && e.promise == promise
    {
      var i := IndexOf(entries, key);
      if i < |entries| {
        assert entries[i] in entries;
        return entries[i].promise;
      }
      promise := next;
      entries := entries + [Entry(key, promise, InFlight)];
      assert entries[|entries| - 1] == Entry(key, promise, InFlight);
      running := running[promise := key];
      next := next + 1;
    }

    /** The continuation of a run. */
    method OnSettled(promise: nat, refreshFailed: bool)
      requires promise in running
      modifies this
      ensures View() == Settle(old(View()), promise, refreshFailed)
    {
      var key := running[promise];
      running := running - {promise};
      var i := IndexOf(entries, key);
      if i == |entries| || entries[i].promise != promise { return; }
      if refreshFailed {
        entries := Marked(entries, i);
      } else {
        entries := Without(entries, i);
      }
      TrimRegistry();
    }
  }
}
