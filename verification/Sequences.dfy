/** Facts about sequences that several parts of the model share. */
module Sequences {

  predicate Distinct<T(==)>(s: seq<T>)
  {
    forall i, j :: 0 <= i < j < |s| ==> s[i] != s[j]
  }

  function Elements<T>(s: seq<T>): set<T>
  {
    set x | x in s
  }

  function Flatten<T>(ss: seq<seq<T>>): seq<T>
  {
    if ss == [] then [] else ss[0] + Flatten(ss[1..])
  }

  function Map<T, U>(s: seq<T>, f: T -> U): (r: seq<U>)
    ensures |r| == |s| && forall i :: 0 <= i < |s| ==> r[i] == f(s[i])
  {
    seq(|s|, i requires 0 <= i < |s| => f(s[i]))
  }

  function Filter<T(!new)>(s: seq<T>, keep: T -> bool): (r: seq<T>)
    ensures |r| <= |s|
    ensures forall x :: x in r <==> x in s && keep(x)
  {
    if s == [] then []
    else (if keep(s[0]) then [s[0]] else []) + Filter(s[1..], keep)
  }

  lemma FilterAppend<T(!new)>(s: seq<T>, t: seq<T>, keep: T -> bool)
    ensures Filter(s + t, keep) == Filter(s, keep) + Filter(t, keep)
  {
    if s == [] {
      assert s + t == t;
    } else {
      assert (s + t)[1..] == s[1..] + t;
      FilterAppend(s[1..], t, keep);
    }
  }

  lemma FlattenAppend<T>(s: seq<seq<T>>, t: seq<seq<T>>)
    ensures Flatten(s + t) == Flatten(s) + Flatten(t)
  {
    if s == [] {
      assert s + t == t;
    } else {
      assert (s + t)[1..] == s[1..] + t;
      FlattenAppend(s[1..], t);
    }
  }

  /** A sequence contained, with multiplicity, in a filtered one is made of kept members. */
  lemma MultisetOfFilter<T(!new)>(s: seq<T>, keep: T -> bool)
    ensures forall x :: multiset(Filter(s, keep))[x] == if keep(x) then multiset(s)[x] else 0
  {
    if s != [] {
      assert s == [s[0]] + s[1..];
      MultisetOfFilter(s[1..], keep);
    }
  }

  /** Removing one occurrence of a member leaves the rest of the multiset. */
  lemma RemoveOne<T>(s: seq<T>, x: T) returns (before: seq<T>, after: seq<T>)
    requires x in s
    ensures s == before + [x] + after
    ensures multiset(before + after) == multiset(s) - multiset{x}
  {
    var k :| 0 <= k < |s| && s[k] == x;
    before, after := s[..k], s[k + 1..];
    assert s == before + [x] + after;
  }

  lemma SubMultisetSize<T>(p: seq<T>, r: seq<T>)
    requires multiset(p) <= multiset(r)
    ensures |p| <= |r|
  {
    assert multiset(r) == multiset(p) + (multiset(r) - multiset(p));
    assert |multiset(p)| == |p| && |multiset(r)| == |r|;
  }

  /** A pick without the head is a pick from the tail. */
  lemma SubMultisetTail<T>(p: multiset<T>, r: seq<T>)
    requires r != [] && p <= multiset(r) && r[0] !in p
    ensures p <= multiset(r[1..])
  {
    assert r == [r[0]] + r[1..];
    assert multiset(r) == multiset{r[0]} + multiset(r[1..]);
  }

  /** A pick with the head, minus it, is a pick from the tail. */
  lemma SubMultisetTailWith<T>(p: multiset<T>, r: seq<T>)
    requires r != [] && p <= multiset(r) && r[0] in p
    ensures p - multiset{r[0]} <= multiset(r[1..])
  {
    assert r == [r[0]] + r[1..];
    assert multiset(r) == multiset{r[0]} + multiset(r[1..]);
  }

  lemma SubMultisetPrefix<T>(r: seq<T>, k: nat)
    requires k <= |r|
    ensures multiset(r[..k]) <= multiset(r)
  {
    assert r == r[..k] + r[k..];
  }

  /** Filtering respects inclusion with multiplicity. */
  lemma SubMultisetFilter<T(!new)>(p: seq<T>, r: seq<T>, keep: T -> bool)
    requires multiset(p) <= multiset(r)
    ensures multiset(Filter(p, keep)) <= multiset(Filter(r, keep)) <= multiset(r)
  {
    MultisetOfFilter(p, keep);
    MultisetOfFilter(r, keep);
  }

  /** Distinct members of a finite pool are no more than the pool. */
  lemma DistinctFits<T>(s: seq<T>, pool: set<T>)
    requires Distinct(s) && forall x :: x in s ==> x in pool
    ensures |s| <= |pool|
  {
    if s != [] {
      DistinctFits(s[1..], pool - {s[0]});
    }
  }

  lemma {:induction false} ElementsFit<T>(s: seq<T>)
    ensures |Elements(s)| <= |s|
  {
    if s != [] {
      ElementsFit(s[1..]);
      assert Elements(s) == Elements(s[1..]) + {s[0]};
    }
  }

  lemma DistinctWithin<T>(s: seq<T>, pool: seq<T>)
    requires Distinct(s) && forall x :: x in s ==> x in pool
    ensures |s| <= |pool|
  {
    DistinctFits(s, Elements(pool));
    ElementsFit(pool);
  }

  /** A member of the pool that a distinct selection lacks leaves room for it. */
  lemma RoomForOneMore<T>(s: seq<T>, pool: seq<T>, x: T)
    requires Distinct(s) && (forall y :: y in s ==> y in pool) && x in pool && x !in s
    ensures |s| < |pool|
  {
    DistinctWithin(s + [x], pool);
  }

  lemma DistinctPermutation<T>(a: seq<T>, b: seq<T>)
    requires Distinct(a) && multiset(a) == multiset(b)
    ensures Distinct(b)
  {
    DistinctCount(a);
    forall i, j | 0 <= i < j < |b| ensures b[i] != b[j] {
      assert b == b[..j] + [b[j]] + b[j + 1..];
      assert b[i] in b[..j];
      assert multiset(b)[b[j]] >= multiset(b[..j])[b[j]] + 1;
    }
  }

  lemma {:induction false} DistinctCount<T>(a: seq<T>)
    requires Distinct(a)
    ensures forall x :: multiset(a)[x] <= 1
  {
    if a != [] {
      assert a == [a[0]] + a[1..];
      DistinctCount(a[1..]);
      assert a[0] !in a[1..];
    }
  }
}

/** Stable insertion sort by a total preorder, as `Array.prototype.sort` behaves on one. */
module Sorting {

  ghost predicate TotalPreorder<T(!new)>(leq: (T, T) -> bool)
  {
    && (forall x, y :: leq(x, y) || leq(y, x))
    && (forall x, y, z :: leq(x, y) && leq(y, z) ==> leq(x, z))
  }

  ghost predicate SortedBy<T>(s: seq<T>, leq: (T, T) -> bool)
  {
    forall i, j :: 0 <= i < j < |s| ==> leq(s[i], s[j])
  }

  function Insert<T>(x: T, s: seq<T>, leq: (T, T) -> bool): seq<T>
  {
    if s == [] || leq(x, s[0]) then [x] + s else [s[0]] + Insert(x, s[1..], leq)
  }

  function Sort<T>(s: seq<T>, leq: (T, T) -> bool): seq<T>
  {
    if s == [] then [] else Insert(s[0], Sort(s[1..], leq), leq)
  }

  lemma InsertPermutes<T>(x: T, s: seq<T>, leq: (T, T) -> bool)
    ensures multiset(Insert(x, s, leq)) == multiset{x} + multiset(s)
  {
    if !(s == [] || leq(x, s[0])) {
      InsertPermutes(x, s[1..], leq);
      assert s == [s[0]] + s[1..];
    }
  }

  lemma SortPermutes<T>(s: seq<T>, leq: (T, T) -> bool)
    ensures multiset(Sort(s, leq)) == multiset(s)
    ensures |Sort(s, leq)| == |s|
    ensures forall x :: x in Sort(s, leq) <==> x in s
  {
    SortPermutesMultiset(s, leq);
    assert |multiset(Sort(s, leq))| == |multiset(s)|;
    forall x ensures x in Sort(s, leq) <==> x in s {
      assert x in Sort(s, leq) <==> x in multiset(Sort(s, leq));
      assert x in s <==> x in multiset(s);
    }
  }

  lemma SortPermutesMultiset<T>(s: seq<T>, leq: (T, T) -> bool)
    ensures multiset(Sort(s, leq)) == multiset(s)
  {
    if s != [] {
      SortPermutesMultiset(s[1..], leq);
      InsertPermutes(s[0], Sort(s[1..], leq), leq);
      assert s == [s[0]] + s[1..];
    }
  }

  lemma InsertSorts<T(!new)>(x: T, s: seq<T>, leq: (T, T) -> bool)
    requires TotalPreorder(leq) && SortedBy(s, leq)
    ensures SortedBy(Insert(x, s, leq), leq)
  {
    if s != [] && !leq(x, s[0]) {
      var rest := Insert(x, s[1..], leq);
      InsertSorts(x, s[1..], leq);
      InsertPermutes(x, s[1..], leq);
      forall k | 0 <= k < |rest| ensures leq(s[0], rest[k]) {
        assert rest[k] in multiset(rest);
        assert rest[k] == x || rest[k] in s[1..];
      }
    }
  }

  lemma SortSorts<T(!new)>(s: seq<T>, leq: (T, T) -> bool)
    requires TotalPreorder(leq)
    ensures SortedBy(Sort(s, leq), leq)
  {
    if s != [] {
      SortSorts(s[1..], leq);
      InsertSorts(s[0], Sort(s[1..], leq), leq);
    }
  }

  /** Strictly ascending by an injective key: the shape of a sorted list without repeats. */
  ghost predicate StrictlySortedBy<T>(s: seq<T>, less: (T, T) -> bool)
  {
    forall i, j :: 0 <= i < j < |s| ==> less(s[i], s[j])
  }

  /** A strictly sorted list is determined by its set of members. */
  lemma StrictlySortedUnique<T(!new)>(a: seq<T>, b: seq<T>, less: (T, T) -> bool)
    requires forall x, y :: !(less(x, y) && less(y, x))
    requires StrictlySortedBy(a, less) && StrictlySortedBy(b, less)
    requires forall x :: x in a <==> x in b
    ensures a == b
  {
    assert b != [] ==> b[0] in b;
    if a != [] {
      assert a[0] in b && b[0] in a;
      assert a[0] == b[0];
      forall x ensures x in a[1..] <==> x in b[1..] {
        assert x in a[1..] ==> x in a;
        assert x in b[1..] ==> x in b;
      }
      StrictlySortedUnique(a[1..], b[1..], less);
      assert a == [a[0]] + a[1..] && b == [b[0]] + b[1..];
    }
  }
}
