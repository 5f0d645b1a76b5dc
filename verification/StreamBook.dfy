/** Paging through a source of known length, and folding the pages back into one list. */
module StreamBook {
  import opened Wrappers
  import opened Sequences

  function WindowStop(start: nat, sourceCount: nat, pageSize: nat): nat
  {
    if start + pageSize > sourceCount then sourceCount else start + pageSize
  }

  function NextPageParam(last: nat, sourceCount: nat, pageSize: nat): Option<nat>
  {
    if sourceCount == 0 then None
    else if last + pageSize < sourceCount then Some(last + pageSize) else None
  }

  /** A page's window of source positions, its stop excluded. */
  datatype Window = Window(start: nat, stop: nat)

  /** The windows a reader visits from `start` on. */
  function Walk(start: nat, sourceCount: nat, pageSize: nat): seq<Window>
    requires pageSize > 0
    decreases sourceCount - start
  {
    var here := Window(start, WindowStop(start, sourceCount, pageSize));
    var next := NextPageParam(start, sourceCount, pageSize);
    if next.None? then [here] else [here] + Walk(next.value, sourceCount, pageSize)
  }

  /** Each window starts where the one before stops, holds at most a page, and the last ends the source. */
  predicate Consecutive(walk: seq<Window>, start: nat, sourceCount: nat, pageSize: nat)
  {
    && walk != [] && walk[0].start == start && start <= walk[0].stop <= start + pageSize
    && (start < walk[0].stop || sourceCount == 0)
    && if |walk| == 1 then walk[0].stop == sourceCount
       else walk[0].stop < sourceCount && Consecutive(walk[1..], walk[0].stop, sourceCount, pageSize)
  }

  /** The rows each window holds. */
  function Pages<T>(source: seq<T>, walk: seq<Window>): seq<seq<T>>
    requires forall w :: w in walk ==> w.start <= w.stop <= |source|
  {
    if walk == [] then [] else [source[walk[0].start..walk[0].stop]] + Pages(source, walk[1..])
  }

  /** Walking leaves no gap and no overlap. */
  lemma {:induction false} WalkIsConsecutive(start: nat, sourceCount: nat, pageSize: nat)
    requires pageSize > 0 && (start < sourceCount || start == sourceCount == 0)
    ensures Consecutive(Walk(start, sourceCount, pageSize), start, sourceCount, pageSize)
    decreases sourceCount - start
  {
    var next := NextPageParam(start, sourceCount, pageSize);
    if next.Some? {
      WalkIsConsecutive(next.value, sourceCount, pageSize);
      assert Walk(start, sourceCount, pageSize)[1..] == Walk(next.value, sourceCount, pageSize);
    }
  }

  lemma {:induction false} ConsecutiveInside(walk: seq<Window>, start: nat, sourceCount: nat, pageSize: nat)
    requires Consecutive(walk, start, sourceCount, pageSize)
    ensures forall w :: w in walk ==> w.start <= w.stop <= sourceCount
  {
    if |walk| > 1 {
      ConsecutiveInside(walk[1..], walk[0].stop, sourceCount, pageSize);
      assert walk == [walk[0]] + walk[1..];
    }
  }

  lemma {:induction false} ConsecutiveRestores<T>(source: seq<T>, walk: seq<Window>, start: nat, pageSize: nat)
    requires Consecutive(walk, start, |source|, pageSize) && forall w :: w in walk ==> w.start <= w.stop <= |source|
    ensures Flatten(Pages(source, walk)) == source[start..]
  {
    var stop, pages := walk[0].stop, Pages(source, walk);
    assert pages[0] == source[start..stop] && pages[1..] == Pages(source, walk[1..]);
    if |walk| > 1 {
      ConsecutiveRestores(source, walk[1..], stop, pageSize);
      assert source[start..] == source[start..stop] + source[stop..];
    }
  }

  /** Reading every page from the first gives the whole source back, in order. */
  lemma WalkRestores<T>(source: seq<T>, pageSize: nat)
    requires pageSize > 0
    ensures Consecutive(Walk(0, |source|, pageSize), 0, |source|, pageSize)
    ensures forall w :: w in Walk(0, |source|, pageSize) ==> w.start <= w.stop <= |source|
    ensures Flatten(Pages(source, Walk(0, |source|, pageSize))) == source
  {
    WalkIsConsecutive(0, |source|, pageSize);
    ConsecutiveInside(Walk(0, |source|, pageSize), 0, |source|, pageSize);
    ConsecutiveRestores(source, Walk(0, |source|, pageSize), 0, pageSize);
  }

  /** `d` is the id whose second occurrence comes first. */
  ghost predicate FirstRepeat(ids: seq<nat>, d: nat)
  {
    exists j :: 0 <= j < |ids| && ids[j] == d && d in ids[..j] && Distinct(ids[..j])
  }

  /** What the fold has found so far. */
  ghost predicate Found(ids: seq<nat>, duplicate: Option<nat>)
  {
    && (duplicate.None? <==> Distinct(ids))
    && (duplicate.Some? ==> FirstRepeat(ids, duplicate.value))
  }

  /** All pages in order, with the first repeated id if there is one; nothing is dropped. */
  method FoldStreamIds(pages: seq<seq<nat>>) returns (ids: seq<nat>, duplicate: Option<nat>)
    ensures ids == Flatten(pages) && Found(Flatten(pages), duplicate)
  {
    ids, duplicate := [], None;
    var p := 0;
    while p < |pages|
      invariant 0 <= p <= |pages|
      invariant ids == Flatten(pages[..p]) && Found(ids, duplicate)
    {
      FlattenNext(pages, p);
      ids, duplicate := FoldPage(ids, duplicate, pages[p]);
      p := p + 1;
    }
    assert pages[..|pages|] == pages;
  }

  method FoldPage(before: seq<nat>, found: Option<nat>, page: seq<nat>) returns (ids: seq<nat>, duplicate: Option<nat>)
    requires Found(before, found)
    ensures ids == before + page && Found(ids, duplicate)
  {
    ids, duplicate := before, found;
    var r := 0;
    while r < |page|
      invariant 0 <= r <= |page|
      invariant ids == before + page[..r] && Found(ids, duplicate)
    {
      var id := page[r];
      if duplicate.None? {
        var seen := Contains(ids, id);
        if seen { duplicate := Some(id); }
      }
      assert page[..r + 1] == page[..r] + [id];
      AppendId(ids, id, duplicate);
      ids := ids + [id];
      r := r + 1;
    }
  }

  method Contains(ids: seq<nat>, id: nat) returns (found: bool)
    ensures found <==> id in ids
  {
    var i := 0;
    while i < |ids|
      invariant 0 <= i <= |ids|
      invariant id !in ids[..i]
    {
      if ids[i] == id { return true; }
      i := i + 1;
    }
    return false;
  }

  lemma FlattenNext(pages: seq<seq<nat>>, p: nat)
    requires p < |pages|
    ensures Flatten(pages[..p + 1]) == Flatten(pages[..p]) + pages[p]
  {
    assert pages[..p + 1] == pages[..p] + [pages[p]];
    FlattenAppend(pages[..p], [pages[p]]);
    var one := [pages[p]];
    assert Flatten(one) == one[0] + Flatten(one[1..]);
  }

  lemma AppendId(ids: seq<nat>, id: nat, duplicate: Option<nat>)
    requires duplicate.None? ==> Distinct(ids) && id !in ids
    requires duplicate.Some? ==>
      FirstRepeat(ids, duplicate.value) || (Distinct(ids) && duplicate.value == id && id in ids)
    ensures Found(ids + [id], duplicate)
  {
    var longer := ids + [id];
    if duplicate.Some? {
      var d := duplicate.value;
      if j :| 0 <= j < |ids| && ids[j] == d && d in ids[..j] && Distinct(ids[..j]) {
        assert longer[..j] == ids[..j] && longer[j] == d;
        var k :| 0 <= k < j && ids[k] == d;
        assert longer[k] == longer[j];
      } else {
        assert longer[..|ids|] == ids && longer[|ids|] == d;
        var k :| 0 <= k < |ids| && ids[k] == id;
        assert longer[k] == longer[|ids|];
      }
    }
  }
}
