/**
 * The lending contract's prefix-sum tree. Every node is the subtotal of a run of 8^level
 * leaves; four adjacent nodes share a word and eight adjacent nodes have one parent.
 */
module TickTree {
  import opened PrefixSums
  import opened PackedWord

  const MIN_HEIGHT: nat := 4
  const MAX_HEIGHT: nat := 7

  datatype Slot = Slot(level: nat, word: nat)
  datatype Cell = Cell(level: nat, index: nat)
  datatype Outcome = Done | AtCapacity | NodeOverflow | LeafMissing
  datatype Read = Value(value: nat) | Missing

  type Words = map<Slot, nat>
  type Cells = map<Cell, nat>

  /** The first leaf under node `i` of a level. */
  function Edge(level: nat, i: nat): nat
  {
    if level == 0 then i else Edge(level - 1, 8 * i)
  }

  /** The number of leaves a tree of a given height can hold. */
  function Capacity(height: nat): nat
  {
    Edge(height, 1)
  }

  function WordAt(words: Words, s: Slot): nat
  {
    if s in words then words[s] else 0
  }

  /** A stored node. */
  function Node(words: Words, level: nat, i: nat): nat
  {
    Field(WordAt(words, Slot(level, i / 4)), i % 4)
  }

  function WriteNode(words: Words, level: nat, i: nat, v: nat): Words
  {
    var s := Slot(level, i / 4);
    words[s := Put(WordAt(words, s), i % 4, v)]
  }

  function At(cells: Cells, level: nat, i: nat): nat
  {
    if Cell(level, i) in cells then cells[Cell(level, i)] else 0
  }

  /** The words hold the nodes `cells`, four to a word. */
  ghost predicate Packed(words: Words, cells: Cells)
  {
    forall l: nat, k: nat :: Node(words, l, k) == At(cells, l, k)
  }

  lemma NodeAfterWrite(words: Words, level: nat, i: nat, v: nat, l: nat, k: nat)
    requires v < LIMB
    ensures Node(WriteNode(words, level, i, v), l, k) == if l == level && k == i then v else Node(words, l, k)
  {
    var s := Slot(level, i / 4);
    if Slot(l, k / 4) == s {
      FieldOfPut(WordAt(words, s), i % 4, v, k % 4);
      assert i == 4 * (i / 4) + i % 4 && k == 4 * (k / 4) + k % 4;
    }
  }

  lemma PackedAfterWrite(words: Words, cells: Cells, level: nat, i: nat, v: nat)
    requires Packed(words, cells) && v < LIMB
    ensures Packed(WriteNode(words, level, i, v), cells[Cell(level, i) := v])
  {
    var w, c := WriteNode(words, level, i, v), cells[Cell(level, i) := v];
    forall l: nat, k: nat
      ensures Node(w, l, k) == At(c, l, k)
    {
      NodeAfterWrite(words, level, i, v, l, k);
    }
  }

  lemma AtAfterWrite(cells: Cells, level: nat, i: nat, v: nat)
    ensures var c := cells[Cell(level, i) := v];
      forall l: nat, k: nat :: At(c, l, k) == if l == level && k == i then v else At(cells, l, k)
  {
  }

  /** The subtotal a node must hold. */
  function Subtotal(s: seq<nat>, level: nat, i: nat): int
  {
    SumTo(s, Edge(level, i + 1)) - SumTo(s, Edge(level, i))
  }

  /** Every node of the levels in [from, to) is the subtotal of its leaves. */
  ghost predicate Sums(cells: Cells, s: seq<nat>, from: nat, to: nat)
  {
    forall l: nat, k: nat :: from <= l < to ==> At(cells, l, k) == Subtotal(s, l, k)
  }

  ghost predicate Blank(cells: Cells, from: nat)
  {
    forall l: nat, k: nat :: l >= from ==> At(cells, l, k) == 0
  }

  /** Levels below `level` already stand for `u`, the others still for `s`. */
  ghost predicate Between(cells: Cells, height: nat, s: seq<nat>, u: seq<nat>, level: nat)
  {
    Sums(cells, u, 0, level) && Sums(cells, s, level, height) && Blank(cells, height)
  }

  /** What a tree of a given height must store to stand for `s`. */
  ghost predicate Represents(cells: Cells, height: nat, s: seq<nat>)
  {
    && height <= MAX_HEIGHT
    && (height == 0 ==> s == [])
    && (height != 0 ==> MIN_HEIGHT <= height)
    && |s| <= Capacity(height)
    && Total(s) < LIMB
    && Sums(cells, s, 0, height)
    && Blank(cells, height)
  }

  // ---- Arithmetic of runs ------------------------------------------------------------------

  lemma {:induction false} EdgesAscend(level: nat, j: nat, k: nat)
    ensures j <= k ==> Edge(level, j) <= Edge(level, k)
    ensures j < k ==> Edge(level, j) < Edge(level, k)
    ensures Edge(level, 0) == 0
    decreases level
  {
    if level > 0 {
      EdgesAscend(level - 1, 8 * j, 8 * k);
    }
  }

  /** Whether a leaf lies under node `home` of a level. */
  predicate Under(leaf: nat, level: nat, home: nat)
  {
    Edge(level, home) <= leaf < Edge(level, home + 1)
  }

  /** A leaf lies under one node of each level, so its update moves that node alone. */
  lemma SubtotalAfterUpdate(s: seq<nat>, leaf: nat, v: nat, level: nat, home: nat, k: nat)
    requires leaf < |s|
    requires Under(leaf, level, home)
    ensures Subtotal(s[leaf := v], level, k) == Subtotal(s, level, k) + if k == home then v - s[leaf] else 0
  {
    SumToUpdate(s, leaf, v, Edge(level, k));
    SumToUpdate(s, leaf, v, Edge(level, k + 1));
    EdgesAscend(level, k + 1, home);
    EdgesAscend(level, home + 1, k);
    EdgesAscend(level, k, k + 1);
  }

  lemma SubtotalBounds(s: seq<nat>, level: nat, k: nat)
    ensures 0 <= Subtotal(s, level, k) <= Total(s)
  {
    EdgesAscend(level, k, k + 1);
    SumToMonotone(s, Edge(level, k), Edge(level, k + 1));
  }

  /** The new value of the one node that moves. */
  lemma HomeNode(cells: Cells, s: seq<nat>, leaf: nat, v: nat, level: nat, home: nat, height: nat)
    requires leaf < |s| && level < height && Under(leaf, level, home)
    requires Sums(cells, s, level, height) && Total(s[leaf := v]) < LIMB
    ensures var node := At(cells, level, home) + v - s[leaf];
      node == Subtotal(s[leaf := v], level, home) && 0 <= node < LIMB
  {
    SubtotalAfterUpdate(s, leaf, v, level, home, home);
    SubtotalBounds(s[leaf := v], level, home);
  }

  lemma LevelUpdated(cells: Cells, height: nat, s: seq<nat>, leaf: nat, v: nat, level: nat, home: nat)
    requires leaf < |s| && level < height && Under(leaf, level, home)
    requires Between(cells, height, s, s[leaf := v], level) && Total(s[leaf := v]) < LIMB
    ensures var node := At(cells, level, home) + v - s[leaf];
      0 <= node < LIMB && Between(cells[Cell(level, home) := node], height, s, s[leaf := v], level + 1)
  {
    HomeNode(cells, s, leaf, v, level, home, height);
    var node := At(cells, level, home) + v - s[leaf];
    AtAfterWrite(cells, level, home, node);
    var w, u := cells[Cell(level, home) := node], s[leaf := v];
    forall l: nat, k: nat | l < level + 1
      ensures At(w, l, k) == Subtotal(u, l, k)
    {
      SubtotalAfterUpdate(s, leaf, v, level, home, k);
    }
    assert Sums(w, s, level + 1, height);
  }

  lemma HomeAbove(leaf: nat, level: nat, home: nat)
    requires Under(leaf, level, home)
    ensures Under(leaf, level + 1, home / 8)
  {
    EdgesAscend(level, 8 * (home / 8), home);
    EdgesAscend(level, home + 1, 8 * (home / 8 + 1));
  }

  // ---- Sums of adjacent nodes --------------------------------------------------------------

  function FieldSum(w: nat, n: nat): nat
    requires n <= 4
  {
    if n == 0 then 0 else FieldSum(w, n - 1) + Field(w, n - 1)
  }

  function NodeSum(cells: Cells, level: nat, first: nat, n: nat): nat
  {
    if n == 0 then 0 else NodeSum(cells, level, first, n - 1) + At(cells, level, first + n - 1)
  }

  /** A word read field by field gives the nodes it packs. */
  lemma {:induction false} FieldsAreNodes(words: Words, cells: Cells, level: nat, word: nat, n: nat)
    requires Packed(words, cells) && n <= 4
    ensures FieldSum(WordAt(words, Slot(level, word)), n) == NodeSum(cells, level, 4 * word, n)
  {
    if n > 0 {
      FieldsAreNodes(words, cells, level, word, n - 1);
      FieldIsNode(words, level, word, n - 1);
      assert Node(words, level, 4 * word + n - 1) == At(cells, level, 4 * word + n - 1);
    }
  }

  lemma FieldIsNode(words: Words, level: nat, word: nat, k: nat)
    requires k < 4
    ensures Field(WordAt(words, Slot(level, word)), k) == Node(words, level, 4 * word + k)
  {
    assert (4 * word + k) / 4 == word && (4 * word + k) % 4 == k;
  }

  lemma {:induction false} NodeSumSplits(cells: Cells, level: nat, first: nat, m: nat, n: nat)
    ensures NodeSum(cells, level, first, m + n) == NodeSum(cells, level, first, m) + NodeSum(cells, level, first + m, n)
  {
    if n > 0 {
      NodeSumSplits(cells, level, first, m, n - 1);
    }
  }

  /** A run of nodes that passes a word goes on in the next. */
  lemma NextWord(cells: Cells, level: nat, word: nat, m: nat, n: nat)
    requires n > 0 ==> m == 4
    ensures NodeSum(cells, level, 4 * word, m + n)
         == NodeSum(cells, level, 4 * word, m) + NodeSum(cells, level, 4 * (word + 1), n)
  {
    NodeSumSplits(cells, level, 4 * word, m, n);
    assert m == 4 ==> 4 * word + m == 4 * (word + 1);
  }

  /** A segment of eight nodes is two words: the nodes past the first `m` are in the second. */
  lemma SegmentIsTwoWords(words: Words, cells: Cells, level: nat, word: nat, m: nat, n: nat)
    requires Packed(words, cells) && m <= 4 && n <= 4 && (n > 0 ==> m == 4)
    ensures NodeSum(cells, level, 4 * word, m + n)
         == FieldSum(WordAt(words, Slot(level, word)), m) + FieldSum(WordAt(words, Slot(level, word + 1)), n)
  {
    FieldsAreNodes(words, cells, level, word, m);
    FieldsAreNodes(words, cells, level, word + 1, n);
    NextWord(cells, level, word, m, n);
  }

  lemma {:induction false} NodeSumTelescopes(cells: Cells, s: seq<nat>, level: nat, first: nat, n: nat)
    requires Sums(cells, s, level, level + 1)
    ensures NodeSum(cells, level, first, n)
         == SumTo(s, Edge(level, first + n)) - SumTo(s, Edge(level, first))
  {
    if n > 0 {
      NodeSumTelescopes(cells, s, level, first, n - 1);
      assert first + (n - 1) == first + n - 1;
      assert At(cells, level, first + n - 1) == Subtotal(s, level, first + n - 1);
      assert first + n - 1 + 1 == first + n;
    }
  }

  /** The preceding siblings of a node cover the leaves from its segment's start to its own. */
  lemma PrecedingSiblings(cells: Cells, s: seq<nat>, level: nat, home: nat)
    requires Sums(cells, s, level, level + 1)
    ensures NodeSum(cells, level, home - home % 8, home % 8)
         == SumTo(s, Edge(level, home)) - SumTo(s, Edge(level + 1, home / 8))
  {
    NodeSumTelescopes(cells, s, level, home - home % 8, home % 8);
    assert home - home % 8 == 8 * (home / 8);
  }

  /** One level of the digit walk: what is summed so far, and where the walk stands above. */
  lemma WalkLevel(cells: Cells, s: seq<nat>, leaf: nat, level: nat, home: nat, sum: int, siblings: nat)
    requires Sums(cells, s, level, level + 1) && Under(leaf, level, home)
    requires sum == SumTo(s, leaf) - SumTo(s, Edge(level, home))
    requires siblings == NodeSum(cells, level, home - home % 8, home % 8)
    ensures Under(leaf, level + 1, home / 8)
    ensures sum + siblings == SumTo(s, leaf) - SumTo(s, Edge(level + 1, home / 8))
  {
    PrecedingSiblings(cells, s, level, home);
    HomeAbove(leaf, level, home);
  }

  /** The eight nodes of the top segment sum to every leaf. */
  lemma TopSegment(cells: Cells, height: nat, s: seq<nat>)
    requires height > 0 && Represents(cells, height, s)
    ensures NodeSum(cells, height - 1, 0, 8) == Total(s)
  {
    NodeSumTelescopes(cells, s, height - 1, 0, 8);
    EdgesAscend(height - 1, 0, 8);
  }

  /** A zero leaf may be added without touching any node. */
  lemma ZeroLeaf(cells: Cells, height: nat, s: seq<nat>)
    requires Represents(cells, height, s) && height > 0 && |s| < Capacity(height)
    ensures Represents(cells, height, s + [0]) && Total(s + [0]) == Total(s)
  {
    forall n: nat
      ensures SumTo(s + [0], n) == SumTo(s, n)
    {
      SumToAppend(s, 0, n);
    }
    assert SumTo(s + [0], |s| + 1) == SumTo(s, |s| + 1);
    forall l: nat, k: nat | 0 <= l < height
      ensures At(cells, l, k) == Subtotal(s + [0], l, k)
    {
      assert At(cells, l, k) == Subtotal(s, l, k);
    }
  }

  lemma CapacityGrows(height: nat)
    ensures Capacity(height) < Capacity(height + 1)
  {
    EdgesAscend(height, 1, 8);
  }

  lemma {:induction false} CapacityBounds(height: nat)
    ensures height < MAX_HEIGHT ==> Capacity(height) < Capacity(MAX_HEIGHT)
    decreases MAX_HEIGHT - height
  {
    if height < MAX_HEIGHT {
      CapacityGrows(height);
      CapacityBounds(height + 1);
    }
  }

  /** The new top level holds the old root in its first node. */
  lemma Grown(cells: Cells, height: nat, s: seq<nat>)
    requires 0 < height < MAX_HEIGHT && Represents(cells, height, s)
    ensures Represents(cells[Cell(height, 0) := Total(s)], height + 1, s)
  {
    var w := cells[Cell(height, 0) := Total(s)];
    AtAfterWrite(cells, height, 0, Total(s));
    CapacityGrows(height);
    forall l: nat, k: nat | 0 <= l < height + 1
      ensures At(w, l, k) == Subtotal(s, l, k)
    {
      if l == height {
        TopNode(s, height, k);
      }
    }
  }

  lemma TopNode(s: seq<nat>, height: nat, k: nat)
    requires |s| <= Capacity(height)
    ensures Subtotal(s, height, k) == if k == 0 then Total(s) else 0
  {
    EdgesAscend(height, 1, k);
    EdgesAscend(height, 1, k + 1);
  }

  lemma {:induction false} ZeroWord(k: nat)
    requires k < 4
    ensures Field(0, k) == 0
  {
    if k > 0 {
      ZeroWord(k - 1);
    }
  }

  lemma NothingPacked()
    ensures Packed(map[], map[])
  {
    forall l: nat, k: nat
      ensures Node(map[], l, k) == 0
    {
      ZeroWord(k % 4);
    }
  }

  /** Leaf values are the bottom level. */
  lemma BottomLevel(cells: Cells, height: nat, s: seq<nat>, i: nat)
    requires height > 0 && Represents(cells, height, s) && i < |s|
    ensures At(cells, 0, i) == s[i]
  {
    SumToStep(s, i);
    assert At(cells, 0, i) == Subtotal(s, 0, i);
  }

  class Tree {
    var leaves: nat
    var height: nat
    var words: Words
    ghost var cells: Cells
    ghost var contents: seq<nat>

    ghost predicate Valid()
      reads this
    {
      leaves == |contents| && Packed(words, cells) && Represents(cells, height, contents)
    }

    constructor ()
      ensures Valid() && contents == []
    {
      leaves, height, words, cells, contents := 0, 0, map[], map[], [];
      new;
      NothingPacked();
    }

    method SumPacked(packed: nat, count: nat) returns (sum: nat)
      requires count <= 4
      ensures sum == FieldSum(packed, count)
    {
      sum := 0;
      for i := 0 to count
        invariant sum == FieldSum(packed, i)
      {
        sum := sum + Field(packed, i);
      }
    }

    method SumNodes(level: nat, firstNode: nat, count: nat) returns (sum: nat)
      requires Packed(words, cells) && firstNode % 8 == 0 && count <= 8
      ensures sum == NodeSum(cells, level, firstNode, count)
    {
      assert 4 * (firstNode / 4) == firstNode;
      sum := SumWords(level, firstNode / 4, count);
    }

    method SumWords(level: nat, word: nat, count: nat) returns (sum: nat)
      requires Packed(words, cells) && count <= 8
      ensures sum == NodeSum(cells, level, 4 * word, count)
    {
      if count == 0 {
        return 0;
      }
      var firstCount := if count < 4 then count else 4;
      SegmentIsTwoWords(words, cells, level, word, firstCount, count - firstCount);
      sum := SumPacked(WordAt(words, Slot(level, word)), firstCount);
      if count > 4 {
        var more := SumPacked(WordAt(words, Slot(level, word + 1)), count - firstCount);
        sum := sum + more;
      }
    }

    method ReadNode(level: nat, nodeIndex: nat) returns (value: nat)
      requires Packed(words, cells)
      ensures value == At(cells, level, nodeIndex)
    {
      value := Node(words, level, nodeIndex);
    }

    method StoreNode(level: nat, nodeIndex: nat, value: nat)
      requires Packed(words, cells) && value < LIMB
      modifies this`words, this`cells
      ensures Packed(words, cells) && cells == old(cells)[Cell(level, nodeIndex) := value]
    {
      PackedAfterWrite(words, cells, level, nodeIndex, value);
      words := WriteNode(words, level, nodeIndex, value);
      cells := cells[Cell(level, nodeIndex) := value];
    }

    method Root() returns (value: nat)
      requires Valid()
      ensures value == Total(contents)
    {
      if leaves == 0 {
        return 0;
      }
      value := SumNodes(height - 1, 0, 8);
      TopSegment(cells, height, contents);
    }

    method Leaf(leafIndex: nat) returns (r: Read)
      requires Valid()
      ensures r == if leafIndex < |contents| then Value(contents[leafIndex]) else Missing
    {
      if leafIndex >= leaves {
        return Missing;
      }
      BottomLevel(cells, height, contents, leafIndex);
      var value := ReadNode(0, leafIndex);
      r := Value(value);
    }

    method Prefix(leafIndex: nat) returns (r: Read)
      requires Valid()
      ensures r == if leafIndex < |contents| then Value(SumTo(contents, leafIndex)) else Missing
    {
      if leafIndex >= leaves {
        return Missing;
      }
      var nodeIndex, sum := leafIndex, 0;
      for level := 0 to height
        invariant Under(leafIndex, level, nodeIndex)
        invariant sum == SumTo(contents, leafIndex) - SumTo(contents, Edge(level, nodeIndex))
      {
        var offset := nodeIndex % 8;
        var siblings := SumNodes(level, nodeIndex - offset, offset);
        WalkLevel(cells, contents, leafIndex, level, nodeIndex, sum, siblings);
        sum := sum + siblings;
        nodeIndex := nodeIndex / 8;
      }
      EdgesAscend(height, 1, nodeIndex);
      r := Value(sum);
    }

    method Grow()
      requires Valid() && 0 < height < MAX_HEIGHT
      modifies this
      ensures Valid() && contents == old(contents) && leaves == old(leaves) && height == old(height) + 1
    {
      var oldRoot := SumNodes(height - 1, 0, 8);
      TopSegment(cells, height, contents);
      Grown(cells, height, contents);
      StoreNode(height, 0, oldRoot);
      height := height + 1;
    }

    /** `s` is the contents, or the contents with the zero leaf that is about to be set. */
    method ReplaceLeaf(leafIndex: nat, oldValue: nat, newValue: nat, ghost s: seq<nat>) returns (fits: bool)
      requires Valid() && height > 0
      requires leafIndex < |s| && s[leafIndex] == oldValue && newValue < LIMB
      requires Represents(cells, height, s) && Total(s) == Total(contents)
      modifies this`words, this`cells
      ensures Packed(words, cells)
      ensures fits <==> Total(s[leafIndex := newValue]) < LIMB
      ensures fits ==> Represents(cells, height, s[leafIndex := newValue])
      ensures !fits ==> words == old(words) && cells == old(cells)
    {
      if oldValue == newValue {
        assert s[leafIndex := newValue] == s;
        return true;
      }
      var oldRoot := Root();
      SumToUpdate(s, leafIndex, newValue, |s|);
      fits := oldRoot - oldValue + newValue < LIMB;
      if fits {
        UpdateAncestors(leafIndex, oldValue, newValue, s);
      }
    }

    method UpdateAncestors(leafIndex: nat, oldValue: nat, newValue: nat, ghost s: seq<nat>)
      requires leafIndex < |s| && s[leafIndex] == oldValue && Packed(words, cells)
      requires Represents(cells, height, s) && Total(s[leafIndex := newValue]) < LIMB
      modifies this`words, this`cells
      ensures Packed(words, cells) && Represents(cells, height, s[leafIndex := newValue])
    {
      var nodeIndex := leafIndex;
      for level := 0 to height
        invariant Packed(words, cells) && Under(leafIndex, level, nodeIndex)
        invariant Between(cells, height, s, s[leafIndex := newValue], level)
      {
        LevelUpdated(cells, height, s, leafIndex, newValue, level, nodeIndex);
        var oldNode := ReadNode(level, nodeIndex);
        StoreNode(level, nodeIndex, oldNode + newValue - oldValue);
        HomeAbove(leafIndex, level, nodeIndex);
        nodeIndex := nodeIndex / 8;
      }
    }

    method SetLeaf(leafIndex: nat, value: nat) returns (o: Outcome)
      requires Valid()
      modifies this
      ensures Valid()
      ensures o == SetOutcome(old(contents), leafIndex, value)
      ensures contents == if o.Done? then old(contents)[leafIndex := value] else old(contents)
      ensures leaves == old(leaves) && height == old(height) && (!o.Done? ==> words == old(words))
    {
      if leafIndex >= leaves {
        return LeafMissing;
      }
      BottomLevel(cells, height, contents, leafIndex);
      SumToUpdate(contents, leafIndex, value, |contents|);
      if value >= LIMB {
        return NodeOverflow;
      }
      var oldValue := ReadNode(0, leafIndex);
      var fits := ReplaceLeaf(leafIndex, oldValue, value, contents);
      if !fits {
        return NodeOverflow;
      }
      contents := contents[leafIndex := value];
      o := Done;
    }

    method MakeRoom()
      requires Valid() && leaves < Capacity(MAX_HEIGHT)
      modifies this
      ensures Valid() && contents == old(contents) && leaves == old(leaves)
      ensures 0 < height && leaves < Capacity(height)
    {
      if height == 0 {
        height := MIN_HEIGHT;
        EdgesAscend(height, 0, 1);
      }
      if leaves == Capacity(height) {
        CapacityGrows(height);
        Grow();
      }
    }

    method Append(value: nat) returns (o: Outcome, leafIndex: nat)
      requires Valid()
      modifies this
      ensures Valid()
      ensures o == AppendOutcome(old(contents), value)
      ensures o.Done? ==> leafIndex == |old(contents)|
      ensures contents == if o.Done? then old(contents) + [value] else old(contents)
      ensures !o.Done? ==> leaves == old(leaves) && height == old(height) && words == old(words)
    {
      leafIndex := leaves;
      assert (contents + [value])[..|contents|] == contents;
      CapacityBounds(height);
      if height == MAX_HEIGHT && leaves == Capacity(height) {
        return AtCapacity, leafIndex;
      }
      if value >= LIMB {
        return NodeOverflow, leafIndex;
      }
      var heightBefore, wordsBefore := height, words;
      ghost var cellsBefore := cells;
      MakeRoom();
      ZeroLeaf(cells, height, contents);
      ghost var s := contents + [0];
      assert s[leafIndex := value] == contents + [value];
      var fits := ReplaceLeaf(leafIndex, 0, value, s);
      if !fits {
        // the revert also undoes the growth
        height, words, cells := heightBefore, wordsBefore, cellsBefore;
        return NodeOverflow, leafIndex;
      }
      contents := contents + [value];
      leaves := leafIndex + 1;
      o := Done;
    }
  }

  function SetOutcome(s: seq<nat>, i: nat, v: nat): Outcome
  {
    if i >= |s| then LeafMissing
    else if Total(s[i := v]) >= LIMB then NodeOverflow
    else Done
  }

  function AppendOutcome(s: seq<nat>, v: nat): Outcome
  {
    if |s| >= Capacity(MAX_HEIGHT) then AtCapacity
    else if Total(s) + v >= LIMB then NodeOverflow
    else Done
  }

  /** A leaf is taken exactly while there are fewer than 8^7 and the sum of all still fits 64 bits. */
  lemma AppendTakenIff(s: seq<nat>, v: nat)
    ensures AppendOutcome(s, v).Done? <==> |s| < 2_097_152 && Total(s) + v < 0x1_0000_0000_0000_0000
    ensures AppendOutcome(s, v).AtCapacity? <==> |s| >= 2_097_152
  {
    assert Capacity(0) == 1 && Capacity(1) == 8 && Capacity(2) == 64 && Capacity(3) == 512;
    assert Capacity(4) == 4_096 && Capacity(5) == 32_768 && Capacity(6) == 262_144;
  }

  /** A leaf that is there can be set exactly when the sum of all still fits. */
  lemma SetTakenIff(s: seq<nat>, i: nat, v: nat)
    ensures SetOutcome(s, i, v).Done? <==> i < |s| && Total(s) - s[i] + v < 0x1_0000_0000_0000_0000
    ensures SetOutcome(s, i, v).LeafMissing? <==> i >= |s|
  {
    if i < |s| {
      SumToUpdate(s, i, v, |s|);
    }
  }
}
