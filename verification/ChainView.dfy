/** The flat view of one branch of the tree (btcd/blockchain/chainview.go). */
module ChainView {
  import opened Wire
  import opened Bits
  import opened BlockTree

  /** About a week of blocks: the spare capacity of a new backing array. */
  const APPROX_NODES_PER_WEEK := 6 * 24 * 7

  // ---- block locators, by index instead of by loop

  /** How far below the node the i-th locator entry lies, before clamping at genesis. */
  function Offset(i: nat): nat {
    if i < 10 then i else 9 + Pow2(i - 10)
  }

  /** The distance from the i-th entry to the next: it doubles once 11 entries are in. */
  function StepAt(i: nat): nat {
    if i <= 10 then 1 else Pow2(i - 10)
  }

  function LocatorHeight(height: nat, i: nat): nat {
    if height > Offset(i) then height - Offset(i) else 0
  }

  /** The i-th entry of a node's locator: an ancestor of its own. */
  ghost function Entry(node: BlockNode, i: nat): (a: BlockNode)
    requires Chained(node)
    ensures a.height == LocatorHeight(node.height, i) && Chained(a)
  {
    At(node, LocatorHeight(node.height, i))
  }

  /** The first n entries of a node's locator. */
  ghost function Entries(node: BlockNode, n: nat): (hashes: seq<Hash>)
    requires Chained(node)
    ensures |hashes| == n
  {
    if n == 0 then [] else Entries(node, n - 1) + [Entry(node, n - 1).Hash()]
  }

  lemma {:induction false} EntriesIndex(node: BlockNode, n: nat, i: nat)
    requires Chained(node) && i < n
    ensures Entries(node, n)[i] == Entry(node, i).Hash()
  {
    if i < n - 1 { EntriesIndex(node, n - 1, i); }
  }

  /** A locator of a node: the hashes of its own ancestors at the locator heights,
      up to and including the first entry that is genesis. */
  ghost predicate IsLocator(locator: seq<Hash>, node: BlockNode)
    requires Chained(node)
  {
    && |locator| > 0
    && locator == Entries(node, |locator|)
    && Entry(node, |locator| - 1).height == 0
    && (|locator| > 1 ==> Entry(node, |locator| - 2).height > 0)
  }

  /** A locator starts at the node itself, strictly descends, and ends at genesis. */
  lemma LocatorShape(locator: seq<Hash>, node: BlockNode, i: nat, j: nat)
    requires Chained(node) && IsLocator(locator, node) && i < j < |locator|
    ensures locator[0] == node.Hash()
    ensures locator[|locator| - 1] == At(node, 0).Hash()
    ensures locator[i] == Entry(node, i).Hash() && locator[j] == Entry(node, j).Hash()
    ensures Entry(node, j).height < Entry(node, i).height
  {
    hide Entries, Offset, At, Chained;
    EntriesIndex(node, |locator|, 0);
    EntriesIndex(node, |locator|, |locator| - 1);
    EntriesIndex(node, |locator|, i);
    EntriesIndex(node, |locator|, j);
    OffsetsGrow(i, j);
    OffsetsGrow(i, |locator| - 2);
    SmallOffsets(0);
    AtSelf(node);
  }

  lemma LinkedIsChained(node: BlockNode)
    requires Linked(node)
    ensures Chained(node) && At(node, node.height) == node
  {
  }

  lemma {:induction false} OffsetsGrow(i: nat, j: nat)
    ensures i < j ==> Offset(i) < Offset(j)
    decreases j
  {
    if i < j {
      LocatorDescends(0, j - 1);
      OffsetsGrow(i, j - 1);
    }
  }

  lemma LocatorDescends(height: nat, i: nat)
    ensures Offset(i + 1) == Offset(i) + if i < 10 then 1 else Pow2(i - 10)
    ensures LocatorHeight(height, i) > 0 ==> LocatorHeight(height, i + 1) < LocatorHeight(height, i)
  {
    if i == 9 { assert Pow2(0) == 1; }
  }

  /** The number of entries the code computes up front is the number it appends. */
  lemma LocatorSize(height: nat, count: nat)
    requires count > 0 && LocatorHeight(height, count - 1) == 0
    requires count > 1 ==> LocatorHeight(height, count - 2) > 0
    ensures IsMaxEntries(height, count)
  {
    assert Offset(10) == 10 && Offset(11) == 11 && Offset(12) == 13 by {
      assert Pow2(0) == 1 && Pow2(1) == 2 && Pow2(2) == 4;
    }
    assert LocatorHeight(height, count - 1) == 0;
    if height > 12 {
      SmallOffsets(count - 1);
      assert count - 2 >= 10;
      assert LocatorHeight(height, count - 2) > 0;
    } else if count >= 2 {
      assert LocatorHeight(height, count - 2) > 0;
      if count - 2 >= 10 { Pow2Grows(count - 2); }
    }
  }

  lemma SmallOffsets(i: nat)
    ensures i <= 11 ==> Offset(i) == i
  {
    if 10 <= i <= 11 { assert Pow2(0) == 1 && Pow2(1) == 2; }
  }

  lemma {:induction false} Pow2Grows(i: nat)
    requires i >= 10
    ensures Offset(i) >= i
    decreases i
  {
    if i == 10 { assert Pow2(0) == 1; } else { Pow2Grows(i - 1); LocatorDescends(0, i - 1); }
  }

  /** The capacity reserved for a locator. */
  method MaxEntries(height: nat) returns (maxEntries: nat)
    requires height < 0x8000_0000
    ensures IsMaxEntries(height, maxEntries) && maxEntries < 0x100
  {
    if height <= 12 {
      maxEntries := height + 1;
    } else {
      maxEntries := FastLog2Floor(height - 10);
      maxEntries := 12 + maxEntries;
    }
  }

  ghost predicate IsMaxEntries(height: nat, count: nat) {
    if height <= 12 then count == height + 1
    else count >= 12 && IsLog2Floor(height - 10, count - 12)
  }

  lemma SizeIsMaxEntries(height: nat, a: nat, b: nat)
    requires IsMaxEntries(height, a) && IsMaxEntries(height, b)
    ensures a == b
  {
    if height > 12 { Log2FloorUnique(height - 10, a - 12, b - 12); }
  }

  ghost function Values(entries: seq<Option<BlockNode>>): (s: seq<BlockNode>)
    requires forall i :: 0 <= i < |entries| ==> entries[i].Some?
    ensures |s| == |entries| && forall i :: 0 <= i < |s| ==> s[i] == entries[i].value
  {
    seq(|entries|, i requires 0 <= i < |entries| => entries[i].value)
  }

  /** The entry after one above genesis lies one step further down. */
  lemma EntryNext(node: BlockNode, i: nat)
    requires Chained(node)
    ensures i == 0 ==> Entry(node, i) == node && StepAt(i) == 1
    ensures var a := Entry(node, i);
      a.height > 0 ==>
        && Entry(node, i + 1).height < a.height
        && Entry(node, i + 1) == At(a, if a.height < StepAt(i) then 0 else a.height - StepAt(i))
    ensures StepAt(i + 1) == if i + 1 > 10 then StepAt(i) * 2 else StepAt(i)
    ensures Entries(node, i + 1) == Entries(node, i) + [Entry(node, i).Hash()]
    ensures Entries(node, 0) == []
  {
    SmallOffsets(i);
    LocatorDescends(node.height, i);
    if i == 10 { assert Pow2(0) == 1; }
    AtAt(node, LocatorHeight(node.height, i), LocatorHeight(node.height, i + 1));
  }

  lemma LocatorDone(locator: seq<Hash>, node: BlockNode)
    requires Chained(node) && |locator| > 0
    requires locator == Entries(node, |locator|)
    requires Entry(node, |locator| - 1).height == 0
    requires |locator| > 1 ==> Entry(node, |locator| - 2).height > 0
    ensures IsLocator(locator, node)
  {
  }

  lemma LocatorLength(locator: seq<Hash>, node: BlockNode)
    requires Chained(node) && IsLocator(locator, node)
    ensures IsMaxEntries(node.height, |locator|)
  {
    LocatorSize(node.height, |locator|);
  }

  class View {
    // A slice: the first len entries of a backing array.
    var nodes: array<Option<BlockNode>>
    var len: nat

    /** The slice holds exactly one branch; what lies beyond it is stale and arbitrary. */
    ghost predicate Valid()
      reads this, nodes
    {
      && len <= nodes.Length
      && (forall i :: 0 <= i < len ==> nodes[i].Some?)
      && (len > 0 ==> Linked(nodes[len - 1].value) && Nodes() == Path(nodes[len - 1].value))
    }

    ghost function Nodes(): seq<BlockNode>
      reads this, nodes
      requires len <= nodes.Length && forall i :: 0 <= i < len ==> nodes[i].Some?
    {
      Values(nodes[..len])
    }

    /** Every entry is the tip's ancestor at its own height. */
    lemma EntriesAt()
      requires Valid() && len > 0
      ensures nodes[len - 1].value.height == len - 1
      ensures forall i :: 0 <= i < len ==> nodes[i] == Some(At(nodes[len - 1].value, i)) && nodes[i].value.height == i
    {
      var tip := nodes[len - 1].value;
      PathAt(tip);
      forall i | 0 <= i < len
        ensures nodes[i] == Some(At(tip, i))
      {
        assert Nodes()[i] == Path(tip)[i];
      }
    }

    constructor (tip: Option<BlockNode>)
      requires tip.Some? ==> Linked(tip.value)
      ensures Valid() && fresh(nodes)
      ensures Nodes() == if tip.Some? then Path(tip.value) else []
    {
      nodes := new Option<BlockNode>[0];
      len := 0;
      new;
      SetTip(tip);
    }

    /** setTip: whatever branch the view held, and whatever the backing array
        still holds beyond it, the view afterwards is the new tip's branch. */
    method SetTip(tip: Option<BlockNode>)
      requires Valid() && (tip.Some? ==> Linked(tip.value))
      modifies this, nodes
      ensures Valid() && (nodes == old(nodes) || fresh(nodes))
      ensures Nodes() == if tip.Some? then Path(tip.value) else []
    {
      if tip.None? {
        len := 0;
        return;
      }
      var needed := tip.value.height + 1;
      ghost var was := if len > 0 then Some(nodes[len - 1].value) else None;
      var prevLen := len;
      if len > 0 { EntriesAt(); }
      if nodes.Length < needed {
        var grown := new Option<BlockNode>[needed + APPROX_NODES_PER_WEEK](_ => None);
        forall i | 0 <= i < prevLen { grown[i] := nodes[i]; }
        nodes := grown;
        len := needed;
      } else {
        len := needed;
        var i := prevLen;
        while i < needed
          invariant prevLen <= i && (i <= needed || i == prevLen)
          invariant nodes == old(nodes) && len == needed
          invariant forall j :: prevLen <= j < i ==> nodes[j] == None
          invariant forall j :: 0 <= j < prevLen ==> nodes[j] == old(nodes[j])
        {
          nodes[i] := None;
          i := i + 1;
        }
      }
      assert forall j :: 0 <= j < needed ==> nodes[j] == if j < prevLen then old(nodes[j]) else None;
      Fill(tip.value, was, prevLen);
    }

    /** The backward walk with its early exit. */
    method Fill(tip: BlockNode, ghost was: Option<BlockNode>, ghost prevLen: nat)
      requires Linked(tip) && len == tip.height + 1 <= nodes.Length
      requires was.Some? ==> Chained(was.value) && was.value.height == prevLen - 1
      requires was.None? ==> prevLen == 0
      requires forall i :: 0 <= i < len ==>
        nodes[i] == if i < prevLen then Some(At(was.value, i)) else None
      modifies nodes
      ensures Valid() && Nodes() == Path(tip)
    {
      var node := Some(tip);
      ghost var h: int := tip.height;
      while node.Some? && nodes[node.value.height] != node
        invariant -1 <= h <= tip.height
        invariant node == if h >= 0 then Some(At(tip, h)) else None
        invariant forall i :: 0 <= i <= h ==> nodes[i] == if i < prevLen then Some(At(was.value, i)) else None
        invariant forall i :: h < i <= tip.height ==> nodes[i] == Some(At(tip, i))
        decreases h
      {
        nodes[node.value.height] := node;
        ParentAt(tip, h);
        node := node.value.parent;
        h := h - 1;
      }
      if h >= 0 {
        forall i | 0 <= i <= h
          ensures nodes[i] == Some(At(tip, i))
        {
          AtAt(tip, h, i);
          AtAt(was.value, h, i);
        }
      }
      PathAt(tip);
      assert Nodes() == Path(tip);
    }

    /** The height of the view, or -1 when it has no tip. */
    function Height(): int
      reads this
    {
      len - 1
    }

    function NodeByHeight(height: int): (r: Option<BlockNode>)
      reads this, nodes
      requires Valid()
      ensures r.Some? <==> 0 <= height < len
      ensures r.Some? ==> r.value == Nodes()[height]
    {
      if height < 0 || height >= len then None else nodes[height]
    }

    /** One comparison at the node's own height decides membership. */
    function Contains(node: BlockNode): (r: bool)
      reads this, nodes
      requires Valid()
      ensures r <==> node in Nodes()
    {
      assert node in Nodes() ==> NodeByHeight(node.height) == Some(node) by {
        if len > 0 {
          EntriesAt();
          if node in Nodes() {
            var i :| 0 <= i < |Nodes()| && Nodes()[i] == node;
            assert nodes[i].value == node;
          }
        }
      }
      NodeByHeight(node.height) == Some(node)
    }

    /** The successor on the branch: nil exactly off the branch and at its tip,
        and otherwise a child of the node. */
    function Next(node: Option<BlockNode>): (r: Option<BlockNode>)
      reads this, nodes
      requires Valid()
      ensures r.None? <==> node.None? || node.value !in Nodes() || node.value == Nodes()[len - 1]
      ensures r.Some? ==> r.value in Nodes() && r.value.parent == node && r.value.height == node.value.height + 1
    {
      assert node.Some? && node.value in Nodes() ==>
        && 0 <= node.value.height < len && Nodes()[node.value.height] == node.value
        && (node.value.height + 1 < len ==>
          && Nodes()[node.value.height + 1].parent == node
          && Nodes()[node.value.height + 1].height == node.value.height + 1
          && node.value != Nodes()[len - 1])
      by {
        if node.Some? && Contains(node.value) {
          EntriesAt();
          var h := node.value.height;
          assert nodes[h].value == node.value;
          if h + 1 < len {
            ParentAt(nodes[len - 1].value, h + 1);
            assert nodes[h + 1].value.parent == Some(nodes[h].value);
          }
        }
      }
      if node.None? || !Contains(node.value) then None else NodeByHeight(node.value.height + 1)
    }

    /** The fork point of a node with the branch. */
    method FindFork(node: Option<BlockNode>) returns (fork: Option<BlockNode>)
      requires Valid() && (node.Some? ==> Linked(node.value))
      ensures fork.None? <==> node.None? || forall x :: x in Path(node.value) ==> x !in Nodes()
      ensures fork.Some? ==> fork.value in Nodes() && fork.value in Path(node.value)
      ensures fork.Some? ==> forall x :: x in Path(node.value) && x in Nodes() ==> x.height <= fork.value.height
    {
      hide *;
      if node.None? {
        return None;
      }
      ghost var tip := node.value;
      LinkedIsChained(tip);
      Heights();
      ghost var best := Nodes();
      var n := node;
      NoneAboveView(tip, best, len);
      if node.value.height > Height() {
        var a, _ := Ancestor(node.value, Height());
        n := a;
      }
      ghost var h: int := if n.Some? then n.value.height else -1;
      while n.Some? && !Contains(n.value)
        invariant -1 <= h <= tip.height
        invariant n == if h >= 0 then Some(At(tip, h)) else None
        invariant NoneAbove(tip, best, h)
        decreases h
      {
        WalkDown(tip, best, h);
        n := n.value.parent;
        h := h - 1;
      }
      fork := n;
      HighestCommon(tip, best, h);
    }

    lemma ByHeight()
      requires Valid()
      ensures len <= nodes.Length && forall i :: 0 <= i < len ==> nodes[i].Some?
      ensures |Nodes()| == len
      ensures forall i :: 0 <= i < len ==>
        Nodes()[i].height == i && (i > 0 ==> Nodes()[i].parent == Some(Nodes()[i - 1]))
      ensures forall x :: x in Nodes() ==> x.height < len && Nodes()[x.height] == x
    {
      if len > 0 {
        EntriesAt();
        forall i | 0 < i < len
          ensures Nodes()[i].parent == Some(Nodes()[i - 1])
        {
          ParentAt(nodes[len - 1].value, i);
        }
      }
    }

    lemma Heights()
      requires Valid()
      ensures len <= nodes.Length && forall i :: 0 <= i < len ==> nodes[i].Some?
      ensures Height() == len - 1
      ensures forall x :: x in Nodes() ==> x.height < len
    {
      if len > 0 { EntriesAt(); }
    }

    /** blockLocator: a locator of the node (of the tip, when none is given), of
        exactly the length the code reserves for it. */
    method BlockLocator(given: Option<BlockNode>) returns (locator: seq<Hash>)
      requires Valid()
      requires given.Some? ==> Linked(given.value)
      requires given.Some? ==> given.value.height < 0x8000_0000
      requires len <= 0x8000_0000
      ensures locator == [] <==> given.None? && len == 0
      ensures given.Some? ==> IsLocator(locator, given.value)
      ensures given.None? && len > 0 ==> IsLocator(locator, Nodes()[len - 1])
    {
      var node := given;
      if node.None? {
        node := NodeByHeight(len - 1);
      }
      if node.None? {
        return [];
      }
      if given.None? { EntriesAt(); }
      hide Valid, Entry, IsLog2Floor;
      var maxEntries := MaxEntries(node.value.height);
      locator := LocatorOf(node.value);
      LocatorLength(locator, node.value);
      SizeIsMaxEntries(node.value.height, |locator|, maxEntries);
      assert |locator| == maxEntries;
    }

    method LocatorOf(top: BlockNode) returns (locator: seq<Hash>)
      requires Valid() && Linked(top)
      ensures IsLocator(locator, top)
    {
      hide *;
      LinkedIsChained(top);
      locator := [];
      var step := 1;
      var node := top;
      EntryNext(top, 0);
      while true
        invariant Linked(node) && node == Entry(top, |locator|)
        invariant step == StepAt(|locator|)
        invariant locator == Entries(top, |locator|)
        invariant |locator| > 0 ==> Entry(top, |locator| - 1).height > 0
        decreases node.height
      {
        EntryNext(top, |locator|);
        locator := locator + [node.Hash()];
        if node.height == 0 {
          LocatorDone(locator, top);
          break;
        }
        node := PreviousEntry(node, step);
        step := if |locator| > 10 then step * 2 else step;
      }
    }

    /** The node `step` below, or genesis. */
    method PreviousEntry(node: BlockNode, step: nat) returns (a: BlockNode)
      requires Valid() && Linked(node)
      ensures a == At(node, if node.height < step then 0 else node.height - step) && Linked(a)
    {
      var height := if node.height < step then 0 else node.height - step;
      a := AncestorOnOrOff(node, height);
    }

    /** An ancestor by index when the node is on the branch, by search when it is not. */
    method AncestorOnOrOff(node: BlockNode, height: nat) returns (a: BlockNode)
      requires Valid() && Linked(node) && height <= node.height
      ensures a == At(node, height) && Linked(a)
    {
      AtLinked(node, height);
      if Contains(node) {
        InViewAt(node, height);
        a := nodes[height].value;
      } else {
        var r, _ := Ancestor(node, height);
        a := r.value;
      }
    }

    /** All ancestors of a node on the branch are on it, at their own heights. */
    lemma InViewAt(node: BlockNode, height: nat)
      requires Valid() && node in Nodes()
      requires height <= node.height
      ensures height < len && Chained(node) && nodes[height] == Some(At(node, height))
    {
      EntriesAt();
      assert Contains(node);
      AtAt(nodes[len - 1].value, node.height, height);
    }
  }

  /** None of the node's ancestors above height h is on the branch. */
  ghost predicate NoneAbove(tip: BlockNode, best: seq<BlockNode>, h: int)
    requires Chained(tip) && -1 <= h
  {
    forall i :: h < i <= tip.height ==> At(tip, i) !in best
  }

  lemma NoneAboveView(tip: BlockNode, best: seq<BlockNode>, len: nat)
    requires Chained(tip) && forall x :: x in best ==> x.height < len
    ensures NoneAbove(tip, best, len - 1) && NoneAbove(tip, best, tip.height)
  {
  }

  lemma WalkDown(tip: BlockNode, best: seq<BlockNode>, h: nat)
    requires Chained(tip) && h <= tip.height && NoneAbove(tip, best, h) && At(tip, h) !in best
    ensures NoneAbove(tip, best, h - 1)
    ensures At(tip, h).parent == if h == 0 then None else Some(At(tip, h - 1))
  {
    ParentAt(tip, h);
  }

  /** The first node of a walk down that is on a branch is the highest common one. */
  lemma HighestCommon(tip: BlockNode, best: seq<BlockNode>, h: int)
    requires Chained(tip) && -1 <= h <= tip.height && NoneAbove(tip, best, h)
    ensures h >= 0 ==> At(tip, h) in Path(tip)
    ensures forall x :: x in Path(tip) && x in best ==> x.height <= h
  {
    if h >= 0 { OnPath(tip, At(tip, h)); }
    forall x | x in Path(tip) && x in best
      ensures x.height <= h
    {
      OnPath(tip, x);
    }
  }

  lemma {:induction false} ParentAt(n: BlockNode, h: nat)
    requires Chained(n) && h <= n.height
    ensures At(n, h).parent == if h == 0 then None else Some(At(n, h - 1))
  {
    if h < n.height { ParentAt(n.parent.value, h); }
  }
}
