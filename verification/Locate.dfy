/** Range queries on the best chain (btcd/blockchain/chain.go): serving a peer's
    locator, and the block hashes at every filter checkpoint. */
module Locate {
  import opened Wire
  import opened Bits
  import opened BlockTree
  import opened ChainView

  type Index = map<Hash, BlockNode>

  /** The index holds each node under its own hash, and every node of the branch. */
  ghost predicate Indexed(index: Index, best: seq<BlockNode>) {
    && (forall h :: h in index ==> index[h].Hash() == h && Linked(index[h]))
    && (forall x :: x in best ==> x.Hash() in index && index[x.Hash()] == x)
  }

  /** A hash names a node of the branch. */
  ghost predicate OnBranch(index: Index, best: seq<BlockNode>, hash: Hash) {
    hash in index && index[hash] in best
  }

  /** Where a locator resumes: its first entry on the branch, or genesis. */
  ghost function ResumeAt(index: Index, best: seq<BlockNode>, locator: seq<Hash>): (n: BlockNode)
    requires |best| > 0
    ensures n in best
  {
    if locator == [] then best[0]
    else if OnBranch(index, best, locator[0]) then index[locator[0]]
    else ResumeAt(index, best, locator[1..])
  }

  /** The last height an answer may reach: the stop block when it is on the
      branch and not already passed, the tip otherwise. */
  ghost function LastHeight(index: Index, best: seq<BlockNode>, stop: Hash, start: nat): nat
    requires |best| > 0
  {
    if OnBranch(index, best, stop) && index[stop].height >= start then index[stop].height else |best| - 1
  }

  ghost function Hashes(nodes: seq<BlockNode>): (hashes: seq<Hash>)
    ensures |hashes| == |nodes|
    ensures forall i :: 0 <= i < |nodes| ==> hashes[i] == nodes[i].Hash()
  {
    seq(|nodes|, i requires 0 <= i < |nodes| => nodes[i].Hash())
  }

  function Lookup(index: Index, hash: Hash): Option<BlockNode> {
    if hash in index then Some(index[hash]) else None
  }

  /** What locateInventory answers to a non-empty locator. */
  ghost predicate IsInventory(index: Index, best: seq<BlockNode>, locator: seq<Hash>, stop: Hash, max: nat,
    node: Option<BlockNode>, total: nat)
    requires |best| > 0
  {
    var start := ResumeAt(index, best, locator).height + 1;
    if start >= |best| then node == None && total == 0
    else
      && node == Some(best[start])
      && total == Min(LastHeight(index, best, stop, start) - start + 1, max)
      && start + total <= |best|
  }

  /** The block after the one resumed at, none if that is the tip, and how many blocks
      there are from it to the stop block, if that is one of the blocks to come, else to
      the tip, unless there are more than may be served. */
  ghost predicate CountsUpTo(index: Index, best: seq<BlockNode>, from: nat, stop: Hash, max: nat,
    node: Option<BlockNode>, total: nat)
  {
    && (node.None? ==> from == |best| - 1 && total == 0)
    && (node.Some? ==> from + 1 < |best| && node.value == best[from + 1])
    && if stop in index && index[stop] in best && index[stop].height > from then
         from + total == index[stop].height || (total == max && from + max < index[stop].height)
       else
         from + total == |best| - 1 || (total == max && from + max < |best| - 1)
  }

  function Min(a: int, b: int): int {
    if a < b then a else b
  }

  /** The most recent locator hash on the branch. */
  method FindResume(view: View, index: Index, locator: seq<Hash>) returns (n: BlockNode)
    requires view.Valid() && view.len > 0 && Indexed(index, view.Nodes())
    ensures n == ResumeAt(index, view.Nodes(), locator)
  {
    hide *;
    view.ByHeight();
    ghost var best := view.Nodes();
    n := view.NodeByHeight(0).value;
    for i := 0 to |locator|
      invariant n == best[0]
      invariant ResumeAt(index, best, locator) == ResumeAt(index, best, locator[i..])
    {
      ResumeStep(index, best, locator, i);
      if locator[i] in index && view.Contains(index[locator[i]]) {
        return index[locator[i]];
      }
    }
    ResumeStep(index, best, locator, |locator|);
  }

  lemma ResumeStep(index: Index, best: seq<BlockNode>, locator: seq<Hash>, i: nat)
    requires |best| > 0 && i <= |locator|
    ensures locator[0..] == locator
    ensures ResumeAt(index, best, locator[i..]) ==
      if i == |locator| then best[0]
      else if locator[i] in index && index[locator[i]] in best then index[locator[i]]
      else ResumeAt(index, best, locator[i + 1..])
  {
    if i < |locator| { assert locator[i..][1..] == locator[i + 1..]; }
  }

  /** locateInventory: the node after the resume point and how many nodes to serve. */
  method LocateInventory(view: View, index: Index, locator: seq<Hash>, hashStop: Hash, maxEntries: nat)
    returns (node: Option<BlockNode>, total: nat)
    requires view.Valid() && view.len > 0 && Indexed(index, view.Nodes())
    ensures locator == [] ==> node == Lookup(index, hashStop) && total == if node.Some? then 1 else 0
    ensures locator != [] ==> IsInventory(index, view.Nodes(), locator, hashStop, maxEntries, node, total)
    ensures locator != [] ==> CountsUpTo(index, view.Nodes(), ResumeAt(index, view.Nodes(), locator).height, hashStop,
      maxEntries, node, total)
  {
    hide Linked, Path, ResumeAt, View.Valid, View.Nodes, View.Contains, View.Next, View.NodeByHeight, Indexed;
    var stopNode := Lookup(index, hashStop);
    if |locator| == 0 {
      if stopNode.None? {
        return None, 0;
      }
      return stopNode, 1;
    }
    view.ByHeight();
    var startNode := FindResume(view, index, locator);
    node := view.Next(Some(startNode));
    if node.None? {
      return None, 0;
    }
    total := view.Height() - node.value.height + 1;
    if stopNode.Some? && view.Contains(stopNode.value) && stopNode.value.height >= node.value.height {
      total := stopNode.value.height - node.value.height + 1;
    }
    total := if total > maxEntries then maxEntries else total;
  }

  /** locateBlocks: with a locator, exactly the branch's next `total` hashes after
      the resume point; without one, the stop block alone when it is known. */
  method LocateBlocks(view: View, index: Index, locator: seq<Hash>, hashStop: Hash, maxHashes: nat)
    returns (hashes: seq<Hash>)
    requires view.Valid() && view.len > 0 && Indexed(index, view.Nodes())
    ensures locator == [] ==> hashes == if hashStop in index then [hashStop] else []
    ensures locator != [] ==> IsAnswer(index, view.Nodes(), locator, hashStop, maxHashes, hashes)
    ensures locator != [] ==> ServesUpTo(index, view.Nodes(), ResumeAt(index, view.Nodes(), locator).height, hashStop,
      maxHashes, hashes)
  {
    hide Linked, Path, ResumeAt, LastHeight, View.Valid, View.Nodes, Indexed, ServesUpTo;
    view.ByHeight();
    IndexedFacts(view, index);
    var node, total := LocateInventory(view, index, locator, hashStop, maxHashes);
    if total == 0 {
      hashes := [];
    } else if locator == [] {
      hashes := [node.value.Hash()];
    } else {
      hashes := Follow(view, node.value, total);
    }
    if locator != [] { AnswerServes(index, view.Nodes(), locator, hashStop, maxHashes, hashes); }
  }

  lemma IndexedFacts(view: View, index: Index)
    requires view.Valid() && Indexed(index, view.Nodes())
    ensures forall h :: h in index ==> index[h].Hash() == h
    ensures |view.Nodes()| == view.len
    ensures forall i :: 0 <= i < view.len ==> view.Nodes()[i].height == i
  {
    view.ByHeight();
  }

  /** The loop of locateBlocks: `total` hashes along the branch, never past its end. */
  method Follow(view: View, first: BlockNode, total: nat) returns (hashes: seq<Hash>)
    requires view.Valid() && first in view.Nodes() && first.height + total <= view.len
    ensures first.height + total <= |view.Nodes()|
    ensures hashes == Hashes(view.Nodes()[first.height..first.height + total])
  {
    hide *;
    view.ByHeight();
    ghost var best := view.Nodes();
    ghost var start := first.height;
    hashes := [];
    var node := Some(first);
    for i := 0 to total
      invariant i < total ==> node == Some(best[start + i])
      invariant |hashes| == i
      invariant forall k :: 0 <= k < i ==> hashes[k] == best[start + k].Hash()
    {
      hashes := hashes + [node.value.Hash()];
      node := view.Next(node);
    }
  }

  /** Without a locator at most the stop block; with one, a contiguous segment of
      the branch starting right after the resume point. */
  ghost predicate IsAnswer(index: Index, best: seq<BlockNode>, locator: seq<Hash>, stop: Hash, max: nat,
      hashes: seq<Hash>)
    requires |best| > 0
  {
    var start := ResumeAt(index, best, locator).height + 1;
    if start >= |best| then hashes == []
    else
      var total := Min(LastHeight(index, best, stop, start) - start + 1, max);
      0 <= total && start + total <= |best| && hashes == Hashes(best[start..start + total])
  }

  // ---- where an answer starts and ends

  /** A hash of the locator names a block of the best chain, and no hash before it does. */
  ghost predicate FirstKnown(index: Index, best: seq<BlockNode>, locator: seq<Hash>, i: nat) {
    && i < |locator| && locator[i] in index && index[locator[i]] in best
    && forall j :: 0 <= j < i ==> !(locator[j] in index && index[locator[j]] in best)
  }

  /** A locator resumes at its first hash that is on the best chain, and at genesis if it
      has none. */
  lemma {:induction false} ResumesFirst(index: Index, best: seq<BlockNode>, locator: seq<Hash>)
    requires |best| > 0
    ensures forall i: nat :: FirstKnown(index, best, locator, i) ==>
      ResumeAt(index, best, locator) == index[locator[i]]
    ensures (forall j :: 0 <= j < |locator| ==> !(locator[j] in index && index[locator[j]] in best)) ==>
      ResumeAt(index, best, locator) == best[0]
  {
    if locator != [] {
      var rest := locator[1..];
      ResumesFirst(index, best, rest);
      assert forall j :: 0 <= j < |rest| ==> rest[j] == locator[j + 1];
      forall i: nat | FirstKnown(index, best, locator, i)
        ensures ResumeAt(index, best, locator) == index[locator[i]]
      {
        if i > 0 { assert FirstKnown(index, best, rest, i - 1); }
      }
    }
  }

  /** The blocks served are those right after the one resumed at, and end with the stop
      block, if that is one of the blocks to come, else with the tip, or are as many as
      may be served. */
  ghost predicate ServesUpTo(index: Index, best: seq<BlockNode>, from: nat, stop: Hash, max: nat, hashes: seq<Hash>) {
    && |hashes| <= max && from + |hashes| < |best|
    && (forall i :: 0 <= i < |hashes| ==> hashes[i] == best[from + 1 + i].Hash())
    && if stop in index && index[stop] in best && index[stop].height > from then
         && from + |hashes| <= index[stop].height
         && (|hashes| < max ==> hashes != [] && hashes[|hashes| - 1] == stop)
       else
         |hashes| < max ==> from + |hashes| == |best| - 1
  }

  /** What an answer is, by the blocks in it. */
  lemma AnswerServes(index: Index, best: seq<BlockNode>, locator: seq<Hash>, stop: Hash, max: nat, hashes: seq<Hash>)
    requires |best| > 0 && forall i :: 0 <= i < |best| ==> best[i].height == i
    requires forall h :: h in index ==> index[h].Hash() == h
    requires IsAnswer(index, best, locator, stop, max, hashes)
    ensures ServesUpTo(index, best, ResumeAt(index, best, locator).height, stop, max, hashes)
  {
    hide ResumeAt, Linked;
    var from := ResumeAt(index, best, locator).height;
    if stop in index && index[stop] in best && index[stop].height > from {
      var h := index[stop].height;
      assert best[h] == index[stop];
      if |hashes| < max { assert hashes[h - from - 1] == best[h].Hash(); }
    }
  }

  // ---- how far below the fork a locator resumes

  /** No two different nodes among the index and the node's chain share a hash. */
  ghost predicate HashesIdentify(index: Index, node: BlockNode) {
    forall a, h :: a in Path(node) && h in index && h == a.Hash() ==> index[h] == a
  }

  /** The chains share their nodes up to height f and none above. */
  ghost predicate ForksAt(node: BlockNode, best: seq<BlockNode>, f: nat)
    requires Chained(node)
  {
    && f <= node.height
    && forall i :: 0 <= i <= node.height ==> (At(node, i) in best <==> i <= f)
  }

  /** Two chains with a common genesis fork at exactly one height, the highest
      common node findFork finds. */
  lemma ForkExists(node: BlockNode, tip: BlockNode, fork: BlockNode)
    requires Chained(node) && Chained(tip)
    requires fork in Path(node) && fork in Path(tip)
    requires forall x :: x in Path(node) && x in Path(tip) ==> x.height <= fork.height
    ensures ForksAt(node, Path(tip), fork.height)
  {
    OnPath(node, fork);
    OnPath(tip, fork);
    forall i | 0 <= i <= node.height
      ensures At(node, i) in Path(tip) <==> i <= fork.height
    {
      OnPath(node, At(node, i));
      OnPath(tip, At(node, i));
      if i <= fork.height {
        AtAt(node, fork.height, i);
        AtAt(tip, fork.height, i);
      }
    }
  }

  /** The overshoot: a locator built from a node at height h whose fork with the
      branch is at f resumes exactly at the fork when h - f <= 11, and never more
      than h - f - 11 blocks below it otherwise. */
  lemma LocatorOvershoot(index: Index, best: seq<BlockNode>, locator: seq<Hash>, node: BlockNode, f: nat)
    requires |best| > 0 && Indexed(index, best) && Chained(node)
    requires IsLocator(locator, node) && HashesIdentify(index, node) && ForksAt(node, best, f)
    ensures var s := ResumeAt(index, best, locator);
      && s.height <= f && s == At(node, s.height)
      && (node.height - f <= 11 ==> s.height == f)
      && (node.height - f > 11 ==> f - s.height <= node.height - f - 11)
  {
    var i := FirstEntryAtOrBelow(locator, node, f);
    ResumesAtEntry(index, best, locator, node, f, i, 0);
    assert locator[0..] == locator;
    OvershootArithmetic(node.height, f, i);
  }

  /** The same, from the fork that findFork finds: the highest block the two chains share. */
  lemma OvershootOfFork(index: Index, tip: BlockNode, locator: seq<Hash>, node: BlockNode, fork: BlockNode)
    requires Chained(node) && Chained(tip) && |Path(tip)| > 0 && Indexed(index, Path(tip))
    requires IsLocator(locator, node) && HashesIdentify(index, node)
    requires fork in Path(node) && fork in Path(tip)
    requires forall x :: x in Path(node) && x in Path(tip) ==> x.height <= fork.height
    ensures var s := ResumeAt(index, Path(tip), locator);
      && s in Path(node) && s.height <= fork.height
      && (node.height - fork.height <= 11 ==> s == fork)
      && (node.height - fork.height > 11 ==> fork.height - s.height <= node.height - fork.height - 11)
  {
    hide IsLocator, HashesIdentify, Indexed, ResumeAt;
    ForkExists(node, tip, fork);
    LocatorOvershoot(index, Path(tip), locator, node, fork.height);
    var s := ResumeAt(index, Path(tip), locator);
    OnPath(node, s);
    OnPath(node, fork);
  }

  /** The first locator entry at or below the fork. */
  lemma FirstEntryAtOrBelow(locator: seq<Hash>, node: BlockNode, f: nat) returns (i: nat)
    requires Chained(node) && IsLocator(locator, node) && f <= node.height
    ensures i < |locator| && LocatorHeight(node.height, i) <= f
    ensures i > 0 ==> LocatorHeight(node.height, i - 1) > f
  {
    i := |locator| - 1;
    while i > 0 && LocatorHeight(node.height, i - 1) <= f
      invariant i < |locator| && LocatorHeight(node.height, i) <= f
    {
      i := i - 1;
    }
  }

  lemma ResumesAtEntry(index: Index, best: seq<BlockNode>, locator: seq<Hash>, node: BlockNode, f: nat, i: nat, k: nat)
    requires |best| > 0 && Indexed(index, best) && Chained(node)
    requires IsLocator(locator, node) && HashesIdentify(index, node) && ForksAt(node, best, f)
    requires k <= i < |locator| && LocatorHeight(node.height, i) <= f
    requires i > 0 ==> LocatorHeight(node.height, i - 1) > f
    ensures ResumeAt(index, best, locator[k..]) == Entry(node, i)
    decreases i - k
  {
    hide *;
    EntryOnBranch(index, best, locator, node, f, k);
    ResumeStep(index, best, locator, k);
    if k < i {
      EntryOrder(node.height, k, i - 1);
      ResumesAtEntry(index, best, locator, node, f, i, k + 1);
    }
  }

  lemma EntryOrder(height: nat, i: nat, j: nat)
    requires i <= j
    ensures LocatorHeight(height, j) <= LocatorHeight(height, i)
  {
    OffsetsGrow(i, j);
  }

  /** A locator entry is on the branch exactly when it is at or below the fork. */
  lemma EntryOnBranch(index: Index, best: seq<BlockNode>, locator: seq<Hash>, node: BlockNode, f: nat, k: nat)
    requires |best| > 0 && Indexed(index, best) && Chained(node)
    requires IsLocator(locator, node) && HashesIdentify(index, node) && ForksAt(node, best, f)
    requires k < |locator|
    ensures locator[k] in index && index[locator[k]] in best <==> LocatorHeight(node.height, k) <= f
    ensures LocatorHeight(node.height, k) <= f ==> index[locator[k]] == Entry(node, k)
  {
    hide Linked, Path, Offset, Entries;
    EntriesIndex(node, |locator|, k);
    OnPath(node, Entry(node, k));
  }

  lemma OvershootArithmetic(height: nat, f: nat, i: nat)
    requires f <= height && LocatorHeight(height, i) <= f
    requires i > 0 ==> LocatorHeight(height, i - 1) > f
    ensures height - f <= 11 ==> LocatorHeight(height, i) == f
    ensures height - f > 11 ==> f - LocatorHeight(height, i) <= height - f - 11
  {
    SmallOffsets(i);
    SmallOffsets(if i > 0 then i - 1 else 0);
    if i > 11 {
      LocatorDescends(height, i - 1);
      OffsetsGrow(11, i);
    }
  }

  // ---- filter checkpoints

  /** The hashes of a node's ancestors at every positive multiple of the interval. */
  ghost predicate IsIntervalHashes(hashes: seq<Hash>, end: BlockNode, interval: nat)
    requires Chained(end) && interval > 0
  {
    && |hashes| == end.height / interval
    && forall i :: 0 <= i < |hashes| ==> IsIntervalHash(hashes[i], end, interval, i)
  }

  /** IntervalBlockHashes: an error unless the end block is known and validated;
      otherwise the interval hashes of the end block's own chain, whether or not
      it, or part of it, is on the best chain. */
  method IntervalBlockHashes(view: View, index: Index, status: map<Hash, Status>, endHash: Hash, interval: nat)
    returns (r: Option<seq<Hash>>)
    requires view.Valid() && Indexed(index, view.Nodes()) && index.Keys <= status.Keys && interval > 0
    ensures r.Some? <==> endHash in index && status[endHash].KnownValid()
    ensures r.Some? ==> IsIntervalHashes(r.value, index[endHash], interval)
  {
    if endHash !in index || !status[endHash].KnownValid() {
      return None;
    }
    hide *;
    IndexedLinked(index, view.Nodes(), endHash);
    var hashes := WalkIntervals(view, index[endHash], interval);
    return Some(hashes);
  }

  lemma IndexedLinked(index: Index, best: seq<BlockNode>, hash: Hash)
    requires Indexed(index, best) && hash in index
    ensures Linked(index[hash]) && Chained(index[hash])
  {
  }

  method WalkIntervals(view: View, end: BlockNode, interval: nat) returns (hashes: seq<Hash>)
    requires view.Valid() && Linked(end) && interval > 0
    ensures IsIntervalHashes(hashes, end, interval)
  {
    hide *;
    LinkedIsChained(end);
    var n := end.height / interval;
    var cells := new Hash[n];
    var node := end;
    var i := n;
    Multiples(end.height, interval, n);
    while i > 0
      invariant 0 <= i <= n
      invariant Linked(node) && node.height <= end.height && node == At(end, node.height)
      invariant Multiple(i, interval) <= node.height
      invariant forall k :: i <= k < n ==> IsIntervalHash(cells[k], end, interval, k)
    {
      var height := Multiple(i, interval);
      LinkedIsChained(node);
      AtAt(end, node.height, height);
      node := view.AncestorOnOrOff(node, height);
      cells[i - 1] := node.Hash();
      IntervalHash(cells[i - 1], end, interval, i - 1);
      MultipleBelow(i - 1, interval);
      i := i - 1;
    }
    hashes := cells[..];
    IntervalHashes(hashes, end, interval);
  }

  function Multiple(i: nat, interval: nat): nat {
    i * interval
  }

  ghost predicate IsIntervalHash(hash: Hash, end: BlockNode, interval: nat, i: nat)
    requires Chained(end) && interval > 0
  {
    Multiple(i + 1, interval) <= end.height && hash == At(end, Multiple(i + 1, interval)).Hash()
  }

  lemma IntervalHash(hash: Hash, end: BlockNode, interval: nat, i: nat)
    requires Chained(end) && interval > 0
    requires Multiple(i + 1, interval) <= end.height && hash == At(end, Multiple(i + 1, interval)).Hash()
    ensures IsIntervalHash(hash, end, interval, i)
  {
  }

  lemma IntervalHashes(hashes: seq<Hash>, end: BlockNode, interval: nat)
    requires Chained(end) && interval > 0 && |hashes| == end.height / interval
    requires forall i :: 0 <= i < |hashes| ==> IsIntervalHash(hashes[i], end, interval, i)
    ensures IsIntervalHashes(hashes, end, interval)
  {
  }

  lemma MultipleBelow(i: nat, interval: nat)
    ensures Multiple(i, interval) <= Multiple(i + 1, interval)
  {
  }

  lemma Multiples(height: nat, interval: nat, n: nat)
    requires interval > 0 && n == height / interval
    ensures Multiple(n, interval) <= height
  {
  }
}
