/** Invalidating and reconsidering blocks by hand (btcd/blockchain/chain.go), as
    functions of the chain state, and the leaves of the tree off the best chain
    (btcd/blockchain/blockindex.go) that both are driven by. */
module Invalidation {
  import opened Wire
  import opened BlockTree
  import opened ChainSpec
  import opened ChainSafety

  // ---- descendants and leaves

  ghost predicate Descends(x: BlockNode, n: BlockNode) {
    n in Path(x) && x != n
  }

  ghost function Descendants(s: ChainState, n: BlockNode): set<Hash> {
    set h | h in s.index && Descends(s.index[h], n)
  }

  /** A leaf of the tree off the best chain. */
  ghost predicate OffLeaf(s: ChainState, x: BlockNode) {
    && s.Has(x) && x !in s.best
    && forall h :: h in s.index ==> s.index[h].parent != Some(x)
  }

  lemma {:induction false} PathTransitive(x: BlockNode, y: BlockNode, z: BlockNode)
    requires y in Path(x) && z in Path(y)
    ensures z in Path(x)
  {
    if x != y { PathTransitive(x.parent.value, y, z); }
  }

  lemma DescendsHigher(s: ChainState, x: BlockNode, n: BlockNode)
    requires Tree(s) && s.Has(x) && n in Path(x)
    ensures s.Has(n) && n.height <= x.height && (x == n <==> x.height == n.height)
  {
    hide *;
    NodeFacts(s, x);
    PathIndexed(s, x);
    OnPath(x, n);
    AtSelf(x);
  }

  /** Ancestors of a node on the best chain are on it. */
  lemma BranchClosed(s: ChainState, x: BlockNode, n: BlockNode)
    requires Tree(s) && x in s.best && n in Path(x)
    ensures n in s.best
  {
    hide *;
    TreeFacts(s);
    OnPath(s.Tip(), x);
    PathPrefix(s.Tip(), x.height);
  }

  /** Every node off the best chain is below a leaf off the best chain, or is one. */
  lemma {:induction false} LeafAbove(s: ChainState, n: BlockNode) returns (leaf: BlockNode)
    requires Tree(s) && s.Has(n) && n !in s.best
    ensures OffLeaf(s, leaf) && n in Path(leaf)
    decreases Descendants(s, n)
  {
    if exists h :: h in s.index && s.index[h].parent == Some(n) {
      var h :| h in s.index && s.index[h].parent == Some(n);
      var c := s.index[h];
      ChildBelow(s, n, c, h);
      leaf := LeafAbove(s, c);
      PathTransitive(leaf, c, n);
    } else {
      leaf := n;
    }
  }

  lemma ChildBelow(s: ChainState, n: BlockNode, c: BlockNode, h: Hash)
    requires Tree(s) && s.Has(n) && n !in s.best && h in s.index && c == s.index[h] && c.parent == Some(n)
    ensures s.Has(c) && c !in s.best && c.Hash() == h && n in Path(c)
    ensures Descendants(s, c) < Descendants(s, n)
  {
    hide Tree, Path, Descends;
    TreeKeys(s, h);
    NodeFacts(s, c);
    PathUnfold(c);
    assert n in Path(n) by { PathUnfold(n); }
    if c in s.best { BranchClosed(s, c, n); }
    forall k | k in Descendants(s, c)
      ensures k in Descendants(s, n)
    {
      TreeKeys(s, k);
      DescendsThrough(s, s.index[k], c, n);
    }
    DescendsIs(c, n);
    DescendsIs(c, c);
    assert h in Descendants(s, n) && h !in Descendants(s, c);
  }

  lemma DescendsIs(x: BlockNode, n: BlockNode)
    ensures Descends(x, n) <==> n in Path(x) && x != n
  {
  }

  lemma DescendsThrough(s: ChainState, x: BlockNode, c: BlockNode, n: BlockNode)
    requires Tree(s) && s.Has(x) && s.Has(c) && Descends(x, c) && c.parent == Some(n)
    ensures Descends(x, n)
  {
    hide *;
    DescendsIs(x, c);
    DescendsIs(x, n);
    PathUnfold(c);
    PathUnfold(n);
    PathTransitive(x, c, n);
    DescendsHigher(s, x, c);
    NodeFacts(s, c);
  }

  /** The hashes of the nodes off the best chain, and of the parents of some nodes. */
  ghost function Orphans(s: ChainState, hashes: set<Hash>): set<Hash> {
    set h | h in hashes && h in s.index && s.index[h] !in s.best
  }

  ghost function ParentHashes(s: ChainState, hashes: set<Hash>): set<Hash> {
    set h | h in hashes && h in s.index && s.index[h].parent.Some? :: s.index[h].parent.value.Hash()
  }

  lemma OrphanStep(s: ChainState, hashes: set<Hash>, orphans: set<Hash>, h: Hash)
    requires Tree(s) && h in s.index && orphans == Orphans(s, hashes)
    ensures s.index[h] in s.best ==> Orphans(s, hashes + {h}) == orphans
    ensures s.index[h] !in s.best ==>
      && Orphans(s, hashes + {h}) == orphans + {h}
      && s.index[h].parent.Some?
      && ParentHashes(s, orphans + {h}) == ParentHashes(s, orphans) + {s.index[h].parent.value.Hash()}
  {
    hide Tree;
    TreeKeys(s, h);
    NodeFacts(s, s.index[h]);
  }

  /** The nodes off the best chain among some nodes, and the parents of those. */
  ghost predicate OrphansAre(s: ChainState, hashes: set<Hash>, orphans: map<Hash, BlockNode>, parents: map<Hash,
      BlockNode>)
  {
    && orphans.Keys == Orphans(s, hashes)
    && (forall h :: h in orphans ==> h in s.index && orphans[h] == s.index[h] && orphans[h].Hash() == h)
    && parents.Keys == ParentHashes(s, orphans.Keys)
  }

  lemma OrphansAreMore(s: ChainState, hashes: set<Hash>, orphans: map<Hash, BlockNode>, parents: map<Hash,
      BlockNode>, h: Hash)
    requires Tree(s) && h in s.index && OrphansAre(s, hashes, orphans, parents)
    ensures s.index[h] in s.best ==> OrphansAre(s, hashes + {h}, orphans, parents)
    ensures s.index[h] !in s.best ==>
      && s.index[h].parent.Some?
      && var n, p := s.index[h], s.index[h].parent.value;
         OrphansAre(s, hashes + {h}, orphans[h := n], parents[p.Hash() := p])
  {
    hide Tree, Orphans, ParentHashes;
    TreeKeys(s, h);
    OrphanStep(s, hashes, orphans.Keys, h);
    if s.index[h] !in s.best {
      var n, p := s.index[h], s.index[h].parent.value;
      assert orphans[h := n].Keys == orphans.Keys + {h};
      assert parents[p.Hash() := p].Keys == parents.Keys + {p.Hash()};
    }
  }

  lemma OrphansAreNone(s: ChainState)
    ensures OrphansAre(s, {}, map[], map[])
  {
    OrphansNone(s);
  }

  lemma OrphansAreAll(s: ChainState, orphans: map<Hash, BlockNode>, parents: map<Hash, BlockNode>)
    requires OrphansAre(s, s.index.Keys, orphans, parents)
    ensures orphans.Keys == Orphans(s, s.index.Keys) && parents.Keys == ParentHashes(s, orphans.Keys)
    ensures forall h :: h in orphans ==> h in s.index && orphans[h] == s.index[h] && orphans[h].Hash() == h
  {
    hide Orphans, ParentHashes;
  }

  lemma OrphansNone(s: ChainState)
    ensures Orphans(s, {}) == {} && ParentHashes(s, {}) == {}
  {
  }

  /** Leaves off the best chain are the orphans that no orphan has for a parent. */
  lemma LeavesAre(s: ChainState, x: BlockNode)
    requires Tree(s)
    ensures OffLeaf(s, x) <==>
      var o := Orphans(s, s.index.Keys);
      x.Hash() in o && s.index[x.Hash()] == x && x.Hash() !in ParentHashes(s, o)
  {
    hide Tree, Path;
    forall h | h in s.index
      ensures s.index[h].parent.Some? && s.Has(x) && s.index[h].parent != Some(x) ==>
        s.index[h].parent.value.Hash() != x.Hash()
      ensures s.index[h].parent == Some(x) && s.Has(x) && x !in s.best ==> h in Orphans(s, s.index.Keys)
    {
      ParentOf(s, h, x);
    }
  }

  lemma ParentOf(s: ChainState, h: Hash, x: BlockNode)
    requires Tree(s) && h in s.index
    ensures s.index[h].parent.Some? && s.Has(x) && s.index[h].parent != Some(x) ==>
      s.index[h].parent.value.Hash() != x.Hash()
    ensures s.index[h].parent == Some(x) && s.Has(x) && x !in s.best ==> h in Orphans(s, s.index.Keys)
  {
    hide Tree, Path;
    TreeKeys(s, h);
    var n := s.index[h];
    NodeFacts(s, n);
    if n.parent.Some? && s.Has(x) {
      SameHash(s, n.parent.value, x);
      if n.parent == Some(x) && x !in s.best { ChildBelow(s, x, n, h); }
    }
  }

  // ---- changing statuses of many nodes

  ghost function Updated(status: Statuses, hashes: set<Hash>, f: Status -> Status): Statuses {
    map h | h in status :: if h in hashes then f(status[h]) else status[h]
  }

  lemma UpdatedFacts(status: Statuses, hashes: set<Hash>, f: Status -> Status)
    ensures Updated(status, hashes, f).Keys == status.Keys
    ensures forall h :: h in status ==> Updated(status, hashes, f)[h] == if h in hashes then f(status[h]) else status[h]
  {
  }

  lemma UpdatedNone(status: Statuses, f: Status -> Status)
    ensures Updated(status, {}, f) == status
  {
  }

  /** Updating one more node, which an update that does nothing the second time may
      have reached before. */
  lemma UpdatedMore(status: Statuses, hashes: set<Hash>, f: Status -> Status, h: Hash)
    requires h in status && forall st :: f(f(st)) == f(st)
    ensures h in Updated(status, hashes, f)
    ensures Updated(status, hashes + {h}, f) == Updated(status, hashes, f)[h := f(Updated(status, hashes, f)[h])]
  {
  }

  /** The hashes of a branch above a node, grown downwards by one node. */
  lemma BranchStep(s: ChainState, tip: BlockNode, n: BlockNode, x: BlockNode)
    requires Tree(s) && s.Has(tip) && x in Path(tip) && n in Path(x) && x != n
    ensures x.Hash() in s.status && x.parent.Some? && x.height == x.parent.value.height + 1 <= tip.height
    ensures |Path(tip)| == tip.height + 1
    ensures x.parent.value in Path(tip) && n in Path(x.parent.value)
    ensures HashSet(Path(tip)[x.height..]) == HashSet(Path(tip)[x.height + 1..]) + {x.Hash()}
  {
    hide *;
    DescendsHigher(s, tip, x);
    NodeFacts(s, tip);
    NodeFacts(s, x);
    BranchHashes(tip, x);
    PathUnfold(x);
    PathUnfold(x.parent.value);
    PathTransitive(tip, x, x.parent.value);
  }

  lemma BranchHashes(tip: BlockNode, x: BlockNode)
    requires Chained(tip) && x in Path(tip)
    ensures |Path(tip)| == tip.height + 1 && x.height <= tip.height
    ensures HashSet(Path(tip)[x.height..]) == HashSet(Path(tip)[x.height + 1..]) + {x.Hash()}
  {
    hide *;
    PathAt(tip);
    OnPath(tip, x);
    HashSetDown(Path(tip), x.height);
  }

  lemma HashSetDown(nodes: seq<BlockNode>, k: nat)
    requires k < |nodes|
    ensures HashSet(nodes[k..]) == HashSet(nodes[k + 1..]) + {nodes[k].Hash()}
  {
    var a, b := nodes[k..], nodes[k + 1..];
    assert a[0] == nodes[k];
    assert forall i :: 0 <= i < |b| ==> b[i] == a[i + 1];
    assert forall i :: 0 < i < |a| ==> a[i] == b[i - 1];
  }

  lemma BranchTop(s: ChainState, tip: BlockNode)
    requires Tree(s) && s.Has(tip)
    ensures |Path(tip)| == tip.height + 1 && HashSet(Path(tip)[tip.height + 1..]) == {} && tip in Path(tip)
  {
    hide Tree;
    NodeFacts(s, tip);
    PathAt(tip);
  }

  /** Of the branches down from the first tips, those through the node have been
      visited, above the node. */
  ghost predicate Swept(s: ChainState, n: BlockNode, tips: seq<BlockNode>, i: nat, done: set<Hash>) {
    && i <= |tips|
    && (forall h :: h in done ==> h in Descendants(s, n))
    && (forall j, x :: 0 <= j < i && n in Path(tips[j]) && x in Path(tips[j]) && Descends(x, n) ==> x.Hash() in done)
  }

  lemma SweptNone(s: ChainState, n: BlockNode, tips: seq<BlockNode>)
    ensures Swept(s, n, tips, 0, {})
  {
  }

  lemma SweptMore(s: ChainState, n: BlockNode, tips: seq<BlockNode>, i: nat, done: set<Hash>)
    requires Tree(s) && s.Has(n) && i < |tips| && s.Has(tips[i]) && Swept(s, n, tips, i, done)
    ensures !Descends(tips[i], n) ==> Swept(s, n, tips, i + 1, done)
    ensures Descends(tips[i], n) ==>
      && n.height < |Path(tips[i])|
      && Swept(s, n, tips, i + 1, done + HashSet(Path(tips[i])[n.height + 1..]))
  {
    hide Tree, Path, Descends, Descendants, HashSet;
    var tip := tips[i];
    DescendsIs(tip, n);
    if n in Path(tip) {
      DescendsHigher(s, tip, n);
      BranchTop(s, tip);
      BranchAbove(s, tip, n);
      if tip == n {
        forall x | x in Path(tip)
          ensures !Descends(x, n)
        {
          DescendsIs(x, n);
          DescendsHigher(s, n, x);
          if n in Path(x) { PathIndexed(s, n); DescendsHigher(s, x, n); }
        }
      }
    }
  }

  /** On a branch, above a node means descending from it. */
  lemma BranchAbove(s: ChainState, tip: BlockNode, n: BlockNode)
    requires Tree(s) && s.Has(tip) && n in Path(tip) && n.height < |Path(tip)|
    ensures forall h :: h in HashSet(Path(tip)[n.height + 1..]) ==> h in Descendants(s, n)
    ensures forall x :: x in Path(tip) && Descends(x, n) ==> x.Hash() in HashSet(Path(tip)[n.height + 1..])
  {
    hide *;
    NodeFacts(s, tip);
    PathAt(tip);
    PathIndexed(s, tip);
    OnPath(tip, n);
    var above := Path(tip)[n.height + 1..];
    forall h | h in HashSet(above)
      ensures h in Descendants(s, n)
    {
      var k := HashAt(above, h);
      var x := above[k];
      assert x == Path(tip)[n.height + 1 + k];
      AtAt(tip, x.height, n.height);
      OnPath(x, n);
      InDescendants(s, x, n);
    }
    forall x | x in Path(tip) && Descends(x, n)
      ensures x.Hash() in HashSet(above)
    {
      OnPath(tip, x);
      DescendsIs(x, n);
      DescendsHigher(s, x, n);
      HashIn(above, x, x.height - n.height - 1);
    }
  }

  lemma HashAt(nodes: seq<BlockNode>, h: Hash) returns (i: nat)
    requires h in HashSet(nodes)
    ensures i < |nodes| && nodes[i].Hash() == h
  {
    i :| 0 <= i < |nodes| && nodes[i].Hash() == h;
  }

  /** With every leaf off the best chain among the tips, every descendant of a node
      off the best chain has been visited. */
  lemma SweptAll(s: ChainState, n: BlockNode, tips: seq<BlockNode>, done: set<Hash>)
    requires Tree(s) && s.Has(n) && n !in s.best && Swept(s, n, tips, |tips|, done)
    requires forall x :: OffLeaf(s, x) ==> x in tips
    ensures done == Descendants(s, n)
  {
    hide Tree, Path, Descends, OffLeaf;
    forall h | h in Descendants(s, n)
      ensures h in done
    {
      var x := s.index[h];
      TreeKeys(s, h);
      DescendsIs(x, n);
      if x in s.best { BranchClosed(s, x, n); }
      var leaf := LeafAbove(s, x);
      PathTransitive(leaf, x, n);
      var j :| 0 <= j < |tips| && tips[j] == leaf;
    }
  }

  /** Some tip is at or above the node. */
  lemma TipExists(s: ChainState, n: BlockNode, tips: seq<BlockNode>) returns (j: nat)
    requires Tree(s) && s.Has(n) && n !in s.best
    requires forall x :: OffLeaf(s, x) ==> x in tips
    ensures j < |tips| && n in Path(tips[j])
  {
    var leaf := LeafAbove(s, n);
    j :| 0 <= j < |tips| && tips[j] == leaf;
  }

  /** Statuses of nodes off the best chain may lose their valid flag, and change in
      any other way, without breaking the invariant. */
  lemma StatusSound(s: ChainState, after: Statuses)
    requires Sound(s) && after.Keys == s.status.Keys
    requires forall x :: x in s.best ==>
      x.Hash() in after && x.Hash() in s.status && after[x.Hash()] == s.status[x.Hash()]
    requires forall h :: h in after && after[h].KnownValid() ==> s.status[h].KnownValid()
    ensures Sound(s.(status := after))
  {
    hide *;
    SoundFacts(s);
    TreeFacts(s);
    var t := s.(status := after);
    SameTree(s, t);
    forall h | h in t.index && h in t.status && t.status[h].KnownValid()
      ensures Replay(Path(t.index[h])).Some?
    {
      TreeKeys(s, h);
      ValidReplaysAt(s, s.index[h]);
    }
    ValidReplaysIs(t.index, t.status);
    forall x | x in t.best
      ensures t.Has(x) && t.KnownValid(x) && !t.KnownInvalid(x)
    {
      StatusAt(s, x);
      StatusAt(t, x);
      SameHas(s, t, x);
    }
    SoundIs(t);
  }

  // ---- InvalidateBlock

  /** One flag taken off. */
  function ClearFlag(s: Status, flag: Flag): Status {
    match flag
    case Valid => s.(valid := false)
    case ValidateFailed => s.(validateFailed := false)
    case InvalidAncestor => s.(invalidAncestor := false)
  }

  /** The block itself: failed, and no longer valid. */
  function MarkedFailed(st: Status): Status {
    st.(validateFailed := true, valid := false)
  }

  /** A descendant: invalid by ancestry and no longer valid, unless it was known to
      be invalid before. */
  function Condemned(st: Status): Status {
    if st.KnownInvalid() then st else st.(invalidAncestor := true, valid := false)
  }

  /** A block off the best chain is invalidated: it and all its descendants. */
  ghost function InvalidatedSide(s: ChainState, n: BlockNode): ChainState
    requires n.Hash() in s.status
  {
    s.(status := Updated(s.status[n.Hash() := MarkedFailed(s.status[n.Hash()])], Descendants(s, n), Condemned))
  }

  /** After invalidating a block off the best chain, exactly the nodes that were
      known to be invalid, the block and its descendants are known to be invalid;
      the best chain and everything derived from it is as before. */
  lemma InvalidatedSideSound(s: ChainState, n: BlockNode)
    requires Sound(s) && s.Has(n) && n !in s.best && n.Hash() in s.status
    ensures Sound(InvalidatedSide(s, n))
    ensures forall x :: s.Has(x) ==>
      (InvalidatedSide(s, n).KnownInvalid(x) <==> s.KnownInvalid(x) || n in Path(x))
    ensures forall x :: s.Has(x) && n in Path(x) && !s.KnownInvalid(x) ==> !InvalidatedSide(s, n).KnownValid(x)
  {
    hide *;
    SoundFacts(s);
    TreeFacts(s);
    var first := s.status[n.Hash() := MarkedFailed(s.status[n.Hash()])];
    var t := InvalidatedSide(s, n);
    InvalidatedSideIs(s, n);
    UpdatedFacts(first, Descendants(s, n), Condemned);
    forall x | x in s.best
      ensures x.Hash() in t.status && x.Hash() in s.status && t.status[x.Hash()] == s.status[x.Hash()]
    {
      NodeFacts(s, x);
      SameHash(s, x, n);
      OffDescendants(s, x, n);
    }
    FailedFacts();
    StatusSound(s, t.status);
    forall x | s.Has(x)
      ensures t.KnownInvalid(x) <==> s.KnownInvalid(x) || n in Path(x)
      ensures n in Path(x) && !s.KnownInvalid(x) ==> !t.KnownValid(x)
    {
      NodeFacts(s, x);
      StatusAt(s, x);
      StatusAt(t, x);
      SameHash(s, x, n);
      InDescendants(s, x, n);
      PathUnfold(n);
    }
  }

  lemma InvalidatedSideIs(s: ChainState, n: BlockNode)
    requires n.Hash() in s.status
    ensures InvalidatedSide(s, n) ==
      s.(status := Updated(s.status[n.Hash() := MarkedFailed(s.status[n.Hash()])], Descendants(s, n), Condemned))
  {
  }

  lemma FailedFacts()
    ensures forall st :: MarkedFailed(st).KnownInvalid() && !MarkedFailed(st).KnownValid()
    ensures forall st :: Condemned(st).KnownInvalid() && (Condemned(st).KnownValid() ==> st.KnownValid())
    ensures forall st: Status :: !st.KnownInvalid() ==> !Condemned(st).KnownValid()
    ensures forall st :: Condemned(Condemned(st)) == Condemned(st)
  {
  }

  lemma InDescendants(s: ChainState, x: BlockNode, n: BlockNode)
    requires s.Has(x)
    ensures x.Hash() in Descendants(s, n) <==> n in Path(x) && x != n
  {
  }

  lemma OffDescendants(s: ChainState, x: BlockNode, n: BlockNode)
    requires Tree(s) && x in s.best && s.Has(x) && n !in s.best
    ensures x.Hash() !in Descendants(s, n)
  {
    hide *;
    InDescendants(s, x, n);
    if n in Path(x) { BranchClosed(s, x, n); }
  }

  /** A block of the best chain is invalidated: the chain now ends in its parent,
      and the blocks of the old chain above it are invalid by ancestry. */
  ghost function Truncated(s: ChainState, n: BlockNode): ChainState
    requires n.Hash() in s.status && 0 < n.height < |s.best| && Replay(s.best).Some?
  {
    var best := s.best[..n.height];
    ReplayPrefix(s.best, n.height);
    ChainState(s.index, TruncatedStatus(s, n), best, Replay(best).value, SnapshotOf(best))
  }

  ghost function TruncatedStatus(s: ChainState, n: BlockNode): Statuses
    requires n.Hash() in s.status && n.height < |s.best|
  {
    Updated(s.status[n.Hash() := MarkedFailed(s.status[n.Hash()])], HashSet(s.best[n.height + 1..]), Condemned)
  }

  lemma TruncatedIs(s: ChainState, n: BlockNode)
    requires n.Hash() in s.status && 0 < n.height < |s.best| && Replay(s.best).Some?
    ensures var best := s.best[..n.height];
      Replay(best).Some? &&
      Truncated(s, n) == ChainState(s.index, TruncatedStatus(s, n), best, Replay(best).value, SnapshotOf(best))
  {
    ReplayPrefix(s.best, n.height);
  }

  /** The invariant holds again once the invalidated blocks are off the chain. */
  lemma TruncatedSound(s: ChainState, n: BlockNode)
    requires Sound(s) && n in s.best && n.parent.Some? && n.Hash() in s.status
    ensures 0 < n.height < |s.best| && Replay(s.best).Some?
    ensures Sound(Truncated(s, n)) && Truncated(s, n).KnownInvalid(n) && Truncated(s, n).Tip() == n.parent.value
    ensures forall i :: n.height < i < |s.best| ==> Truncated(s, n).KnownInvalid(s.best[i])
  {
    hide *;
    SoundFacts(s);
    TreeFacts(s);
    NodeFacts(s, n);
    TruncatedIs(s, n);
    TruncatedStatusIs(s, n);
    var t := Truncated(s, n);
    TruncatedTree(s, n, t);
    TipIs(t);
    forall i | n.height <= i < |s.best|
      ensures t.KnownInvalid(s.best[i])
    {
      TruncatedAt(s, n, i);
      StatusAt(t, s.best[i]);
    }
    forall x | x in t.best
      ensures t.Has(x) && t.KnownValid(x) && !t.KnownInvalid(x)
    {
      TruncatedAt(s, n, x.height);
      StatusAt(s, x);
      StatusAt(t, x);
      SameHas(s, t, x);
    }
    forall h | h in t.index && h in t.status && t.status[h].KnownValid()
      ensures Replay(Path(t.index[h])).Some?
    {
      TreeKeys(s, h);
      TruncatedValid(s, n, h);
      ValidReplaysAt(s, s.index[h]);
    }
    ValidReplaysIs(t.index, t.status);
    SoundIs(t);
  }

  lemma TruncatedTree(s: ChainState, n: BlockNode, t: ChainState)
    requires Tree(s) && n in s.best && n.parent.Some? && 0 < n.height < |s.best|
    requires t.index == s.index && t.status.Keys == s.status.Keys && t.best == s.best[..n.height]
    ensures Tree(t) && t.best[|t.best| - 1] == n.parent.value
  {
    hide *;
    TreeFacts(s);
    OnPath(s.Tip(), n);
    PathPrefix(s.Tip(), n.height);
    PathUnfold(n);
    NodeFacts(s, n);
    assert s.best[..n.height + 1] == Path(n.parent.value) + [n];
    assert s.best[..n.height] == Path(n.parent.value);
    TreeKeep(s, t);
  }

  /** Which statuses of the old chain change: those from the block on. */
  lemma TruncatedAt(s: ChainState, n: BlockNode, i: nat)
    requires Tree(s) && n in s.best && n.Hash() in s.status && n.height < |s.best| && i < |s.best|
    ensures s.best[i].Hash() in s.status && s.best[i].Hash() in TruncatedStatus(s, n)
    ensures i < n.height ==> TruncatedStatus(s, n)[s.best[i].Hash()] == s.status[s.best[i].Hash()]
    ensures i >= n.height ==> TruncatedStatus(s, n)[s.best[i].Hash()].KnownInvalid()
  {
    hide *;
    TreeFacts(s);
    var x := s.best[i];
    NodeFacts(s, x);
    SameHash(s, x, n);
    TruncatedStatusIs(s, n);
    FailedFacts();
    var above := s.best[n.height + 1..];
    if i > n.height {
      HashIn(above, x, i - n.height - 1);
    } else {
      forall y | y in above
        ensures y.Hash() != x.Hash()
      {
        var j :| 0 <= j < |above| && above[j] == y;
        assert y == s.best[n.height + 1 + j];
        SameHash(s, x, y);
      }
      HashNotIn(above, x);
    }
  }

  lemma HashIn(nodes: seq<BlockNode>, x: BlockNode, i: nat)
    requires i < |nodes| && nodes[i] == x
    ensures x.Hash() in HashSet(nodes)
  {
  }

  lemma TruncatedStatusIs(s: ChainState, n: BlockNode)
    requires n.Hash() in s.status && n.height < |s.best|
    ensures TruncatedStatus(s, n).Keys == s.status.Keys
    ensures forall h :: h in s.status ==>
      var first := if h == n.Hash() then MarkedFailed(s.status[h]) else s.status[h];
      TruncatedStatus(s, n)[h] == if h in HashSet(s.best[n.height + 1..]) then Condemned(first) else first
  {
    hide MarkedFailed, Condemned, HashSet;
  }

  lemma TruncatedStatusDef(s: ChainState, n: BlockNode)
    requires n.Hash() in s.status && n.height < |s.best|
    ensures TruncatedStatus(s, n) ==
      Updated(s.status[n.Hash() := MarkedFailed(s.status[n.Hash()])], HashSet(s.best[n.height + 1..]), Condemned)
  {
  }

  lemma TruncatedValid(s: ChainState, n: BlockNode, h: Hash)
    requires n.Hash() in s.status && n.height < |s.best| && h in TruncatedStatus(s, n)
    ensures h in s.status && (TruncatedStatus(s, n)[h].KnownValid() ==> s.status[h].KnownValid())
  {
    hide *;
    TruncatedStatusIs(s, n);
    FailedFacts();
  }

  /** The tips a truncated chain may move to: leaves off the chain, and its end. */
  ghost predicate IsTip(s: ChainState, x: BlockNode)
    requires |s.best| > 0
  {
    x == s.Tip() || OffLeaf(s, x)
  }

  /** A tip of most work among those not known to be invalid. */
  ghost predicate IsBestTip(s: ChainState, x: BlockNode)
    requires |s.best| > 0
  {
    && IsTip(s, x) && s.Has(x) && !s.KnownInvalid(x)
    && forall y :: IsTip(s, y) && !s.KnownInvalid(y) ==> y.workSum <= x.workSum
  }

  function ErrorOf(result: Result): Option<Error> {
    match result
    case Done(_) => None
    case Failed(e) => Some(e)
  }

  /** What InvalidateBlock does. A block of the best chain comes off it with
      everything above it; then a best tip is reorganized to. */
  ghost predicate Invalidated(r: Rules, s: ChainState, hash: Hash, t: ChainState, err: Option<Error>, tip: BlockNode)
    requires Tree(s) && Replay(s.best).Some?
  {
    if hash !in s.index then t == s && err == Some(BlockNotFound)
    else
      TreeKeys(s, hash);
      TreeFacts(s);
      var n := s.index[hash];
      if n.height == 0 then t == s && err == Some(GenesisBlock)
      else if s.KnownInvalid(n) then t == s && err == None
      else if n !in s.best then t == InvalidatedSide(s, n) && err == None
      else
        var mid := Truncated(s, n);
        && IsBestTip(mid, tip)
        && if tip == mid.Tip() then t == mid && err == None
           else
             && Tree(mid) && Replay(mid.best).Some? && tip.parent.Some?
             && var o := ReorganizeTo(r, mid, tip);
                t == o.state && err == ErrorOf(o.result)
  }

  /** InvalidateBlock keeps the invariant, and whatever the tree and the rules: the
      block is known to be invalid afterwards, and neither it nor any descendant is
      on the best chain. */
  lemma InvalidatedSound(r: Rules, s: ChainState, hash: Hash, t: ChainState, err: Option<Error>, tip: BlockNode)
    requires Sound(s) && Tree(s) && Replay(s.best).Some? && Invalidated(r, s, hash, t, err, tip)
    ensures Sound(t) && t.index == s.index
    ensures hash in s.index && s.index[hash].height > 0 ==>
      && t.KnownInvalid(s.index[hash])
      && forall x :: s.Has(x) && s.index[hash] in Path(x) ==> Tainted(t.status, x) && x !in t.best
  {
    hide *;
    SoundFacts(s);
    TreeFacts(s);
    InvalidatedCases(r, s, hash, t, err, tip);
    if hash in s.index && s.index[hash].height > 0 {
      var n := s.index[hash];
      TreeKeys(s, hash);
      NodeFacts(s, n);
      PathUnfold(n);
      if !s.KnownInvalid(n) {
        if n !in s.best {
          InvalidatedSideIs(s, n);
          InvalidatedSideSound(s, n);
        } else {
          NotGenesis(s, n);
          TruncatedIs(s, n);
          TruncatedSound(s, n);
          var mid := Truncated(s, n);
          if tip != mid.Tip() {
            IsBestTipFacts(mid, tip);
            ReorganizeToSound(r, mid, tip);
            ReorganizedKeeps(mid, tip, ReorganizeTo(r, mid, tip), n);
          }
        }
      }
    }
    if hash in s.index && s.index[hash].height > 0 {
      forall x | s.Has(x) && s.index[hash] in Path(x)
        ensures Tainted(t.status, x) && x !in t.best
      {
        SameHas(s, t, x);
        BelowInvalid(t, s.index[hash], x);
      }
    }
  }

  /** Nothing below a node known to be invalid is on the best chain. */
  lemma BelowInvalid(s: ChainState, n: BlockNode, x: BlockNode)
    requires Sound(s) && s.Has(x) && s.KnownInvalid(n) && n in Path(x)
    ensures Tainted(s.status, x) && x !in s.best
  {
    hide *;
    SoundFacts(s);
    StatusAt(s, n);
    TaintedAt(s.status, x, n);
    if x in s.best { BranchClosed(s, x, n); }
  }

  /** Taking a block off the best chain flags all its descendants exactly when each
      of them was on the best chain or known to be invalid already; descendants on
      other branches are not flagged. */
  lemma TruncatedFlags(s: ChainState, n: BlockNode)
    requires Sound(s) && n in s.best && n.parent.Some? && n.Hash() in s.status
    ensures 0 < n.height < |s.best| && Replay(s.best).Some?
    ensures
      (forall x :: s.Has(x) && n in Path(x) ==> Truncated(s, n).KnownInvalid(x)) <==>
      (forall x :: s.Has(x) && Descends(x, n) ==> x in s.best || s.KnownInvalid(x))
  {
    hide *;
    SoundFacts(s);
    TreeFacts(s);
    NodeFacts(s, n);
    TruncatedSound(s, n);
    TruncatedIs(s, n);
    var t := Truncated(s, n);
    forall x | s.Has(x)
      ensures t.KnownInvalid(x) && Descends(x, n) ==> x in s.best || s.KnownInvalid(x)
      ensures (Descends(x, n) && x in s.best) || s.KnownInvalid(x) ==> t.KnownInvalid(x)
      ensures n in Path(x) ==> x == n || Descends(x, n)
      ensures Descends(x, n) ==> n in Path(x)
    {
      DescendsIs(x, n);
      NodeFacts(s, x);
      TruncatedFlag(s, n, x);
      if Descends(x, n) { DescendsHigher(s, x, n); }
    }
  }

  lemma TruncatedFlag(s: ChainState, n: BlockNode, x: BlockNode)
    requires Tree(s) && n in s.best && n.Hash() in s.status && 0 < n.height < |s.best| && Replay(s.best).Some?
    requires s.Has(x) && x.Hash() in s.status
    ensures s.KnownInvalid(x) ==> Truncated(s, n).KnownInvalid(x)
    ensures Truncated(s, n).KnownInvalid(x) ==> s.KnownInvalid(x) || (x in s.best && n.height <= x.height)
  {
    hide *;
    TreeFacts(s);
    TruncatedIs(s, n);
    TruncatedStatusIs(s, n);
    FailedFacts();
    StatusAt(s, x);
    StatusAt(Truncated(s, n), x);
    SameHash(s, x, n);
    var above := s.best[n.height + 1..];
    if x.Hash() in HashSet(above) {
      var i := HashAt(above, x.Hash());
      assert above[i] == s.best[n.height + 1 + i];
      SameHash(s, x, above[i]);
    }
  }

  lemma NotGenesis(s: ChainState, n: BlockNode)
    requires Tree(s) && s.Has(n) && n.height > 0
    ensures n.parent.Some?
  {
    hide *;
    NodeFacts(s, n);
  }

  lemma IsBestTipFacts(s: ChainState, x: BlockNode)
    requires |s.best| > 0 && IsBestTip(s, x)
    ensures s.Has(x) && !s.KnownInvalid(x) && (x == s.Tip() || x !in s.best)
  {
  }

  lemma ReorganizedKeeps(s: ChainState, n: BlockNode, o: Outcome, x: BlockNode)
    requires Reorganized(s, n, o) && s.KnownInvalid(x)
    ensures Sound(o.state) && o.state.index == s.index && o.state.KnownInvalid(x)
  {
    hide Sound, Path, Tainted, Attach;
  }

  lemma InvalidatedCases(r: Rules, s: ChainState, hash: Hash, t: ChainState, err: Option<Error>, tip: BlockNode)
    requires Tree(s) && Replay(s.best).Some? && Invalidated(r, s, hash, t, err, tip)
    ensures hash !in s.index ==> t == s
    ensures hash in s.index ==>
      var n := s.index[hash];
      && n.Hash() in s.status
      && (n.height == 0 || s.KnownInvalid(n) ==> t == s)
      && (n.height > 0 && !s.KnownInvalid(n) && n !in s.best ==> t == InvalidatedSide(s, n))
      && (n.height > 0 && !s.KnownInvalid(n) && n in s.best ==>
           && n.height < |s.best|
           && IsBestTip(Truncated(s, n), tip)
           && (tip == Truncated(s, n).Tip() ==> t == Truncated(s, n))
           && (tip != Truncated(s, n).Tip() ==>
                && Tree(Truncated(s, n)) && Replay(Truncated(s, n).best).Some? && tip.parent.Some?
                && t == ReorganizeTo(r, Truncated(s, n), tip).state))
  {
    hide Tree, Replay, IsBestTip, Truncated, InvalidatedSide, ReorganizeTo;
    if hash in s.index {
      TreeKeys(s, hash);
      TreeFacts(s);
    }
  }

  // ---- ReconsiderBlock

  /** The block itself: neither failed nor invalid by ancestry. */
  function Cleared(st: Status): Status {
    st.(validateFailed := false, invalidAncestor := false)
  }

  /** A descendant: no longer invalid by ancestry. */
  function Reprieved(st: Status): Status {
    st.(invalidAncestor := false)
  }

  ghost function Reconsidered(s: ChainState, n: BlockNode): ChainState
    requires n.Hash() in s.status
  {
    s.(status := Updated(s.status[n.Hash() := Cleared(s.status[n.Hash()])], Descendants(s, n), Reprieved))
  }

  lemma ReconsideredIs(s: ChainState, n: BlockNode)
    requires n.Hash() in s.status
    ensures Reconsidered(s, n) ==
      s.(status := Updated(s.status[n.Hash() := Cleared(s.status[n.Hash()])], Descendants(s, n), Reprieved))
  {
  }

  lemma ClearedFacts()
    ensures forall st :: Cleared(st).KnownValid() == st.KnownValid() && !Cleared(st).KnownInvalid()
    ensures forall st :: Reprieved(st).KnownValid() == st.KnownValid()
    ensures forall st :: Reprieved(st).KnownInvalid() <==> st.validateFailed
    ensures forall st :: Reprieved(Reprieved(st)) == Reprieved(st)
  {
  }

  /** After reconsidering a block off the best chain it is not known to be invalid,
      its descendants only if they failed themselves, and no other node changes. */
  lemma ReconsideredSound(s: ChainState, n: BlockNode)
    requires Sound(s) && s.Has(n) && n !in s.best && n.Hash() in s.status
    ensures Sound(Reconsidered(s, n)) && !Reconsidered(s, n).KnownInvalid(n)
    ensures forall x :: s.Has(x) && Descends(x, n) && x.Hash() in s.status ==>
      (Reconsidered(s, n).KnownInvalid(x) <==> s.status[x.Hash()].validateFailed)
    ensures forall x :: s.Has(x) && n !in Path(x) ==> (Reconsidered(s, n).KnownInvalid(x) <==> s.KnownInvalid(x))
  {
    hide *;
    SoundFacts(s);
    TreeFacts(s);
    var first := s.status[n.Hash() := Cleared(s.status[n.Hash()])];
    var t := Reconsidered(s, n);
    ReconsideredIs(s, n);
    UpdatedFacts(first, Descendants(s, n), Reprieved);
    ClearedFacts();
    forall x | x in s.best
      ensures x.Hash() in t.status && x.Hash() in s.status && t.status[x.Hash()] == s.status[x.Hash()]
    {
      NodeFacts(s, x);
      SameHash(s, x, n);
      OffDescendants(s, x, n);
    }
    StatusSound(s, t.status);
    StatusAt(t, n);
    InDescendants(s, n, n);
    forall x | s.Has(x)
      ensures Descends(x, n) && x.Hash() in s.status ==> (t.KnownInvalid(x) <==> s.status[x.Hash()].validateFailed)
      ensures n !in Path(x) ==> (t.KnownInvalid(x) <==> s.KnownInvalid(x))
    {
      NodeFacts(s, x);
      StatusAt(s, x);
      StatusAt(t, x);
      SameHash(s, x, n);
      InDescendants(s, x, n);
      DescendsIs(x, n);
      PathUnfold(x);
    }
  }

  /** Reconsidering what was just invalidated off the best chain restores which nodes
      are known to be invalid exactly when no descendant was invalid by ancestry
      alone before. */
  lemma ReconsiderUndoesInvalidate(s: ChainState, n: BlockNode)
    requires Sound(s) && s.Has(n) && n !in s.best && n.Hash() in s.status && !s.KnownInvalid(n)
    ensures n.Hash() in InvalidatedSide(s, n).status
    ensures
      var t := Reconsidered(InvalidatedSide(s, n), n);
      (forall x :: s.Has(x) ==> (t.KnownInvalid(x) <==> s.KnownInvalid(x))) <==>
      (forall x :: s.Has(x) && Descends(x, n) && s.KnownInvalid(x) ==> s.status[x.Hash()].validateFailed)
  {
    hide *;
    SoundFacts(s);
    RoundTripAt(s, n, n);
    var t := Reconsidered(InvalidatedSide(s, n), n);
    forall x | s.Has(x)
      ensures x.Hash() in s.status
      ensures t.KnownInvalid(x) <==> if Descends(x, n) then s.status[x.Hash()].validateFailed else s.KnownInvalid(x)
      ensures s.status[x.Hash()].validateFailed ==> s.KnownInvalid(x)
    {
      NodeFacts(s, x);
      RoundTripAt(s, n, x);
      FailedInvalid(s, x);
    }
  }

  /** Which nodes are known to be invalid after both: descendants exactly if they failed
      themselves, others as before. */
  lemma RoundTripAt(s: ChainState, n: BlockNode, x: BlockNode)
    requires Sound(s) && s.Has(n) && n !in s.best && n.Hash() in s.status && !s.KnownInvalid(n)
    requires s.Has(x) && x.Hash() in s.status
    ensures n.Hash() in InvalidatedSide(s, n).status && !InvalidatedSide(s, n).KnownValid(n)
    ensures Reconsidered(InvalidatedSide(s, n), n).KnownInvalid(x) <==>
      if Descends(x, n) then s.status[x.Hash()].validateFailed else s.KnownInvalid(x)
  {
    hide *;
    SoundFacts(s);
    var first := s.status[n.Hash() := MarkedFailed(s.status[n.Hash()])];
    var mid := InvalidatedSide(s, n);
    InvalidatedSideIs(s, n);
    UpdatedFacts(first, Descendants(s, n), Condemned);
    var second := mid.status[n.Hash() := Cleared(mid.status[n.Hash()])];
    var t := Reconsidered(mid, n);
    ReconsideredIs(mid, n);
    UpdatedFacts(second, Descendants(mid, n), Reprieved);
    StatusAt(s, x);
    StatusAt(t, x);
    StatusAt(mid, n);
    FailedFacts();
    SameHash(s, x, n);
    SameHas(s, mid, x);
    SameHas(s, mid, n);
    InDescendants(s, x, n);
    InDescendants(s, n, n);
    InDescendants(mid, x, n);
    DescendsIs(x, n);
    RoundTrip(s.status[x.Hash()]);
  }

  lemma RoundTrip(st: Status)
    ensures Reprieved(Condemned(st)).KnownInvalid() <==> st.validateFailed
    ensures !Cleared(MarkedFailed(st)).KnownInvalid()
  {
  }

  lemma FailedInvalid(s: ChainState, x: BlockNode)
    requires x.Hash() in s.status
    ensures s.status[x.Hash()].validateFailed ==> s.KnownInvalid(x)
  {
  }

  /** What ReconsiderBlock does: some leaf at or above the block is reorganized to,
      if it has more work than the tip. */
  ghost predicate ReconsideredTo(r: Rules, s: ChainState, hash: Hash, t: ChainState, err: Option<Error>, tip: BlockNode)
    requires Tree(s) && Replay(s.best).Some?
  {
    if hash !in s.index then t == s && err == Some(BlockNotFound)
    else
      TreeKeys(s, hash);
      var n := s.index[hash];
      && err == None
      && if s.KnownValid(n) then t == s
         else
           var mid := Reconsidered(s, n);
           && OffLeaf(mid, tip) && n in Path(tip)
           && if tip.workSum <= s.Tip().workSum then t == mid
              else
                && Tree(mid) && tip.parent.Some?
                && t == ReorganizeTo(r, mid, tip).state
  }

  /** ReconsiderBlock keeps the invariant, and the tip's work does not decrease. */
  lemma ReconsideredToSound(r: Rules, s: ChainState, hash: Hash, t: ChainState, err: Option<Error>, tip: BlockNode)
    requires Sound(s) && Tree(s) && Replay(s.best).Some? && ReconsideredTo(r, s, hash, t, err, tip)
    ensures Sound(t) && t.index == s.index && |t.best| > 0 && t.Tip().workSum >= s.Tip().workSum
    ensures t.best == s.best || (hash in s.index && s.index[hash] in t.best && t.best == Path(tip))
  {
    hide *;
    SoundFacts(s);
    TreeFacts(s);
    ReconsideredCases(r, s, hash, t, err, tip);
    if hash in s.index && !s.KnownValid(s.index[hash]) {
      var n := s.index[hash];
      TreeKeys(s, hash);
      NodeFacts(s, n);
      StatusAt(s, n);
      ReconsideredSound(s, n);
      ReconsideredIs(s, n);
      var mid := Reconsidered(s, n);
      TipIs(mid);
      TipIs(s);
      if tip.workSum > s.Tip().workSum {
        OffLeafFacts(mid, tip);
        ReorganizeToSound(r, mid, tip);
        ReorganizedEnds(mid, tip, ReorganizeTo(r, mid, tip));
        TipIs(t);
      }
    }
  }

  lemma OffLeafFacts(s: ChainState, x: BlockNode)
    requires OffLeaf(s, x)
    ensures s.Has(x) && x !in s.best
  {
  }

  lemma ReorganizedEnds(s: ChainState, n: BlockNode, o: Outcome)
    requires Reorganized(s, n, o)
    ensures Sound(o.state) && o.state.index == s.index && (o.state.best == Path(n) || o.state.best == s.best)
  {
    hide Sound, Path, Tainted, Attach;
  }

  lemma ReconsideredCases(r: Rules, s: ChainState, hash: Hash, t: ChainState, err: Option<Error>, tip: BlockNode)
    requires Tree(s) && Replay(s.best).Some? && ReconsideredTo(r, s, hash, t, err, tip)
    ensures hash !in s.index ==> t == s
    ensures hash in s.index ==>
      var n := s.index[hash];
      && n.Hash() in s.status
      && (s.KnownValid(n) ==> t == s)
      && (!s.KnownValid(n) ==> OffLeaf(Reconsidered(s, n), tip) && n in Path(tip) && |s.best| > 0)
      && (!s.KnownValid(n) && tip.workSum <= s.Tip().workSum ==> t == Reconsidered(s, n))
      && (!s.KnownValid(n) && tip.workSum > s.Tip().workSum ==>
           && Tree(Reconsidered(s, n)) && Replay(Reconsidered(s, n).best).Some? && tip.parent.Some?
           && t == ReorganizeTo(r, Reconsidered(s, n), tip).state)
  {
    hide Tree, Replay, OffLeaf, Updated, ReorganizeTo, Path;
    TreeFacts(s);
    if hash in s.index { TreeKeys(s, hash); }
  }

  // ---- runs of all three operations

  datatype Operation = AcceptBlock(block: Block) | InvalidateBlock(hash: Hash) | ReconsiderBlock(hash: Hash)

  ghost predicate Leads(r: Rules, s: ChainState, op: Operation, t: ChainState)
    requires Sound(s)
  {
    match op
    case AcceptBlock(block) => t == if block.hash in s.index then s else Accept(r, s, block).state
    case InvalidateBlock(hash) => exists err, tip :: Invalidated(r, s, hash, t, err, tip)
    case ReconsiderBlock(hash) => exists err, tip :: ReconsideredTo(r, s, hash, t, err, tip)
  }

  lemma LeadsSound(r: Rules, s: ChainState, op: Operation, t: ChainState)
    requires Sound(s) && Leads(r, s, op, t)
    ensures Sound(t)
  {
    hide Sound, Accept, Invalidated, ReconsideredTo;
    SoundFacts(s);
    match op
    case AcceptBlock(block) =>
      if block.hash !in s.index {
        AcceptSound(r, s, block);
        TreeFacts(s);
        AcceptedFacts(s, block, Accept(r, s, block));
      }
    case InvalidateBlock(hash) =>
      var err, tip :| Invalidated(r, s, hash, t, err, tip);
      InvalidatedSound(r, s, hash, t, err, tip);
    case ReconsiderBlock(hash) =>
      var err, tip :| ReconsideredTo(r, s, hash, t, err, tip);
      ReconsideredToSound(r, s, hash, t, err, tip);
  }

  ghost predicate IsHistory(r: Rules, states: seq<ChainState>, ops: seq<Operation>) {
    && |states| == |ops| + 1
    && Sound(states[0])
    && forall i :: 0 <= i < |ops| ==> Sound(states[i]) ==> Leads(r, states[i], ops[i], states[i + 1])
  }

  /** Every run of accepted, invalidated and reconsidered blocks keeps ledger and
      snapshot those of the best chain, and the best chain free of invalid blocks. */
  lemma {:induction false} HistorySound(r: Rules, states: seq<ChainState>, ops: seq<Operation>, i: nat)
    requires IsHistory(r, states, ops) && i < |states|
    ensures Sound(states[i]) && Replay(states[i].best) == Some(states[i].ledger)
    ensures states[i].snapshot == SnapshotOf(states[i].best)
    ensures forall x :: x in states[i].best ==> !Tainted(states[i].status, x)
  {
    hide *;
    HistoryFacts(r, states, ops);
    if i > 0 {
      HistorySound(r, states, ops, i - 1);
      LeadsSound(r, states[i - 1], ops[i - 1], states[i]);
    }
    SoundFacts(states[i]);
    forall x | x in states[i].best
      ensures !Tainted(states[i].status, x)
    {
      BranchUntainted(states[i], x);
    }
  }

  lemma HistoryFacts(r: Rules, states: seq<ChainState>, ops: seq<Operation>)
    requires IsHistory(r, states, ops)
    ensures |states| == |ops| + 1 && Sound(states[0])
    ensures forall i :: 0 <= i < |ops| ==> Sound(states[i]) ==> Leads(r, states[i], ops[i], states[i + 1])
  {
    hide Sound, Leads;
  }

  lemma BranchUntainted(s: ChainState, x: BlockNode)
    requires Sound(s) && x in s.best
    ensures !Tainted(s.status, x)
  {
    hide Tree, Path, Replay, SnapshotOf, ValidReplays;
    if Tainted(s.status, x) {
      var y :| y in Path(x) && y.Hash() in s.status && s.status[y.Hash()].KnownInvalid();
      BranchClosed(s, x, y);
    }
  }

  /** IsAncestor: whether the other node is a proper ancestor. */
  method IsAncestor(node: BlockNode, other: BlockNode) returns (r: bool)
    requires Linked(node)
    ensures r <==> Descends(node, other)
  {
    hide Path, At, Descends;
    DescendsIs(node, other);
    OnPath(node, other);
    AtSelf(node);
    var ancestor, _ := Ancestor(node, other.height);
    r := ancestor.Some? && node.height != ancestor.value.height && ancestor.value == other;
  }
}
