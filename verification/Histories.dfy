/** Runs from genesis in which InvalidateBlock and ReconsiderBlock do not leave what one
    might expect of them: each is an instance of the failing side of an exact condition
    in ForkChoice. */
module Histories {
  import opened Wire
  import opened BlockTree
  import opened ChainSpec
  import opened ChainSafety
  import opened Invalidation
  import opened ForkChoice
  import opened CoinbaseBlocks

  // ---- building a run

  lemma Begins() returns (s: ChainState, g: BlockNode)
    ensures s == Genesis(CoinbaseBlock(1, 0)) && Sound(s) && IsHistory(LENIENT, [s], [])
    ensures s.best == [g] == Path(g) && g.Hash() == 1 && g.workSum == 1 && g.parent == None
    ensures g.block == CoinbaseBlock(1, 0)
    ensures s.index == map[1 := g] && s.status == map[1 := VALID_STATUS]
  {
    s := Genesis(CoinbaseBlock(1, 0));
    GenesisSound(CoinbaseBlock(1, 0));
    g := s.best[0];
  }

  lemma Goes(states: seq<ChainState>, ops: seq<Operation>, s: ChainState, op: Operation, t: ChainState)
    requires IsHistory(LENIENT, states, ops) && |states| > 0 && s == states[|states| - 1] && Sound(s)
    requires Leads(LENIENT, s, op, t)
    ensures IsHistory(LENIENT, states + [t], ops + [op])
  {
    hide Sound, Leads;
    var more, taken := states + [t], ops + [op];
    forall i | 0 <= i < |taken| && Sound(more[i])
      ensures Leads(LENIENT, more[i], taken[i], more[i + 1])
    {
      if i < |ops| { assert more[i] == states[i] && more[i + 1] == states[i + 1]; }
    }
  }

  /** A block on top of the tip, and one elsewhere, as steps of a run. */
  lemma GoesOn(states: seq<ChainState>, ops: seq<Operation>, s: ChainState, hash: Hash)
    returns (more: seq<ChainState>, taken: seq<Operation>, t: ChainState, n: BlockNode)
    requires IsHistory(LENIENT, states, ops) && |states| > 0 && s == states[|states| - 1] && Sound(s)
    requires hash !in s.index
    ensures |s.best| > 0 && IsChild(n, s.Tip(), hash)
    ensures Sound(t) && t.best == s.best + [n] && t.index == s.index[hash := n]
    ensures t.status == s.status[hash := VALID_STATUS]
    ensures IsHistory(LENIENT, more, taken) && more == states + [t]
  {
    hide *;
    t, n := ExtendTip(s, hash);
    TreeFacts(s);
    var block := CoinbaseBlock(hash, s.Tip().Hash());
    AcceptLeads(s, block, t);
    Goes(states, ops, s, AcceptBlock(block), t);
    more, taken := states + [t], ops + [AcceptBlock(block)];
  }

  lemma GoesAside(states: seq<ChainState>, ops: seq<Operation>, s: ChainState, parent: BlockNode, hash: Hash)
    returns (more: seq<ChainState>, taken: seq<Operation>, t: ChainState, n: BlockNode)
    requires IsHistory(LENIENT, states, ops) && |states| > 0 && s == states[|states| - 1] && Sound(s)
    requires hash !in s.index
    requires s.Has(parent) && !s.KnownInvalid(parent) && |s.best| > 0 && parent != s.Tip()
    requires parent.workSum < s.Tip().workSum
    ensures IsChild(n, parent, hash)
    ensures Sound(t) && t.best == s.best && t.index == s.index[hash := n] && t.status == s.status[hash := NEW_STATUS]
    ensures IsHistory(LENIENT, more, taken) && more == states + [t]
  {
    hide *;
    t, n := AddSide(s, parent, hash);
    var block := CoinbaseBlock(hash, parent.Hash());
    AcceptLeads(s, block, t);
    Goes(states, ops, s, AcceptBlock(block), t);
    more, taken := states + [t], ops + [AcceptBlock(block)];
  }

  lemma AcceptLeads(s: ChainState, block: Block, t: ChainState)
    requires Sound(s) && Tree(s) && Replay(s.best) == Some(s.ledger) && block.hash !in s.index
    requires Accept(LENIENT, s, block).state == t
    ensures Leads(LENIENT, s, AcceptBlock(block), t)
  {
    hide Sound, Tree, Replay, Accept;
  }

  /** InvalidateBlock on a block of the best chain, with a tip to move to. */
  lemma GoesInvalid(states: seq<ChainState>, ops: seq<Operation>, s: ChainState, n: BlockNode, tip: BlockNode)
    returns (more: seq<ChainState>, taken: seq<Operation>, t: ChainState, err: Option<Error>)
    requires IsHistory(LENIENT, states, ops) && |states| > 0 && s == states[|states| - 1] && Sound(s)
    requires n in s.best && n.parent.Some? && n.Hash() in s.status && !s.KnownInvalid(n)
    requires 0 < n.height < |s.best| && Replay(s.best).Some? && IsBestTip(Truncated(s, n), tip) && tip != n.parent.value
    ensures Tree(s) && Invalidated(LENIENT, s, n.Hash(), t, err, tip)
    ensures Sound(Truncated(s, n)) && Tree(Truncated(s, n)) && Replay(Truncated(s, n).best).Some? && tip.parent.Some?
    ensures t == ReorganizeTo(LENIENT, Truncated(s, n), tip).state && Sound(t)
    ensures IsHistory(LENIENT, more, taken) && more == states + [t] && taken == ops + [InvalidateBlock(n.Hash())]
  {
    hide *;
    SoundFacts(s);
    TreeFacts(s);
    TruncatedSound(s, n);
    var mid := Truncated(s, n);
    SoundFacts(mid);
    IsBestTipFacts(mid, tip);
    NodeFacts(mid, tip);
    TipIs(mid);
    TreeFacts(mid);
    t := ReorganizeTo(LENIENT, mid, tip).state;
    err := ErrorOf(ReorganizeTo(LENIENT, mid, tip).result);
    HasIndex(s, n);
    InvalidatedMain(LENIENT, s, n, t, err, tip);
    InvalidatedSound(LENIENT, s, n.Hash(), t, err, tip);
    InvalidateLeads(s, n.Hash(), t, err, tip);
    Goes(states, ops, s, InvalidateBlock(n.Hash()), t);
    more, taken := states + [t], ops + [InvalidateBlock(n.Hash())];
  }

  lemma InvalidatedMain(r: Rules, s: ChainState, n: BlockNode, t: ChainState, err: Option<Error>, tip: BlockNode)
    requires Tree(s) && Replay(s.best).Some? && n.Hash() in s.index && s.index[n.Hash()] == n && n.Hash() in s.status
    requires 0 < n.height < |s.best| && !s.KnownInvalid(n) && n in s.best && IsBestTip(Truncated(s, n), tip)
    requires tip != Truncated(s, n).Tip() && Tree(Truncated(s, n)) && Replay(Truncated(s, n).best).Some?
    requires tip.parent.Some?
    requires t == ReorganizeTo(r, Truncated(s, n), tip).state
    requires err == ErrorOf(ReorganizeTo(r, Truncated(s, n), tip).result)
    ensures Invalidated(r, s, n.Hash(), t, err, tip)
  {
    hide Tree, Replay, IsBestTip, Truncated, InvalidatedSide, ReorganizeTo;
  }

  lemma InvalidateLeads(s: ChainState, hash: Hash, t: ChainState, err: Option<Error>, tip: BlockNode)
    requires Sound(s) && Tree(s) && Replay(s.best).Some? && Invalidated(LENIENT, s, hash, t, err, tip)
    ensures Leads(LENIENT, s, InvalidateBlock(hash), t)
  {
    hide Sound, Tree, Replay, Invalidated;
  }

  // ---- reading a small tree

  lemma NoneTainted(s: ChainState, x: BlockNode)
    requires forall h :: h in s.status ==> !s.status[h].KnownInvalid()
    ensures !Tainted(s.status, x) && !s.KnownInvalid(x)
  {
    hide Path;
  }

  lemma IsLeaf(s: ChainState, x: BlockNode)
    requires s.Has(x) && x !in s.best && forall h :: h in s.index ==> s.index[h].parent != Some(x)
    ensures OffLeaf(s, x)
  {
  }

  /** A tip that no other tip outweighs. */
  lemma IsHeaviestTip(s: ChainState, x: BlockNode)
    requires |s.best| > 0 && OffLeaf(s, x) && !s.KnownInvalid(x)
    requires forall y :: IsTip(s, y) && !s.KnownInvalid(y) ==> y.workSum <= x.workSum
    ensures IsBestTip(s, x)
  {
    hide OffLeaf;
    OffLeafFacts(s, x);
  }

  // ---- a heavier leaf left aside, and a descendant left unflagged

  /** Six blocks of work 1 each: G - X1 - X2 the best chain, Z2 and W2 beside X2, and Y1
      beside X1. */
  ghost predicate Forked(s: ChainState, g: BlockNode, x1: BlockNode, x2: BlockNode, z2: BlockNode, w2: BlockNode,
      y1: BlockNode)
  {
    && s.index == map[1 := g, 2 := x1, 3 := x2, 4 := z2, 5 := w2, 6 := y1]
    && s.status == map[1 := VALID_STATUS, 2 := VALID_STATUS, 3 := VALID_STATUS,
         4 := NEW_STATUS, 5 := NEW_STATUS, 6 := NEW_STATUS]
    && s.best == [g, x1, x2]
    && Path(g) == [g] && g.Hash() == 1 && g.workSum == 1 && g.parent == None
    && IsChild(x1, g, 2) && IsChild(x2, x1, 3) && IsChild(z2, x1, 4) && IsChild(w2, x1, 5) && IsChild(y1, g, 6)
  }

  lemma GrowForked() returns (states: seq<ChainState>, ops: seq<Operation>, s: ChainState,
    g: BlockNode, x1: BlockNode, x2: BlockNode, z2: BlockNode, w2: BlockNode, y1: BlockNode)
    ensures IsHistory(LENIENT, states, ops) && |states| > 0 && states[0] == Genesis(CoinbaseBlock(1, 0))
    ensures s == states[|states| - 1] && Sound(s) && Forked(s, g, x1, x2, z2, w2, y1)
  {
    hide Sound, IsHistory, IsChild, Genesis, CoinbaseBlock;
    s, g := Begins();
    states, ops := [s], [];
    states, ops, s, x1 := GoesOn(states, ops, s, 2);
    IsChildFacts(x1, g, 2);
    states, ops, s, x2 := GoesOn(states, ops, s, 3);
    IsChildFacts(x2, x1, 3);
    states, ops, s, z2 := GoesAside(states, ops, s, x1, 4);
    states, ops, s, w2 := GoesAside(states, ops, s, x1, 5);
    states, ops, s, y1 := GoesAside(states, ops, s, g, 6);
  }

  lemma {:induction false} ForkedFacts(s: ChainState, g: BlockNode, x1: BlockNode, x2: BlockNode, z2: BlockNode,
      w2: BlockNode, y1: BlockNode)
    requires Sound(s) && Forked(s, g, x1, x2, z2, w2, y1)
    ensures Tree(s) && Replay(s.best).Some? && Heaviest(s)
    ensures x1 in s.best && x1.parent == Some(g) && x1.height == 1 && |s.best| == 3 && x1.Hash() == 2 && 2 in s.status
    ensures s.Has(x1) && s.Has(z2) && s.Has(w2) && s.Has(y1) && s.Has(g)
    ensures forall x :: !Tainted(s.status, x) && !s.KnownInvalid(x)
    ensures forall h :: h in s.index ==> s.index[h].workSum <= 3 && s.index[h].parent in {None, Some(g), Some(x1)}
    ensures z2.workSum == 3 && z2.parent == Some(x1) && y1.workSum == 2 && y1.parent == Some(g) && g.workSum == 1
    ensures Path(y1) == [g, y1] && Path(z2) == [g, x1, z2] && Path(w2) == [g, x1, w2]
    ensures z2 !in s.best && y1 !in s.best && w2 !in s.best && g != x1 && z2 != w2 && z2 != x1 && z2 != g && y1 != g
    ensures y1 != x1
  {
    hide *;
    SoundFacts(s);
    TreeFacts(s);
    ForkedNodes(s, g, x1, x2, z2, w2, y1);
    ForkedIndex(s, g, x1, x2, z2, w2, y1);
    assert s.best[1].height == 1;
    TipIs(s);
    forall x | true
      ensures !Tainted(s.status, x) && !s.KnownInvalid(x)
    {
      NoneTainted(s, x);
    }
    forall x | s.Has(x)
      ensures x.workSum <= 3
    {
      HasIndex(s, x);
    }
    HeaviestMeans(s);
  }

  lemma {:induction false} ForkedNodes(s: ChainState, g: BlockNode, x1: BlockNode, x2: BlockNode, z2: BlockNode,
      w2: BlockNode, y1: BlockNode)
    requires Forked(s, g, x1, x2, z2, w2, y1)
    ensures s.best == [g, x1, x2]
    ensures g.Hash() == 1 && x1.Hash() == 2 && x2.Hash() == 3 && z2.Hash() == 4 && w2.Hash() == 5 && y1.Hash() == 6
    ensures g.workSum == 1 && x1.workSum == 2 && x2.workSum == 3 && z2.workSum == 3 && w2.workSum == 3
    ensures y1.workSum == 2
    ensures g.parent == None && x1.parent == Some(g) && x2.parent == Some(x1)
    ensures z2.parent == Some(x1) && w2.parent == Some(x1) && y1.parent == Some(g)
    ensures Path(y1) == [g, y1] && Path(z2) == [g, x1, z2] && Path(w2) == [g, x1, w2]
  {
    hide Path, CoinbaseBlock;
  }

  lemma {:induction false} ForkedIndex(s: ChainState, g: BlockNode, x1: BlockNode, x2: BlockNode, z2: BlockNode,
      w2: BlockNode, y1: BlockNode)
    requires Forked(s, g, x1, x2, z2, w2, y1)
    ensures s.Has(x1) && s.Has(z2) && s.Has(w2) && s.Has(y1) && s.Has(g)
    ensures forall h :: h in s.status ==> !s.status[h].KnownInvalid()
    ensures 2 in s.status
    ensures forall h :: h in s.index ==> s.index[h].workSum <= 3 && s.index[h].parent in {None, Some(g), Some(x1)}
  {
    hide IsChild, Path;
    ForkedNodes(s, g, x1, x2, z2, w2, y1);
  }

  /** After X1 is taken off the chain, Z2 is a best tip. */
  lemma ForkedTip(s: ChainState, g: BlockNode, x1: BlockNode, x2: BlockNode, z2: BlockNode, w2: BlockNode,
      y1: BlockNode)
    requires Sound(s) && Forked(s, g, x1, x2, z2, w2, y1)
    ensures 2 in s.status && x1.Hash() == 2 && x1.height == 1 && |s.best| == 3 && Replay(s.best).Some?
    ensures Truncated(s, x1).best == [g] && IsBestTip(Truncated(s, x1), z2) && OffLeaf(Truncated(s, x1), y1)
  {
    hide *;
    ForkedFacts(s, g, x1, x2, z2, w2, y1);
    var mid := Truncated(s, x1);
    TruncatedIs(s, x1);
    assert s.best[..1] == [g] by { ForkedBest(s, g, x1, x2, z2, w2, y1); }
    HasSame(s, mid);
    TipIs(mid);
    IsLeaf(mid, z2);
    IsLeaf(mid, y1);
    NodeFacts(s, z2);
    TruncatedFlag(s, x1, z2);
    forall y | IsTip(mid, y) && !mid.KnownInvalid(y)
      ensures y.workSum <= z2.workSum
    {
      TipHas(mid, y);
      HasIndex(mid, y);
    }
    IsHeaviestTip(mid, z2);
  }

  lemma ForkedBest(s: ChainState, g: BlockNode, x1: BlockNode, x2: BlockNode, z2: BlockNode, w2: BlockNode,
      y1: BlockNode)
    requires Forked(s, g, x1, x2, z2, w2, y1)
    ensures s.best == [g, x1, x2]
  {
    hide IsChild, Path;
  }

  lemma TipHas(s: ChainState, y: BlockNode)
    requires |s.best| > 0 && s.Has(s.Tip()) && IsTip(s, y)
    ensures s.Has(y)
  {
  }

  /** InvalidateBlock(X1) chooses Z2, finds that its parent is invalid, flags it, and stays
      at G: Y1, a leaf free of invalid ancestors, has more work, and W2, a descendant
      of X1, is not flagged. */
  lemma HeavierLeafLeft()
    returns (states: seq<ChainState>, ops: seq<Operation>, x1: BlockNode, y1: BlockNode, w2: BlockNode)
    ensures IsHistory(LENIENT, states, ops) && |ops| > 0 && states[0] == Genesis(CoinbaseBlock(1, 0))
    ensures ops[|ops| - 1] == InvalidateBlock(x1.Hash()) && |states| == |ops| + 1
    ensures var s, t := states[|ops| - 1], states[|ops|];
      && Heaviest(s) && !Heaviest(t)
      && |t.best| > 0 && OffLeaf(t, y1) && !Tainted(t.status, y1) && y1.workSum > t.Tip().workSum
      && s.Has(w2) && Descends(w2, x1) && !t.KnownInvalid(w2)
      && Sound(t) && t.Has(w2) && Tainted(t.status, w2) && w2.workSum > t.Tip().workSum && 7 !in t.index
  {
    hide *;
    var s, g, x2, z2;
    states, ops, s, g, x1, x2, z2, w2, y1 := GrowForked();
    ForkedFacts(s, g, x1, x2, z2, w2, y1);
    ForkedTip(s, g, x1, x2, z2, w2, y1);
    var t, err;
    var before := states;
    HistoryFacts(LENIENT, states, ops);
    states, ops, t, err := GoesInvalid(states, ops, s, x1, z2);
    HistoryFacts(LENIENT, states, ops);
    var mid := Truncated(s, x1);
    TruncatedIs(s, x1);
    HasSame(s, mid);
    TruncatedTaint(s, x1, z2);
    TruncatedTaint(s, x1, y1);
    TruncatedSound(s, x1);
    ReorganizeExact(LENIENT, mid, z2);
    MovesIs(LENIENT, mid, z2);
    SpoiltIs(LENIENT, mid, z2, y1, Stop(LENIENT, mid, z2));
    SameLeaf(mid, t, y1);
    TipIs(t);
    SoundFacts(t);
    HeaviestMeans(t);
    SameHas(s, t, y1);
    DescendsIs(w2, x1);
    NodeFacts(s, w2);
    TruncatedFlag(s, x1, w2);
    FlagsOnly(LENIENT, mid, z2, w2);
    ForkedNodes(s, g, x1, x2, z2, w2, y1);
    InvalidatedSound(LENIENT, s, x1.Hash(), t, err, z2);
    HasIndex(s, x1);
    SameHas(s, t, w2);
    ForkedKeys(s, g, x1, x2, z2, w2, y1);
  }

  lemma {:induction false} ForkedKeys(s: ChainState, g: BlockNode, x1: BlockNode, x2: BlockNode, z2: BlockNode,
      w2: BlockNode, y1: BlockNode)
    requires Forked(s, g, x1, x2, z2, w2, y1)
    ensures 7 !in s.index
  {
    hide IsChild, Path;
  }

  lemma SameLeaf(s: ChainState, t: ChainState, x: BlockNode)
    requires OffLeaf(s, x) && t.index == s.index && t.best == s.best
    ensures OffLeaf(t, x)
  {
  }

  /** With the parent known to be invalid, only the node itself is flagged. */
  lemma FlagsOnly(r: Rules, s: ChainState, n: BlockNode, x: BlockNode)
    requires Sound(s) && Tree(s) && s.Has(n) && n.parent.Some? && s.KnownInvalid(n.parent.value)
    ensures Flags(r, s, n, x) <==> x == n
  {
    hide *;
    AttachIndexed(s, n);
    ParentClean(s, n);
    FlagsTainted(r, s, n, x);
  }

  // ---- the chain does not stay at the parent

  ghost predicate IsCoinbase(n: BlockNode) {
    n.block == CoinbaseBlock(n.block.hash, n.block.prev)
  }

  lemma {:induction false} LenientPasses(base: seq<BlockNode>, status: Statuses, attach: seq<BlockNode>)
    requires |base| > 0 && Replay(base).Some? && forall x :: x in attach ==> IsCoinbase(x)
    ensures StopAt(LENIENT, base, status, attach) == |attach|
    decreases |attach|
  {
    hide Replay, CheckConnect, ConnectNode, CoinbaseBlock;
    if attach != [] {
      var n := attach[0];
      assert n in attach;
      CoinbaseConnects(Replay(base).value, n, n.block.hash, n.block.prev);
      ReplayUnfold(base, n);
      LenientPasses(base + [n], status, attach[1..]);
    }
  }

  /** Nothing stops a reorganization to a node free of invalid ancestors. */
  lemma LenientMoves(s: ChainState, n: BlockNode)
    requires Sound(s) && Tree(s) && s.Has(n) && !Tainted(s.status, n)
    requires forall h :: h in s.index ==> IsCoinbase(s.index[h])
    ensures Moves(LENIENT, s, n)
  {
    hide *;
    SoundFacts(s);
    AttachSplits(s, n);
    AttachIndexed(s, n);
    var attach := Attach(s.best, n);
    var f := n.height - |attach|;
    ReplayPrefix(s.best, f + 1);
    forall x | x in attach
      ensures IsCoinbase(x)
    {
      HasIndex(s, x);
    }
    LenientPasses(s.best[..f + 1], s.status, attach);
    StopIs(LENIENT, s, n, attach, f);
    MovesIs(LENIENT, s, n);
  }

  /** Four blocks: G - X1 - X2 the best chain, and Y1 beside X1. */
  ghost predicate Sided(s: ChainState, g: BlockNode, x1: BlockNode, x2: BlockNode, y1: BlockNode) {
    && s.index == map[1 := g, 2 := x1, 3 := x2, 4 := y1]
    && s.status == map[1 := VALID_STATUS, 2 := VALID_STATUS, 3 := VALID_STATUS, 4 := NEW_STATUS]
    && s.best == [g, x1, x2]
    && Path(g) == [g] && g.Hash() == 1 && g.workSum == 1 && g.parent == None && g.block == CoinbaseBlock(1, 0)
    && IsChild(x1, g, 2) && IsChild(x2, x1, 3) && IsChild(y1, g, 4)
  }

  lemma GrowSided() returns (states: seq<ChainState>, ops: seq<Operation>, s: ChainState,
    g: BlockNode, x1: BlockNode, x2: BlockNode, y1: BlockNode)
    ensures IsHistory(LENIENT, states, ops) && |states| > 0 && states[0] == Genesis(CoinbaseBlock(1, 0))
    ensures s == states[|states| - 1] && Sound(s) && Sided(s, g, x1, x2, y1)
  {
    hide Sound, IsHistory, IsChild, Genesis, CoinbaseBlock;
    s, g := Begins();
    states, ops := [s], [];
    states, ops, s, x1 := GoesOn(states, ops, s, 2);
    IsChildFacts(x1, g, 2);
    states, ops, s, x2 := GoesOn(states, ops, s, 3);
    IsChildFacts(x2, x1, 3);
    states, ops, s, y1 := GoesAside(states, ops, s, g, 4);
  }

  lemma {:induction false} SidedNodes(s: ChainState, g: BlockNode, x1: BlockNode, x2: BlockNode, y1: BlockNode)
    requires Sided(s, g, x1, x2, y1)
    ensures s.best == [g, x1, x2]
    ensures g.Hash() == 1 && x1.Hash() == 2 && x2.Hash() == 3 && y1.Hash() == 4
    ensures g.workSum == 1 && y1.workSum == 2
    ensures g.parent == None && x1.parent == Some(g) && x2.parent == Some(x1) && y1.parent == Some(g)
    ensures Path(y1) == [g, y1]
    ensures IsCoinbase(g) && IsCoinbase(x1) && IsCoinbase(x2) && IsCoinbase(y1)
  {
    hide Path, CoinbaseBlock;
  }

  lemma {:induction false} SidedIndex(s: ChainState, g: BlockNode, x1: BlockNode, x2: BlockNode, y1: BlockNode)
    requires Sided(s, g, x1, x2, y1)
    ensures s.Has(g) && s.Has(x1) && s.Has(x2) && s.Has(y1) && 2 in s.status
    ensures forall h :: h in s.status ==> !s.status[h].KnownInvalid()
    ensures forall h :: h in s.index ==> s.index[h] in {g, x1, x2, y1}
  {
    hide IsChild, Path;
    SidedNodes(s, g, x1, x2, y1);
  }

  /** InvalidateBlock(X1) leaves Y1 the tip, not G, the parent of X1. */
  lemma MovesFromParent() returns (states: seq<ChainState>, ops: seq<Operation>, x1: BlockNode, y1: BlockNode)
    ensures IsHistory(LENIENT, states, ops) && |ops| > 0 && states[0] == Genesis(CoinbaseBlock(1, 0))
    ensures ops[|ops| - 1] == InvalidateBlock(x1.Hash()) && |states| == |ops| + 1
    ensures var s, t := states[|ops| - 1], states[|ops|];
      x1 in s.best && |t.best| > 0 && t.Tip() == y1 && x1.parent.Some? && y1 != x1.parent.value
  {
    hide *;
    var s, g, x2;
    states, ops, s, g, x1, x2, y1 := GrowSided();
    SidedNodes(s, g, x1, x2, y1);
    SidedIndex(s, g, x1, x2, y1);
    SidedTip(s, g, x1, x2, y1);
    NoneTainted(s, x1);
    HistoryFacts(LENIENT, states, ops);
    var t, err;
    states, ops, t, err := GoesInvalid(states, ops, s, x1, y1);
    HistoryFacts(LENIENT, states, ops);
    var mid := Truncated(s, x1);
    TruncatedIs(s, x1);
    HasSame(s, mid);
    NoneTainted(s, y1);
    TruncatedTaint(s, x1, y1);
    forall h | h in mid.index
      ensures IsCoinbase(mid.index[h])
    {
      assert mid.index[h] in {g, x1, x2, y1};
    }
    LenientMoves(mid, y1);
    InvalidatedTip(LENIENT, s, x1, t, err, y1);
  }

  lemma SidedTip(s: ChainState, g: BlockNode, x1: BlockNode, x2: BlockNode, y1: BlockNode)
    requires Sound(s) && Sided(s, g, x1, x2, y1)
    ensures 2 in s.status && x1.Hash() == 2 && x1.height == 1 && |s.best| == 3 && Replay(s.best).Some?
    ensures IsBestTip(Truncated(s, x1), y1)
  {
    hide *;
    SoundFacts(s);
    TreeFacts(s);
    SidedNodes(s, g, x1, x2, y1);
    SidedIndex(s, g, x1, x2, y1);
    assert s.best[1].height == 1;
    TruncatedSound(s, x1);
    TruncatedIs(s, x1);
    var mid := Truncated(s, x1);
    assert s.best[..1] == [g];
    HasSame(s, mid);
    TipIs(mid);
    forall h | h in mid.index
      ensures mid.index[h].parent != Some(y1)
    {
      assert mid.index[h] in {g, x1, x2, y1};
    }
    IsLeaf(mid, y1);
    NodeFacts(s, y1);
    NoneTainted(s, y1);
    TruncatedFlag(s, x1, y1);
    assert mid.KnownInvalid(s.best[2]);
    forall y | IsTip(mid, y) && !mid.KnownInvalid(y)
      ensures y.workSum <= y1.workSum
    {
      TipHas(mid, y);
      HasIndex(mid, y);
      assert y in {g, x1, x2, y1};
    }
    IsHeaviestTip(mid, y1);
  }

  // ---- a heavier leaf skipped when a block is reconsidered

  /** Five blocks: G - B1 - D2 - D3 the best chain, and C2 beside D2. */
  ghost predicate Branched(s: ChainState, g: BlockNode, b1: BlockNode, d2: BlockNode, d3: BlockNode, c2: BlockNode) {
    && s.index == map[1 := g, 2 := b1, 3 := d2, 4 := d3, 5 := c2]
    && s.status == map[1 := VALID_STATUS, 2 := VALID_STATUS, 3 := VALID_STATUS, 4 := VALID_STATUS, 5 := NEW_STATUS]
    && s.best == [g, b1, d2, d3]
    && Path(g) == [g] && g.Hash() == 1 && g.workSum == 1 && g.parent == None && g.block == CoinbaseBlock(1, 0)
    && IsChild(b1, g, 2) && IsChild(d2, b1, 3) && IsChild(d3, d2, 4) && IsChild(c2, b1, 5)
  }

  lemma GrowBranched() returns (states: seq<ChainState>, ops: seq<Operation>, s: ChainState,
    g: BlockNode, b1: BlockNode, d2: BlockNode, d3: BlockNode, c2: BlockNode)
    ensures IsHistory(LENIENT, states, ops) && |states| > 0 && states[0] == Genesis(CoinbaseBlock(1, 0))
    ensures s == states[|states| - 1] && Sound(s) && Branched(s, g, b1, d2, d3, c2)
  {
    hide Sound, IsHistory, IsChild, Genesis, CoinbaseBlock;
    s, g := Begins();
    states, ops := [s], [];
    states, ops, s, b1 := GoesOn(states, ops, s, 2);
    IsChildFacts(b1, g, 2);
    states, ops, s, d2 := GoesOn(states, ops, s, 3);
    IsChildFacts(d2, b1, 3);
    states, ops, s, d3 := GoesOn(states, ops, s, 4);
    IsChildFacts(d3, d2, 4);
    states, ops, s, c2 := GoesAside(states, ops, s, b1, 5);
  }

  lemma {:induction false} BranchedNodes(s: ChainState, g: BlockNode, b1: BlockNode, d2: BlockNode, d3: BlockNode,
      c2: BlockNode)
    requires Branched(s, g, b1, d2, d3, c2)
    ensures s.best == [g, b1, d2, d3]
    ensures g.Hash() == 1 && b1.Hash() == 2 && d2.Hash() == 3 && d3.Hash() == 4 && c2.Hash() == 5
    ensures g.workSum == 1 && d3.workSum == 4 && c2.workSum == 3
    ensures g.parent == None && b1.parent == Some(g) && d2.parent == Some(b1) && d3.parent == Some(d2)
    ensures c2.parent == Some(b1)
    ensures Path(g) == [g] && Path(b1) == [g, b1] && Path(d2) == [g, b1, d2] && Path(d3) == [g, b1, d2, d3]
    ensures Path(c2) == [g, b1, c2]
    ensures IsCoinbase(g) && IsCoinbase(b1) && IsCoinbase(d2) && IsCoinbase(d3) && IsCoinbase(c2)
  {
    hide Path, CoinbaseBlock;
  }

  lemma {:induction false} BranchedIndex(s: ChainState, g: BlockNode, b1: BlockNode, d2: BlockNode, d3: BlockNode,
      c2: BlockNode)
    requires Branched(s, g, b1, d2, d3, c2)
    ensures s.Has(g) && s.Has(b1) && s.Has(d2) && s.Has(d3) && s.Has(c2)
    ensures s.status == map[1 := VALID_STATUS, 2 := VALID_STATUS, 3 := VALID_STATUS, 4 := VALID_STATUS, 5 := NEW_STATUS]
    ensures forall h :: h in s.status ==> !s.status[h].KnownInvalid()
    ensures forall h :: h in s.index ==> s.index[h] in {g, b1, d2, d3, c2}
  {
    hide IsChild, Path;
    BranchedNodes(s, g, b1, d2, d3, c2);
  }

  lemma BranchedTip(s: ChainState, g: BlockNode, b1: BlockNode, d2: BlockNode, d3: BlockNode, c2: BlockNode)
    requires Sound(s) && Branched(s, g, b1, d2, d3, c2)
    ensures 2 in s.status && b1.Hash() == 2 && b1.height == 1 && |s.best| == 4 && Replay(s.best).Some?
    ensures Truncated(s, b1).best == [g] && IsBestTip(Truncated(s, b1), c2)
  {
    hide *;
    SoundFacts(s);
    TreeFacts(s);
    BranchedNodes(s, g, b1, d2, d3, c2);
    BranchedIndex(s, g, b1, d2, d3, c2);
    assert s.best[1].height == 1;
    TruncatedSound(s, b1);
    TruncatedIs(s, b1);
    var mid := Truncated(s, b1);
    assert s.best[..1] == [g];
    HasSame(s, mid);
    TipIs(mid);
    forall h | h in mid.index
      ensures mid.index[h].parent != Some(c2)
    {
      assert mid.index[h] in {g, b1, d2, d3, c2};
    }
    IsLeaf(mid, c2);
    NodeFacts(s, c2);
    NoneTainted(s, c2);
    TruncatedFlag(s, b1, c2);
    assert mid.KnownInvalid(s.best[2]) && mid.KnownInvalid(s.best[3]);
    forall y | IsTip(mid, y) && !mid.KnownInvalid(y)
      ensures y.workSum <= c2.workSum
    {
      TipHas(mid, y);
      HasIndex(mid, y);
      assert y in {g, b1, d2, d3, c2};
    }
    IsHeaviestTip(mid, c2);
  }

  /** The tree once B1 has been invalidated: B1 failed, the others invalid by ancestry. */
  lemma BranchedInvalid(s: ChainState, g: BlockNode, b1: BlockNode, d2: BlockNode, d3: BlockNode, c2: BlockNode,
      t: ChainState)
    requires Sound(s) && Branched(s, g, b1, d2, d3, c2) && b1.Hash() in s.status && 0 < b1.height < |s.best|
    requires Replay(s.best).Some?
    requires Sound(Truncated(s, b1)) && Tree(Truncated(s, b1)) && Replay(Truncated(s, b1).best).Some?
    requires Truncated(s, b1).best == [g] && Truncated(s, b1).Has(c2) && c2.parent.Some?
    requires t == ReorganizeTo(LENIENT, Truncated(s, b1), c2).state
    ensures t.index == s.index && t.best == [g] && t.status.Keys == {1, 2, 3, 4, 5}
    ensures !t.status[2].valid && !t.status[3].validateFailed && !t.status[4].validateFailed
    ensures !t.status[5].validateFailed
  {
    hide *;
    SoundFacts(s);
    TreeFacts(s);
    BranchedNodes(s, g, b1, d2, d3, c2);
    BranchedIndex(s, g, b1, d2, d3, c2);
    assert s.best[1].height == 1;
    var mid := Truncated(s, b1);
    TruncatedSound(s, b1);
    TruncatedIs(s, b1);
    TruncatedStatusIs(s, b1);
    AttachSplits(mid, c2);
    AttachIndexed(mid, c2);
    NodeFacts(mid, c2);
    var attach := Attach(mid.best, c2);
    ReplayPrefix(mid.best, c2.height - |attach| + 1);
    ReorganizeToUnfold(LENIENT, mid, c2, attach, c2.height - |attach|);
    MarkOneFacts(mid.status, c2, InvalidAncestor);
    FlagEffects();
    var above := s.best[2..];
    HashIn(above, d2, 0);
    HashIn(above, d3, 1);
    forall y | y in above
      ensures y.Hash() != 2 && y.Hash() != 5
    {
      assert above == [d2, d3];
    }
    HashNotIn(above, b1);
    HashNotIn(above, c2);
  }

  lemma FlagEffects()
    ensures forall st :: !MarkedFailed(st).valid
    ensures forall st :: Condemned(st).validateFailed == st.validateFailed
    ensures forall st :: SetFlag(st, InvalidAncestor).validateFailed == st.validateFailed
    ensures forall st :: SetFlag(st, InvalidAncestor).valid == st.valid
    ensures !VALID_STATUS.validateFailed && !NEW_STATUS.validateFailed
  {
  }

  /** Once B1 is reconsidered, nothing of the tree has an invalid ancestor. */
  lemma BranchedCleared(t: ChainState, s: ChainState, g: BlockNode, b1: BlockNode, d2: BlockNode, d3: BlockNode,
      c2: BlockNode)
    requires Sound(t) && Branched(s, g, b1, d2, d3, c2)
    requires t.index == s.index && t.best == [g] && t.status.Keys == {1, 2, 3, 4, 5}
    requires !t.status[2].valid && !t.status[3].validateFailed && !t.status[4].validateFailed
    requires !t.status[5].validateFailed
    ensures b1.Hash() == 2 && t.Has(b1) && !t.KnownValid(b1) && b1 !in t.best
    ensures Sound(Reconsidered(t, b1)) && Reconsidered(t, b1).index == s.index && Reconsidered(t, b1).best == [g]
    ensures !Tainted(Reconsidered(t, b1).status, d3) && !Tainted(Reconsidered(t, b1).status, c2)
  {
    hide *;
    SoundFacts(t);
    BranchedNodes(s, g, b1, d2, d3, c2);
    BranchedIndex(s, g, b1, d2, d3, c2);
    HasSame(s, t);
    StatusAt(t, b1);
    NotValid(t, b1);
    ReconsideredSound(t, b1);
    ReconsideredIs(t, b1);
    ReconsideredTaint(t, b1, d3);
    ReconsideredTaint(t, b1, c2);
    forall y | y in [g, b1, d2, d3, c2]
      ensures !StillInvalid(t, b1, y)
    {
      if y != b1 {
        DescendsIs(y, b1);
        StillInvalidIs(t, b1, y);
      } else {
        StillInvalidIs(t, b1, b1);
      }
    }
  }

  lemma NotValid(t: ChainState, n: BlockNode)
    requires n.Hash() in t.status && !t.status[n.Hash()].valid
    ensures !t.KnownValid(n)
  {
  }

  lemma ReconsiderLeads(r: Rules, s: ChainState, n: BlockNode, t: ChainState, tip: BlockNode)
    requires Sound(s) && Tree(s) && Replay(s.best).Some? && s.Has(n) && n.Hash() in s.status && !s.KnownValid(n)
    requires |s.best| > 0
    requires OffLeaf(Reconsidered(s, n), tip) && n in Path(tip) && tip.workSum > s.Tip().workSum && tip.parent.Some?
    requires Tree(Reconsidered(s, n)) && Replay(Reconsidered(s, n).best).Some?
    requires t == ReorganizeTo(r, Reconsidered(s, n), tip).state
    ensures ReconsideredTo(r, s, n.Hash(), t, None, tip) && Leads(r, s, ReconsiderBlock(n.Hash()), t)
  {
    hide Sound, Tree, Replay, OffLeaf, Updated, Path, ReorganizeTo;
    assert ReconsideredTo(r, s, n.Hash(), t, None, tip);
  }

  /** InvalidateBlock(B1) and then ReconsiderBlock(B1) that happens on the leaf C2 last:
      the chain moves to C2, although D3, which is free of invalid ancestors again and
      was the tip at first, has more work. */
  lemma HeavierLeafSkipped() returns (states: seq<ChainState>, ops: seq<Operation>, b1: BlockNode, d3: BlockNode)
    ensures IsHistory(LENIENT, states, ops) && |ops| > 1 && states[0] == Genesis(CoinbaseBlock(1, 0))
    ensures ops[|ops| - 2..] == [InvalidateBlock(b1.Hash()), ReconsiderBlock(b1.Hash())] && |states| == |ops| + 1
    ensures var s, t := states[|ops| - 1], states[|ops|];
      && Heaviest(s) && !Heaviest(t)
      && |t.best| > 0 && t.Has(d3) && !Tainted(t.status, d3) && d3.workSum > t.Tip().workSum
  {
    hide *;
    var s, g, d2, c2;
    states, ops, s, g, b1, d2, d3, c2 := GrowBranched();
    BranchedNodes(s, g, b1, d2, d3, c2);
    BranchedIndex(s, g, b1, d2, d3, c2);
    BranchedTip(s, g, b1, d2, d3, c2);
    NoneTainted(s, b1);
    HistoryFacts(LENIENT, states, ops);
    var t, err;
    var first := ops;
    states, ops, t, err := GoesInvalid(states, ops, s, b1, c2);
    HistoryFacts(LENIENT, states, ops);
    IsBestTipFacts(Truncated(s, b1), c2);
    BranchedInvalid(s, g, b1, d2, d3, c2, t);
    StillAtGenesis(s, g, b1, d2, d3, c2, t, err);
    BranchedCleared(t, s, g, b1, d2, d3, c2);
    var mid := Reconsidered(t, b1);
    SoundFacts(mid);
    SoundFacts(t);
    HasSame(s, mid);
    HasSame(s, t);
    BranchedLeaf(mid, s, g, b1, d2, d3, c2);
    TipIs(t);
    TipIs(mid);
    var u := ReorganizeTo(LENIENT, mid, c2).state;
    ReconsiderLeads(LENIENT, t, b1, u, c2);
    Goes(states, ops, t, ReconsiderBlock(b1.Hash()), u);
    ops := ops + [ReconsiderBlock(b1.Hash())];
    states := states + [u];
    assert ops[|ops| - 2..] == [InvalidateBlock(b1.Hash()), ReconsiderBlock(b1.Hash())];
    assert states[0] == Genesis(CoinbaseBlock(1, 0)) && states[|ops| - 1] == t && states[|ops|] == u;
    forall h | h in mid.index
      ensures IsCoinbase(mid.index[h])
    {
      assert mid.index[h] in {g, b1, d2, d3, c2};
    }
    LenientMoves(mid, c2);
    MovesIs(LENIENT, mid, c2);
    ReorganizeExact(LENIENT, mid, c2);
    SpoiltIs(LENIENT, mid, c2, d3, Stop(LENIENT, mid, c2));
    ReorganizeToSound(LENIENT, mid, c2);
    ReorganizedEnds(mid, c2, ReorganizeTo(LENIENT, mid, c2));
    SoundFacts(u);
    HeaviestMeans(u);
    HasSame(mid, u);
    TipIs(u);
  }

  lemma BranchedLeaf(t: ChainState, s: ChainState, g: BlockNode, b1: BlockNode, d2: BlockNode, d3: BlockNode,
      c2: BlockNode)
    requires Branched(s, g, b1, d2, d3, c2) && t.index == s.index && t.best == [g]
    ensures OffLeaf(t, c2)
  {
    hide *;
    BranchedNodes(s, g, b1, d2, d3, c2);
    BranchedIndex(s, g, b1, d2, d3, c2);
    HasSame(s, t);
    forall h | h in t.index
      ensures t.index[h].parent != Some(c2)
    {
      assert t.index[h] in {g, b1, d2, d3, c2};
    }
    IsLeaf(t, c2);
  }

  /** Everything but G is below B1, so G alone is free of invalid ancestors. */
  lemma StillAtGenesis(s: ChainState, g: BlockNode, b1: BlockNode, d2: BlockNode, d3: BlockNode, c2: BlockNode,
    t: ChainState, err: Option<Error>)
    requires Sound(s) && Branched(s, g, b1, d2, d3, c2) && Sound(t) && t.index == s.index && t.best == [g]
    requires Tree(s) && Replay(s.best).Some? && b1.Hash() == 2 && b1.height == 1
    requires Invalidated(LENIENT, s, 2, t, err, c2)
    ensures Heaviest(t)
  {
    hide *;
    BranchedNodes(s, g, b1, d2, d3, c2);
    BranchedIndex(s, g, b1, d2, d3, c2);
    InvalidatedSound(LENIENT, s, 2, t, err, c2);
    SoundFacts(t);
    HasSame(s, t);
    HasIndex(s, b1);
    HeaviestMeans(t);
    TipIs(t);
    forall x | t.Has(x) && !Tainted(t.status, x)
      ensures x.workSum <= t.Tip().workSum
    {
      HasIndex(s, x);
      assert x in {g, b1, d2, d3, c2};
      assert b1 in Path(b1) && b1 in Path(d2) && b1 in Path(d3) && b1 in Path(c2);
    }
  }
}
