/** The block chain as the code runs it (btcd/blockchain/accept.go and
    btcd/blockchain/chain.go): work lists of nodes to detach and attach, a dry run
    on a scratch view, then disconnecting and connecting one block at a time. Each
    method is proved against the state function of the same operation. */
module BlockChain {
  import opened Wire
  import opened BlockTree
  import opened MedianTime
  import opened Utxo
  import opened ChainSpec
  import opened ChainSafety
  import opened Invalidation

  // ---- ledgers along a chain

  /** The view is a branch of the tree, and ledger and snapshot are those of it. */
  ghost predicate Consistent(s: ChainState) {
    Tree(s) && Replay(s.best) == Some(s.ledger) && s.snapshot == SnapshotOf(s.best)
  }

  /** The journal of a chain holds exactly the blocks after genesis. */
  lemma {:induction false} JournalKeys(path: seq<BlockNode>)
    requires |path| > 0 && Replay(path).Some?
    ensures Replay(path).value.journal.Keys == HashSet(path[1..])
    decreases |path|
  {
    if |path| > 1 {
      var init := path[..|path| - 1];
      JournalKeys(init);
      assert path[1..] == init[1..] + [path[|path| - 1]];
      HashSetSnoc(init[1..], path[|path| - 1]);
    }
  }

  lemma HashSetSnoc(nodes: seq<BlockNode>, n: BlockNode)
    ensures HashSet(nodes + [n]) == HashSet(nodes) + {n.Hash()}
  {
    var more := nodes + [n];
    assert more[|nodes|] == n;
    assert forall i :: 0 <= i < |nodes| ==> more[i] == nodes[i];
  }

  /** A block's journal entry stays what it was when the block was connected. */
  lemma {:induction false} JournalStable(path: seq<BlockNode>, k: nat)
    requires 1 < k <= |path| && Replay(path).Some? && DistinctHashes(path)
    ensures Replay(path[..k]).Some?
    ensures path[k - 1].Hash() in Replay(path[..k]).value.journal && path[k - 1].Hash() in Replay(path).value.journal
    ensures Replay(path).value.journal[path[k - 1].Hash()] == Replay(path[..k]).value.journal[path[k - 1].Hash()]
    decreases |path|
  {
    if k < |path| {
      var init := path[..|path| - 1];
      assert DistinctHashes(init) by { assert forall i :: 0 <= i < |init| ==> init[i] == path[i]; }
      JournalStable(init, k);
      assert init[..k] == path[..k] && init[k - 1] == path[k - 1];
      assert path[k - 1].Hash() != path[|path| - 1].Hash();
    } else {
      assert path[..k] == path;
    }
  }

  /** Disconnecting the last block of a chain with its journal entry leads back to
      the ledger of the chain without it. */
  lemma DisconnectReplay(path: seq<BlockNode>)
    requires |path| > 1 && Replay(path).Some? && DistinctHashes(path)
    ensures var tip := path[|path| - 1];
      var l := Replay(path).value;
      && tip.Hash() in l.journal
      && Replay(path[..|path| - 1]).Some?
      && DisconnectTxs(l.coins, tip.block.txs, tip.height, l.journal[tip.Hash()]) ==
        Some(Replay(path[..|path| - 1]).value.coins)
      && l.journal - {tip.Hash()} == Replay(path[..|path| - 1]).value.journal
  {
    hide ConnectTxs, DisconnectTxs, KeepsUnspent;
    var init, tip := path[..|path| - 1], path[|path| - 1];
    var before := Replay(init).value;
    DisconnectUndoesConnect(before.coins, tip.block.txs, tip.height);
    JournalKeys(init);
    assert tip.Hash() !in HashSet(init[1..]) by {
      assert forall i :: 0 <= i < |init[1..]| ==> init[1..][i] == path[i + 1];
    }
    assert before.journal[tip.Hash() := Replay(path).value.journal[tip.Hash()]] - {tip.Hash()} == before.journal;
  }

  lemma TotalTxnsSnoc(path: seq<BlockNode>, n: BlockNode)
    ensures TotalTxns(path + [n]) == TotalTxns(path) + |n.block.txs|
  {
    assert (path + [n])[..|path|] == path;
  }

  lemma BranchDistinct(s: ChainState)
    requires Tree(s)
    ensures DistinctHashes(s.best)
  {
    hide *;
    TreeFacts(s);
    forall i, j | 0 <= i < j < |s.best|
      ensures s.best[i].Hash() != s.best[j].Hash()
    {
      PathDistinct(s, s.Tip(), i, j);
    }
    DistinctHashesIs(s.best);
  }

  // ---- one block off, one block on

  ghost function Detached(s: ChainState): ChainState
    requires Consistent(s) && |s.best| > 1
  {
    var best := s.best[..|s.best| - 1];
    ReplayPrefix(s.best, |s.best| - 1);
    ChainState(s.index, s.status, best, Replay(best).value, SnapshotOf(best))
  }

  ghost function Extended(s: ChainState, n: BlockNode): ChainState
    requires ConnectNode(s.ledger, n).Some?
  {
    ChainState(s.index, s.status, s.best + [n], ConnectNode(s.ledger, n).value, SnapshotOf(s.best + [n]))
  }

  lemma ConsistentFacts(s: ChainState)
    requires Consistent(s)
    ensures Tree(s) && Replay(s.best) == Some(s.ledger) && s.snapshot == SnapshotOf(s.best) && |s.best| > 0
  {
  }

  lemma ConsistentIs(s: ChainState)
    requires Tree(s) && Replay(s.best) == Some(s.ledger) && s.snapshot == SnapshotOf(s.best)
    ensures Consistent(s)
  {
  }

  /** Everything disconnecting the tip relies on and leads to. */
  lemma DetachFacts(s: ChainState)
    requires Consistent(s) && |s.best| > 1
    ensures var tip, p := s.Tip(), s.best[|s.best| - 2];
      && tip.parent == Some(p) && tip.Hash() in s.ledger.journal
      && Path(p) == s.best[..|s.best| - 1]
      && Consistent(Detached(s))
      && DisconnectTxs(s.ledger.coins, tip.block.txs, tip.height, s.ledger.journal[tip.Hash()]) ==
        Some(Detached(s).ledger.coins)
      && Detached(s).ledger.journal == s.ledger.journal - {tip.Hash()}
      && Detached(s).snapshot ==
        BestState(p.Hash(), p.height, |p.block.txs|, s.snapshot.totalTxns - |tip.block.txs|, PastMedianTime(p))
  {
    hide *;
    ConsistentFacts(s);
    TreeFacts(s);
    BranchDistinct(s);
    DisconnectReplay(s.best);
    var tip := s.Tip();
    PathUnfold(tip);
    assert s.best[..|s.best| - 1] == Path(tip.parent.value);
    assert s.best[|s.best| - 2] == tip.parent.value;
    var t := Detached(s);
    DetachedIs(s);
    TreeKeep(s, t);
    ConsistentIs(t);
    SnapshotIs(s.best);
    SnapshotIs(t.best);
    assert s.best == t.best + [tip];
    TotalTxnsSnoc(t.best, tip);
  }

  lemma DetachedIs(s: ChainState)
    requires Consistent(s) && |s.best| > 1
    ensures var best := s.best[..|s.best| - 1];
      Replay(best).Some? && Detached(s) == ChainState(s.index, s.status, best, Replay(best).value, SnapshotOf(best))
  {
    ReplayPrefix(s.best, |s.best| - 1);
  }

  lemma SnapshotIs(path: seq<BlockNode>)
    requires |path| > 0
    ensures var tip := path[|path| - 1];
      SnapshotOf(path) == BestState(tip.Hash(), tip.height, |tip.block.txs|, TotalTxns(path), PastMedianTime(tip))
  {
  }

  /** Everything connecting a child of the tip relies on and leads to. */
  lemma ExtendFacts(s: ChainState, n: BlockNode)
    requires Consistent(s) && s.Has(n) && n.parent == Some(s.Tip()) && ConnectNode(s.ledger, n).Some?
    ensures var c := ConnectTxs(s.ledger.coins, n.block.txs, n.height);
      && c.Some? && |c.value.stxos| == CountSpentOutputs(n.block.txs)
      && n.block.prev == s.Tip().Hash()
      && Path(n) == s.best + [n]
      && Consistent(Extended(s, n))
      && Extended(s, n).ledger == Ledger(c.value.coins, s.ledger.journal[n.Hash() := c.value.stxos])
      && Extended(s, n).snapshot ==
        BestState(n.Hash(), n.height, |n.block.txs|, s.snapshot.totalTxns + |n.block.txs|, PastMedianTime(n))
  {
    hide *;
    ConsistentFacts(s);
    TreeFacts(s);
    NodeFacts(s, n);
    ConnectNodeIs(s.ledger, n);
    ConnectCounts(s.ledger.coins, n.block.txs, n.height);
    PathUnfold(n);
    ReplayUnfold(s.best, n);
    var t := Extended(s, n);
    ExtendedIs(s, n);
    TreeKeep(s, t);
    ConsistentIs(t);
    SnapshotIs(s.best);
    SnapshotIs(t.best);
    TotalTxnsSnoc(s.best, n);
  }

  lemma ConnectNodeIs(l: Ledger, n: BlockNode)
    ensures var c := ConnectTxs(l.coins, n.block.txs, n.height);
      ConnectAny(l, n) == if c.Some? then Some(Ledger(c.value.coins, l.journal[n.Hash() := c.value.stxos])) else None
    ensures ConnectNode(l, n) == if KeepsUnspent(l.coins, n.block.txs) then ConnectAny(l, n) else None
  {
  }

  lemma ExtendedIs(s: ChainState, n: BlockNode)
    requires ConnectNode(s.ledger, n).Some?
    ensures Extended(s, n) ==
      ChainState(s.index, s.status, s.best + [n], ConnectNode(s.ledger, n).value, SnapshotOf(s.best + [n]))
  {
  }

  // ---- work lists

  ghost function Reversed(nodes: seq<BlockNode>): (r: seq<BlockNode>)
    ensures |r| == |nodes|
    ensures forall i :: 0 <= i < |nodes| ==> r[i] == nodes[|nodes| - 1 - i]
  {
    seq(|nodes|, i requires 0 <= i < |nodes| => nodes[|nodes| - 1 - i])
  }

  /** The node is a child of the base for the first, of the one before for the rest. */
  ghost predicate Attaches(base: BlockNode, nodes: seq<BlockNode>) {
    && (nodes != [] ==> nodes[0].parent == Some(base))
    && forall i :: 0 < i < |nodes| ==> nodes[i].parent == Some(nodes[i - 1])
  }

  /** The lists for dropping everything above height f and attaching nodes there. */
  ghost predicate Planned(s: ChainState, f: nat, detach: seq<BlockNode>, attach: seq<BlockNode>) {
    && Consistent(s)
    && f < |s.best|
    && detach == Reversed(s.best[f + 1..])
    && Attaches(s.best[f], attach)
    && DistinctHashes(attach)
    && Replay(s.best[..f + 1]).Some?
    && (forall x :: x in attach ==> s.Has(x) && x.Hash() in s.status)
    && (forall i :: 0 <= i < |attach| && s.status[attach[i].Hash()].KnownValid() ==>
          Replay(s.best[..f + 1] + attach[..i + 1]).Some?)
  }

  /** The error a dry run ends in. */
  ghost function Verdicts(c: DryRun): Option<Error> {
    match c
    case Passed(_, _) => None
    case Refused(_) => Some(ConnectRule)
    case Missing(_) => Some(AssertionFailed)
  }

  lemma VerdictsOf(c: DryRun)
    ensures c.Passed? ==> Verdicts(c) == None
    ensures c.Refused? ==> Verdicts(c) == Some(ConnectRule)
    ensures c.Missing? ==> Verdicts(c) == Some(AssertionFailed)
  {
  }

  lemma CheckConnectIs(r: Rules, l: Ledger, n: BlockNode)
    ensures CheckConnect(r, l, n) <==>
      r.connect(n, l.coins) && ConnectTxs(l.coins, n.block.txs, n.height).Some? && KeepsUnspent(l.coins, n.block.txs)
  {
  }

  lemma MarkNone(status: Statuses, flag: Flag)
    ensures Mark(status, [], flag) == status
    ensures forall nodes: seq<BlockNode> :: nodes[..0] == []
  {
  }

  lemma MarkNext(status: Statuses, nodes: seq<BlockNode>, n: BlockNode, flag: Flag)
    requires n.Hash() in status
    ensures n.Hash() in Mark(status, nodes, flag)
    ensures MarkOne(Mark(status, nodes, flag), n, flag) == Mark(status, nodes + [n], flag)
  {
    HashSetSnoc(nodes, n);
  }

  /** One round of undoing a chain on a view, with the journal of the whole chain. */
  lemma UndoStep(path: seq<BlockNode>, k: nat)
    requires 1 < k <= |path| && Replay(path).Some? && DistinctHashes(path) && Replay(path[..k]).Some?
    ensures var n := path[k - 1];
      && n.Hash() in Replay(path).value.journal
      && Replay(path[..k - 1]).Some?
      && DisconnectTxs(Replay(path[..k]).value.coins, n.block.txs, n.height, Replay(path).value.journal[n.Hash()])
           == Some(Replay(path[..k - 1]).value.coins)
  {
    hide Replay, DisconnectTxs;
    var p := path[..k];
    assert DistinctHashes(p) by { assert forall i :: 0 <= i < k ==> p[i] == path[i]; }
    JournalStable(path, k);
    DisconnectReplay(p);
    assert p[..k - 1] == path[..k - 1];
  }

  /** What the plan gives the code's own checks on the lists. */
  lemma PlannedFacts(s: ChainState, f: nat, detach: seq<BlockNode>, attach: seq<BlockNode>)
    requires Planned(s, f, detach, attach)
    ensures Consistent(s) && f < |s.best| && Replay(s.best[..f + 1]).Some? && detach == Reversed(s.best[f + 1..])
    ensures DistinctHashes(attach)
    ensures forall x :: x in attach ==> s.Has(x) && x.Hash() in s.status
    ensures detach != [] ==> detach[0] == s.Tip()
    ensures forall i :: 0 <= i < |detach| ==> detach[i].parent.Some?
    ensures detach != [] ==> detach[|detach| - 1].parent == Some(s.best[f])
    ensures attach != [] ==> attach[0].parent == Some(s.best[f])
    ensures forall i :: 0 < i < |attach| ==> attach[i].parent == Some(attach[i - 1])
    ensures |detach| == |s.best| - 1 - f
    ensures forall i :: 0 <= i < |attach| && s.status[attach[i].Hash()].KnownValid() ==>
      Replay(s.best[..f + 1] + attach[..i + 1]).Some?
  {
    hide *;
    PlannedParts(s, f, detach, attach);
    ConsistentFacts(s);
    TreeFacts(s);
    BranchParents(s);
    TipIs(s);
    forall i | 0 <= i < |detach|
      ensures detach[i].parent == Some(s.best[|s.best| - 2 - i])
    {
      assert detach[i] == s.best[|s.best| - 1 - i];
    }
  }

  lemma PlannedParts(s: ChainState, f: nat, detach: seq<BlockNode>, attach: seq<BlockNode>)
    requires Planned(s, f, detach, attach)
    ensures Consistent(s) && f < |s.best| && Replay(s.best[..f + 1]).Some? && detach == Reversed(s.best[f + 1..])
    ensures DistinctHashes(attach)
    ensures forall x :: x in attach ==> s.Has(x) && x.Hash() in s.status
    ensures attach != [] ==> attach[0].parent == Some(s.best[f])
    ensures forall i :: 0 < i < |attach| ==> attach[i].parent == Some(attach[i - 1])
    ensures forall i :: 0 <= i < |attach| && s.status[attach[i].Hash()].KnownValid() ==>
      Replay(s.best[..f + 1] + attach[..i + 1]).Some?
  {
    hide Replay, Consistent, DistinctHashes, Reversed;
  }

  lemma BranchParents(s: ChainState)
    requires Tree(s)
    ensures forall i :: 0 < i < |s.best| ==> s.best[i].parent == Some(s.best[i - 1])
  {
    hide *;
    TreeFacts(s);
    PathParents(s.Tip());
  }

  lemma {:induction false} PathParents(n: BlockNode)
    ensures forall i :: 0 < i < |Path(n)| ==> Path(n)[i].parent == Some(Path(n)[i - 1])
  {
    if n.parent.Some? { PathParents(n.parent.value); }
  }

  lemma StatusConsistent(s: ChainState, t: ChainState)
    requires Consistent(s) && t == s.(status := t.status) && t.status.Keys == s.status.Keys
    ensures Consistent(t)
  {
    hide *;
    ConsistentFacts(s);
    SameTree(s, t);
    ConsistentIs(t);
  }

  /** Before the i-th disconnect, the i-th listed node is the tip, and its journal
      entry is still the one loaded for it. */
  lemma DetachRound(s: ChainState, t: ChainState, detach: seq<BlockNode>, f: nat, i: nat)
    requires Consistent(s) && Consistent(t) && f < |s.best| && detach == Reversed(s.best[f + 1..])
    requires i < |detach| && t.best == s.best[..|s.best| - i]
    ensures |t.best| > 1 && detach[i] == t.Tip()
    ensures detach[i].Hash() in t.ledger.journal && detach[i].Hash() in s.ledger.journal
    ensures t.ledger.journal[detach[i].Hash()] == s.ledger.journal[detach[i].Hash()]
    ensures t.best[..|t.best| - 1] == s.best[..|s.best| - (i + 1)]
  {
    hide Replay, Tree, SnapshotOf, DistinctHashes;
    BranchDistinct(s);
    JournalStable(s.best, |s.best| - i);
  }

  /** Before the j-th connect, the j-th listed node is a child of the tip and can
      be connected, because the dry run passed. */
  lemma AttachRound(s: ChainState, t: ChainState, detach: seq<BlockNode>, attach: seq<BlockNode>, f: nat, j: nat)
    requires Planned(s, f, detach, attach) && Consistent(t) && t.index == s.index
    requires j < |attach| && t.best == s.best[..f + 1] + attach[..j]
    requires Replay(s.best[..f + 1] + attach).Some?
    ensures t.Has(attach[j]) && |t.best| > 0 && attach[j].parent == Some(t.Tip())
    ensures ConnectNode(t.ledger, attach[j]).Some?
    ensures t.best + [attach[j]] == s.best[..f + 1] + attach[..j + 1]
  {
    hide *;
    PlannedAt(s, f, detach, attach, j);
    ConsistentFacts(t);
    SameHas(s, t, attach[j]);
    NextConnects(s.best[..f + 1], attach, j, t.best, t.ledger);
    TipIs(t);
  }

  lemma NextConnects(base: seq<BlockNode>, attach: seq<BlockNode>, j: nat, mid: seq<BlockNode>, l: Ledger)
    requires |base| > 0 && j < |attach| && mid == base + attach[..j]
    requires Replay(base + attach).Some? && Replay(mid) == Some(l)
    ensures ConnectNode(l, attach[j]).Some?
    ensures mid + [attach[j]] == base + attach[..j + 1]
    ensures mid[|mid| - 1] == if j == 0 then base[|base| - 1] else attach[j - 1]
  {
    hide *;
    AttachPieces(base, attach, j, mid, base + attach);
    ReplayNext(base + attach, |mid|, mid, attach[j], l);
  }

  lemma ReplayNext(whole: seq<BlockNode>, k: nat, mid: seq<BlockNode>, n: BlockNode, l: Ledger)
    requires 0 < k < |whole| && mid == whole[..k] && n == whole[k] && Replay(whole).Some? && Replay(mid) == Some(l)
    ensures ConnectNode(l, n).Some?
  {
    hide *;
    ReplayPrefix(whole, k + 1);
    assert whole[..k + 1] == mid + [n];
    ReplayUnfold(mid, n);
  }

  lemma PlannedAt(s: ChainState, f: nat, detach: seq<BlockNode>, attach: seq<BlockNode>, j: nat)
    requires Planned(s, f, detach, attach) && j < |attach|
    ensures f < |s.best| && s.Has(attach[j])
    ensures attach[j].parent == Some(if j == 0 then s.best[f] else attach[j - 1])
  {
    hide Replay, Consistent, DistinctHashes, Reversed;
  }

  lemma AttachPieces(base: seq<BlockNode>, attach: seq<BlockNode>, j: nat, mid: seq<BlockNode>, whole: seq<BlockNode>)
    requires |base| > 0 && j < |attach| && mid == base + attach[..j] && whole == base + attach
    ensures |mid| == |base| + j < |whole| && whole[..|mid|] == mid && whole[|mid|] == attach[j]
    ensures mid + [attach[j]] == base + attach[..j + 1]
    ensures mid[|mid| - 1] == if j == 0 then base[|base| - 1] else attach[j - 1]
  {
  }

  // ---- collecting the work lists

  /** Nodes above the tip's height are all to attach. */
  lemma {:induction false} AttachAbove(s: ChainState, n: BlockNode, h: nat)
    requires Tree(s) && s.Has(n) && h == |s.best| - 1 <= n.height
    ensures Chained(n) && s.Has(At(n, h)) && At(n, h).height == h
    ensures |Attach(s.best, n)| == n.height - h + |Attach(s.best, At(n, h))|
  {
    hide *;
    NodeFacts(s, n);
    TreeFacts(s);
    AtUnfold(n, h);
    if h < n.height {
      AttachUnfold(s.best, n);
      AttachAbove(s, n.parent.value, h);
    }
  }

  lemma AtUnfold(n: BlockNode, h: nat)
    requires Chained(n) && h <= n.height
    ensures At(n, h) == if n.height == h then n else At(n.parent.value, h)
    ensures h < n.height ==> n.parent.Some? && Chained(n.parent.value)
  {
  }

  /** The fork is the one node on the way down with nothing left to attach. */
  lemma AttachFork(s: ChainState, n: BlockNode, fork: BlockNode)
    requires Tree(s) && s.Has(n) && fork in s.best && fork.height == n.height - |Attach(s.best, n)|
    ensures n == fork <==> Attach(s.best, n) == []
  {
    hide *;
    TreeFacts(s);
    NodeFacts(s, n);
    AttachUnfold(s.best, n);
    if n !in s.best { AttachLast(s, n); }
  }

  lemma AttachDown(s: ChainState, n: BlockNode, fork: BlockNode)
    requires Tree(s) && s.Has(n) && fork in s.best && n != fork && fork.height == n.height - |Attach(s.best, n)|
    ensures n.parent.Some? && s.Has(n.parent.value) && n.height == n.parent.value.height + 1
    ensures Attach(s.best, n) == Attach(s.best, n.parent.value) + [n]
    ensures n.parent.value == fork <==> Attach(s.best, n.parent.value) == []
  {
    hide *;
    AttachFork(s, n, fork);
    NodeFacts(s, n);
    AttachUnfold(s.best, n);
    AttachFork(s, n.parent.value, fork);
  }

  lemma ValidSuffixUnfold(status: Statuses, nodes: seq<BlockNode>, n: BlockNode)
    requires n.Hash() in status && forall x :: x in nodes ==> x.Hash() in status
    ensures forall x :: x in nodes + [n] ==> x.Hash() in status
    ensures ValidSuffix(status, nodes + [n]) ==
      if status[n.Hash()].KnownInvalid() then [] else ValidSuffix(status, nodes) + [n]
  {
    assert (nodes + [n])[..|nodes|] == nodes;
  }

  /** The walk down has reached a node and collected the nodes above it. */
  ghost predicate Collected(s: ChainState, node: BlockNode, fork: BlockNode, n: BlockNode, attach: seq<BlockNode>) {
    && s.Has(n) && fork.height == n.height - |Attach(s.best, n)|
    && Attach(s.best, node) == Attach(s.best, n) + attach
    && (forall x :: x in Attach(s.best, node) ==> x.Hash() in s.status)
    && (forall x :: x in Attach(s.best, n) ==> x.Hash() in s.status)
    && ValidSuffix(s.status, Attach(s.best, node)) == ValidSuffix(s.status, Attach(s.best, n)) + attach
  }

  lemma CollectStart(s: ChainState, node: BlockNode, fork: BlockNode)
    requires Tree(s) && s.Has(node) && fork.height == node.height - |Attach(s.best, node)|
    ensures Collected(s, node, fork, node, [])
  {
    hide Tree, Attach, ValidSuffix;
    AttachIndexed(s, node);
    assert Attach(s.best, node) + [] == Attach(s.best, node);
  }

  lemma CollectStep(s: ChainState, node: BlockNode, fork: BlockNode, n: BlockNode, attach: seq<BlockNode>)
    requires Tree(s) && fork in s.best && Collected(s, node, fork, n, attach) && n != fork
    ensures n.Hash() in s.status && n.parent.Some? && n.height == n.parent.value.height + 1
    ensures !s.status[n.Hash()].KnownInvalid() ==> Collected(s, node, fork, n.parent.value, [n] + attach)
  {
    hide *;
    CollectedParts(s, node, fork, n, attach);
    NodeFacts(s, n);
    AttachDown(s, n, fork);
    var p := n.parent.value;
    var rest := Attach(s.best, p);
    AttachIndexed(s, p);
    ValidSuffixUnfold(s.status, rest, n);
    if !s.status[n.Hash()].KnownInvalid() {
      var valid := ValidSuffix(s.status, rest);
      Regroup(rest, n, attach);
      Regroup(valid, n, attach);
      CollectedIs(s, node, fork, p, [n] + attach);
    }
  }

  lemma Regroup(a: seq<BlockNode>, n: BlockNode, b: seq<BlockNode>)
    ensures a + [n] + b == a + ([n] + b)
  {
  }

  lemma CollectedParts(s: ChainState, node: BlockNode, fork: BlockNode, n: BlockNode, attach: seq<BlockNode>)
    requires Collected(s, node, fork, n, attach)
    ensures s.Has(n) && fork.height == n.height - |Attach(s.best, n)|
    ensures Attach(s.best, node) == Attach(s.best, n) + attach
    ensures forall x :: x in Attach(s.best, node) ==> x.Hash() in s.status
    ensures forall x :: x in Attach(s.best, n) ==> x.Hash() in s.status
    ensures ValidSuffix(s.status, Attach(s.best, node)) == ValidSuffix(s.status, Attach(s.best, n)) + attach
  {
    hide Attach, ValidSuffix;
  }

  lemma CollectedIs(s: ChainState, node: BlockNode, fork: BlockNode, n: BlockNode, attach: seq<BlockNode>)
    requires s.Has(n) && fork.height == n.height - |Attach(s.best, n)|
    requires Attach(s.best, node) == Attach(s.best, n) + attach
    requires forall x :: x in Attach(s.best, node) ==> x.Hash() in s.status
    requires forall x :: x in Attach(s.best, n) ==> x.Hash() in s.status
    requires ValidSuffix(s.status, Attach(s.best, node)) == ValidSuffix(s.status, Attach(s.best, n)) + attach
    ensures Collected(s, node, fork, n, attach)
  {
    hide Attach, ValidSuffix;
  }

  lemma CollectEnd(s: ChainState, node: BlockNode, fork: BlockNode, n: BlockNode, attach: seq<BlockNode>)
    requires Tree(s) && fork in s.best && Collected(s, node, fork, n, attach)
    requires n == fork || (n.Hash() in s.status && s.status[n.Hash()].KnownInvalid())
    ensures forall x :: x in Attach(s.best, node) ==> x.Hash() in s.status
    ensures attach == ValidSuffix(s.status, Attach(s.best, node))
    ensures forall x :: x in attach ==> x.Hash() in s.status
    ensures n == fork <==> |attach| == |Attach(s.best, node)|
  {
    hide Tree, Attach;
    NodeFacts(s, n);
    AttachFork(s, n, fork);
    if n != fork {
      AttachDown(s, n, fork);
      AttachIndexed(s, n.parent.value);
      ValidSuffixUnfold(s.status, Attach(s.best, n.parent.value), n);
    }
  }

  lemma SoundConsistent(s: ChainState)
    requires Sound(s)
    ensures Consistent(s)
  {
    hide *;
    SoundFacts(s);
    ConsistentIs(s);
  }

  /** Two empty lists: a plan that changes nothing. */
  lemma NothingPlanned(r: Rules, s: ChainState, t: ChainState, f: nat)
    requires Consistent(s) && t == s.(status := t.status) && t.status.Keys == s.status.Keys && f == |s.best| - 1
    ensures Planned(t, f, [], []) && f < |t.best| && Replay(t.best[..f + 1]).Some?
    ensures Reorganize(r, t, f, []) == Outcome(t, Done(true))
  {
    hide *;
    StatusConsistent(s, t);
    ConsistentFacts(t);
    assert t.best[..f + 1] == t.best == t.best[..f + 1] + [];
    assert t.best[f + 1..] == [];
    DistinctHashesIs([]);
    PlannedIs(t, f, [], []);
    CheckUnfold(r, Replay(t.best[..f + 1]).value, t.status, []);
    ReorganizeUnfold(r, t, f, []);
  }

  lemma PlannedIs(s: ChainState, f: nat, detach: seq<BlockNode>, attach: seq<BlockNode>)
    requires Consistent(s) && f < |s.best| && detach == Reversed(s.best[f + 1..])
    requires attach != [] ==> attach[0].parent == Some(s.best[f])
    requires forall i :: 0 < i < |attach| ==> attach[i].parent == Some(attach[i - 1])
    requires DistinctHashes(attach) && Replay(s.best[..f + 1]).Some?
    requires forall x :: x in attach ==> s.Has(x) && x.Hash() in s.status
    requires forall i :: 0 <= i < |attach| && s.status[attach[i].Hash()].KnownValid() ==>
      Replay(s.best[..f + 1] + attach[..i + 1]).Some?
    ensures Planned(s, f, detach, attach)
  {
    hide Replay, Consistent, DistinctHashes, Reversed;
  }

  /** The nodes off the branch, and the branch above the fork reversed, are a plan. */
  lemma PlannedTo(s: ChainState, n: BlockNode, f: nat, detach: seq<BlockNode>)
    requires Sound(s) && s.Has(n) && f == n.height - |Attach(s.best, n)| < |s.best|
    requires detach == Reversed(s.best[f + 1..])
    ensures Planned(s, f, detach, Attach(s.best, n))
  {
    hide *;
    SoundFacts(s);
    SoundConsistent(s);
    var attach := Attach(s.best, n);
    AttachSplits(s, n);
    AttachIndexed(s, n);
    AttachOffBranch(s, n);
    AttachReplays(s, n);
    ReplayPrefix(s.best, f + 1);
    PathParents(n);
    var base := s.best[..f + 1];
    assert base[|base| - 1] == s.best[f];
    AttachParents(base, attach, Path(n));
    PlannedIs(s, f, detach, attach);
  }

  /** Lists, and the statuses left with them, that amount to reorganizing to a node. */
  ghost predicate PlannedFor(r: Rules, s: ChainState, t: ChainState, n: BlockNode, f: nat,
    detach: seq<BlockNode>, attach: seq<BlockNode>)
    requires Tree(s) && Replay(s.best).Some? && s.Has(n) && n.parent.Some?
  {
    && t == s.(status := t.status)
    && Planned(t, f, detach, attach)
    && Reorganize(r, t, f, attach) == ReorganizeTo(r, s, n)
  }

  lemma PlannedParentInvalid(r: Rules, s: ChainState, n: BlockNode)
    requires Sound(s) && s.Has(n) && n.parent.Some? && n !in s.best && n.Hash() in s.status
    requires s.KnownInvalid(n.parent.value)
    ensures Tree(s) && Replay(s.best).Some?
    ensures PlannedFor(r, s, s.(status := MarkOne(s.status, n, InvalidAncestor)), n, |s.best| - 1, [], [])
  {
    hide *;
    SoundFacts(s);
    AttachSplits(s, n);
    AttachIndexed(s, n);
    var attach := Attach(s.best, n);
    ReplayPrefix(s.best, n.height - |attach| + 1);
    ReorganizeToUnfold(r, s, n, attach, n.height - |attach|);
    MarkOneFacts(s.status, n, InvalidAncestor);
    PlannedNothing(r, s, MarkOne(s.status, n, InvalidAncestor), n);
  }

  lemma PlannedChainInvalid(r: Rules, s: ChainState, n: BlockNode, attach: seq<BlockNode>, valid: seq<BlockNode>)
    requires Sound(s) && s.Has(n) && n.parent.Some? && n !in s.best && n.Hash() in s.status
    requires !s.KnownInvalid(n.parent.value)
    requires attach == Attach(s.best, n) && forall x :: x in attach ==> x.Hash() in s.status
    requires valid == ValidSuffix(s.status, attach) && |valid| < |attach|
    ensures Tree(s) && Replay(s.best).Some?
    ensures PlannedFor(r, s, s.(status := Mark(s.status, valid, InvalidAncestor)), n, |s.best| - 1, [], [])
  {
    hide *;
    SoundFacts(s);
    AttachSplits(s, n);
    ReplayPrefix(s.best, n.height - |attach| + 1);
    ReorganizeToUnfold(r, s, n, attach, n.height - |attach|);
    MarkFacts(s.status, valid, InvalidAncestor);
    PlannedNothing(r, s, Mark(s.status, valid, InvalidAncestor), n);
  }

  lemma PlannedNothing(r: Rules, s: ChainState, after: Statuses, n: BlockNode)
    requires Sound(s) && Tree(s) && Replay(s.best).Some? && s.Has(n) && n.parent.Some? && after.Keys == s.status.Keys
    requires ReorganizeTo(r, s, n) == Outcome(s.(status := after), Done(true))
    ensures PlannedFor(r, s, s.(status := after), n, |s.best| - 1, [], [])
  {
    hide *;
    var t := s.(status := after);
    SoundConsistent(s);
    TreeFacts(s);
    NothingPlanned(r, s, t, |s.best| - 1);
    PlannedForIs(r, s, t, n, |s.best| - 1, [], []);
  }

  /** No node to attach is known to be invalid. */
  lemma PlannedAll(r: Rules, s: ChainState, n: BlockNode, f: nat, detach: seq<BlockNode>, attach: seq<BlockNode>)
    requires Sound(s) && s.Has(n) && n.parent.Some? && n !in s.best && n.Hash() in s.status
    requires !s.KnownInvalid(n.parent.value)
    requires forall x :: x in Attach(s.best, n) ==> x.Hash() in s.status
    requires attach == ValidSuffix(s.status, Attach(s.best, n)) && |attach| == |Attach(s.best, n)|
    requires f == n.height - |attach| < |s.best| && detach == Reversed(s.best[f + 1..])
    ensures Tree(s) && Replay(s.best).Some? && PlannedFor(r, s, s, n, f, detach, attach)
  {
    hide *;
    SoundFacts(s);
    ReplayPrefix(s.best, f + 1);
    assert attach == Attach(s.best, n);
    ReorganizeToUnfold(r, s, n, attach, f);
    PlannedTo(s, n, f, detach);
    PlannedForIs(r, s, s, n, f, detach, attach);
  }

  lemma PlannedForIs(r: Rules, s: ChainState, t: ChainState, n: BlockNode, f: nat,
    detach: seq<BlockNode>, attach: seq<BlockNode>)
    requires Tree(s) && Replay(s.best).Some? && s.Has(n) && n.parent.Some?
    requires t == s.(status := t.status) && Planned(t, f, detach, attach)
    requires f < |t.best| && Replay(t.best[..f + 1]).Some? && forall x :: x in attach ==> x.Hash() in t.status
    requires Reorganize(r, t, f, attach) == ReorganizeTo(r, s, n)
    ensures PlannedFor(r, s, t, n, f, detach, attach)
  {
    hide Tree, Replay, Planned, Reorganize, ReorganizeTo;
  }

  lemma AttachParents(base: seq<BlockNode>, attach: seq<BlockNode>, path: seq<BlockNode>)
    requires |base| > 0 && path == base + attach
    requires forall i :: 0 < i < |path| ==> path[i].parent == Some(path[i - 1])
    ensures attach != [] ==> attach[0].parent == Some(base[|base| - 1])
    ensures forall i :: 0 < i < |attach| ==> attach[i].parent == Some(attach[i - 1])
  {
    if attach != [] {
      var k := |base|;
      assert path[k] == attach[0] && path[k - 1] == base[k - 1];
    }
    forall i | 0 < i < |attach|
      ensures attach[i].parent == Some(attach[i - 1])
    {
      var k := |base| + i;
      assert path[k] == attach[i];
      assert path[k].parent == Some(path[k - 1]);
    }
  }

  /** How an outcome comes back to the caller. */
  ghost predicate Reports(result: Result, isMainChain: bool, err: Option<Error>) {
    match result
    case Done(main) => err.None? && isMainChain == main
    case Failed(e) => err == Some(e) && !isMainChain
  }

  lemma ReportsDone(main: bool)
    ensures Reports(Done(main), main, None)
  {
  }

  lemma ReportsFailed(e: Error)
    ensures Reports(Failed(e), false, Some(e))
  {
  }

  lemma PlannedForParts(r: Rules, s: ChainState, t: ChainState, n: BlockNode, f: nat,
    detach: seq<BlockNode>, attach: seq<BlockNode>)
    requires Tree(s) && Replay(s.best).Some? && s.Has(n) && n.parent.Some?
    requires PlannedFor(r, s, t, n, f, detach, attach)
    ensures t == s.(status := t.status) && Planned(t, f, detach, attach)
    ensures f < |t.best| && Replay(t.best[..f + 1]).Some? && forall x :: x in attach ==> x.Hash() in t.status
    ensures Reorganize(r, t, f, attach) == ReorganizeTo(r, s, n)
  {
    hide Tree, Replay, Reorganize, ReorganizeTo, Consistent, Reversed, DistinctHashes;
  }

  lemma ReorganizeReports(r: Rules, s: ChainState, n: BlockNode, err: Option<Error>)
    requires Sound(s) && s.Has(n) && n.parent.Some? && n !in s.best && Tree(s) && Replay(s.best).Some?
    requires var o := ReorganizeTo(r, s, n); err == if o.result.Failed? then Some(o.result.error) else None
    ensures Reports(ReorganizeTo(r, s, n).result, err.None?, err)
  {
    hide Tree, Replay, ReorganizeTo, Sound, KeepsInvalid, ChangesOnly, Tainted, Attach, Path;
    ReorganizeToSound(r, s, n);
  }

  /** A block on top of the tip that is validated, or passes the checks, connects. */
  lemma ExtendReady(r: Rules, s: ChainState, n: BlockNode)
    requires Sound(s) && s.Has(n) && n.parent.Some? && n !in s.best
    requires |s.best| > 0 && n.block.prev == s.Tip().Hash()
    ensures n.parent == Some(s.Tip())
    ensures s.KnownValid(n) ==> ConnectNode(s.ledger, n).Some?
    ensures CheckConnect(r, s.ledger, n) ==> ConnectNode(s.ledger, n).Some?
  {
    hide *;
    SoundFacts(s);
    TreeFacts(s);
    NodeFacts(s, n);
    SameHash(s, n.parent.value, s.Tip());
    PathUnfold(n);
    ReplayUnfold(s.best, n);
    StatusAt(s, n);
    if s.KnownValid(n) { ValidReplaysAt(s, n); }
    CheckConnectFacts(r, s.ledger, n);
  }

  /** Setting the flag before connecting or after it comes to the same. */
  lemma MarkValidTwice(s: ChainState, t: ChainState, n: BlockNode)
    requires Consistent(s) && n.Hash() in s.status && t == s.(status := t.status)
    requires t.status == s.status || t.status == MarkOne(s.status, n, Valid)
    ensures Consistent(t) && t.status.Keys == s.status.Keys
    ensures forall x :: t.Has(x) <==> s.Has(x)
  {
    hide *;
    MarkOneFacts(s.status, n, Valid);
    StatusConsistent(s, t);
    HasSame(s, t);
  }

  // ---- flags set and taken off one after another

  lemma FlagsFailed(status: Statuses, n: BlockNode)
    requires n.Hash() in status
    ensures var set1 := MarkOne(status, n, ValidateFailed);
      && n.Hash() in set1
      && set1[n.Hash() := ClearFlag(set1[n.Hash()], Valid)] == status[n.Hash() := MarkedFailed(status[n.Hash()])]
  {
  }

  lemma FlagsCondemned(status: Statuses, n: BlockNode)
    requires n.Hash() in status && !status[n.Hash()].KnownInvalid()
    ensures var set1 := MarkOne(status, n, InvalidAncestor);
      && n.Hash() in set1
      && set1[n.Hash() := ClearFlag(set1[n.Hash()], Valid)] == status[n.Hash() := Condemned(status[n.Hash()])]
  {
  }

  lemma FlagsCleared(status: Statuses, n: BlockNode)
    requires n.Hash() in status
    ensures var unset := status[n.Hash() := ClearFlag(status[n.Hash()], InvalidAncestor)];
      unset[n.Hash() := ClearFlag(unset[n.Hash()], ValidateFailed)] == status[n.Hash() := Cleared(status[n.Hash()])]
  {
  }

  // ---- invalidating a block of the best chain

  lemma CondemnStart(s: ChainState, first: Statuses)
    requires |s.best| > 0
    ensures Updated(first, HashSet(s.best[|s.best|..]), Condemned) == first
  {
  }

  /** The next block down is not known to be invalid, and not reached before. */
  lemma CondemnStep(s: ChainState, first: Statuses, node: BlockNode, n: BlockNode)
    requires Sound(s) && node in s.best && n.height < |s.best| && n == s.best[n.height] && n != node
    requires first.Keys == s.status.Keys && forall h :: h in s.status && h != node.Hash() ==> first[h] == s.status[h]
    ensures var now := Updated(first, HashSet(s.best[n.height + 1..]), Condemned);
      && n.Hash() in now && !now[n.Hash()].KnownInvalid()
      && Updated(first, HashSet(s.best[n.height..]), Condemned) == now[n.Hash() := Condemned(now[n.Hash()])]
  {
    hide *;
    SoundFacts(s);
    TreeFacts(s);
    NodeFacts(s, n);
    StatusAt(s, n);
    SameHash(s, n, node);
    var above := s.best[n.height + 1..];
    forall y | y in above
      ensures y.Hash() != n.Hash()
    {
      var j :| 0 <= j < |above| && above[j] == y;
      assert y == s.best[n.height + 1 + j];
      SameHash(s, y, n);
    }
    HashNotIn(above, n);
    HashSetDown(s.best, n.height);
    UpdatedFacts(first, HashSet(above), Condemned);
    FailedFacts();
    UpdatedMore(first, HashSet(above), Condemned, n.Hash());
  }

  lemma SameLeaves(s: ChainState, t: ChainState, tips: seq<BlockNode>)
    requires t.index == s.index && t.best == s.best && forall x :: x in tips <==> OffLeaf(t, x)
    ensures forall x :: x in tips <==> OffLeaf(s, x)
    ensures forall x :: x in tips ==> s.Has(x)
  {
  }

  /** The list for taking a block and all above it off the chain. */
  lemma TruncatedPlan(r: Rules, s: ChainState, t: ChainState, n: BlockNode, detach: seq<BlockNode>)
    requires Sound(s) && n in s.best && n.parent.Some? && n.Hash() in s.status && 0 < n.height < |s.best|
    requires s.best[n.height] == n
    requires t == s.(status := TruncatedStatus(s, n))
    requires detach == Reversed(s.best[n.height + 1..]) + [n]
    ensures Planned(t, n.height - 1, detach, [])
    ensures Replay(s.best).Some? && Replay(t.best[..n.height - 1 + 1]).Some?
    ensures Reorganize(r, t, n.height - 1, []) == Outcome(Truncated(s, n), Done(true))
  {
    hide *;
    SoundFacts(s);
    SoundConsistent(s);
    TruncatedStatusIs(s, n);
    StatusConsistent(s, t);
    TruncatedIs(s, n);
    DistinctHashesIs([]);
    var base := t.best[..n.height];
    assert detach == Reversed(t.best[n.height..]);
    PlannedIs(t, n.height - 1, detach, []);
    CheckUnfold(r, Replay(base).value, t.status, []);
    ReorganizeUnfold(r, t, n.height - 1, []);
    assert base + [] == base;
  }

  /** The chain moved to a best tip. */
  ghost predicate MovedToBest(r: Rules, s: ChainState, t: ChainState, err: Option<Error>, tip: BlockNode) {
    && |s.best| > 0 && IsBestTip(s, tip)
    && if tip == s.Tip() then t == s && err == None
       else
         && Tree(s) && Replay(s.best).Some? && tip.parent.Some?
         && var o := ReorganizeTo(r, s, tip);
            t == o.state && err == ErrorOf(o.result)
  }

  lemma MovedToBestIs(r: Rules, s: ChainState, t: ChainState, err: Option<Error>, tip: BlockNode)
    requires |s.best| > 0 && IsBestTip(s, tip) && Tree(s) && Replay(s.best).Some?
    requires tip == s.Tip() ==> t == s && err == None
    requires tip != s.Tip() ==> tip.parent.Some? && var o := ReorganizeTo(r, s, tip);
      t == o.state && err == if o.result.Failed? then Some(o.result.error) else None
    ensures MovedToBest(r, s, t, err, tip)
  {
    hide Tree, Replay, IsBestTip, ReorganizeTo;
  }

  lemma TipsIndexed(s: ChainState, tips: seq<BlockNode>)
    requires Tree(s) && |tips| > 0 && tips[|tips| - 1] == s.Tip()
    requires forall x :: x in tips[..|tips| - 1] <==> OffLeaf(s, x)
    ensures forall x :: x in tips ==> s.Has(x) && x.Hash() in s.status && IsTip(s, x)
    ensures forall x :: IsTip(s, x) ==> x in tips
  {
    hide Tree, Path;
    TreeFacts(s);
    assert tips == tips[..|tips| - 1] + [s.Tip()];
    NodeFacts(s, s.Tip());
    forall x | x in tips[..|tips| - 1]
      ensures s.Has(x) && x.Hash() in s.status
    {
      assert OffLeaf(s, x);
      NodeFacts(s, x);
    }
  }

  lemma BestTipIs(s: ChainState, tips: seq<BlockNode>, best: BlockNode)
    requires |s.best| > 0 && best in tips
    requires forall x :: x in tips ==> s.Has(x) && x.Hash() in s.status && IsTip(s, x)
    requires forall x :: IsTip(s, x) ==> x in tips
    requires !s.status[best.Hash()].KnownInvalid()
    requires forall x :: x in tips && !s.status[x.Hash()].KnownInvalid() ==> x.workSum <= best.workSum
    ensures IsBestTip(s, best)
  {
    hide OffLeaf;
  }

  /** The cases of InvalidateBlock, put together. */
  lemma InvalidatedIs(r: Rules, s: ChainState, hash: Hash, t: ChainState, err: Option<Error>, tip: BlockNode)
    requires Tree(s) && Replay(s.best).Some? && |s.best| > 0
    requires hash !in s.index ==> t == s && err == Some(BlockNotFound)
    requires hash in s.index ==>
      var n := s.index[hash];
      && n.Hash() in s.status
      && (n.height == 0 ==> t == s && err == Some(GenesisBlock))
      && (n.height > 0 && s.KnownInvalid(n) ==> t == s && err == None)
      && (n.height > 0 && !s.KnownInvalid(n) && n !in s.best ==> t == InvalidatedSide(s, n) && err == None)
      && (n.height > 0 && !s.KnownInvalid(n) && n in s.best ==>
           n.height < |s.best| && MovedToBest(r, Truncated(s, n), t, err, tip))
    ensures Invalidated(r, s, hash, t, err, tip)
  {
    hide Tree, Replay, IsBestTip, Truncated, InvalidatedSide, ReorganizeTo;
    if hash in s.index {
      TreeKeys(s, hash);
      TreeFacts(s);
    }
  }

  // ---- reconsidering a block

  /** Validated blocks pass the dry run as they are. */
  lemma {:induction false} CheckValidated(r: Rules, l: Ledger, status: Statuses, after: Statuses,
      attach: seq<BlockNode>)
    requires forall x :: x in attach ==> x.Hash() in status && x.Hash() in after && after[x.Hash()].KnownValid()
    requires Check(r, l, status, attach).Passed?
    ensures Check(r, l, after, attach) == Passed(after, Check(r, l, status, attach).ledger)
    decreases |attach|
  {
    hide *;
    CheckUnfold(r, l, status, attach);
    CheckUnfold(r, l, after, attach);
    if attach != [] {
      var n, rest := attach[0], attach[1..];
      CheckConnectFacts(r, l, n);
      ConnectNodeAny(l, n);
      var l' := ConnectAny(l, n).value;
      MarkOneFacts(status, n, Valid);
      CheckValidated(r, l', if status[n.Hash()].KnownValid() then status else MarkOne(status, n, Valid), after, rest);
    }
  }

  /** After a dry run that passed, the same lists are still a plan, and lead to the
      same state. */
  lemma PlannedAgain(r: Rules, s: ChainState, t: ChainState, f: nat, detach: seq<BlockNode>, attach: seq<BlockNode>)
    requires Planned(s, f, detach, attach)
    requires f < |s.best| && Replay(s.best[..f + 1]).Some? && forall x :: x in attach ==> x.Hash() in s.status
    requires Check(r, Replay(s.best[..f + 1]).value, s.status, attach).Passed?
    requires t == s.(status := Check(r, Replay(s.best[..f + 1]).value, s.status, attach).status)
    ensures Planned(t, f, detach, attach) && forall x :: x in attach ==> x.Hash() in t.status
    ensures Reorganize(r, t, f, attach) == Reorganize(r, s, f, attach)
  {
    hide *;
    PlannedFacts(s, f, detach, attach);
    var base := s.best[..f + 1];
    var l := Replay(base).value;
    var k := CheckOutcome(r, base, l, s.status, attach);
    VerdictKeys(s.status, t.status, attach, k);
    StatusConsistent(s, t);
    forall x | x in attach
      ensures t.Has(x) && x.Hash() in t.status && t.status[x.Hash()].KnownValid()
    {
      SameHas(s, t, x);
      var i :| 0 <= i < |attach| && attach[i] == x;
      VerdictPassed(s.status, t.status, attach, i);
    }
    forall i | 0 <= i < |attach| && t.status[attach[i].Hash()].KnownValid()
      ensures Replay(base + attach[..i + 1]).Some?
    {
      PrefixReplays(base, attach, i + 1);
    }
    PlannedIs(t, f, detach, attach);
    CheckValidated(r, l, s.status, t.status, attach);
    ReorganizeUnfold(r, s, f, attach);
    ReorganizeUnfold(r, t, f, attach);
  }

  lemma VerdictPassed(before: Statuses, after: Statuses, attach: seq<BlockNode>, i: nat)
    requires Verdict(before, after, attach, |attach|) && i < |attach|
    ensures attach[i].Hash() in after && after[attach[i].Hash()].KnownValid()
  {
  }

  lemma PrefixReplays(base: seq<BlockNode>, attach: seq<BlockNode>, k: nat)
    requires |base| > 0 && k <= |attach| && Replay(base + attach).Some?
    ensures Replay(base + attach[..k]).Some?
  {
    hide *;
    ReplayPrefix(base + attach, |base| + k);
    assert (base + attach)[..|base| + k] == base + attach[..k];
  }

  lemma ReorganizeStates(r: Rules, s: ChainState, f: nat, attach: seq<BlockNode>)
    requires f < |s.best| && Replay(s.best[..f + 1]).Some? && forall x :: x in attach ==> x.Hash() in s.status
    ensures var c := Check(r, Replay(s.best[..f + 1]).value, s.status, attach);
      && (c.Passed? <==> Verdicts(c) == None)
      && (c.Passed? <==> Reorganize(r, s, f, attach).result.Done?)
      && (!c.Passed? ==> Reorganize(r, s, f, attach).state == s.(status := c.status))
  {
    hide Check, Replay, SnapshotOf;
  }

  /** The cases of ReconsiderBlock, put together. */
  lemma ReconsideredToIs(r: Rules, s: ChainState, hash: Hash, t: ChainState, err: Option<Error>, tip: BlockNode)
    requires Tree(s) && Replay(s.best).Some? && |s.best| > 0
    requires hash !in s.index ==> t == s && err == Some(BlockNotFound)
    requires hash in s.index ==>
      var n := s.index[hash];
      && err == None
      && n.Hash() in s.status
      && (s.KnownValid(n) ==> t == s)
      && (!s.KnownValid(n) ==> OffLeaf(Reconsidered(s, n), tip) && n in Path(tip))
      && (!s.KnownValid(n) && tip.workSum <= s.Tip().workSum ==> t == Reconsidered(s, n))
      && (!s.KnownValid(n) && tip.workSum > s.Tip().workSum ==>
           && Tree(Reconsidered(s, n)) && Replay(Reconsidered(s, n).best).Some? && tip.parent.Some?
           && t == ReorganizeTo(r, Reconsidered(s, n), tip).state)
    ensures ReconsideredTo(r, s, hash, t, err, tip)
  {
    hide Tree, Replay, OffLeaf, Updated, ReorganizeTo, Path;
    if hash in s.index { TreeKeys(s, hash); }
  }

  class Chain {
    const rules: Rules
    var index: map<Hash, BlockNode>
    var status: Statuses
    var bestChain: seq<BlockNode>
    var coins: Coins
    var journal: map<Hash, seq<Coin>>
    var stateSnapshot: BestState

    ghost function State(): ChainState
      reads this
    {
      ChainState(index, status, bestChain, Ledger(coins, journal), stateSnapshot)
    }

    /** createChainState. */
    constructor (rules: Rules, genesis: Block)
      ensures this.rules == rules && State() == Genesis(genesis)
      ensures coins == map[] && journal == map[] && |bestChain| == 1 && Tip().block == genesis
    {
      this.rules := rules;
      var g := NewBlockNode(genesis, None);
      index := map[genesis.hash := g];
      status := map[genesis.hash := Status(true, true, false, false)];
      bestChain := Path(g);
      coins, journal := map[], map[];
      stateSnapshot := BestState(g.Hash(), 0, |genesis.txs|, |genesis.txs|, genesis.timestamp);
      GenesisSnapshot(g);
    }

    function Tip(): BlockNode
      reads this`bestChain
      requires |bestChain| > 0
    {
      bestChain[|bestChain| - 1]
    }

    /** bestChain.Contains: one comparison at the node's own height. */
    predicate Contains(n: BlockNode)
      reads this`bestChain
    {
      n.height < |bestChain| && bestChain[n.height] == n
    }

    method SetStatusFlags(n: BlockNode, flag: Flag)
      requires n.Hash() in status
      modifies this`status
      ensures status == MarkOne(old(status), n, flag)
    {
      status := MarkOne(status, n, flag);
    }

    method UnsetStatusFlags(n: BlockNode, flag: Flag)
      requires n.Hash() in status
      modifies this`status
      ensures status == old(status)[n.Hash() := ClearFlag(old(status)[n.Hash()], flag)]
    {
      status := status[n.Hash() := ClearFlag(status[n.Hash()], flag)];
    }

    /** connectBlock, once the coins are those after the block: the block must
        extend the best chain and come with one coin for each input it spends. */
    method ConnectBlock(node: BlockNode, stxos: seq<Coin>) returns (err: Option<Error>)
      requires |bestChain| > 0
      modifies this`journal, this`bestChain, this`stateSnapshot
      ensures err.Some? <==> node.block.prev != old(Tip()).Hash() || |stxos| != CountSpentOutputs(node.block.txs)
      ensures err.Some? ==> err.value == AssertionFailed && State() == old(State())
      ensures err.None? ==>
        && journal == old(journal)[node.Hash() := stxos]
        && bestChain == Path(node)
        && stateSnapshot == BestState(node.Hash(), node.height, |node.block.txs|,
             old(stateSnapshot).totalTxns + |node.block.txs|, PastMedianTime(node))
    {
      if node.block.prev != Tip().Hash() {
        return Some(AssertionFailed);
      }
      if |stxos| != CountSpentOutputs(node.block.txs) {
        return Some(AssertionFailed);
      }
      var curTotalTxns := stateSnapshot.totalTxns;
      var numTxns := |node.block.txs|;
      var median := CalcPastMedianTime(node);
      journal := journal[node.Hash() := stxos];
      bestChain := Path(node);
      stateSnapshot := BestState(node.Hash(), node.height, numTxns, curTotalTxns + numTxns, median);
      err := None;
    }

    /** disconnectBlock: the node must be the tip; the view replaces the coins. */
    method DisconnectBlock(node: BlockNode, view: Coins) returns (err: Option<Error>)
      requires |bestChain| > 0 && node.parent.Some?
      modifies this`coins, this`journal, this`bestChain, this`stateSnapshot
      ensures err.Some? <==> node.Hash() != old(Tip()).Hash()
      ensures err.Some? ==> err.value == AssertionFailed && State() == old(State())
      ensures err.None? ==>
        var prev := node.parent.value;
        && coins == view
        && journal == old(journal) - {node.Hash()}
        && bestChain == Path(prev)
        && stateSnapshot == BestState(prev.Hash(), prev.height, |prev.block.txs|,
             old(stateSnapshot).totalTxns - |node.block.txs|, PastMedianTime(prev))
    {
      if node.Hash() != Tip().Hash() {
        return Some(AssertionFailed);
      }
      var prevNode := node.parent.value;
      var curTotalTxns := stateSnapshot.totalTxns;
      var newTotalTxns := curTotalTxns - |node.block.txs|;
      var median := CalcPastMedianTime(prevNode);
      coins := view;
      journal := journal - {node.Hash()};
      bestChain := Path(prevNode);
      stateSnapshot := BestState(prevNode.Hash(), prevNode.height, |prevNode.block.txs|, newTotalTxns, median);
      err := None;
    }

    /** One round of the disconnect loop: the tip comes off with its journal entry. */
    method DetachOne(n: BlockNode, stxos: seq<Coin>) returns (err: Option<Error>)
      requires Consistent(State()) && |bestChain| > 1
      requires n == Tip() && n.Hash() in journal && stxos == journal[n.Hash()]
      modifies this`coins, this`journal, this`bestChain, this`stateSnapshot
      ensures err.None? && State() == Detached(old(State())) && Consistent(State())
    {
      hide *;
      ghost var s := State();
      StateIs(s);
      DetachFacts(s);
      DetachedIs(s);
      var view := DisconnectTxs(coins, n.block.txs, n.height, stxos);
      if view.None? {
        err := Some(AssertionFailed);
      } else {
        err := DisconnectBlock(n, view.value);
      }
      StateIs(State());
    }

    /** One round of the connect loop: a child of the tip goes on. */
    method AttachOne(n: BlockNode) returns (err: Option<Error>)
      requires Consistent(State()) && State().Has(n) && |bestChain| > 0
      requires n.parent == Some(Tip()) && ConnectNode(State().ledger, n).Some?
      modifies this`coins, this`journal, this`bestChain, this`stateSnapshot
      ensures err.None? && State() == Extended(old(State()), n) && Consistent(State())
    {
      hide *;
      ghost var s := State();
      StateIs(s);
      ExtendFacts(s, n);
      ExtendedIs(s, n);
      var connected := ConnectTxs(coins, n.block.txs, n.height);
      if connected.None? {
        err := Some(AssertionFailed);
      } else {
        coins := connected.value.coins;
        err := ConnectBlock(n, connected.value.stxos);
      }
      StateIs(State());
    }

    /** The first half of the dry run: blocks come off a scratch view, with the
        journal entries loaded for them. */
    method UndoOnView(detach: seq<BlockNode>, ghost f: nat)
      returns (err: Option<Error>, view: Coins, spent: seq<seq<Coin>>)
      requires Consistent(State()) && f < |bestChain| && detach == Reversed(bestChain[f + 1..])
      ensures err.None? && Replay(bestChain[..f + 1]).Some? && view == Replay(bestChain[..f + 1]).value.coins
      ensures |spent| == |detach|
      ensures forall i :: 0 <= i < |detach| ==> detach[i].Hash() in journal && spent[i] == journal[detach[i].Hash()]
    {
      hide *;
      ghost var best := bestChain;
      StateIs(State());
      ConsistentFacts(State());
      BranchDistinct(State());
      err, view, spent := None, coins, [];
      assert best[..|best|] == best;
      var i := 0;
      while i < |detach| && err.None?
        invariant 0 <= i <= |detach| == |best| - 1 - f && err.None?
        invariant Replay(best[..|best| - i]).Some? && view == Replay(best[..|best| - i]).value.coins
        invariant |spent| == i
        invariant forall k :: 0 <= k < i ==> detach[k].Hash() in journal && spent[k] == journal[detach[k].Hash()]
      {
        var n := detach[i];
        UndoStep(best, |best| - i);
        if n.Hash() !in journal {
          err := Some(AssertionFailed);
        } else {
          var stxos := journal[n.Hash()];
          spent := spent + [stxos];
          var undone := DisconnectTxs(view, n.block.txs, n.height, stxos);
          if undone.None? {
            err := Some(AssertionFailed);
          } else {
            view := undone.value;
          }
        }
        i := i + 1;
      }
    }

    /** The second half of the dry run: blocks go on the scratch view. Validated
        blocks are only replayed; the first block to break a rule is marked, and
        everything after it. */
    method CheckOnView(view0: Coins, attach: seq<BlockNode>, ghost l0: Ledger) returns (err: Option<Error>)
      requires l0.coins == view0 && forall x :: x in attach ==> x.Hash() in status
      modifies this`status
      ensures forall x :: x in attach ==> x.Hash() in old(status)
      ensures var c := Check(rules, l0, old(status), attach);
        status == c.status && err == Verdicts(c)
    {
      hide *;
      ghost var status0 := status;
      ghost var l := l0;
      var view := view0;
      err := None;
      var i := 0;
      assert attach[0..] == attach;
      CheckUnfold(rules, l, status, []);
      while i < |attach| && err.None?
        invariant 0 <= i <= |attach|
        invariant forall x :: x in attach ==> x.Hash() in status
        invariant err.None? ==>
          l.coins == view && Check(rules, l0, status0, attach) == Check(rules, l, status, attach[i..])
        invariant err.Some? ==>
          var c := Check(rules, l0, status0, attach); status == c.status && err == Verdicts(c)
      {
        var n := attach[i];
        var rest := attach[i..];
        assert rest[0] == n && rest[1..] == attach[i + 1..];
        assert forall x :: x in rest ==> x in attach;
        CheckUnfold(rules, l, status, rest);
        ConnectNodeIs(l, n);
        CheckConnectIs(rules, l, n);
        MarkOneFacts(status, n, Valid);
        MarkOneFacts(status, n, ValidateFailed);
        var connected := ConnectTxs(view, n.block.txs, n.height);
        if status[n.Hash()].KnownValid() {
          if connected.None? {
            VerdictsOf(Missing(status));
            err := Some(AssertionFailed);
          } else {
            view := connected.value.coins;
            l := ConnectAny(l, n).value;
          }
        } else if rules.connect(n, view) && connected.Some? && KeepsUnspent(view, n.block.txs) {
          SetStatusFlags(n, Valid);
          view := connected.value.coins;
          l := ConnectNode(l, n).value;
        } else {
          SetStatusFlags(n, ValidateFailed);
          MarkAll(attach[i + 1..]);
          VerdictsOf(Refused(status));
          err := Some(ConnectRule);
        }
        i := i + 1;
      }
      assert err.None? ==> attach[i..] == [];
      CheckUnfold(rules, l, status, []);
      VerdictsOf(Passed(status, l));
    }

    /** Each of the nodes in turn: statusInvalidAncestor. */
    method MarkAll(nodes: seq<BlockNode>)
      requires forall x :: x in nodes ==> x.Hash() in status
      modifies this`status
      ensures status == Mark(old(status), nodes, InvalidAncestor) && status.Keys == old(status).Keys
    {
      hide *;
      ghost var status0 := status;
      MarkNone(status0, InvalidAncestor);
      for i := 0 to |nodes|
        invariant status.Keys == status0.Keys
        invariant status == Mark(status0, nodes[..i], InvalidAncestor)
      {
        MarkNext(status0, nodes[..i], nodes[i], InvalidAncestor);
        MarkOneFacts(status, nodes[i], InvalidAncestor);
        SetStatusFlags(nodes[i], InvalidAncestor);
        assert nodes[..i + 1] == nodes[..i] + [nodes[i]];
      }
      assert nodes[..|nodes|] == nodes;
    }

    /** verifyReorganizationValidity: the lists are checked against the chain, and
        the dry run is run. Nothing but statuses of nodes to attach changes. */
    method VerifyReorganizationValidity(detach: seq<BlockNode>, attach: seq<BlockNode>, ghost f: nat)
      returns (err: Option<Error>, spent: seq<seq<Coin>>)
      requires Planned(State(), f, detach, attach)
      modifies this`status
      ensures old(Replay(bestChain[..f + 1]).Some?) && forall x :: x in attach ==> x.Hash() in old(status)
      ensures var c := Check(rules, Replay(old(bestChain)[..f + 1]).value, old(status), attach);
        status == c.status && err == Verdicts(c)
      ensures |spent| == |detach|
      ensures forall i :: 0 <= i < |detach| ==> detach[i].Hash() in journal && spent[i] == journal[detach[i].Hash()]
    {
      hide *;
      ghost var s := State();
      StateIs(s);
      PlannedFacts(s, f, detach, attach);
      spent := [];
      if |detach| == 0 && |attach| == 0 {
        CheckUnfold(rules, Replay(bestChain[..f + 1]).value, status, attach);
        VerdictsOf(Passed(status, Replay(bestChain[..f + 1]).value));
        err := None;
      } else if |detach| != 0 && detach[0].Hash() != Tip().Hash() {
        err := Some(AssertionFailed);
      } else if |attach| != 0 && |detach| != 0 &&
          attach[0].parent.value.Hash() != detach[|detach| - 1].parent.value.Hash() {
        err := Some(AssertionFailed);
      } else {
        var view;
        err, view, spent := UndoOnView(detach, f);
        if err.None? {
          err := CheckOnView(view, attach, Replay(bestChain[..f + 1]).value);
        }
      }
    }

    /** reorganizeChain: the dry run first; then blocks come off the end of the
        chain and go on it, one at a time. It ends exactly where the state function
        ends, with its error, and neither assertion inside it ever fails. */
    method ReorganizeChain(detach: seq<BlockNode>, attach: seq<BlockNode>, ghost f: nat) returns (err: Option<Error>)
      requires Planned(State(), f, detach, attach)
      modifies this
      ensures old(f < |bestChain| && Replay(bestChain[..f + 1]).Some?)
      ensures forall x :: x in attach ==> x.Hash() in old(status)
      ensures var o := Reorganize(rules, old(State()), f, attach);
        State() == o.state && err == (if o.result.Failed? then Some(o.result.error) else None)
    {
      hide *;
      ghost var s := State();
      StateIs(s);
      PlannedFacts(s, f, detach, attach);
      ghost var base := bestChain[..f + 1];
      ghost var c := Check(rules, Replay(base).value, status, attach);
      ghost var k := CheckOutcome(rules, base, Replay(base).value, status, attach);
      ReorganizeUnfold(rules, s, f, attach);
      VerdictsOf(c);
      var spent;
      err, spent := VerifyReorganizationValidity(detach, attach, f);
      StateIs(State());
      VerdictKeys(s.status, c.status, attach, k);
      if err.None? {
        StatusConsistent(s, State());
        assert bestChain == s.best[..|s.best| - 0];
        var i := 0;
        while i < |detach| && err.None?
          invariant 0 <= i <= |detach| && err.None?
          invariant Consistent(State()) && index == s.index && status == c.status
          invariant bestChain == s.best[..|s.best| - i]
        {
          ghost var t := State();
          StateIs(t);
          DetachRound(s, t, detach, f, i);
          err := DetachOne(detach[i], spent[i]);
          DetachedIs(t);
          StateIs(State());
          i := i + 1;
        }
        assert bestChain == base + attach[..0];
        var j := 0;
        while j < |attach| && err.None?
          invariant 0 <= j <= |attach| && err.None?
          invariant Consistent(State()) && index == s.index && status == c.status
          invariant bestChain == base + attach[..j]
        {
          ghost var t := State();
          StateIs(t);
          AttachRound(s, t, detach, attach, f, j);
          err := AttachOne(attach[j]);
          ExtendedIs(t, attach[j]);
          StateIs(State());
          j := j + 1;
        }
        StateIs(State());
        ConsistentFacts(State());
        assert attach[..j] == attach;
      }
      StateIs(State());
    }

    /** bestChain.FindFork, on a node of the tree: the fork is where the nodes to
        attach begin. */
    method FindFork(node: BlockNode) returns (fork: BlockNode)
      requires Tree(State()) && State().Has(node)
      ensures |Attach(bestChain, node)| <= node.height
      ensures fork.height == node.height - |Attach(bestChain, node)| < |bestChain|
      ensures fork == bestChain[fork.height] && Attach(bestChain, fork) == []
    {
      hide *;
      ghost var s := State();
      StateIs(s);
      TreeFacts(s);
      NodeFacts(s, node);
      AttachSplits(s, node);
      fork := node;
      if node.height > |bestChain| - 1 {
        AttachAbove(s, node, |bestChain| - 1);
        var a, _ := Ancestor(node, |bestChain| - 1);
        fork := a.value;
      }
      while !Contains(fork)
        invariant s.Has(fork) && fork.height <= node.height
        invariant |Attach(bestChain, node)| == node.height - fork.height + |Attach(bestChain, fork)|
        decreases fork.height
      {
        ContainsIs(s, fork);
        NodeFacts(s, fork);
        AttachUnfold(bestChain, fork);
        fork := fork.parent.value;
      }
      ContainsIs(s, fork);
      AttachUnfold(bestChain, fork);
    }

    /** The walk from a node down to the fork: it collects the nodes to attach, and
        stops early at one that is known to be invalid. */
    method CollectAttach(node: BlockNode, forkNode: BlockNode) returns (attach: seq<BlockNode>, invalidChain: bool)
      requires Tree(State()) && State().Has(node) && forkNode in bestChain
      requires forkNode.height == node.height - |Attach(bestChain, node)|
      ensures forall x :: x in Attach(bestChain, node) ==> x.Hash() in status
      ensures attach == ValidSuffix(status, Attach(bestChain, node))
      ensures forall x :: x in attach ==> x.Hash() in status
      ensures invalidChain <==> |attach| < |Attach(bestChain, node)|
    {
      hide *;
      ghost var s := State();
      StateIs(s);
      CollectStart(s, node, forkNode);
      attach, invalidChain := [], false;
      var n := node;
      while n != forkNode && !invalidChain
        invariant Collected(s, node, forkNode, n, attach)
        invariant invalidChain ==> n != forkNode && n.Hash() in status && status[n.Hash()].KnownInvalid()
        decreases n.height, !invalidChain
      {
        CollectStep(s, node, forkNode, n, attach);
        if status[n.Hash()].KnownInvalid() {
          invalidChain := true;
        } else {
          attach := [n] + attach;
          n := n.parent.value;
        }
      }
      CollectEnd(s, node, forkNode, n, attach);
    }

    /** The walk from the tip down to the fork. */
    method CollectDetach(forkNode: BlockNode) returns (detach: seq<BlockNode>)
      requires Tree(State()) && forkNode in bestChain
      ensures forkNode.height < |bestChain| && detach == Reversed(bestChain[forkNode.height + 1..])
    {
      hide *;
      ghost var s := State();
      StateIs(s);
      TreeFacts(s);
      BranchParents(s);
      TipIs(s);
      detach := [];
      var n := Tip();
      while n != forkNode
        invariant forkNode.height <= n.height < |bestChain| && n == bestChain[n.height]
        invariant |detach| == |bestChain| - 1 - n.height
        invariant forall i :: 0 <= i < |detach| ==> detach[i] == bestChain[|bestChain| - 1 - i]
        decreases n.height
      {
        assert bestChain[forkNode.height] == forkNode;
        assert s.best[n.height].parent == Some(s.best[n.height - 1]);
        detach := detach + [n];
        n := n.parent.value;
      }
    }

    /** getReorganizeNodes: the lists for reorganizing to a node. They are empty when
        a node to attach is known to be invalid; the nodes above the nearest such
        node are then marked. Either way, reorganizing by the lists is reorganizing
        to the node. */
    method GetReorganizeNodes(node: BlockNode) returns (detach: seq<BlockNode>, attach: seq<BlockNode>, ghost f: nat)
      requires Sound(State()) && State().Has(node) && node.parent.Some? && node !in bestChain
      modifies this`status
      ensures PlannedFor(rules, old(State()), State(), node, f, detach, attach)
    {
      hide *;
      ghost var s := State();
      StateIs(s);
      SoundFacts(s);
      NodeFacts(s, node);
      NodeFacts(s, node.parent.value);
      StatusAt(s, node.parent.value);
      if status[node.parent.value.Hash()].KnownInvalid() {
        SetStatusFlags(node, InvalidAncestor);
        detach, attach, f := [], [], |bestChain| - 1;
        StateIs(State());
        PlannedParentInvalid(rules, s, node);
      } else {
        detach, attach, f := CollectReorganizeNodes(node);
      }
    }

    /** The lists for a node whose parent is not known to be invalid. */
    method CollectReorganizeNodes(node: BlockNode)
      returns (detach: seq<BlockNode>, attach: seq<BlockNode>, ghost f: nat)
      requires Sound(State()) && State().Has(node) && node.parent.Some? && node !in bestChain
      requires !State().KnownInvalid(node.parent.value)
      modifies this`status
      ensures PlannedFor(rules, old(State()), State(), node, f, detach, attach)
    {
      hide *;
      ghost var s := State();
      StateIs(s);
      SoundFacts(s);
      NodeFacts(s, node);
      var forkNode := FindFork(node);
      f := forkNode.height;
      var invalidChain;
      attach, invalidChain := CollectAttach(node, forkNode);
      ghost var at := Attach(bestChain, node);
      if invalidChain {
        PlannedChainInvalid(rules, s, node, at, attach);
        MarkAll(attach);
        detach, attach, f := [], [], |bestChain| - 1;
        StateIs(State());
      } else {
        detach := CollectDetach(forkNode);
        PlannedAll(rules, s, node, f, detach, attach);
      }
    }

    /** connectBestChain, without BFFastAdd: the block extends the best chain, stays
        on a side chain, or causes a reorganization. */
    method ConnectBestChain(node: BlockNode) returns (isMainChain: bool, err: Option<Error>)
      requires Sound(State()) && State().Has(node) && node.parent.Some? && node !in bestChain
      modifies this
      ensures old(Tree(State()) && Replay(bestChain) == Some(State().ledger))
      ensures var o := ConnectBest(rules, old(State()), node); State() == o.state && Reports(o.result, isMainChain, err)
    {
      hide *;
      ghost var s := State();
      StateIs(s);
      SoundFacts(s);
      SoundConsistent(s);
      TreeFacts(s);
      NodeFacts(s, node);
      ConnectBestUnfold(rules, s, node);
      if node.block.prev == Tip().Hash() {
        isMainChain, err := ExtendBestChain(node);
      } else if node.workSum <= Tip().workSum {
        isMainChain, err := false, None;
        ReportsDone(false);
      } else {
        var detach, attach;
        ghost var f;
        detach, attach, f := GetReorganizeNodes(node);
        PlannedForParts(rules, s, State(), node, f, detach, attach);
        err := ReorganizeChain(detach, attach, f);
        isMainChain := err.None?;
        ReorganizeReports(rules, s, node, err);
      }
    }

    /** The branch of connectBestChain for a block on top of the tip. */
    method ExtendBestChain(node: BlockNode) returns (isMainChain: bool, err: Option<Error>)
      requires Sound(State()) && State().Has(node) && node.parent.Some? && node !in bestChain
      requires |bestChain| > 0 && node.block.prev == Tip().Hash()
      modifies this
      ensures old(Tree(State()) && Replay(bestChain) == Some(State().ledger))
      ensures var o := ConnectBest(rules, old(State()), node); State() == o.state && Reports(o.result, isMainChain, err)
    {
      hide *;
      ghost var s := State();
      StateIs(s);
      SoundFacts(s);
      SoundConsistent(s);
      TreeFacts(s);
      NodeFacts(s, node);
      StatusAt(s, node);
      ConnectBestUnfold(rules, s, node);
      ExtendReady(rules, s, node);
      CheckConnectIs(rules, s.ledger, node);
      ReportsDone(true);
      ReportsFailed(ConnectRule);
      isMainChain, err := false, None;
      var fastAdd := status[node.Hash()].KnownValid();
      if !fastAdd {
        if rules.connect(node, coins) && ConnectTxs(coins, node.block.txs, node.height).Some?
           && KeepsUnspent(coins, node.block.txs) {
          SetStatusFlags(node, Valid);
        } else {
          SetStatusFlags(node, ValidateFailed);
          err := Some(ConnectRule);
        }
      }
      StateIs(State());
      if err.None? {
        MarkValidTwice(s, State(), node);
        ExtendedIs(State(), node);
        err := AttachOne(node);
        StateIs(State());
        isMainChain := err.None?;
        if fastAdd {
          SetStatusFlags(node, Valid);
        }
      }
      StateIs(State());
    }

    /** maybeAcceptBlock, for a block that ProcessBlock found to be new. */
    method MaybeAcceptBlock(block: Block) returns (isMainChain: bool, err: Option<Error>)
      requires Sound(State()) && block.hash !in index
      modifies this
      ensures old(Tree(State()) && Replay(bestChain) == Some(State().ledger))
      ensures var o := Accept(rules, old(State()), block); State() == o.state && Reports(o.result, isMainChain, err)
      ensures Accepted(old(State()), block, Accept(rules, old(State()), block))
    {
      hide *;
      ghost var s := State();
      StateIs(s);
      SoundFacts(s);
      TreeFacts(s);
      AcceptUnfold(rules, s, block);
      AcceptSound(rules, s, block);
      isMainChain := false;
      if block.prev !in index {
        err := Some(PreviousBlockUnknown);
        ReportsFailed(PreviousBlockUnknown);
        return;
      }
      var prevNode := index[block.prev];
      TreeKeys(s, block.prev);
      StatusAt(s, prevNode);
      if status[block.prev].KnownInvalid() {
        err := Some(InvalidAncestorBlock);
        ReportsFailed(InvalidAncestorBlock);
        return;
      }
      if !rules.context(block, prevNode) {
        err := Some(ContextRule);
        ReportsFailed(ContextRule);
        return;
      }
      var newNode := NewBlockNode(block, Some(prevNode));
      NodeFacts(s, prevNode);
      ChildFacts(block, prevNode);
      AddNodeSound(s, newNode);
      AddNodeFacts(s, newNode);
      index := index[block.hash := newNode];
      status := status[block.hash := NEW_STATUS];
      StateIs(State());
      isMainChain, err := ConnectBestChain(newNode);
    }

    /** CheckConnectBlockTemplate: whether the block would extend the tip, found without
        changing anything. */
    method CheckConnectBlockTemplate(block: Block, sane: bool) returns (valid: bool)
      requires Sound(State())
      ensures |bestChain| > 0 && Linked(Tip())
      ensures valid <==>
        && block.prev == Tip().Hash() && sane && rules.context(block, Tip())
        && CheckConnect(rules, State().ledger, ChildOf(block, Tip()))
    {
      hide *;
      ghost var s := State();
      StateIs(s);
      SoundFacts(s);
      TreeFacts(s);
      var tip := Tip();
      NodeFacts(s, tip);
      if tip.Hash() != block.prev {
        return false;
      }
      if !sane || !rules.context(block, tip) {
        return false;
      }
      var newNode := NewBlockNode(block, Some(tip));
      CheckConnectIs(rules, s.ledger, newNode);
      return rules.connect(newNode, coins) && ConnectTxs(coins, block.txs, newNode.height).Some?
        && KeepsUnspent(coins, block.txs);
    }

    /** InactiveTips: the leaves off the best chain, found by looking for orphans
        (nodes off the best chain) that no orphan has for a parent. */
    method InactiveTips() returns (tips: seq<BlockNode>)
      requires Tree(State())
      ensures forall x :: x in tips <==> OffLeaf(State(), x)
      ensures DistinctHashes(tips)
    {
      hide *;
      ghost var s := State();
      var orphans, orphanParent := CollectOrphans();
      StateIs(s);
      OrphansAreAll(s, orphans, orphanParent);
      tips := SelectTips(orphans, orphanParent);
      forall x | true
        ensures x in tips <==> OffLeaf(s, x)
      {
        LeavesAre(s, x);
      }
    }

    /** The first loop of InactiveTips: the nodes off the best chain, and the parents
        of these nodes. */
    method CollectOrphans() returns (orphans: map<Hash, BlockNode>, orphanParent: map<Hash, BlockNode>)
      requires Tree(State())
      ensures OrphansAre(State(), index.Keys, orphans, orphanParent)
    {
      hide *;
      ghost var s := State();
      StateIs(s);
      OrphansAreNone(s);
      orphans, orphanParent := map[], map[];
      var hashes := index.Keys;
      ghost var seen: set<Hash> := {};
      while hashes != {}
        invariant seen + hashes == index.Keys && OrphansAre(s, seen, orphans, orphanParent)
        decreases |hashes|
      {
        var hash :| hash in hashes;
        var node := index[hash];
        OrphansAreMore(s, seen, orphans, orphanParent, hash);
        ContainsIs(s, node);
        if !Contains(node) {
          orphans := orphans[hash := node];
          orphanParent := orphanParent[node.parent.value.Hash() := node.parent.value];
        }
        seen := seen + {hash};
        hashes := hashes - {hash};
      }
      assert seen == index.Keys;
    }

    /** The second loop of InactiveTips: orphans that are not the parent of one. */
    static method SelectTips(orphans: map<Hash, BlockNode>, orphanParent: map<Hash, BlockNode>)
      returns (tips: seq<BlockNode>)
      requires forall h :: h in orphans ==> orphans[h].Hash() == h
      ensures forall x :: x in tips <==> x.Hash() in orphans && orphans[x.Hash()] == x && x.Hash() !in orphanParent
      ensures DistinctHashes(tips)
    {
      tips := [];
      var parents := orphanParent;
      var hashes := orphans.Keys;
      while hashes != {}
        invariant hashes <= orphans.Keys
        invariant parents.Keys == orphanParent.Keys - (orphans.Keys - hashes)
        invariant forall x :: x in tips <==>
          x.Hash() in orphans.Keys - hashes && orphans[x.Hash()] == x && x.Hash() !in orphanParent
        invariant DistinctHashes(tips)
        decreases |hashes|
      {
        var hash :| hash in hashes;
        if hash !in parents {
          tips := tips + [orphans[hash]];
        }
        parents := parents - {hash};
        hashes := hashes - {hash};
      }
    }

    /** The walk from a tip down to a node: one update of the status of each node
        above it. */
    method UpdateBranch(tip: BlockNode, node: BlockNode, f: Status -> Status, ghost s: ChainState,
        ghost first: Statuses,
        ghost before: set<Hash>) returns (ghost done: set<Hash>)
      requires Tree(s) && s.Has(tip) && Descends(tip, node)
      requires first.Keys == s.status.Keys && status == Updated(first, before, f)
      requires forall st :: f(f(st)) == f(st)
      modifies this`status
      ensures node.height < |Path(tip)| && done == before + HashSet(Path(tip)[node.height + 1..])
      ensures status == Updated(first, done, f)
    {
      hide *;
      done := before;
      DescendsIs(tip, node);
      BranchTop(s, tip);
      DescendsHigher(s, tip, node);
      var n := tip;
      while n != node
        invariant node.height <= n.height <= tip.height && n in Path(tip) && node in Path(n)
        invariant done == before + HashSet(Path(tip)[n.height + 1..]) && status == Updated(first, done, f)
        decreases n.height
      {
        BranchStep(s, tip, node, n);
        UpdatedMore(first, done, f, n.Hash());
        status := status[n.Hash() := f(status[n.Hash()])];
        done := done + {n.Hash()};
        n := n.parent.value;
        DescendsHigher(s, tip, n);
        DescendsHigher(s, n, node);
      }
    }

    /** All tips in turn: every descendant of the node is updated, once or more, and
        the last tip at or above the node is returned. */
    method UpdateDescendants(tips: seq<BlockNode>, node: BlockNode, f: Status -> Status, ghost s: ChainState)
      returns (last: Option<BlockNode>)
      requires Tree(s) && s.Has(node) && node !in s.best && status.Keys == s.status.Keys
      requires forall x :: OffLeaf(s, x) ==> x in tips
      requires forall x :: x in tips ==> s.Has(x)
      requires forall st :: f(f(st)) == f(st)
      modifies this`status
      ensures status == Updated(old(status), Descendants(s, node), f)
      ensures last.Some? && last.value in tips && node in Path(last.value)
    {
      hide *;
      ghost var first, done := status, {};
      SweptNone(s, node, tips);
      UpdatedNone(first, f);
      ghost var some := TipExists(s, node, tips);
      last := None;
      for i := 0 to |tips|
        invariant Swept(s, node, tips, i, done) && status == Updated(first, done, f)
        invariant last.Some? ==> last.value in tips && node in Path(last.value)
        invariant i > some ==> last.Some?
      {
        var tip := tips[i];
        NodeFacts(s, tip);
        SweptMore(s, node, tips, i, done);
        DescendsIs(tip, node);
        PathUnfold(tip);
        var isAncestor := IsAncestor(tip, node);
        if !isAncestor {
          if tip == node {
            last := Some(node);
          }
        } else {
          last := Some(tip);
          done := UpdateBranch(tip, node, f, s, first, done);
        }
      }
      SweptAll(s, node, tips, done);
    }

    /** The tip of most work that is not known to be invalid; the first one wins. */
    method SelectBestTip(tips: seq<BlockNode>) returns (bestTip: Option<BlockNode>)
      requires forall x :: x in tips ==> x.Hash() in status
      ensures bestTip.None? <==> forall x :: x in tips ==> status[x.Hash()].KnownInvalid()
      ensures bestTip.Some? ==> bestTip.value in tips && !status[bestTip.value.Hash()].KnownInvalid()
      ensures bestTip.Some? ==>
        forall x :: x in tips && !status[x.Hash()].KnownInvalid() ==> x.workSum <= bestTip.value.workSum
    {
      bestTip := None;
      for i := 0 to |tips|
        invariant bestTip.None? <==> forall k :: 0 <= k < i ==> status[tips[k].Hash()].KnownInvalid()
        invariant bestTip.Some? ==> bestTip.value in tips && !status[bestTip.value.Hash()].KnownInvalid()
        invariant bestTip.Some? ==>
          forall k :: 0 <= k < i && !status[tips[k].Hash()].KnownInvalid() ==> tips[k].workSum <= bestTip.value.workSum
      {
        if !status[tips[i].Hash()].KnownInvalid() {
          if bestTip.None? || tips[i].workSum > bestTip.value.workSum {
            bestTip := Some(tips[i]);
          }
        }
      }
    }

    /** The walk down the best chain to a block being invalidated: every block above
        it is condemned and goes on the list to detach. */
    method CondemnAbove(node: BlockNode, ghost s: ChainState) returns (detach: seq<BlockNode>)
      requires Sound(s) && node in s.best && bestChain == s.best && node.height < |s.best|
      requires status.Keys == s.status.Keys
      requires forall h :: h in s.status && h != node.Hash() ==> status[h] == s.status[h]
      modifies this`status
      ensures detach == Reversed(s.best[node.height + 1..])
      ensures status == Updated(old(status), HashSet(s.best[node.height + 1..]), Condemned)
    {
      hide *;
      ghost var first := status;
      SoundFacts(s);
      TreeFacts(s);
      BranchParents(s);
      TipIs(s);
      FailedFacts();
      TipOf();
      detach := [];
      var n := Tip();
      CondemnStart(s, first);
      while n != node
        invariant node.height <= n.height < |s.best| && n == s.best[n.height]
        invariant status == Updated(first, HashSet(s.best[n.height + 1..]), Condemned)
        invariant |detach| == |s.best| - 1 - n.height
        invariant forall i :: 0 <= i < |detach| ==> detach[i] == s.best[|s.best| - 1 - i]
        decreases n.height
      {
        assert s.best[node.height] == node;
        assert s.best[n.height].parent == Some(s.best[n.height - 1]);
        CondemnStep(s, first, node, n);
        if !status[n.Hash()].KnownInvalid() {
          FlagsCondemned(status, n);
          SetStatusFlags(n, InvalidAncestor);
          UnsetStatusFlags(n, Valid);
          detach := detach + [n];
        }
        n := n.parent.value;
      }
    }

    /** InvalidateBlock. */
    method InvalidateBlock(hash: Hash) returns (err: Option<Error>, ghost bestTip: BlockNode)
      requires Sound(State())
      modifies this
      ensures old(Tree(State()) && Replay(bestChain).Some?)
      ensures Invalidated(rules, old(State()), hash, State(), err, bestTip)
    {
      hide *;
      ghost var s := State();
      StateIs(s);
      SoundFacts(s);
      TreeFacts(s);
      bestTip := s.Tip();
      if hash !in index {
        err := Some(BlockNotFound);
        InvalidatedIs(rules, s, hash, s, err, bestTip);
      } else {
        var node := index[hash];
        TreeKeys(s, hash);
        StatusAt(s, node);
        ContainsIs(s, node);
        if node.height == 0 {
          err := Some(GenesisBlock);
          InvalidatedIs(rules, s, hash, s, err, bestTip);
        } else if status[hash].KnownInvalid() {
          err := None;
          InvalidatedIs(rules, s, hash, s, err, bestTip);
        } else {
          NotGenesis(s, node);
          FlagsFailed(status, node);
          SetStatusFlags(node, ValidateFailed);
          UnsetStatusFlags(node, Valid);
          StateIs(State());
          if !Contains(node) {
            InvalidateSide(node, s);
            err := None;
          } else {
            err, bestTip := InvalidateMain(node, s);
          }
          InvalidatedIs(rules, s, hash, State(), err, bestTip);
        }
      }
    }

    /** The rest of InvalidateBlock for a block off the best chain. */
    method InvalidateSide(node: BlockNode, ghost s: ChainState)
      requires Sound(s) && s.Has(node) && node !in s.best && node.Hash() in s.status
      requires State() == s.(status := s.status[node.Hash() := MarkedFailed(s.status[node.Hash()])])
      modifies this`status
      ensures State() == InvalidatedSide(s, node)
    {
      hide *;
      SoundFacts(s);
      StateIs(State());
      SameTree(s, State());
      var tips := InactiveTips();
      SameLeaves(s, State(), tips);
      FailedFacts();
      var _ := UpdateDescendants(tips, node, Condemned, s);
      InvalidatedSideIs(s, node);
      StateIs(State());
    }

    /** The rest of InvalidateBlock for a block of the best chain. */
    method InvalidateMain(node: BlockNode, ghost s: ChainState) returns (err: Option<Error>, ghost bestTip: BlockNode)
      requires Sound(s) && node in s.best && node.parent.Some? && node.Hash() in s.status
      requires State() == s.(status := s.status[node.Hash() := MarkedFailed(s.status[node.Hash()])])
      modifies this
      ensures 0 < node.height < |s.best| && Replay(s.best).Some?
      ensures MovedToBest(rules, Truncated(s, node), State(), err, bestTip)
    {
      hide *;
      SoundFacts(s);
      TreeFacts(s);
      StateIs(State());
      NodeFacts(s, node);
      TruncatedStatusDef(s, node);
      var detach := CondemnAbove(node, s);
      detach := detach + [node];
      StateIs(State());
      TruncatedPlan(rules, s, State(), node, detach);
      err := ReorganizeChain(detach, [], node.height - 1);
      TruncatedSound(s, node);
      bestTip := node;
      if err.None? {
        err, bestTip := MoveToBest();
      }
    }

    /** The end of InvalidateBlock: the best of all tips becomes the tip. */
    method MoveToBest() returns (err: Option<Error>, ghost best: BlockNode)
      requires Sound(State())
      modifies this
      ensures MovedToBest(rules, old(State()), State(), err, best)
    {
      hide *;
      ghost var s := State();
      StateIs(s);
      SoundFacts(s);
      TreeFacts(s);
      TipOf();
      TipIs(s);
      var tips := InactiveTips();
      tips := tips + [Tip()];
      TipsIndexed(s, tips);
      StatusAt(s, s.Tip());
      assert Tip() in tips;
      var bestTip := SelectBestTip(tips);
      best := s.Tip();
      err := None;
      if bestTip.Some? {
        best := bestTip.value;
        BestTipIs(s, tips, best);
        if bestTip.value != Tip() {
          IsBestTipFacts(s, best);
          NodeFacts(s, best);
          var detach, attach;
          ghost var f;
          detach, attach, f := GetReorganizeNodes(bestTip.value);
          PlannedForParts(rules, s, State(), best, f, detach, attach);
          err := ReorganizeChain(detach, attach, f);
        }
      }
      MovedToBestIs(rules, s, State(), err, best);
    }

    /** ReconsiderBlock. The branch is verified twice, once here and once when it is
        reorganized to; the first run decides. */
    method ReconsiderBlock(hash: Hash) returns (err: Option<Error>, ghost tip: BlockNode)
      requires Sound(State())
      modifies this
      ensures old(Tree(State()) && Replay(bestChain).Some?)
      ensures ReconsideredTo(rules, old(State()), hash, State(), err, tip)
    {
      hide *;
      ghost var s := State();
      StateIs(s);
      SoundFacts(s);
      TreeFacts(s);
      TipIs(s);
      tip := s.Tip();
      if hash !in index {
        err := Some(BlockNotFound);
        ReconsideredToIs(rules, s, hash, s, err, tip);
      } else {
        var node := index[hash];
        TreeKeys(s, hash);
        StatusAt(s, node);
        err := None;
        if status[hash].KnownValid() {
          ReconsideredToIs(rules, s, hash, s, err, tip);
        } else {
          var reconsiderTip := ClearDescendants(node);
          tip := reconsiderTip;
          TipOf();
          if reconsiderTip.workSum > Tip().workSum {
            ReconsideredSound(s, node);
            SoundFacts(State());
            OffLeafFacts(State(), tip);
            NodeFacts(State(), tip);
            StateIs(State());
            err := VerifyAndReorganize(reconsiderTip);
          }
          ReconsideredToIs(rules, s, hash, State(), err, tip);
        }
      }
    }

    /** The clearing of flags in ReconsiderBlock; there always is a tip to reconsider. */
    method ClearDescendants(node: BlockNode) returns (reconsiderTip: BlockNode)
      requires Sound(State()) && State().Has(node) && !State().KnownValid(node) && node.Hash() in status
      modifies this`status
      ensures State() == Reconsidered(old(State()), node) && node !in bestChain
      ensures OffLeaf(State(), reconsiderTip) && node in Path(reconsiderTip)
    {
      hide *;
      ghost var s := State();
      StateIs(s);
      SoundFacts(s);
      TreeFacts(s);
      FlagsCleared(status, node);
      UnsetStatusFlags(node, InvalidAncestor);
      UnsetStatusFlags(node, ValidateFailed);
      StateIs(State());
      SameTree(s, State());
      var inactive := InactiveTips();
      SameLeaves(s, State(), inactive);
      var tips := inactive + [Tip()];
      TipOf();
      ClearedFacts();
      var last := UpdateDescendants(tips, node, Reprieved, s);
      StateIs(State());
      ReconsideredIs(s, node);
      reconsiderTip := last.value;
      if reconsiderTip !in inactive { BranchClosed(s, reconsiderTip, node); }
      SameLeaves(State(), s, inactive);
    }

    /** The end of ReconsiderBlock: a branch that fails verification is no error. */
    method VerifyAndReorganize(node: BlockNode) returns (err: Option<Error>)
      requires Sound(State()) && State().Has(node) && node.parent.Some? && node !in bestChain
      modifies this
      ensures old(Tree(State()) && Replay(bestChain).Some?)
      ensures err.None? && State() == ReorganizeTo(rules, old(State()), node).state
    {
      hide *;
      ghost var s := State();
      SoundFacts(s);
      StateIs(s);
      var detach, attach;
      ghost var f;
      detach, attach, f := GetReorganizeNodes(node);
      ghost var u := State();
      StateIs(u);
      PlannedForParts(rules, s, u, node, f, detach, attach);
      ReorganizeStates(rules, u, f, attach);
      var verified, _ := VerifyReorganizationValidity(detach, attach, f);
      StateIs(State());
      err := None;
      if verified.None? {
        PlannedAgain(rules, u, State(), f, detach, attach);
        err := ReorganizeChain(detach, attach, f);
      }
      StateIs(State());
    }

    lemma TipOf()
      requires |bestChain| > 0
      ensures Tip() == bestChain[|bestChain| - 1]
    {
    }

    lemma ContainsIs(s: ChainState, n: BlockNode)
      requires Tree(s) && bestChain == s.best
      ensures Contains(n) <==> n in s.best
      ensures n in s.best ==> n.height < |s.best| && s.best[n.height] == n
    {
      TreeFacts(s);
    }

    lemma StateIs(s: ChainState)
      ensures s == State() ==>
        && s.index == index && s.status == status && s.best == bestChain
        && s.ledger == Ledger(coins, journal) && s.snapshot == stateSnapshot
        && (|bestChain| > 0 ==> s.Tip() == Tip())
      ensures State() == ChainState(index, status, bestChain, Ledger(coins, journal), stateSnapshot)
    {
    }
  }

  lemma GenesisSnapshot(g: BlockNode)
    requires g.parent.None?
    ensures Path(g) == [g]
    ensures SnapshotOf([g]) == BestState(g.Hash(), g.height, |g.block.txs|, |g.block.txs|, g.Timestamp())
  {
    GenesisTotals(g);
    GenesisMedian(g);
  }

  lemma GenesisTotals(g: BlockNode)
    requires g.parent.None?
    ensures Path(g) == [g] && TotalTxns([g]) == |g.block.txs|
  {
    TotalTxnsSnoc([], g);
    assert [] + [g] == [g];
  }

  lemma GenesisMedian(g: BlockNode)
    requires g.parent.None?
    ensures PastMedianTime(g) == g.Timestamp()
  {
    WindowUnfold(g, MEDIAN_TIME_BLOCKS);
    SortOne(g.Timestamp());
  }

  lemma SortOne(x: int)
    ensures Sort([x]) == [x]
  {
  }
}
