/** ProcessBlock on any block, not only on one on top of the tip: which checks lead to
    which answer, and what the answer says about where the block is afterwards. */
module Processing {
  import opened Wire
  import opened BlockTree
  import opened ChainSpec
  import opened ChainSafety
  import Invalidation
  import opened ForkChoice
  import Adapter
  import opened CoinbaseBlocks
  import opened Histories

  /** The block has passed all checks that need no ledger: it is new and sane, its parent
      is indexed and not known to be invalid, and the rules of its context hold. */
  ghost predicate Reaches(r: Rules, s: ChainState, block: Block, sane: bool) {
    && block.hash !in s.index && sane && block.prev in s.index
    && !s.KnownInvalid(s.index[block.prev]) && r.context(block, s.index[block.prev])
  }

  /** Which check refuses what, in the order of the checks. */
  lemma ProcessErrors(r: Rules, s: ChainState, block: Block, sane: bool)
    requires Sound(s) && Adapter.Usable(s)
    ensures var p := Adapter.Process(r, s, block, sane);
      && (p.err == Some(DuplicateBlock) <==> block.hash in s.index)
      && (p.err == Some(SanityRule) <==> block.hash !in s.index && !sane)
      && (p.err == Some(InvalidAncestorBlock) <==>
            block.hash !in s.index && sane && block.prev in s.index && s.KnownInvalid(s.index[block.prev]))
      && (p.err == Some(ContextRule) <==>
            && block.hash !in s.index && sane && block.prev in s.index
            && !s.KnownInvalid(s.index[block.prev]) && !r.context(block, s.index[block.prev]))
      && (p.err == Some(ConnectRule) ==> Reaches(r, s, block, sane))
      && (p.err.Some? ==>
            p.err.value in {DuplicateBlock, SanityRule, InvalidAncestorBlock, ContextRule, ConnectRule})
      && (p.err.Some? && p.err != Some(ConnectRule) ==> p.state == s)
  {
    hide *;
    Adapter.UsableFacts(s);
    Adapter.ProcessIs(r, s, block, sane);
    ProcessOrphan(r, s, block, sane);
    ReachesIs(r, s, block, sane);
    if block.hash !in s.index {
      AcceptUnfold(r, s, block);
      if Reaches(r, s, block, sane) { AcceptResult(r, s, block); }
    }
  }

  lemma ReachesIs(r: Rules, s: ChainState, block: Block, sane: bool)
    ensures Reaches(r, s, block, sane) <==>
      && block.hash !in s.index && sane && block.prev in s.index
      && !s.KnownInvalid(s.index[block.prev]) && r.context(block, s.index[block.prev])
  {
  }

  lemma ProcessOrphan(r: Rules, s: ChainState, block: Block, sane: bool)
    requires Tree(s) && Replay(s.best) == Some(s.ledger)
    ensures block.hash !in s.index && sane && block.prev !in s.index ==>
      Adapter.Process(r, s, block, sane) == Adapter.Processed(s, false, true, None)
  {
    hide Tree, Replay, Accept;
  }

  /** A block that reaches the ledger: the outcome, and the node, which is indexed
      whatever the outcome. */
  lemma AcceptResult(r: Rules, s: ChainState, block: Block)
    requires Sound(s) && Tree(s) && Replay(s.best) == Some(s.ledger) && Reaches(r, s, block, true)
    ensures Linked(s.index[block.prev])
    ensures var o, n := Accept(r, s, block), ChildOf(block, s.index[block.prev]);
      && (o.result.Done? || o.result == Failed(ConnectRule))
      && o.state.index == s.index[block.hash := n]
      && (o.result == Done(false) ==> o.state.best == s.best)
      && (o.result == Failed(ConnectRule) ==> o.state.best == s.best)
      && (o.result == Done(false) <==> block.prev != s.Tip().Hash() && n.workSum <= s.Tip().workSum)
      && (o.result == Done(true) ==>
            (o.state.best == Path(n) <==> block.prev == s.Tip().Hash() || !Tainted(s.status, s.index[block.prev])))
      && (o.result == Done(true) && o.state.best != Path(n) ==> o.state.best == s.best)
  {
    hide *;
    ReachesIs(r, s, block, true);
    TreeFacts(s);
    TreeKeys(s, block.prev);
    AcceptUnfold(r, s, block);
    var p := s.index[block.prev];
    NodeFacts(s, p);
    ChildFacts(block, p);
    var n := ChildOf(block, p);
    AddNodeSound(s, n);
    AddNodeFacts(s, n);
    var u := AddNode(s, n);
    StatusAt(u, n);
    ConnectBestResult(r, u, n);
    NewTaint(s, u, p, n);
    PathUnfold(n);
    if block.prev == s.Tip().Hash() {
      TipIndexed(s);
      TreeFacts(u);
    }
  }

  /** A new node is tainted exactly when its parent was. */
  lemma NewTaint(s: ChainState, u: ChainState, p: BlockNode, n: BlockNode)
    requires Tree(s) && s.Has(p) && Chained(p) && n.parent == Some(p) && n.Hash() !in s.index
    requires u.status == s.status[n.Hash() := NEW_STATUS]
    ensures Tainted(u.status, n) <==> Tainted(s.status, p)
  {
    hide Tree, Chained;
    PathIndexed(s, p);
    assert Path(n) == Path(p) + [n];
    forall x | x in Path(p)
      ensures x in Path(n) && x.Hash() != n.Hash() && x.Hash() in s.status
    {
      NodeFacts(s, x);
    }
    if Tainted(s.status, p) {
      var x :| x in Path(p) && x.Hash() in s.status && s.status[x.Hash()].KnownInvalid();
      assert x in Path(n) && u.status[x.Hash()].KnownInvalid();
    }
  }

  lemma ConnectBestResult(r: Rules, s: ChainState, n: BlockNode)
    requires Sound(s) && s.Has(n) && n.parent.Some? && n !in s.best && !s.KnownInvalid(n) && !s.KnownValid(n)
    ensures Tree(s) && Replay(s.best) == Some(s.ledger)
    ensures var o := ConnectBest(r, s, n);
      && (o.result.Done? || o.result == Failed(ConnectRule))
      && o.state.index == s.index
      && (o.result == Done(false) || o.result == Failed(ConnectRule) ==> o.state.best == s.best)
      && (o.result == Done(false) <==> n.block.prev != s.Tip().Hash() && n.workSum <= s.Tip().workSum)
      && (o.result == Done(true) && n.block.prev == s.Tip().Hash() ==> o.state.best == s.best + [n])
      && (o.result == Done(true) && n.block.prev != s.Tip().Hash() ==>
            o.state.best == if Tainted(s.status, n) then s.best else Path(n))
  {
    hide *;
    SoundFacts(s);
    TreeFacts(s);
    NodeFacts(s, n);
    ConnectBestUnfold(r, s, n);
    CheckConnectFacts(r, s.ledger, n);
    if n.block.prev != s.Tip().Hash() && n.workSum > s.Tip().workSum {
      ReorganizeResult(r, s, n);
      MovesIs(r, s, n);
    }
  }

  /** A reorganization fails exactly when nothing on the way is known to be invalid and
      the dry run does not pass. */
  lemma ReorganizeResult(r: Rules, s: ChainState, n: BlockNode)
    requires Sound(s) && s.Has(n) && n.parent.Some? && n !in s.best
    ensures Tree(s) && Replay(s.best).Some?
    ensures var o := ReorganizeTo(r, s, n);
      && (o.result == Done(true) || o.result == Failed(ConnectRule))
      && o.state.index == s.index
      && (o.result == Failed(ConnectRule) <==> !Tainted(s.status, n) && !Moves(r, s, n))
      && o.state.best == if Moves(r, s, n) then Path(n) else s.best
  {
    hide *;
    SoundFacts(s);
    AttachSplits(s, n);
    AttachIndexed(s, n);
    AttachOffBranch(s, n);
    AttachReplays(s, n);
    TaintedSuffix(s, n);
    NodeFacts(s, n);
    ParentClean(s, n);
    MovesIs(r, s, n);
    ReorganizeExact(r, s, n);
    var attach := Attach(s.best, n);
    var f := n.height - |attach|;
    ReplayPrefix(s.best, f + 1);
    ReorganizeToUnfold(r, s, n, attach, f);
    ReorganizeUnfold(r, s, f, attach);
    StopIs(r, s, n, attach, f);
    SuffixShort(s.status, attach);
    var base := s.best[..f + 1];
    var k := CheckOutcome(r, base, Replay(base).value, s.status, attach);
  }

  /** The flags a dry run leaves on the blocks it went through: those before the first to
      break a rule are valid, that one has failed, and those after it are invalid by
      ancestry, whatever else was known of them. */
  lemma DryRunFlags(r: Rules, s: ChainState, n: BlockNode, i: nat)
    requires Sound(s) && s.Has(n) && n.parent.Some? && n !in s.best && !Tainted(s.status, n)
    requires i < |Attach(s.best, n)|
    ensures Tree(s) && Replay(s.best).Some?
    ensures var h, k := Attach(s.best, n)[i].Hash(), Stop(r, s, n);
      var t := ReorganizeTo(r, s, n).state;
      && h in s.status && h in t.status
      && t.status[h].valid == (s.status[h].valid || i < k)
      && t.status[h].validateFailed == (i == k)
      && t.status[h].invalidAncestor == (i > k)
      && t.status[h].haveData == s.status[h].haveData
  {
    hide *;
    SoundFacts(s);
    DryRunState(r, s, n);
    AttachIndexed(s, n);
    var attach, k := Attach(s.best, n), Stop(r, s, n);
    var x := attach[i];
    assert x in attach;
    NotFlagged(s.status, n, x);
    VerdictFlags(s.status, ReorganizeTo(r, s, n).state.status, attach, k, i);
  }

  lemma NotFlagged(status: Statuses, n: BlockNode, x: BlockNode)
    requires !Tainted(status, n) && x in Path(n) && x.Hash() in status
    ensures !status[x.Hash()].validateFailed && !status[x.Hash()].invalidAncestor
  {
    hide Path;
    assert !status[x.Hash()].KnownInvalid();
  }

  lemma VerdictFlags(before: Statuses, after: Statuses, attach: seq<BlockNode>, k: nat, i: nat)
    requires Verdict(before, after, attach, k) && i < |attach|
    ensures var h := attach[i].Hash();
      && h in before && h in after
      && after[h].valid == (before[h].valid || i < k)
      && after[h].validateFailed == (before[h].validateFailed || i == k)
      && after[h].invalidAncestor == (before[h].invalidAncestor || i > k)
      && after[h].haveData == before[h].haveData
  {
  }

  lemma SuffixShort(status: Statuses, nodes: seq<BlockNode>)
    requires forall x :: x in nodes ==> x.Hash() in status
    ensures |ValidSuffix(status, nodes)| <= |nodes|
  {
    hide ValidSuffix;
    ValidSuffixFacts(status, nodes);
  }

  /** What ProcessBlock answers, for every block. An orphan is a new, sane block whose
      parent is not indexed; nothing changes then but the pool. Any other block that is
      taken without an error is indexed, on top of its parent. It is said to be on the main
      chain exactly when it is on top of the tip or has more work. */
  lemma ProcessMeans(r: Rules, s: ChainState, block: Block, sane: bool)
    requires Sound(s) && Adapter.Usable(s)
    ensures |s.best| > 0
    ensures var p := Adapter.Process(r, s, block, sane);
      && (p.isOrphan <==> block.hash !in s.index && sane && block.prev !in s.index)
      && (p.isOrphan ==> p.state == s && !p.isMainChain && p.err.None?)
      && (p.isMainChain ==> !p.isOrphan && p.err.None?)
      && (p.err.None? && !p.isOrphan ==>
            && Reaches(r, s, block, sane) && Linked(s.index[block.prev])
            && var n := ChildOf(block, s.index[block.prev]);
               && p.state.index == s.index[block.hash := n]
               && (p.isMainChain <==> block.prev == s.Tip().Hash() || n.workSum > s.Tip().workSum)
               && (!p.isMainChain ==> p.state.best == s.best))
  {
    hide *;
    Adapter.UsableFacts(s);
    Adapter.ProcessIs(r, s, block, sane);
    ProcessOrphan(r, s, block, sane);
    ReachesIs(r, s, block, sane);
    if block.hash !in s.index {
      AcceptUnfold(r, s, block);
      if Reaches(r, s, block, sane) { AcceptResult(r, s, block); }
    }
  }

  /** Said to be on the main chain, a block is the tip exactly when none of its ancestors
      was known to be invalid; if one was, the chain has not moved. */
  lemma MainChainMeans(r: Rules, s: ChainState, block: Block, sane: bool)
    requires Sound(s) && Adapter.Usable(s) && Adapter.Process(r, s, block, sane).isMainChain
    ensures |s.best| > 0 && block.prev in s.index
    ensures var t := Adapter.Process(r, s, block, sane).state;
      && |t.best| > 0
      && (t.Tip().Hash() == block.hash <==> !Tainted(s.status, s.index[block.prev]))
      && (t.Tip().Hash() != block.hash ==> t.best == s.best)
  {
    hide *;
    ProcessMeans(r, s, block, sane);
    Adapter.UsableFacts(s);
    Adapter.ProcessIs(r, s, block, sane);
    ReachesIs(r, s, block, sane);
    AcceptResult(r, s, block);
    AcceptSound(r, s, block);
    var o, p := Accept(r, s, block), s.index[block.prev];
    AcceptedFacts(s, block, o);
    TipIndexed(s);
    TipClean(s);
    TreeKeys(s, block.prev);
    NodeFacts(s, p);
    ChildFacts(block, p);
    PathUnfold(ChildOf(block, p));
    TipIs(o.state);
    TipIs(s);
  }

  /** No ancestor of the tip is known to be invalid. */
  lemma TipClean(s: ChainState)
    requires Sound(s)
    ensures |s.best| > 0 && !Tainted(s.status, s.Tip())
  {
    hide Path, Tree, Replay, ValidReplays;
    SoundFacts(s);
    TreeFacts(s);
  }

  /** A run from genesis after which ProcessBlock says of a block that it is on the main
      chain, and the chain has not moved: it is on top of a block that InvalidateBlock
      did not flag, although it invalidated the parent of that block. */
  lemma SaidToBeMain() returns (states: seq<ChainState>, ops: seq<Invalidation.Operation>, block: Block)
    ensures Invalidation.IsHistory(LENIENT, states, ops) && |ops| > 0 && |states| == |ops| + 1
    ensures var s := states[|ops|];
      && Sound(s) && Adapter.Usable(s)
      && var p := Adapter.Process(LENIENT, s, block, true);
         p.isMainChain && p.err.None? && p.state.best == s.best
  {
    hide *;
    var x1, y1, w2;
    states, ops, x1, y1, w2 := HeavierLeafLeft();
    var s := states[|ops|];
    block := CoinbaseBlock(7, w2.Hash());
    Adapter.SoundUsable(s);
    Adapter.UsableFacts(s);
    HasIndex(s, w2);
    NodeFacts(s, w2);
    LenientIs(block, w2);
    ReachesIs(LENIENT, s, block, true);
    Adapter.ProcessIs(LENIENT, s, block, true);
    AcceptResult(LENIENT, s, block);
    TipIndexed(s);
    TipClean(s);
    SameHash(s, w2, s.Tip());
    var n := NewChild(s, w2, 7);
    IsChildFacts(n, w2, 7);
    TaintedReports(LENIENT, s, block);
  }

  /** With an invalid ancestor, more work than the tip is reported as success. */
  lemma TaintedReports(r: Rules, s: ChainState, block: Block)
    requires Sound(s) && Tree(s) && Replay(s.best) == Some(s.ledger) && Reaches(r, s, block, true)
    requires Tainted(s.status, s.index[block.prev]) && Linked(s.index[block.prev])
    requires block.prev != s.Tip().Hash() && ChildOf(block, s.index[block.prev]).workSum > s.Tip().workSum
    ensures Accept(r, s, block).result == Done(true)
  {
    hide *;
    ReachesIs(r, s, block, true);
    TreeFacts(s);
    AcceptUnfold(r, s, block);
    var p := s.index[block.prev];
    TreeKeys(s, block.prev);
    NodeFacts(s, p);
    ChildFacts(block, p);
    var n := ChildOf(block, p);
    AddNodeSound(s, n);
    AddNodeFacts(s, n);
    var u := AddNode(s, n);
    NodeFacts(u, n);
    NewTaint(s, u, p, n);
    ConnectBestUnfold(r, u, n);
    ReorganizeResult(r, u, n);
  }

  // ---- what InvalidateBlock and ReconsiderBlock answer

  /** InvalidateBlock fails for an unknown block, for genesis, and where the tip it picks
      has no invalid ancestor but the dry run to it does not pass. It changes nothing in
      the first two cases and for a block that is invalid already, and only then. */
  lemma InvalidateErrors(r: Rules, s: ChainState, hash: Hash, t: ChainState, err: Option<Error>, tip: BlockNode)
    requires Sound(s) && Tree(s) && Replay(s.best).Some? && Invalidation.Invalidated(r, s, hash, t, err, tip)
    ensures err == Some(BlockNotFound) <==> hash !in s.index
    ensures err == Some(GenesisBlock) <==> hash in s.index && s.index[hash].height == 0
    ensures t == s <==> hash !in s.index || s.index[hash].height == 0 || s.KnownInvalid(s.index[hash])
    ensures err.Some? ==> err.value in {BlockNotFound, GenesisBlock, ConnectRule}
    ensures err == Some(ConnectRule) ==> s.index[hash] in s.best && !s.KnownInvalid(s.index[hash])
    ensures hash in s.index && s.index[hash].height > 0 && s.index[hash] in s.best && !s.KnownInvalid(s.index[hash]) ==>
      var n := s.index[hash];
      && n.Hash() in s.status && n.height < |s.best| && n.parent.Some?
      && var mid := Invalidation.Truncated(s, n);
         && Tree(mid) && mid.Has(tip)
         && (err == Some(ConnectRule) <==>
               tip != n.parent.value && !Tainted(mid.status, tip) && !Moves(r, mid, tip))
  {
    hide *;
    TreeFacts(s);
    InvalidateAnswers(r, s, hash, t, err, tip);
    Invalidation.InvalidatedCases(r, s, hash, t, err, tip);
    if hash in s.index {
      TreeKeys(s, hash);
      var n := s.index[hash];
      NodeFacts(s, n);
      if n.height > 0 {
        ParentAt(n);
        Invalidation.InvalidatedSound(r, s, hash, t, err, tip);
        if n in s.best && !s.KnownInvalid(n) { InvalidateMoves(r, s, n, t, err, tip); }
      }
    }
  }

  lemma ParentAt(n: BlockNode)
    requires Chained(n) && n.height > 0
    ensures n.parent.Some?
  {
  }

  lemma InvalidateAnswers(r: Rules, s: ChainState, hash: Hash, t: ChainState, err: Option<Error>, tip: BlockNode)
    requires Tree(s) && Replay(s.best).Some? && Invalidation.Invalidated(r, s, hash, t, err, tip)
    ensures hash !in s.index ==> err == Some(BlockNotFound)
    ensures hash in s.index ==>
      var n := s.index[hash];
      && n.Hash() in s.status
      && (n.height == 0 ==> err == Some(GenesisBlock))
      && (n.height > 0 && (s.KnownInvalid(n) || n !in s.best) ==> err == None)
      && (n.height > 0 && !s.KnownInvalid(n) && n in s.best ==>
           && n.height < |s.best|
           && var mid := Invalidation.Truncated(s, n);
              && |mid.best| > 0
              && (tip == mid.Tip() ==> err == None)
              && (tip != mid.Tip() ==>
                   && Tree(mid) && mid.Has(tip) && Replay(mid.best).Some? && tip.parent.Some?
                   && err == Invalidation.ErrorOf(ReorganizeTo(r, mid, tip).result)))
  {
    hide Tree, Replay, Invalidation.InvalidatedSide, ReorganizeTo, Invalidation.TruncatedStatus;
    if hash in s.index {
      TreeKeys(s, hash);
      TreeFacts(s);
    }
  }

  lemma InvalidateMoves(r: Rules, s: ChainState, n: BlockNode, t: ChainState, err: Option<Error>, tip: BlockNode)
    requires Sound(s) && Tree(s) && Replay(s.best).Some? && s.Has(n) && n.parent.Some? && n.Hash() in s.status
    requires Invalidation.Invalidated(r, s, n.Hash(), t, err, tip) && n in s.best && !s.KnownInvalid(n)
    ensures 0 < n.height < |s.best|
    ensures var mid := Invalidation.Truncated(s, n);
      && Tree(mid) && mid.Has(tip)
      && (err == Some(ConnectRule) <==> tip != n.parent.value && !Tainted(mid.status, tip) && !Moves(r, mid, tip))
      && (err == None || err == Some(ConnectRule))
  {
    hide *;
    NodeFacts(s, n);
    HasIndex(s, n);
    InvalidatedTip(r, s, n, t, err, tip);
    InvalidateAnswers(r, s, n.Hash(), t, err, tip);
    Invalidation.InvalidatedCases(r, s, n.Hash(), t, err, tip);
    var mid := Invalidation.Truncated(s, n);
    Invalidation.TruncatedSound(s, n);
    Invalidation.IsBestTipFacts(mid, tip);
    TipIs(mid);
    ErrorsAre();
    if tip != mid.Tip() { ReorganizeResult(r, mid, tip); }
  }

  lemma ErrorsAre()
    ensures forall main :: Invalidation.ErrorOf(Done(main)) == None
    ensures forall e :: Invalidation.ErrorOf(Failed(e)) == Some(e)
  {
  }

  /** ReconsiderBlock fails for an unknown block and in no other case, also when the blocks
      it reconsiders break a rule; it changes nothing for a block known to be valid. */
  lemma ReconsiderErrors(r: Rules, s: ChainState, hash: Hash, t: ChainState, err: Option<Error>, tip: BlockNode)
    requires Tree(s) && Replay(s.best).Some? && Invalidation.ReconsideredTo(r, s, hash, t, err, tip)
    ensures err == if hash in s.index then None else Some(BlockNotFound)
    ensures hash !in s.index || s.KnownValid(s.index[hash]) ==> t == s
  {
    hide Tree, Replay, Invalidation.Reconsidered, ReorganizeTo;
    if hash in s.index { TreeKeys(s, hash); }
  }
}
