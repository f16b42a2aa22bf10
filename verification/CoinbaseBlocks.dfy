/** The simplest blocks the code can receive, for building runs out of: a coinbase and
    nothing else, paying to an output that cannot be spent. */
module CoinbaseBlocks {
  import opened Wire
  import opened BlockTree
  import opened Utxo
  import opened ChainSpec
  import opened ChainSafety

  /** Rules that every block satisfies. */
  const LENIENT := Rules((_, _) => true, (_, _) => true)

  /** Where a coinbase says its input is from. */
  const NOWHERE := OutPoint(ZERO_HASH, 0xffff_ffff)

  const VALID_STATUS := Status(true, true, false, false)

  function CoinbaseBlock(hash: Hash, prev: Hash): (b: Block)
    ensures b.hash == hash && b.prev == prev && b.work == 1
  {
    Block(hash, prev, 1, 0, [Tx(hash, [NOWHERE], [TxOut(0, [], true)])])
  }

  /** Such a block connects to any ledger, and leaves the coins alone. */
  lemma CoinbaseConnects(l: Ledger, n: BlockNode, hash: Hash, prev: Hash)
    requires n.block == CoinbaseBlock(hash, prev)
    ensures ConnectNode(l, n) == Some(Ledger(l.coins, l.journal[n.Hash() := []]))
    ensures CheckConnect(LENIENT, l, n)
  {
    var txs := n.block.txs;
    assert txs[..0] == [];
    assert Outputs(txs[0], n.height, true) == map[];
    assert ConnectTxs(l.coins, [], n.height) == Some(Spent(l.coins, []));
    assert l.coins + map[] == l.coins;
    assert Inputs(txs[0], true) == [];
    assert ConnectTx(l.coins, txs[0], n.height, true) == Some(Spent(l.coins, []));
    var none: seq<Coin> := [];
    assert none + none == none;
    assert |txs| == 1;
    assert ConnectTxs(l.coins, txs, n.height) == Some(Spent(l.coins, []));
  }

  ghost predicate IsChild(n: BlockNode, parent: BlockNode, hash: Hash) {
    && n.Hash() == hash
    && n.parent == Some(parent)
    && n.workSum == parent.workSum + 1
    && n.height == parent.height + 1
    && Path(n) == Path(parent) + [n]
    && n.block == CoinbaseBlock(hash, parent.Hash())
  }

  lemma NewChild(s: ChainState, parent: BlockNode, hash: Hash) returns (n: BlockNode)
    requires Tree(s) && s.Has(parent)
    ensures Linked(parent) && n == ChildOf(CoinbaseBlock(hash, parent.Hash()), parent)
    ensures Linked(n) && IsChild(n, parent, hash)
  {
    NodeFacts(s, parent);
    ChildFacts(CoinbaseBlock(hash, parent.Hash()), parent);
    n := ChildOf(CoinbaseBlock(hash, parent.Hash()), parent);
  }

  /** One on top of the tip is connected. */
  lemma ExtendTip(s: ChainState, hash: Hash) returns (t: ChainState, n: BlockNode)
    requires Sound(s) && hash !in s.index
    ensures Tree(s) && Replay(s.best) == Some(s.ledger) && IsChild(n, s.Tip(), hash)
    ensures Accept(LENIENT, s, CoinbaseBlock(hash, s.Tip().Hash())) == Outcome(t, Done(true))
    ensures Sound(t) && t.best == s.best + [n] && t.index == s.index[hash := n]
    ensures t.status == s.status[hash := VALID_STATUS]
  {
    hide *;
    SoundFacts(s);
    TreeFacts(s);
    var block := CoinbaseBlock(hash, s.Tip().Hash());
    n := NewChild(s, s.Tip(), hash);
    IsChildFacts(n, s.Tip(), hash);
    TipIndexed(s);
    StatusAt(s, s.Tip());
    AcceptUnfold(LENIENT, s, block);
    LenientIs(block, s.Tip());
    AcceptSound(LENIENT, s, block);
    AcceptedFacts(s, block, Accept(LENIENT, s, block));
    AddNodeFacts(s, n);
    var u := AddNode(s, n);
    NodeFacts(u, n);
    CoinbaseConnects(u.ledger, n, hash, s.Tip().Hash());
    ConnectBestUnfold(LENIENT, u, n);
    t := Accept(LENIENT, s, block).state;
    MarkNew(s.status, n);
  }

  lemma LenientIs(block: Block, parent: BlockNode)
    ensures LENIENT.context(block, parent)
  {
  }

  lemma IsChildFacts(n: BlockNode, parent: BlockNode, hash: Hash)
    requires IsChild(n, parent, hash)
    ensures n.Hash() == hash && n.parent == Some(parent) && n.workSum == parent.workSum + 1
    ensures n.height == parent.height + 1 && Path(n) == Path(parent) + [n]
    ensures n.block == CoinbaseBlock(hash, parent.Hash()) && n.block.prev == parent.Hash()
  {
    hide Path;
  }

  lemma MarkNew(status: Statuses, n: BlockNode)
    ensures n.Hash() in status[n.Hash() := NEW_STATUS]
    ensures MarkOne(status[n.Hash() := NEW_STATUS], n, Valid) == status[n.Hash() := VALID_STATUS]
  {
  }

  /** One elsewhere, without more work than the tip, is indexed and nothing else. */
  lemma AddSide(s: ChainState, parent: BlockNode, hash: Hash) returns (t: ChainState, n: BlockNode)
    requires Sound(s) && hash !in s.index && s.Has(parent) && !s.KnownInvalid(parent)
    requires |s.best| > 0 && parent != s.Tip() && parent.workSum < s.Tip().workSum
    ensures Tree(s) && Replay(s.best) == Some(s.ledger) && IsChild(n, parent, hash)
    ensures Accept(LENIENT, s, CoinbaseBlock(hash, parent.Hash())) == Outcome(t, Done(false))
    ensures Sound(t) && t.best == s.best && t.index == s.index[hash := n]
    ensures t.status == s.status[hash := NEW_STATUS]
  {
    hide *;
    SoundFacts(s);
    TreeFacts(s);
    var block := CoinbaseBlock(hash, parent.Hash());
    n := NewChild(s, parent, hash);
    IsChildFacts(n, parent, hash);
    HasIndex(s, parent);
    SameHash(s, parent, s.Tip());
    AcceptUnfold(LENIENT, s, block);
    LenientIs(block, parent);
    AddNodeSound(s, n);
    AddNodeFacts(s, n);
    t := AddNode(s, n);
    NodeFacts(t, n);
    ConnectBestUnfold(LENIENT, t, n);
  }
}
