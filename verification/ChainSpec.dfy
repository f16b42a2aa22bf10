/** Chain selection as a function of the chain state: what accepting a block and
    reorganizing to a node must lead to, without the work lists, journals and
    step-by-step updates the code gets there by (btcd/blockchain/accept.go and
    btcd/blockchain/chain.go). */
module ChainSpec {
  import opened Wire
  import opened Bits
  import opened BlockTree
  import opened MedianTime
  import opened Utxo

  // ---- the ledger of a chain

  /** The unspent outputs, and for every connected block the coins it spent. */
  datatype Ledger = Ledger(coins: Coins, journal: map<Hash, seq<Coin>>)

  /** The ledger after a block, with the outputs it replaces, if any, lost. */
  function ConnectAny(l: Ledger, n: BlockNode): Option<Ledger> {
    match ConnectTxs(l.coins, n.block.txs, n.height)
    case None => None
    case Some(s) => Some(Ledger(s.coins, l.journal[n.Hash() := s.stxos]))
  }

  /** The ledger after a block that replaces no unspent output: what the rule of
      BIP 30 asks, and what blocks with the height of BIP 34 in them cannot break. */
  function ConnectNode(l: Ledger, n: BlockNode): Option<Ledger> {
    if KeepsUnspent(l.coins, n.block.txs) then ConnectAny(l, n) else None
  }

  /** The ledger of a chain: every block after genesis connected, in order. The
      outputs of genesis are not spendable and are never added. */
  ghost function Replay(path: seq<BlockNode>): Option<Ledger>
    requires |path| > 0
  {
    if |path| == 1 then Some(Ledger(map[], map[]))
    else match Replay(path[..|path| - 1])
      case None => None
      case Some(l) => ConnectNode(l, path[|path| - 1])
  }

  /** BestState, as far as it is derived from the chain. */
  datatype BestState = BestState(hash: Hash, height: nat, numTxns: nat, totalTxns: int, medianTime: int)

  ghost function TotalTxns(path: seq<BlockNode>): nat {
    if path == [] then 0 else TotalTxns(path[..|path| - 1]) + |path[|path| - 1].block.txs|
  }

  ghost function SnapshotOf(path: seq<BlockNode>): BestState
    requires |path| > 0
  {
    var tip := path[|path| - 1];
    BestState(tip.Hash(), tip.height, |tip.block.txs|, TotalTxns(path), PastMedianTime(tip))
  }

  // ---- statuses

  datatype Flag = Valid | ValidateFailed | InvalidAncestor

  type Statuses = map<Hash, Status>

  function SetFlag(s: Status, flag: Flag): Status {
    match flag
    case Valid => s.(valid := true)
    case ValidateFailed => s.(validateFailed := true)
    case InvalidAncestor => s.(invalidAncestor := true)
  }

  ghost function HashSet(nodes: seq<BlockNode>): set<Hash> {
    set i | 0 <= i < |nodes| :: nodes[i].Hash()
  }

  /** One flag set on each of some nodes. */
  ghost function Mark(status: Statuses, nodes: seq<BlockNode>, flag: Flag): Statuses {
    map h | h in status :: if h in HashSet(nodes) then SetFlag(status[h], flag) else status[h]
  }

  function MarkOne(status: Statuses, n: BlockNode, flag: Flag): Statuses
    requires n.Hash() in status
  {
    status[n.Hash() := SetFlag(status[n.Hash()], flag)]
  }

  // ---- the chain state

  /** The rules that decide on a block: checkBlockContext against its parent, and
      the part of checkConnectBlock that is not about missing or overwritten
      outputs, against the unspent outputs before it. Both are arbitrary. */
  datatype Rules = Rules(context: (Block, BlockNode) -> bool, connect: (BlockNode, Coins) -> bool)

  datatype ChainState = ChainState(
    index: map<Hash, BlockNode>,
    status: Statuses,
    best: seq<BlockNode>,
    ledger: Ledger,
    snapshot: BestState)
  {
    function Tip(): BlockNode
      requires |best| > 0
    {
      best[|best| - 1]
    }

    predicate Has(n: BlockNode) {
      n.Hash() in index && index[n.Hash()] == n
    }

    predicate KnownInvalid(n: BlockNode) {
      n.Hash() in status && status[n.Hash()].KnownInvalid()
    }

    predicate KnownValid(n: BlockNode) {
      n.Hash() in status && status[n.Hash()].KnownValid()
    }
  }

  /** checkConnectBlock. */
  predicate CheckConnect(r: Rules, l: Ledger, n: BlockNode) {
    r.connect(n, l.coins) && ConnectNode(l, n).Some?
  }

  // ---- reorganizing

  /** The nodes to attach to reach a node: its ancestors off the branch, in order. */
  ghost function Attach(best: seq<BlockNode>, n: BlockNode): seq<BlockNode> {
    if n in best then []
    else (match n.parent case None => [] case Some(p) => Attach(best, p)) + [n]
  }

  /** The nodes at the end of a list with no node known to be invalid after them. */
  ghost function ValidSuffix(status: Statuses, nodes: seq<BlockNode>): (suffix: seq<BlockNode>)
    requires forall x :: x in nodes ==> x.Hash() in status
    ensures |suffix| <= |nodes| && suffix == nodes[|nodes| - |suffix|..]
  {
    if nodes == [] || status[nodes[|nodes| - 1].Hash()].KnownInvalid() then []
    else
      var rest := ValidSuffix(status, nodes[..|nodes| - 1]);
      rest + [nodes[|nodes| - 1]]
  }

  /** The outcome of checking blocks one after another without connecting them. */
  datatype DryRun =
    | Passed(status: Statuses, ledger: Ledger)
    | Refused(status: Statuses)
    | Missing(status: Statuses)

  /** The dry run: blocks already validated are only replayed; the first other
      block that breaks a rule is marked, and everything after it too. A
      validated block that cannot be replayed would be an assertion failure. */
  ghost function Check(r: Rules, l: Ledger, status: Statuses, attach: seq<BlockNode>): DryRun
    requires forall x :: x in attach ==> x.Hash() in status
    decreases |attach|
  {
    if attach == [] then Passed(status, l)
    else
      var n, rest := attach[0], attach[1..];
      if status[n.Hash()].KnownValid() then
        match ConnectAny(l, n)
        case None => Missing(status)
        case Some(l') => Check(r, l', status, rest)
      else if !CheckConnect(r, l, n) then
        Refused(Mark(MarkOne(status, n, ValidateFailed), rest, InvalidAncestor))
      else
        Check(r, ConnectNode(l, n).value, MarkOne(status, n, Valid), rest)
  }

  datatype Error =
    | PreviousBlockUnknown
    | InvalidAncestorBlock
    | ContextRule
    | ConnectRule
    | AssertionFailed
    | BlockNotFound
    | GenesisBlock
    | DuplicateBlock
    | SanityRule

  datatype Result = Done(isMainChain: bool) | Failed(error: Error)

  datatype Outcome = Outcome(state: ChainState, result: Result)

  /** Drop everything above height f and attach nodes there, if the dry run passes. */
  ghost function Reorganize(r: Rules, s: ChainState, f: nat, attach: seq<BlockNode>): Outcome
    requires f < |s.best| && Replay(s.best[..f + 1]).Some?
    requires forall x :: x in attach ==> x.Hash() in s.status
  {
    match Check(r, Replay(s.best[..f + 1]).value, s.status, attach)
    case Passed(status, ledger) =>
      var best := s.best[..f + 1] + attach;
      Outcome(ChainState(s.index, status, best, ledger, SnapshotOf(best)), Done(true))
    case Refused(status) => Outcome(s.(status := status), Failed(ConnectRule))
    case Missing(status) => Outcome(s.(status := status), Failed(AssertionFailed))
  }

  /** Reorganize to a node: nothing but statuses changes when one of the nodes to
      attach is known to be invalid, and then success is reported all the same. */
  ghost function ReorganizeTo(r: Rules, s: ChainState, n: BlockNode): Outcome
    requires Tree(s) && s.Has(n) && n.parent.Some? && Replay(s.best).Some?
  {
    var attach := Attach(s.best, n);
    AttachSplits(s, n);
    AttachIndexed(s, n);
    var f := n.height - |attach|;
    ReplayPrefix(s.best, f + 1);
    if s.KnownInvalid(n.parent.value) then
      Outcome(s.(status := MarkOne(s.status, n, InvalidAncestor)), Done(true))
    else if |ValidSuffix(s.status, attach)| < |attach| then
      Outcome(s.(status := Mark(s.status, ValidSuffix(s.status, attach), InvalidAncestor)), Done(true))
    else
      Reorganize(r, s, f, attach)
  }

  /** connectBestChain, for a node already in the index. */
  ghost function ConnectBest(r: Rules, s: ChainState, n: BlockNode): Outcome
    requires Tree(s) && s.Has(n) && n.parent.Some? && Replay(s.best) == Some(s.ledger)
  {
    if n.block.prev == s.Tip().Hash() then
      if s.KnownValid(n) || CheckConnect(r, s.ledger, n) then
        match ConnectAny(s.ledger, n)
        case None => Outcome(s, Failed(AssertionFailed))
        case Some(l) =>
          Outcome(ChainState(s.index, MarkOne(s.status, n, Valid), s.best + [n], l,
            SnapshotOf(s.best + [n])), Done(true))
      else
        Outcome(s.(status := MarkOne(s.status, n, ValidateFailed)), Failed(ConnectRule))
    else if n.workSum <= s.Tip().workSum then
      Outcome(s, Done(false))
    else
      ReorganizeTo(r, s, n)
  }

  const NEW_STATUS := Status(true, false, false, false)

  /** The state with a new node in the index, stored but not validated. */
  ghost function AddNode(s: ChainState, n: BlockNode): ChainState {
    s.(index := s.index[n.Hash() := n], status := s.status[n.Hash() := NEW_STATUS])
  }

  /** maybeAcceptBlock, for a block that is not in the index. */
  ghost function Accept(r: Rules, s: ChainState, block: Block): Outcome
    requires Tree(s) && Replay(s.best) == Some(s.ledger) && block.hash !in s.index
  {
    if block.prev !in s.index then Outcome(s, Failed(PreviousBlockUnknown))
    else
      var prev := s.index[block.prev];
      if s.KnownInvalid(prev) then Outcome(s, Failed(InvalidAncestorBlock))
      else if !r.context(block, prev) then Outcome(s, Failed(ContextRule))
      else
        AcceptReady(s, block);
        var n := ChildOf(block, prev);
        ConnectBest(r, AddNode(s, n), n)
  }

  /** A block on an indexed one can be made a node of the tree. */
  lemma AcceptReady(s: ChainState, block: Block)
    requires Tree(s) && block.hash !in s.index && block.prev in s.index
    ensures Linked(s.index[block.prev])
    ensures var n := ChildOf(block, s.index[block.prev]);
      && n.parent == Some(s.index[block.prev])
      && Tree(AddNode(s, n)) && AddNode(s, n).Has(n)
      && AddNode(s, n).best == s.best && AddNode(s, n).ledger == s.ledger
  {
    hide Tree, Path;
    var prev := s.index[block.prev];
    IndexedAt(s, block.prev);
    AncestorHeightBelow(prev.height + 1);
    AddNodeTree(s, ChildOf(block, prev));
  }

  lemma IndexedAt(s: ChainState, h: Hash)
    requires Tree(s) && h in s.index
    ensures |s.best| > 0 && IndexedNode(s, h)
  {
    hide IndexedNode, Path;
  }

  // ---- well-formedness

  /** The index is a tree with one genesis, and the view is the branch of its tip. */
  ghost predicate Tree(s: ChainState) {
    && |s.best| > 0
    && (forall h :: h in s.index ==> IndexedNode(s, h))
    && s.status.Keys == s.index.Keys
    && s.Has(s.Tip())
    && s.best == Path(s.Tip())
  }

  ghost predicate IndexedNode(s: ChainState, h: Hash)
    requires h in s.index && |s.best| > 0
  {
    var n := s.index[h];
    && n.Hash() == h
    && Linked(n)
    && (n.parent.Some? ==> s.Has(n.parent.value))
    && (n.parent.None? ==> n == s.best[0])
  }

  lemma {:induction false} PathIndexed(s: ChainState, n: BlockNode)
    requires Tree(s) && s.Has(n)
    ensures forall x :: x in Path(n) ==> s.Has(x)
  {
    assert IndexedNode(s, n.Hash());
    if n.parent.Some? { PathIndexed(s, n.parent.value); }
  }

  /** Two nodes of one chain never share a hash. */
  lemma PathDistinct(s: ChainState, n: BlockNode, i: nat, j: nat)
    requires Tree(s) && s.Has(n) && i < j < |Path(n)|
    ensures Path(n)[i].Hash() != Path(n)[j].Hash()
  {
    PathIndexed(s, n);
    assert IndexedNode(s, n.Hash());
    PathAt(n);
    assert s.Has(Path(n)[i]) && s.Has(Path(n)[j]);
    assert Path(n)[i].height == i && Path(n)[j].height == j;
  }

  /** Below the attached nodes lies the branch: a chain is the branch up to its
      fork and the nodes to attach. */
  lemma {:induction false} AttachSplits(s: ChainState, n: BlockNode)
    requires Tree(s) && s.Has(n)
    ensures |Attach(s.best, n)| <= n.height
    ensures var f := n.height - |Attach(s.best, n)|;
      f < |s.best| && Path(n) == s.best[..f + 1] + Attach(s.best, n)
  {
    hide *;
    NodeFacts(s, n);
    TreeFacts(s);
    AttachUnfold(s.best, n);
    if n in s.best {
      OnPath(s.Tip(), n);
      PathPrefix(s.Tip(), n.height);
    } else {
      AttachSplits(s, n.parent.value);
      PathUnfold(n);
    }
  }

  lemma AttachUnfold(best: seq<BlockNode>, n: BlockNode)
    ensures n in best ==> Attach(best, n) == []
    ensures n !in best && n.parent.Some? ==> Attach(best, n) == Attach(best, n.parent.value) + [n]
  {
  }

  lemma PathUnfold(n: BlockNode)
    ensures Path(n) == (if n.parent.Some? then Path(n.parent.value) else []) + [n]
  {
  }

  lemma NodeFacts(s: ChainState, n: BlockNode)
    requires Tree(s) && s.Has(n)
    ensures Linked(n) && Chained(n) && n.Hash() in s.status && n.Hash() in s.index
    ensures n.parent.Some? ==> s.Has(n.parent.value) && n.height == n.parent.value.height + 1
    ensures n.parent.Some? ==> n.block.prev == n.parent.value.Hash()
    ensures n.parent.None? ==> n in s.best && n.height == 0
  {
    assert IndexedNode(s, n.Hash());
  }

  lemma TreeFacts(s: ChainState)
    requires Tree(s)
    ensures |s.best| > 0 && s.Has(s.Tip()) && Linked(s.Tip()) && Chained(s.Tip())
    ensures s.best == Path(s.Tip()) && |s.best| == s.Tip().height + 1
    ensures s.status.Keys == s.index.Keys
    ensures forall x :: x in s.best ==> s.Has(x) && x.height < |s.best| && s.best[x.height] == x
    ensures forall i :: 0 <= i < |s.best| ==> s.best[i].height == i
  {
    NodeFacts(s, s.Tip());
    PathAt(s.Tip());
    PathIndexed(s, s.Tip());
  }

  lemma TipIs(s: ChainState)
    requires |s.best| > 0
    ensures s.Tip() == s.best[|s.best| - 1]
  {
  }

  lemma AttachIndexed(s: ChainState, n: BlockNode)
    requires Tree(s) && s.Has(n)
    ensures forall x :: x in Attach(s.best, n) ==> s.Has(x) && x.Hash() in s.status && x in Path(n)
  {
    hide *;
    NodeFacts(s, n);
    AttachSplits(s, n);
    PathIndexed(s, n);
    forall x | x in Attach(s.best, n)
      ensures s.Has(x) && x.Hash() in s.status && x in Path(n)
    {
      assert x in Path(n);
      NodeFacts(s, x);
    }
  }

  lemma {:induction false} ReplayPrefix(path: seq<BlockNode>, k: nat)
    requires 0 < k <= |path| && Replay(path).Some?
    ensures Replay(path[..k]).Some?
    decreases |path|
  {
    if k < |path| {
      ReplayPrefix(path[..|path| - 1], k);
      assert path[..|path| - 1][..k] == path[..k];
    } else {
      assert path[..k] == path;
    }
  }

  /** Another branch of the same index, with the same genesis, for a view. */
  lemma TreeKeep(s: ChainState, t: ChainState)
    requires Tree(s) && t.index == s.index && t.status.Keys == s.status.Keys
    requires |t.best| > 0 && t.best[0] == s.best[0] && s.Has(t.best[|t.best| - 1])
    requires t.best == Path(t.best[|t.best| - 1])
    ensures Tree(t)
  {
    hide *;
    TreeFacts(s);
    HasSame(s, t);
    forall h | h in t.index
      ensures IndexedNode(t, h)
    {
      IndexedKeep(s, t, h);
    }
    TreeIs(t);
  }

  lemma HasIndex(s: ChainState, n: BlockNode)
    requires s.Has(n)
    ensures n.Hash() in s.index && s.index[n.Hash()] == n
  {
  }

  lemma HasSame(s: ChainState, t: ChainState)
    requires t.index == s.index
    ensures forall x :: s.Has(x) <==> t.Has(x)
  {
  }

  lemma IndexedKeep(s: ChainState, t: ChainState, h: Hash)
    requires Tree(s) && |t.best| > 0 && t.best[0] == s.best[0]
    requires h in s.index && h in t.index && t.index[h] == s.index[h]
    requires forall x :: s.Has(x) ==> t.Has(x)
    ensures IndexedNode(t, h)
  {
    hide Path, Linked;
    assert IndexedNode(s, h);
  }

  lemma TreeIs(t: ChainState)
    requires |t.best| > 0 && t.status.Keys == t.index.Keys
    requires t.best == Path(t.best[|t.best| - 1]) && t.Has(t.best[|t.best| - 1])
    requires forall h :: h in t.index ==> IndexedNode(t, h)
    ensures Tree(t)
  {
    hide Path, IndexedNode;
  }

  lemma AddNodeTree(s: ChainState, n: BlockNode)
    requires Tree(s) && n.Hash() !in s.index
    requires Linked(n) && n.parent.Some? && s.Has(n.parent.value)
    ensures Tree(AddNode(s, n)) && AddNode(s, n).Has(n)
  {
    hide Path, Linked, IndexedNode;
    var t := AddNode(s, n);
    forall h | h in t.index
      ensures IndexedNode(t, h)
    {
      if h != n.Hash() { IndexedKeep(s, t, h); } else { NewIndexed(t, n); }
    }
    TreeIs(t);
  }

  lemma NewIndexed(t: ChainState, n: BlockNode)
    requires |t.best| > 0 && t.Has(n) && Linked(n) && n.parent.Some? && t.Has(n.parent.value)
    ensures IndexedNode(t, n.Hash())
  {
  }
}
