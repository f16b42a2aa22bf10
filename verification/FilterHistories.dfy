/** A run from genesis after which the cache of filter checkpoints can be left with two
    chains in it: the best chain has three checkpoints when the cache is filled, another
    chain takes over, and has four. */
module FilterHistories {
  import opened Wire
  import opened BlockTree
  import opened ChainSpec
  import opened ChainSafety
  import opened Invalidation
  import opened ForkChoice
  import opened CoinbaseBlocks
  import opened Histories
  import opened Locate
  import opened FilterCheckpoints

  // ---- long chains

  /** Hash and work by height: every block at height h has hash 2h or 2h + 1, by chain. */
  ghost predicate Named(n: BlockNode, tag: nat) {
    && Chained(n)
    && forall h :: 0 <= h <= n.height ==> NamedAt(At(n, h), h, tag)
  }

  ghost predicate NamedAt(x: BlockNode, h: nat, tag: nat) {
    x.workSum == h + 1 && (h > 0 ==> x.Hash() == 2 * h + tag)
  }

  /** The hashes in use: genesis, those of one chain up to height a and those of the other
      up to height b. */
  ghost predicate Names(s: ChainState, a: nat, b: nat) {
    forall k :: k in s.index ==> k == 1 || (k % 2 == 0 && k <= 2 * a) || (k % 2 == 1 && k <= 2 * b + 1)
  }

  /** Nothing but coinbase blocks, none of them known to be invalid. */
  ghost predicate Plain(s: ChainState) {
    && (forall h :: h in s.index ==> IsCoinbase(s.index[h]))
    && (forall h :: h in s.status ==> !s.status[h].KnownInvalid())
  }

  /** The last state of a run. */
  ghost predicate Reaches(states: seq<ChainState>, ops: seq<Operation>, s: ChainState) {
    IsHistory(LENIENT, states, ops) && |states| > 0 && s == states[|states| - 1] && Sound(s) && Plain(s)
  }

  lemma ReachesFacts(states: seq<ChainState>, ops: seq<Operation>, s: ChainState)
    requires Reaches(states, ops, s)
    ensures IsHistory(LENIENT, states, ops) && |states| > 0 && s == states[|states| - 1] && Sound(s) && Plain(s)
  {
    hide Sound, IsHistory, Plain;
  }

  lemma NamedChild(n: BlockNode, p: BlockNode, tag: nat)
    requires Named(p, tag) && IsChild(n, p, 2 * (p.height + 1) + tag) && Chained(n)
    ensures Named(n, tag)
  {
    hide IsChild, NamedAt, CoinbaseBlock;
    IsChildFacts(n, p, 2 * (p.height + 1) + tag);
    NamedHere(p, tag);
    forall h | 0 <= h <= n.height
      ensures NamedAt(At(n, h), h, tag)
    {
      if h <= p.height { assert At(n, h) == At(p, h); } else { NamedIs(n, tag); }
    }
  }

  lemma NamedHere(n: BlockNode, tag: nat)
    requires Named(n, tag)
    ensures Chained(n) && n.workSum == n.height + 1 && (n.height > 0 ==> n.Hash() == 2 * n.height + tag)
  {
    hide Chained;
    assert NamedAt(At(n, n.height), n.height, tag);
  }

  lemma NamedIs(n: BlockNode, tag: nat)
    requires n.workSum == n.height + 1 && n.Hash() == 2 * n.height + tag
    ensures NamedAt(n, n.height, tag)
  {
  }

  lemma NamesFresh(s: ChainState, a: nat, b: nat)
    requires Names(s, a, b)
    ensures 2 * (a + 1) !in s.index && 2 * (b + 1) + 1 !in s.index
  {
  }

  lemma NamesMore(s: ChainState, t: ChainState, a: nat, b: nat, hash: Hash, n: BlockNode)
    requires Names(s, a, b) && t.index == s.index[hash := n]
    ensures hash == 2 * (a + 1) ==> Names(t, a + 1, b)
    ensures hash == 2 * (b + 1) + 1 ==> Names(t, a, b + 1)
  {
  }

  lemma PlainMore(s: ChainState, t: ChainState, hash: Hash, n: BlockNode, status: Status)
    requires Plain(s) && t.index == s.index[hash := n] && t.status == s.status[hash := status]
    requires IsCoinbase(n) && !status.KnownInvalid()
    ensures Plain(t)
  {
  }

  lemma CoinbaseIs(n: BlockNode, parent: BlockNode, hash: Hash)
    requires IsChild(n, parent, hash)
    ensures IsCoinbase(n)
    ensures !VALID_STATUS.KnownInvalid() && !NEW_STATUS.KnownInvalid()
  {
    hide Path;
  }

  lemma IndexMore(s: ChainState, t: ChainState, hash: Hash, n: BlockNode)
    requires t.index == s.index[hash := n] && hash !in s.index && n.Hash() == hash
    ensures Grows(s, t) && t.Has(n)
  {
  }

  lemma GrowsOn(s: ChainState, t: ChainState, u: ChainState)
    requires Grows(s, t) && Grows(t, u)
    ensures Grows(s, u)
  {
  }

  /** A best chain of any length. */
  lemma {:induction false} GrowMain(a: nat) returns (states: seq<ChainState>, ops: seq<Operation>, s: ChainState)
    ensures Reaches(states, ops, s) && Names(s, a, 0) && |states| > 0 && states[0] == Genesis(CoinbaseBlock(1, 0))
    ensures |s.best| > 0 && s.Tip().height == a && Named(s.Tip(), 0)
  {
    hide *;
    if a == 0 {
      var g: BlockNode;
      s, g := Begins();
      states, ops := [s], [];
      GenesisPlain(states, ops, s, g);
    } else {
      var before: ChainState;
      states, ops, before := GrowMain(a - 1);
      ReachesFacts(states, ops, before);
      NamesFresh(before, a - 1, 0);
      var n: BlockNode;
      states, ops, s, n := GoesOn(states, ops, before, 2 * a);
      Extends(before, s, n, 2 * a, 0);
      NamesMore(before, s, a - 1, 0, 2 * a, n);
      ReachesIs(states, ops, s);
    }
  }

  lemma ReachesIs(states: seq<ChainState>, ops: seq<Operation>, s: ChainState)
    requires IsHistory(LENIENT, states, ops) && |states| > 0 && s == states[|states| - 1] && Sound(s) && Plain(s)
    ensures Reaches(states, ops, s)
  {
    hide Sound, IsHistory, Plain;
  }

  lemma GenesisPlain(states: seq<ChainState>, ops: seq<Operation>, s: ChainState, g: BlockNode)
    requires IsHistory(LENIENT, states, ops) && states == [s] && Sound(s)
    requires s == Genesis(CoinbaseBlock(1, 0)) && s.best == [g] && s.index == map[1 := g] && g.workSum == 1
    requires g.block == CoinbaseBlock(1, 0) && s.status == map[1 := VALID_STATUS]
    ensures Reaches(states, ops, s) && Names(s, 0, 0) && |s.best| > 0 && s.Tip().height == 0 && Named(s.Tip(), 0)
  {
    hide IsHistory, Sound, CoinbaseBlock;
  }

  lemma Extends(s: ChainState, t: ChainState, n: BlockNode, hash: Hash, tag: nat)
    requires Sound(t) && Plain(s) && |s.best| > 0 && t.best == s.best + [n] && t.index == s.index[hash := n]
    requires t.status == s.status[hash := VALID_STATUS] && IsChild(n, s.Tip(), hash)
    requires Named(s.Tip(), tag) && hash == 2 * (s.Tip().height + 1) + tag
    ensures Plain(t) && |t.best| > 0 && t.Tip() == n && n.height == s.Tip().height + 1 && Named(n, tag)
  {
    hide *;
    SoundFacts(t);
    TreeFacts(t);
    TipIs(t);
    IsChildFacts(n, s.Tip(), hash);
    CoinbaseIs(n, s.Tip(), hash);
    PlainMore(s, t, hash, n, VALID_STATUS);
    NamedChild(n, s.Tip(), tag);
  }

  /** Another chain beside it, up to the same length. */
  lemma {:induction false} GrowSide(states: seq<ChainState>, ops: seq<Operation>, s: ChainState, a: nat, b: nat)
    returns (more: seq<ChainState>, taken: seq<Operation>, t: ChainState, n: BlockNode)
    requires Reaches(states, ops, s) && Names(s, a, 0) && 0 < a && b <= a
    requires |s.best| > 0 && s.Tip().height == a && Named(s.Tip(), 0)
    ensures Reaches(more, taken, t) && Names(t, a, b) && states <= more
    ensures t.best == s.best && Grows(s, t) && t.Has(n) && n.height == b && Named(n, 1)
    decreases b
  {
    hide *;
    ReachesFacts(states, ops, s);
    if b == 0 {
      more, taken, t, n := states, ops, s, s.best[0];
      SideStarts(s, n);
    } else {
      var before: ChainState, p: BlockNode;
      more, taken, before, p := GrowSide(states, ops, s, a, b - 1);
      ReachesFacts(more, taken, before);
      NamesFresh(before, a, b - 1);
      SameTip(s, before);
      SideReady(before, p, a);
      more, taken, t, n := GoesAside(more, taken, before, p, 2 * b + 1);
      Beside(before, t, p, n, 2 * b + 1);
      NamesMore(before, t, a, b - 1, 2 * b + 1, n);
      IsChildFacts(n, p, 2 * b + 1);
      IndexMore(before, t, 2 * b + 1, n);
      GrowsOn(s, before, t);
      ReachesIs(more, taken, t);
    }
  }

  lemma SideStarts(s: ChainState, g: BlockNode)
    requires Sound(s) && |s.best| > 0 && g == s.best[0] && Named(s.Tip(), 0)
    ensures s.Has(g) && g.height == 0 && Named(g, 1) && Grows(s, s)
  {
    hide Sound, Tree, Chained, IsCoinbase;
    SoundFacts(s);
    TreeFacts(s);
    PathAt(s.Tip());
    assert NamedAt(At(s.Tip(), 0), 0, 0);
  }

  lemma SideReady(s: ChainState, p: BlockNode, a: nat)
    requires Sound(s) && Plain(s) && s.Has(p) && Named(p, 1) && p.height < a
    requires |s.best| > 0 && s.Tip().height == a && Named(s.Tip(), 0)
    ensures !s.KnownInvalid(p) && p != s.Tip() && p.workSum < s.Tip().workSum
  {
    hide *;
    NamedHere(p, 1);
    NamedHere(s.Tip(), 0);
    PlainAt(s, p);
  }

  lemma PlainAt(s: ChainState, x: BlockNode)
    requires Plain(s)
    ensures !s.KnownInvalid(x) && !Tainted(s.status, x)
    ensures forall h :: h in s.index ==> IsCoinbase(s.index[h])
  {
    hide Path, IsCoinbase;
  }

  lemma Beside(s: ChainState, t: ChainState, p: BlockNode, n: BlockNode, hash: Hash)
    requires Sound(t) && Plain(s) && t.index == s.index[hash := n] && t.status == s.status[hash := NEW_STATUS]
    requires Named(p, 1) && IsChild(n, p, hash) && hash == 2 * (p.height + 1) + 1
    ensures Plain(t) && n.height == p.height + 1 && Named(n, 1)
  {
    hide *;
    SoundFacts(t);
    IsChildFacts(n, p, hash);
    CoinbaseIs(n, p, hash);
    HasNew(t, n, hash);
    NodeFacts(t, n);
    PlainMore(s, t, hash, n, NEW_STATUS);
    NamedChild(n, p, 1);
  }

  lemma HasNew(t: ChainState, n: BlockNode, hash: Hash)
    requires hash in t.index && t.index[hash] == n && n.Hash() == hash
    ensures t.Has(n)
  {
  }

  /** One block more, and the chain beside the best one takes over. */
  lemma Overtakes(states: seq<ChainState>, ops: seq<Operation>, s: ChainState, p: BlockNode, a: nat)
    returns (more: seq<ChainState>, taken: seq<Operation>, t: ChainState, n: BlockNode)
    requires Reaches(states, ops, s) && Names(s, a, a) && |s.best| > 0 && 0 < a && s.Tip().height == a
    requires Named(s.Tip(), 0) && s.Has(p) && p.height == a && Named(p, 1)
    ensures Reaches(more, taken, t) && Names(t, a, a + 1) && states <= more && Grows(s, t)
    ensures |t.best| > 0 && t.Tip() == n && n.height == a + 1 && Named(n, 1)
    ensures forall x :: x in s.best ==> t.KnownValid(x)
  {
    hide *;
    var hash := 2 * (a + 1) + 1;
    var block := CoinbaseBlock(hash, p.Hash());
    ReachesFacts(states, ops, s);
    NamesFresh(s, a, a);
    t, n := Overtake(s, p, hash, a);
    AcceptLeads(s, block, t);
    Goes(states, ops, s, AcceptBlock(block), t);
    more, taken := states + [t], ops + [AcceptBlock(block)];
    NamesMore(s, t, a, a, hash, n);
    IndexMore(s, t, hash, n);
    ReachesIs(more, taken, t);
  }

  lemma Overtake(s: ChainState, p: BlockNode, hash: Hash, a: nat) returns (t: ChainState, n: BlockNode)
    requires Sound(s) && Plain(s) && hash !in s.index && hash == 2 * (a + 1) + 1
    requires |s.best| > 0 && 0 < a && s.Tip().height == a && Named(s.Tip(), 0) && s.Has(p) && p.height == a
    requires Named(p, 1)
    ensures Tree(s) && Replay(s.best) == Some(s.ledger)
    ensures Accept(LENIENT, s, CoinbaseBlock(hash, p.Hash())).state == t
    ensures Sound(t) && Plain(t) && t.index == s.index[hash := n] && n.Hash() == hash
    ensures |t.best| > 0 && t.Tip() == n && n.height == a + 1 && Named(n, 1)
    ensures forall x :: x in s.best ==> t.KnownValid(x)
  {
    hide *;
    SoundFacts(s);
    TreeFacts(s);
    var block := CoinbaseBlock(hash, p.Hash());
    n := NewChild(s, p, hash);
    IsChildFacts(n, p, hash);
    HasIndex(s, p);
    NamedHere(p, 1);
    NamedHere(s.Tip(), 0);
    PlainAt(s, p);
    AcceptUnfold(LENIENT, s, block);
    LenientIs(block, p);
    AddNodeSound(s, n);
    AddNodeFacts(s, n);
    var u := AddNode(s, n);
    CoinbaseIs(n, p, hash);
    PlainMore(s, u, hash, n, NEW_STATUS);
    NodeFacts(u, n);
    ConnectBestUnfold(LENIENT, u, n);
    t := ReorganizeTo(LENIENT, u, n).state;
    Overtaken(u, n, t);
    NamedChild(n, p, 1);
  }

  lemma Overtaken(u: ChainState, n: BlockNode, t: ChainState)
    requires Sound(u) && Plain(u) && u.Has(n) && n.parent.Some? && n !in u.best && Tree(u) && Replay(u.best).Some?
    requires t == ReorganizeTo(LENIENT, u, n).state
    ensures Sound(t) && Plain(t) && t.index == u.index && |t.best| > 0 && t.Tip() == n
    ensures forall x :: x in u.best ==> t.KnownValid(x)
  {
    hide *;
    PlainAt(u, n);
    LenientMoves(u, n);
    ReorganizeExact(LENIENT, u, n);
    ReorganizeToSound(LENIENT, u, n);
    SoundFacts(u);
    NodeFacts(u, n);
    PathAt(n);
    AttachOffBranch(u, n);
    ReorganizedChanges(u, n, ReorganizeTo(LENIENT, u, n));
    SoundFacts(t);
    TreeFacts(t);
    TipIs(t);
    MovesIs(LENIENT, u, n);
    forall x | u.Has(x)
      ensures !t.KnownInvalid(x)
    {
      PlainAt(u, x);
      NoFlags(u, n, x);
    }
    PlainIs(u, t);
    forall x | x in u.best
      ensures t.KnownValid(x)
    {
      StatusAt(u, x);
      StatusAt(t, x);
      ChangesOnlyAt(u.status, t.status, Attach(u.best, n), x);
    }
  }

  lemma NoFlags(s: ChainState, n: BlockNode, x: BlockNode)
    requires Tree(s) && s.Has(n) && n.parent.Some? && Moves(LENIENT, s, n)
    ensures !Flags(LENIENT, s, n, x)
  {
    hide Tree, Tainted, Stop, Attach;
  }

  lemma ReorganizedChanges(s: ChainState, n: BlockNode, o: Outcome)
    requires Reorganized(s, n, o)
    ensures Sound(o.state) && ChangesOnly(s.status, o.state.status, Attach(s.best, n))
  {
    hide Sound, Path, Tainted, Attach, ChangesOnly;
  }

  lemma ChangesOnlyAt(before: Statuses, after: Statuses, nodes: seq<BlockNode>, x: BlockNode)
    requires ChangesOnly(before, after, nodes) && x.Hash() in before && forall y :: y in nodes ==> y.Hash() != x.Hash()
    ensures x.Hash() in after && after[x.Hash()] == before[x.Hash()]
  {
  }

  lemma PlainIs(s: ChainState, t: ChainState)
    requires Plain(s) && Tree(s) && Tree(t) && t.index == s.index && forall x :: s.Has(x) ==> !t.KnownInvalid(x)
    ensures Plain(t)
  {
    hide Tree, IsCoinbase;
    TreeFacts(t);
    forall h | h in t.status
      ensures !t.status[h].KnownInvalid()
    {
      TreeKeys(s, h);
      assert s.Has(s.index[h]);
    }
  }

  /** The best chain grown further. */
  lemma {:induction false} GrowTip(states: seq<ChainState>, ops: seq<Operation>, s: ChainState, a: nat, b: nat, c: nat)
    returns (more: seq<ChainState>, taken: seq<Operation>, t: ChainState)
    requires Reaches(states, ops, s) && Names(s, a, b) && |s.best| > 0 && s.Tip().height == b <= c && Named(s.Tip(), 1)
    ensures Reaches(more, taken, t) && states <= more && Grows(s, t)
    ensures |t.best| > 0 && t.Tip().height == c && Named(t.Tip(), 1)
    ensures forall h :: h in s.status ==> h in t.status && (s.status[h].KnownValid() ==> t.status[h].KnownValid())
    decreases c - b
  {
    hide *;
    if b == c {
      more, taken, t := states, ops, s;
      GrowsSelf(s);
    } else {
      ReachesFacts(states, ops, s);
      NamesFresh(s, a, b);
      var hash := 2 * (b + 1) + 1;
      var u: ChainState, n: BlockNode;
      more, taken, u, n := GoesOn(states, ops, s, hash);
      Extends(s, u, n, hash, 1);
      IsChildFacts(n, s.Tip(), hash);
      NamesMore(s, u, a, b, hash, n);
      IndexMore(s, u, hash, n);
      ReachesIs(more, taken, u);
      more, taken, t := GrowTip(more, taken, u, a, b + 1, c);
      GrowsOn(s, u, t);
      ValidStays(s, u, t, hash);
    }
  }

  lemma GrowsSelf(s: ChainState)
    ensures Grows(s, s)
  {
  }

  lemma ValidStays(s: ChainState, u: ChainState, t: ChainState, hash: Hash)
    requires u.status == s.status[hash := VALID_STATUS]
    requires forall h :: h in u.status ==> h in t.status && (u.status[h].KnownValid() ==> t.status[h].KnownValid())
    ensures forall h :: h in s.status ==> h in t.status && (s.status[h].KnownValid() ==> t.status[h].KnownValid())
  {
  }

  // ---- the cache of two chains

  lemma NamedCheckpoint(s: ChainState, n: BlockNode, tag: nat, i: nat)
    requires Named(n, tag) && 1000 * (i + 1) <= n.height
    ensures IsIntervalHash(2000 * (i + 1) + tag, n, CF_CHECKPT_INTERVAL, i)
  {
    hide Chained;
    assert NamedAt(At(n, 1000 * (i + 1)), 1000 * (i + 1), tag);
  }

  lemma ShorterRequest(s: ChainState, n: BlockNode)
    requires Named(n, 0) && n.height == 3000 && s.Has(n)
    ensures IsRequest(s, n, SHORTER) && SingleChain(s, CACHED, TenTimes)
  {
    hide Chained, At, IsIntervalHash, NamedAt;
    NamedCheckpoint(s, n, 0, 0);
    NamedCheckpoint(s, n, 0, 1);
    NamedCheckpoint(s, n, 0, 2);
    assert CacheOf(CACHED, n, TenTimes);
  }

  lemma LongerRequest(s: ChainState, n: BlockNode)
    requires Named(n, 1) && n.height == 4000 && s.Has(n)
    ensures IsRequest(s, n, LONGER)
  {
    hide Chained, At, IsIntervalHash, NamedAt;
    NamedCheckpoint(s, n, 1, 0);
    NamedCheckpoint(s, n, 1, 1);
    NamedCheckpoint(s, n, 1, 2);
    NamedCheckpoint(s, n, 1, 3);
  }

  /** A run from genesis in which one chain is the best up to its height 3000, and another
      takes over and reaches 4000. */
  lemma GrowBoth() returns (states: seq<ChainState>, ops: seq<Operation>, i: nat, a: BlockNode, b: BlockNode)
    ensures IsHistory(LENIENT, states, ops) && i < |states| && states[0] == Genesis(CoinbaseBlock(1, 0))
    ensures var s, t := states[i], states[|states| - 1];
      && Sound(s) && a in s.best && s.Has(a) && Named(a, 0) && a.height == 3000
      && Sound(t) && b in t.best && t.Has(b) && Named(b, 1) && b.height == 4000
      && t.Has(a) && t.KnownValid(a) && t.KnownValid(b)
  {
    hide *;
    var s, u, v, t: ChainState, p, n: BlockNode;
    states, ops, s := GrowMain(3000);
    ReachesFacts(states, ops, s);
    SoundFacts(s);
    TreeFacts(s);
    i, a := |states| - 1, s.Tip();
    states, ops, u, p := GrowSide(states, ops, s, 3000, 3000);
    SameTip(s, u);
    states, ops, v, n := Overtakes(states, ops, u, p, 3000);
    states, ops, t := GrowTip(states, ops, v, 3000, 3001, 4000);
    ReachesFacts(states, ops, t);
    SoundFacts(t);
    TreeFacts(t);
    b := t.Tip();
    GrowsOn(s, u, v);
    GrowsOn(s, v, t);
    StillThere(s, t, a);
    StatusAt(v, a);
    StatusAt(t, a);
  }

  /** A run from genesis in which the cache, filled with the checkpoints of the best chain,
      is left with those of two chains by a request for the chain that took over, and in
      which the first chain, still known to be valid, is then answered with a header of
      the second. */
  lemma MixedHistory() returns (states: seq<ChainState>, ops: seq<Operation>, i: nat, a: BlockNode, b: BlockNode)
    ensures IsHistory(LENIENT, states, ops) && i < |states| && states[0] == Genesis(CoinbaseBlock(1, 0))
    ensures var s, t, after := states[i], states[|states| - 1], After(CACHED, true, LONGER, FoundOne, false);
      && Sound(s) && a in s.best && IsRequest(s, a, SHORTER)
      && After([], false, SHORTER, FoundAll, false) == CACHED && Faithful(FoundAll, TenTimes)
      && Sound(t) && Tree(t) && b in t.best && IsRequest(t, b, LONGER) && SingleChain(t, CACHED, TenTimes)
      && Faithful(FoundOne, TenTimes) && Mixes(CACHED, true, LONGER, FoundOne, false)
      && !SingleChain(t, after, TenTimes)
      && t.KnownValid(a) && t.KnownValid(b) && IsRequest(t, a, SHORTER)
      && Answered(after, SHORTER, FoundOne, false)
      && Reply(after, SHORTER, FoundOne, Fork(after, SHORTER, 3))[0] == TenTimes(LONGER[0]) != TenTimes(SHORTER[0])
  {
    hide *;
    states, ops, i, a, b := GrowBoth();
    var s, t := states[i], states[|states| - 1];
    SoundFacts(t);
    ShorterRequest(s, a);
    ShorterRequest(t, a);
    LongerRequest(t, b);
    MixedCache();
    SingleChainKept(t, CACHED, TenTimes, b, LONGER, true, FoundOne, false);
  }

  lemma StillThere(s: ChainState, t: ChainState, x: BlockNode)
    requires s.Has(x) && Grows(s, t)
    ensures t.Has(x)
  {
  }
}
