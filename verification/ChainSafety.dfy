/** What chain selection keeps over every run: the invariants of the chain state,
    and that the best chain is a heaviest chain not known to be invalid. */
module ChainSafety {
  import opened Wire
  import opened BlockTree
  import opened Utxo
  import opened ChainSpec

  // ---- the invariant

  /** The view is a branch of the tree; the ledger and the snapshot are those of
      replaying it from genesis; its nodes are validated and not invalidated; and
      only nodes that can be replayed count as validated. */
  ghost predicate Sound(s: ChainState) {
    && Tree(s)
    && Replay(s.best) == Some(s.ledger)
    && s.snapshot == SnapshotOf(s.best)
    && (forall x :: x in s.best ==> s.Has(x) && s.KnownValid(x) && !s.KnownInvalid(x))
    && ValidReplays(s.index, s.status)
  }

  ghost predicate ValidReplays(index: map<Hash, BlockNode>, status: Statuses) {
    forall h :: h in index && h in status && status[h].KnownValid() ==> Replay(Path(index[h])).Some?
  }

  // ---- the dry run

  ghost predicate DistinctHashes(nodes: seq<BlockNode>) {
    forall i, j :: 0 <= i < j < |nodes| ==> nodes[i].Hash() != nodes[j].Hash()
  }

  /** How a dry run that stops at the k-th node leaves the statuses: validated
      before it, failed at it, invalid by ancestry after it, all else unchanged.
      With k past the end, every node is validated. */
  ghost predicate Verdict(before: Statuses, after: Statuses, attach: seq<BlockNode>, k: nat) {
    && after.Keys == before.Keys
    && (forall h :: h in before && h !in HashSet(attach) ==> after[h] == before[h])
    && forall i :: 0 <= i < |attach| ==>
         var h := attach[i].Hash();
         && h in before
         && after[h] == SetFlag(before[h], if i < k then Valid else if i == k then ValidateFailed else InvalidAncestor)
  }

  /** Whether a block that is not validated breaks a rule on top of a chain. */
  ghost predicate Breaks(r: Rules, base: seq<BlockNode>, status: Statuses, n: BlockNode)
    requires |base| > 0
  {
    && (n.Hash() in status ==> !status[n.Hash()].KnownValid())
    && (Replay(base).Some? ==> !CheckConnect(r, Replay(base).value, n))
  }

  /** The first of some blocks, one on top of the other, to break a rule; how many there
      are if none does. */
  ghost function StopAt(r: Rules, base: seq<BlockNode>, status: Statuses, attach: seq<BlockNode>): (k: nat)
    requires |base| > 0
    ensures k <= |attach|
    decreases |attach|
  {
    if attach == [] || Breaks(r, base, status, attach[0]) then 0
    else 1 + StopAt(r, base + [attach[0]], status, attach[1..])
  }

  lemma {:induction false} StopAtSame(r: Rules, base: seq<BlockNode>, status: Statuses, st: Statuses,
      attach: seq<BlockNode>)
    requires |base| > 0 && forall x :: x in attach ==> x.Hash() in status && x.Hash() in st
    requires forall x :: x in attach ==> status[x.Hash()] == st[x.Hash()]
    ensures StopAt(r, base, status, attach) == StopAt(r, base, st, attach)
    decreases |attach|
  {
    hide Replay, CheckConnect;
    if attach != [] {
      assert attach[0] in attach;
      StopAtSame(r, base + [attach[0]], status, st, attach[1..]);
    }
  }

  lemma StopAtUnfold(r: Rules, base: seq<BlockNode>, status: Statuses, attach: seq<BlockNode>, l: Ledger)
    requires |base| > 0 && Replay(base) == Some(l) && forall x :: x in attach ==> x.Hash() in status
    ensures attach == [] ==> StopAt(r, base, status, attach) == 0
    ensures attach != [] ==>
      && attach[0].Hash() in status
      && StopAt(r, base, status, attach) ==
           if !status[attach[0].Hash()].KnownValid() && !CheckConnect(r, l, attach[0]) then 0
           else 1 + StopAt(r, base + [attach[0]], status, attach[1..])
  {
    hide Replay, CheckConnect;
  }

  /** The dry run from the ledger of a chain: it stops at the first node that is
      not validated and breaks a rule on the chain up to it, and passes exactly
      when there is none; it never misses an input of a validated node. */
  lemma CheckOutcome(r: Rules, base: seq<BlockNode>, l: Ledger, status: Statuses, attach: seq<BlockNode>)
    returns (k: nat)
    requires |base| > 0 && Replay(base) == Some(l)
    requires forall x :: x in attach ==> x.Hash() in status
    requires DistinctHashes(attach)
    requires forall i :: 0 <= i < |attach| && status[attach[i].Hash()].KnownValid() ==>
      Replay(base + attach[..i + 1]).Some?
    ensures k == StopAt(r, base, status, attach) <= |attach| && Replay(base + attach[..k]).Some?
    ensures var c := Check(r, l, status, attach);
      && Verdict(status, c.status, attach, k)
      && !c.Missing? && (c.Passed? <==> k == |attach|)
      && (c.Passed? ==> Replay(base + attach) == Some(c.ledger))
    ensures k < |attach| ==> !status[attach[k].Hash()].KnownValid()
    ensures k < |attach| ==> !CheckConnect(r, Replay(base + attach[..k]).value, attach[k])
    decreases |attach|
  {
    hide *;
    CheckUnfold(r, l, status, attach);
    StopAtUnfold(r, base, status, attach, l);
    if attach == [] {
      k := 0;
      assert base + attach == base && base + attach[..0] == base;
      VerdictEmpty(status);
      return;
    }
    var n, rest := attach[0], attach[1..];
    ReplayUnfold(base, n);
    if !status[n.Hash()].KnownValid() && !CheckConnect(r, l, n) {
      k := 0;
      assert base + attach[..0] == base;
      VerdictFirst(status, attach);
      return;
    }
    var st := if status[n.Hash()].KnownValid() then status else MarkOne(status, n, Valid);
    CheckConnectFacts(r, l, n);
    ConnectNodeAny(l, n);
    assert attach[..1] == [n];
    var l' := ConnectNode(l, n).value;
    CheckRest(base, status, st, attach);
    var k' := CheckOutcome(r, base + [n], l', st, rest);
    RestAgrees(status, st, attach, rest);
    StopAtSame(r, base + [n], status, st, rest);
    k := k' + 1;
    Shift(base, attach, k');
    VerdictNext(status, st, Check(r, l', st, rest).status, attach, k');
    Shift(base, attach, |rest|);
    assert attach[..|attach|] == attach && rest[..|rest|] == rest;
  }

  lemma CheckUnfold(r: Rules, l: Ledger, status: Statuses, attach: seq<BlockNode>)
    requires forall x :: x in attach ==> x.Hash() in status
    ensures attach == [] ==> Check(r, l, status, attach) == Passed(status, l)
    ensures attach != [] ==>
      var n, rest := attach[0], attach[1..];
      && n.Hash() in status
      && (status[n.Hash()].KnownValid() ==>
        Check(r, l, status, attach) ==
          if ConnectAny(l, n).Some? then Check(r, ConnectAny(l, n).value, status, rest) else Missing(status))
      && (!status[n.Hash()].KnownValid() && !CheckConnect(r, l, n) ==>
        Check(r, l, status, attach) == Refused(Mark(MarkOne(status, n, ValidateFailed), rest, InvalidAncestor)))
      && (!status[n.Hash()].KnownValid() && CheckConnect(r, l, n) ==>
        && ConnectNode(l, n).Some?
        && Check(r, l, status, attach) == Check(r, ConnectNode(l, n).value, MarkOne(status, n, Valid), rest))
  {
  }

  lemma CheckConnectFacts(r: Rules, l: Ledger, n: BlockNode)
    ensures CheckConnect(r, l, n) ==> ConnectNode(l, n).Some?
  {
  }

  lemma ConnectNodeAny(l: Ledger, n: BlockNode)
    ensures ConnectNode(l, n).Some? ==> ConnectAny(l, n) == ConnectNode(l, n)
  {
  }

  lemma ReplayUnfold(base: seq<BlockNode>, n: BlockNode)
    requires |base| > 0 && Replay(base).Some?
    ensures Replay(base + [n]) == ConnectNode(Replay(base).value, n)
  {
    assert (base + [n])[..|base|] == base;
  }

  lemma Shift(base: seq<BlockNode>, attach: seq<BlockNode>, k: nat)
    requires attach != [] && k < |attach|
    ensures (base + [attach[0]]) + attach[1..][..k] == base + attach[..k + 1]
  {
  }

  lemma VerdictEmpty(status: Statuses)
    ensures Verdict(status, status, [], 0)
  {
  }

  lemma VerdictFirst(status: Statuses, attach: seq<BlockNode>)
    requires attach != [] && DistinctHashes(attach) && forall x :: x in attach ==> x.Hash() in status
    ensures Verdict(status, Mark(MarkOne(status, attach[0], ValidateFailed), attach[1..], InvalidAncestor), attach, 0)
  {
    var st := Mark(MarkOne(status, attach[0], ValidateFailed), attach[1..], InvalidAncestor);
    forall i | 0 <= i < |attach|
      ensures attach[i].Hash() in HashSet(attach)
      ensures attach[i].Hash() in HashSet(attach[1..]) <==> i > 0
    {
      if i > 0 { assert attach[1..][i - 1] == attach[i]; }
    }
    forall h | h in status && h !in HashSet(attach)
      ensures st[h] == status[h]
    {
    }
  }

  /** The rest of the list starts from statuses that differ at the first node only. */
  lemma CheckRest(base: seq<BlockNode>, status: Statuses, st: Statuses, attach: seq<BlockNode>)
    requires attach != [] && DistinctHashes(attach) && forall x :: x in attach ==> x.Hash() in status
    requires st == status || st == MarkOne(status, attach[0], Valid)
    requires forall i :: 0 <= i < |attach| && status[attach[i].Hash()].KnownValid() ==>
      Replay(base + attach[..i + 1]).Some?
    ensures DistinctHashes(attach[1..]) && forall x :: x in attach[1..] ==> x.Hash() in st
    ensures forall i :: 0 <= i < |attach| - 1 ==>
      attach[1..][i] == attach[i + 1] && st[attach[i + 1].Hash()] == status[attach[i + 1].Hash()]
    ensures forall i :: 0 <= i < |attach[1..]| && st[attach[1..][i].Hash()].KnownValid() ==>
      Replay(base + [attach[0]] + attach[1..][..i + 1]).Some?
  {
    hide Replay;
    forall i | 0 <= i < |attach[1..]| && st[attach[1..][i].Hash()].KnownValid()
      ensures Replay(base + [attach[0]] + attach[1..][..i + 1]).Some?
    {
      Shift(base, attach, i + 1);
      assert attach[1..][i] == attach[i + 1];
    }
  }

  lemma RestAgrees(status: Statuses, st: Statuses, attach: seq<BlockNode>, rest: seq<BlockNode>)
    requires attach != [] && rest == attach[1..]
    requires (forall x :: x in attach ==> x.Hash() in status) && (forall x :: x in rest ==> x.Hash() in st)
    requires forall i :: 0 <= i < |rest| ==>
      rest[i] == attach[i + 1] && rest[i].Hash() in st && st[attach[i + 1].Hash()] == status[attach[i + 1].Hash()]
    ensures forall x :: x in rest ==> x.Hash() in status && x.Hash() in st && status[x.Hash()] == st[x.Hash()]
  {
    forall x | x in rest
      ensures x.Hash() in status && x.Hash() in st && status[x.Hash()] == st[x.Hash()]
    {
      var i :| 0 <= i < |rest| && rest[i] == x;
      assert attach[i + 1] in attach;
    }
  }

  lemma VerdictNext(status: Statuses, st: Statuses, after: Statuses, attach: seq<BlockNode>, k: nat)
    requires attach != [] && DistinctHashes(attach) && attach[0].Hash() in status
    requires st == MarkOne(status, attach[0], Valid) || (st == status && status[attach[0].Hash()].KnownValid())
    requires Verdict(st, after, attach[1..], k)
    ensures Verdict(status, after, attach, k + 1)
  {
    var h0 := attach[0].Hash();
    assert st[h0] == SetFlag(status[h0], Valid);
    assert forall j :: 0 <= j < |attach[1..]| ==> attach[1..][j] == attach[j + 1];
    assert h0 !in HashSet(attach[1..]);
    assert HashSet(attach) == HashSet(attach[1..]) + {h0} by {
      assert forall i :: 0 < i < |attach| ==> attach[i] == attach[1..][i - 1];
    }
    forall i | 0 <= i < |attach|
      ensures attach[i].Hash() in status
      ensures after[attach[i].Hash()] == SetFlag(status[attach[i].Hash()],
        if i < k + 1 then Valid else if i == k + 1 then ValidateFailed else InvalidAncestor)
    {
      if i > 0 { assert attach[1..][i - 1] == attach[i]; }
    }
  }

  // ---- every operation keeps the invariant

  /** The nodes to attach have distinct hashes, none of them on the branch. */
  lemma AttachOffBranch(s: ChainState, n: BlockNode)
    requires Tree(s) && s.Has(n)
    ensures DistinctHashes(Attach(s.best, n))
    ensures forall x :: x in Attach(s.best, n) ==> x !in s.best && s.Has(x)
    ensures forall x, y :: x in Attach(s.best, n) && y in s.best ==> x.Hash() != y.Hash()
  {
    hide *;
    NodeFacts(s, n);
    TreeFacts(s);
    AttachSplits(s, n);
    AttachIndexed(s, n);
    var attach := Attach(s.best, n);
    var f := n.height - |attach|;
    forall i, j | 0 <= i < j < |attach|
      ensures attach[i].Hash() != attach[j].Hash()
    {
      PathDistinct(s, n, f + 1 + i, f + 1 + j);
    }
    DistinctHashesIs(attach);
    forall x | x in attach
      ensures x !in s.best && s.Has(x)
    {
      AttachAvoids(s.best, n, x);
    }
    forall x, y | x in attach && y in s.best
      ensures x.Hash() != y.Hash()
    {
      SameHash(s, x, y);
    }
  }

  lemma DistinctHashesIs(nodes: seq<BlockNode>)
    requires forall i, j :: 0 <= i < j < |nodes| ==> nodes[i].Hash() != nodes[j].Hash()
    ensures DistinctHashes(nodes)
  {
  }

  lemma {:induction false} AttachAvoids(best: seq<BlockNode>, n: BlockNode, x: BlockNode)
    requires x in Attach(best, n)
    ensures x !in best
  {
    if n.parent.Some? && x in Attach(best, n.parent.value) { AttachAvoids(best, n.parent.value, x); }
  }

  lemma SameHash(s: ChainState, x: BlockNode, y: BlockNode)
    requires s.Has(x) && s.Has(y)
    ensures x.Hash() == y.Hash() ==> x == y
  {
  }

  /** The chain to the i-th attached node is the branch up to the fork and the
      attached nodes up to it. */
  lemma AttachPrefix(s: ChainState, n: BlockNode, i: nat)
    requires Tree(s) && s.Has(n) && i < |Attach(s.best, n)|
    ensures var attach := Attach(s.best, n);
      var f := n.height - |attach|;
      && 0 <= f < |s.best|
      && Path(attach[i]) == s.best[..f + 1] + attach[..i + 1]
  {
    hide *;
    NodeFacts(s, n);
    AttachSplits(s, n);
    var attach := Attach(s.best, n);
    var f := n.height - |attach|;
    PathAt(n);
    PathPrefix(n, f + 1 + i);
    assert Path(n)[f + 1 + i] == attach[i];
    assert Path(n)[..f + 2 + i] == s.best[..f + 1] + attach[..i + 1];
  }

  /** A validated node among those to attach can be replayed on the branch. */
  lemma AttachReplays(s: ChainState, n: BlockNode)
    requires Tree(s) && s.Has(n) && ValidReplays(s.index, s.status)
    ensures var attach := Attach(s.best, n);
      var f := n.height - |attach|;
      && 0 <= f < |s.best|
      && (forall x :: x in attach ==> x.Hash() in s.status)
      && forall i :: 0 <= i < |attach| && s.status[attach[i].Hash()].KnownValid() ==>
           Replay(s.best[..f + 1] + attach[..i + 1]).Some?
  {
    hide *;
    AttachSplits(s, n);
    AttachIndexed(s, n);
    var attach := Attach(s.best, n);
    forall i | 0 <= i < |attach| && s.status[attach[i].Hash()].KnownValid()
      ensures Replay(s.best[..n.height - |attach| + 1] + attach[..i + 1]).Some?
    {
      AttachPrefix(s, n, i);
      ValidReplaysAt(s, attach[i]);
    }
  }

  lemma ValidReplaysAt(s: ChainState, x: BlockNode)
    requires ValidReplays(s.index, s.status) && s.Has(x) && x.Hash() in s.status && s.status[x.Hash()].KnownValid()
    ensures Replay(Path(x)).Some?
  {
  }

  /** What a verdict on the nodes to attach means for validity. */
  lemma VerdictSound(s: ChainState, n: BlockNode, after: Statuses, k: nat)
    requires Sound(s) && s.Has(n)
    requires var attach := Attach(s.best, n);
      var f := n.height - |attach|;
      && Verdict(s.status, after, attach, k) && k <= |attach|
      && 0 <= f < |s.best| && Replay(s.best[..f + 1] + attach[..k]).Some?
    ensures after.Keys == s.status.Keys && ValidReplays(s.index, after)
    ensures forall x :: x in s.best ==> x.Hash() in after && after[x.Hash()] == s.status[x.Hash()]
    ensures forall h :: h in s.status && s.status[h].KnownInvalid() ==> after[h].KnownInvalid()
    ensures k < |Attach(s.best, n)| ==> s.Has(Attach(s.best, n)[k]) && after[Attach(s.best, n)[k].Hash()].KnownInvalid()
  {
    hide *;
    var attach := Attach(s.best, n);
    SoundFacts(s);
    AttachOffBranch(s, n);
    AttachIndexed(s, n);
    TreeFacts(s);
    VerdictKeys(s.status, after, attach, k);
    forall h | h in s.index && h in after && after[h].KnownValid()
      ensures Replay(Path(s.index[h])).Some?
    {
      VerdictReplays(s, n, after, k, h);
    }
    ValidReplaysIs(s.index, after);
    forall x | x in s.best
      ensures x.Hash() in after && after[x.Hash()] == s.status[x.Hash()]
    {
      NodeFacts(s, x);
      HashNotIn(attach, x);
      VerdictElsewhere(s.status, after, attach, k, x.Hash());
    }
  }

  lemma VerdictElsewhere(before: Statuses, after: Statuses, attach: seq<BlockNode>, k: nat, h: Hash)
    requires Verdict(before, after, attach, k) && h in before && h !in HashSet(attach)
    ensures h in after && after[h] == before[h]
  {
  }

  lemma SoundFacts(s: ChainState)
    requires Sound(s)
    ensures Tree(s) && Replay(s.best) == Some(s.ledger) && ValidReplays(s.index, s.status)
    ensures s.snapshot == SnapshotOf(s.best)
    ensures forall x :: x in s.best ==> s.Has(x) && s.KnownValid(x) && !s.KnownInvalid(x)
  {
  }

  lemma ValidReplaysIs(index: map<Hash, BlockNode>, status: Statuses)
    requires forall h :: h in index && h in status && status[h].KnownValid() ==> Replay(Path(index[h])).Some?
    ensures ValidReplays(index, status)
  {
  }

  lemma VerdictKeys(before: Statuses, after: Statuses, attach: seq<BlockNode>, k: nat)
    requires Verdict(before, after, attach, k)
    ensures after.Keys == before.Keys
    ensures forall h :: h in before && before[h].KnownInvalid() ==> after[h].KnownInvalid()
    ensures k < |attach| ==> attach[k].Hash() in after && after[attach[k].Hash()].KnownInvalid()
  {
    forall h | h in before && before[h].KnownInvalid()
      ensures after[h].KnownInvalid()
    {
      var i := VerdictAt(before, after, attach, k, h);
    }
  }

  lemma VerdictAt(before: Statuses, after: Statuses, attach: seq<BlockNode>, k: nat, h: Hash) returns (i: int)
    requires Verdict(before, after, attach, k) && h in before
    ensures h in after && -1 <= i < |attach|
    ensures i == -1 ==> after[h] == before[h]
    ensures i >= 0 ==>
      && attach[i].Hash() == h
      && after[h] == SetFlag(before[h], if i < k then Valid else if i == k then ValidateFailed else InvalidAncestor)
  {
    if h in HashSet(attach) {
      i :| 0 <= i < |attach| && attach[i].Hash() == h;
    } else {
      i := -1;
    }
  }

  lemma VerdictReplays(s: ChainState, n: BlockNode, after: Statuses, k: nat, h: Hash)
    requires Tree(s) && s.Has(n) && ValidReplays(s.index, s.status)
    requires var attach := Attach(s.best, n);
      var f := n.height - |attach|;
      && Verdict(s.status, after, attach, k) && k <= |attach|
      && 0 <= f < |s.best| && Replay(s.best[..f + 1] + attach[..k]).Some?
    requires h in s.index && h in after && after[h].KnownValid() && h in s.status
    ensures Replay(Path(s.index[h])).Some?
  {
    hide Replay, Path, Tree, Attach, Linked, Verdict, HashSet;
    var attach := Attach(s.best, n);
    var f := n.height - |attach|;
    var i := VerdictAt(s.status, after, attach, k, h);
    if !s.status[h].KnownValid() {
      AttachIndexed(s, n);
      assert attach[i] in attach;
      AttachPrefix(s, n, i);
      ReplayPrefix(s.best[..f + 1] + attach[..k], f + 2 + i);
      assert (s.best[..f + 1] + attach[..k])[..f + 2 + i] == s.best[..f + 1] + attach[..i + 1];
    }
  }

  /** Known to be invalid, itself or through an ancestor. */
  ghost predicate Tainted(status: Statuses, n: BlockNode) {
    exists x :: x in Path(n) && x.Hash() in status && status[x.Hash()].KnownInvalid()
  }

  /** Invalidity is never taken back. */
  ghost predicate KeepsInvalid(before: Statuses, after: Statuses) {
    && after.Keys == before.Keys
    && forall h :: h in before && before[h].KnownInvalid() ==> after[h].KnownInvalid()
  }

  /** Only these nodes' statuses may differ. */
  ghost predicate ChangesOnly(before: Statuses, after: Statuses, nodes: seq<BlockNode>) {
    && after.Keys == before.Keys
    && forall h :: h in before && h !in HashSet(nodes) ==> after[h] == before[h]
  }

  lemma {:induction false} ValidSuffixFacts(status: Statuses, nodes: seq<BlockNode>)
    requires forall x :: x in nodes ==> x.Hash() in status
    ensures var k := |nodes| - |ValidSuffix(status, nodes)|;
      && (forall i :: k <= i < |nodes| ==> !status[nodes[i].Hash()].KnownInvalid())
      && (k > 0 ==> status[nodes[k - 1].Hash()].KnownInvalid())
    decreases |nodes|
  {
    if nodes != [] && !status[nodes[|nodes| - 1].Hash()].KnownInvalid() {
      var init := nodes[..|nodes| - 1];
      ValidSuffixFacts(status, init);
      assert |ValidSuffix(status, nodes)| == |ValidSuffix(status, init)| + 1;
    }
  }

  /** Marking nodes off the branch as invalid by ancestry keeps the invariant. */
  lemma MarkInvalidSound(s: ChainState, nodes: seq<BlockNode>, after: Statuses)
    requires Sound(s) && after == Mark(s.status, nodes, InvalidAncestor)
    requires forall x, y :: x in nodes && y in s.best ==> x.Hash() != y.Hash()
    ensures Sound(s.(status := after)) && KeepsInvalid(s.status, after) && ChangesOnly(s.status, after, nodes)
  {
    hide *;
    SoundFacts(s);
    TreeFacts(s);
    MarkFacts(s.status, nodes, InvalidAncestor);
    var t := s.(status := after);
    SameTree(s, t);
    forall h | h in s.index && h in after && after[h].KnownValid()
      ensures Replay(Path(s.index[h])).Some?
    {
      SetFlagFacts(s.status[h]);
      TreeKeys(s, h);
      ValidReplaysAt(s, s.index[h]);
    }
    ValidReplaysIs(t.index, t.status);
    forall x | x in t.best
      ensures t.Has(x) && t.KnownValid(x) && !t.KnownInvalid(x)
    {
      NodeFacts(s, x);
      SameHas(s, t, x);
      HashNotIn(nodes, x);
      StatusAt(s, x);
      StatusAt(t, x);
    }
    SoundIs(t);
  }

  lemma TreeKeys(s: ChainState, h: Hash)
    requires Tree(s) && h in s.index
    ensures h in s.status && s.Has(s.index[h]) && s.index[h].Hash() == h
  {
    assert IndexedNode(s, h);
  }

  lemma SetFlagFacts(st: Status)
    ensures SetFlag(st, InvalidAncestor).KnownValid() == st.KnownValid()
    ensures SetFlag(st, ValidateFailed).KnownValid() == st.KnownValid()
    ensures SetFlag(st, InvalidAncestor).KnownInvalid() && SetFlag(st, ValidateFailed).KnownInvalid()
    ensures SetFlag(st, Valid).KnownValid() && SetFlag(st, Valid).KnownInvalid() == st.KnownInvalid()
  {
  }

  lemma MarkFacts(status: Statuses, nodes: seq<BlockNode>, flag: Flag)
    ensures var after := Mark(status, nodes, flag);
      && after.Keys == status.Keys
      && (forall h :: h in status ==> after[h] == if h in HashSet(nodes) then SetFlag(status[h], flag) else status[h])
      && KeepsInvalid(status, after)
      && ChangesOnly(status, after, nodes)
  {
  }

  lemma SameTree(s: ChainState, t: ChainState)
    requires Tree(s) && t == s.(status := t.status) && t.status.Keys == s.status.Keys
    ensures Tree(t)
  {
    hide *;
    TreeFacts(s);
    TreeKeep(s, t);
  }

  lemma SameHas(s: ChainState, t: ChainState, x: BlockNode)
    requires t.index == s.index
    ensures t.Has(x) == s.Has(x)
  {
  }

  lemma HashNotIn(nodes: seq<BlockNode>, x: BlockNode)
    requires forall y :: y in nodes ==> y.Hash() != x.Hash()
    ensures x.Hash() !in HashSet(nodes)
  {
  }

  lemma StatusAt(s: ChainState, x: BlockNode)
    ensures s.KnownValid(x) <==> x.Hash() in s.status && s.status[x.Hash()].KnownValid()
    ensures s.KnownInvalid(x) <==> x.Hash() in s.status && s.status[x.Hash()].KnownInvalid()
  {
  }

  lemma SoundIs(s: ChainState)
    requires Tree(s) && Replay(s.best) == Some(s.ledger) && s.snapshot == SnapshotOf(s.best)
    requires forall x :: x in s.best ==> s.Has(x) && s.KnownValid(x) && !s.KnownInvalid(x)
    requires ValidReplays(s.index, s.status)
    ensures Sound(s)
  {
  }

  /** What a reorganization to a node may lead to: the node's own chain, or the
      same chain with only statuses of the nodes to attach changed and the node
      known to be invalid. */
  ghost predicate Reorganized(s: ChainState, n: BlockNode, o: Outcome) {
    && o.state.index == s.index
    && Sound(o.state)
    && KeepsInvalid(s.status, o.state.status)
    && ChangesOnly(s.status, o.state.status, Attach(s.best, n))
    && if o.state.best == Path(n) then o.result == Done(true)
       else
         && o.state == s.(status := o.state.status)
         && Tainted(o.state.status, n)
         && o.result in {Done(true), Failed(ConnectRule)}
  }

  /** Every reorganization keeps the invariant and has one of these outcomes. */
  lemma ReorganizeToSound(r: Rules, s: ChainState, n: BlockNode)
    requires Sound(s) && s.Has(n) && n.parent.Some? && n !in s.best
    ensures Replay(s.best).Some? && Reorganized(s, n, ReorganizeTo(r, s, n))
  {
    hide *;
    SoundFacts(s);
    AttachSplits(s, n);
    AttachIndexed(s, n);
    AttachOffBranch(s, n);
    AttachLast(s, n);
    var attach := Attach(s.best, n);
    var f := n.height - |attach|;
    ReplayPrefix(s.best, f + 1);
    NodeFacts(s, n);
    ReorganizeToUnfold(r, s, n, attach, f);
    ValidSuffixFacts(s.status, attach);
    var suffix := ValidSuffix(s.status, attach);
    if s.KnownInvalid(n.parent.value) {
      MarkOneIs(s.status, n, InvalidAncestor);
      PathUnfold(n);
      MarkedInvalid(s, n, [n], n.parent.value, r);
    } else if |suffix| < |attach| {
      var x := attach[|attach| - |suffix| - 1];
      StatusAt(s, x);
      MarkedInvalid(s, n, suffix, x, r);
    } else {
      DryRunSound(r, s, n, attach, f);
    }
  }

  /** With no node to attach known to be invalid: the dry run decides. */
  lemma DryRunSound(r: Rules, s: ChainState, n: BlockNode, attach: seq<BlockNode>, f: nat)
    requires Sound(s) && s.Has(n) && n !in s.best
    requires attach == Attach(s.best, n) && f == n.height - |attach|
    requires f < |s.best| && Replay(s.best[..f + 1]).Some?
    requires forall x :: x in attach ==> x.Hash() in s.status
    requires forall i :: 0 <= i < |attach| ==> !s.status[attach[i].Hash()].KnownInvalid()
    ensures Reorganized(s, n, Reorganize(r, s, f, attach))
  {
    hide *;
    SoundFacts(s);
    AttachOffBranch(s, n);
    AttachReplays(s, n);
    var base := s.best[..f + 1];
    var l := Replay(base).value;
    var k := CheckOutcome(r, base, l, s.status, attach);
    var c := Check(r, l, s.status, attach);
    ReorganizeUnfold(r, s, f, attach);
    VerdictSound(s, n, c.status, k);
    VerdictChanges(s.status, c.status, attach, k);
    var o := Reorganize(r, s, f, attach);
    if k == |attach| {
      CommitSound(s, n, c.status, o.state);
      ReorganizedTo(s, n, o);
    } else {
      RefuseSound(s, n, c.status, k);
      ReorganizedNot(s, n, o);
    }
  }

  lemma ReorganizeToUnfold(r: Rules, s: ChainState, n: BlockNode, attach: seq<BlockNode>, f: nat)
    requires Tree(s) && s.Has(n) && n.parent.Some? && Replay(s.best).Some?
    requires attach == Attach(s.best, n) && f == n.height - |attach|
    requires f < |s.best| && Replay(s.best[..f + 1]).Some?
    requires n.Hash() in s.status && forall x :: x in attach ==> x.Hash() in s.status
    ensures s.KnownInvalid(n.parent.value) ==>
      ReorganizeTo(r, s, n) == Outcome(s.(status := MarkOne(s.status, n, InvalidAncestor)), Done(true))
    ensures !s.KnownInvalid(n.parent.value) && |ValidSuffix(s.status, attach)| < |attach| ==>
      ReorganizeTo(r, s, n) ==
        Outcome(s.(status := Mark(s.status, ValidSuffix(s.status, attach), InvalidAncestor)), Done(true))
    ensures !s.KnownInvalid(n.parent.value) && |ValidSuffix(s.status, attach)| == |attach| ==>
      ReorganizeTo(r, s, n) == Reorganize(r, s, f, attach)
  {
    hide Tree, Replay, Path, Attach, ValidSuffix, Reorganize, Mark, MarkOne, Linked, Chained, At;
  }

  lemma ReorganizeUnfold(r: Rules, s: ChainState, f: nat, attach: seq<BlockNode>)
    requires f < |s.best| && Replay(s.best[..f + 1]).Some?
    requires forall x :: x in attach ==> x.Hash() in s.status
    ensures var c := Check(r, Replay(s.best[..f + 1]).value, s.status, attach);
      var best := s.best[..f + 1] + attach;
      && (c.Passed? ==>
        Reorganize(r, s, f, attach) ==
          Outcome(ChainState(s.index, c.status, best, c.ledger, SnapshotOf(best)), Done(true)))
      && (c.Refused? ==> Reorganize(r, s, f, attach) == Outcome(s.(status := c.status), Failed(ConnectRule)))
  {
  }

  lemma AttachLast(s: ChainState, n: BlockNode)
    requires n !in s.best
    ensures |Attach(s.best, n)| > 0 && Attach(s.best, n)[|Attach(s.best, n)| - 1] == n && n in Attach(s.best, n)
  {
  }

  lemma MarkOneIs(status: Statuses, n: BlockNode, flag: Flag)
    requires n.Hash() in status
    ensures MarkOne(status, n, flag) == Mark(status, [n], flag)
  {
    assert [n][0] == n;
    assert HashSet([n]) == {n.Hash()};
  }

  lemma VerdictChanges(before: Statuses, after: Statuses, attach: seq<BlockNode>, k: nat)
    requires Verdict(before, after, attach, k)
    ensures ChangesOnly(before, after, attach) && KeepsInvalid(before, after)
  {
    VerdictKeys(before, after, attach, k);
  }

  /** The chain was known to be invalid: the nodes above the invalid one are marked. */
  lemma MarkedInvalid(s: ChainState, n: BlockNode, nodes: seq<BlockNode>, x: BlockNode, r: Rules)
    requires Sound(s) && s.Has(n) && n !in s.best
    requires forall y :: y in nodes ==> y in Attach(s.best, n)
    requires x in Path(n) && s.KnownInvalid(x)
    ensures Reorganized(s, n, Outcome(s.(status := Mark(s.status, nodes, InvalidAncestor)), Done(true)))
  {
    hide *;
    SoundFacts(s);
    AttachOffBranch(s, n);
    var after := Mark(s.status, nodes, InvalidAncestor);
    MarkInvalidSound(s, nodes, after);
    StatusAt(s, x);
    TaintedBy(s.status, after, n, x);
    ChangesMore(s.status, after, nodes, Attach(s.best, n));
    ReorganizedNot(s, n, Outcome(s.(status := after), Done(true)));
  }

  lemma TaintedBy(before: Statuses, after: Statuses, n: BlockNode, x: BlockNode)
    requires KeepsInvalid(before, after) && x in Path(n) && x.Hash() in before && before[x.Hash()].KnownInvalid()
    ensures Tainted(after, n)
  {
  }

  lemma ChangesMore(before: Statuses, after: Statuses, nodes: seq<BlockNode>, more: seq<BlockNode>)
    requires ChangesOnly(before, after, nodes) && forall y :: y in nodes ==> y in more
    ensures ChangesOnly(before, after, more)
  {
    forall h | h in HashSet(nodes)
      ensures h in HashSet(more)
    {
      var i :| 0 <= i < |nodes| && nodes[i].Hash() == h;
      assert nodes[i] in nodes;
      var j :| 0 <= j < |more| && more[j] == nodes[i];
    }
  }

  lemma ReorganizedNot(s: ChainState, n: BlockNode, o: Outcome)
    requires Sound(s) && s.Has(n) && n !in s.best
    requires o.state == s.(status := o.state.status) && Sound(o.state)
    requires KeepsInvalid(s.status, o.state.status) && ChangesOnly(s.status, o.state.status, Attach(s.best, n))
    requires Tainted(o.state.status, n) && o.result in {Done(true), Failed(ConnectRule)}
    ensures Reorganized(s, n, o)
  {
    hide Sound, KeepsInvalid, ChangesOnly, Tainted, Attach;
  }

  lemma ReorganizedTo(s: ChainState, n: BlockNode, o: Outcome)
    requires o.state.index == s.index && Sound(o.state) && o.state.best == Path(n) && o.result == Done(true)
    requires KeepsInvalid(s.status, o.state.status) && ChangesOnly(s.status, o.state.status, Attach(s.best, n))
    ensures Reorganized(s, n, o)
  {
    hide Sound, KeepsInvalid, ChangesOnly, Tainted, Attach, Path;
  }

  /** A dry run that passed: the committed state is sound. */
  lemma CommitSound(s: ChainState, n: BlockNode, after: Statuses, t: ChainState)
    requires Sound(s) && s.Has(n) && n !in s.best
    requires var attach := Attach(s.best, n);
      var f := n.height - |attach|;
      && 0 <= f < |s.best|
      && Verdict(s.status, after, attach, |attach|)
      && (forall i :: 0 <= i < |attach| ==> attach[i].Hash() in s.status && !s.status[attach[i].Hash()].KnownInvalid())
      && ValidReplays(s.index, after)
      && t.best == s.best[..f + 1] + attach
    requires forall x :: x in s.best ==> x.Hash() in after && after[x.Hash()] == s.status[x.Hash()]
    requires t.index == s.index && t.status == after && t.snapshot == SnapshotOf(t.best)
    requires Replay(t.best) == Some(t.ledger)
    ensures Sound(t) && t.best == Path(n)
  {
    hide *;
    SoundFacts(s);
    AttachSplits(s, n);
    AttachIndexed(s, n);
    AttachLast(s, n);
    var attach := Attach(s.best, n);
    VerdictKeys(s.status, after, attach, |attach|);
    NewTree(s, n, t);
    forall x | x in t.best
      ensures t.Has(x) && t.KnownValid(x) && !t.KnownInvalid(x)
    {
      StatusAt(t, x);
      StatusAt(s, x);
      SameHas(s, t, x);
      if x in attach {
        var j :| 0 <= j < |attach| && attach[j] == x;
        VerdictValid(s.status, after, attach, j);
      } else {
        assert x in s.best;
      }
    }
    SoundIs(t);
  }

  lemma VerdictValid(before: Statuses, after: Statuses, attach: seq<BlockNode>, j: nat)
    requires Verdict(before, after, attach, |attach|) && j < |attach|
    requires attach[j].Hash() in before && !before[attach[j].Hash()].KnownInvalid()
    ensures attach[j].Hash() in after
    ensures after[attach[j].Hash()].KnownValid() && !after[attach[j].Hash()].KnownInvalid()
  {
  }

  /** The tree with another branch for a view. */
  lemma NewTree(s: ChainState, n: BlockNode, t: ChainState)
    requires Tree(s) && s.Has(n) && t.index == s.index && t.status.Keys == s.status.Keys
    requires t.best == Path(n)
    ensures Tree(t)
  {
    hide *;
    TreeFacts(s);
    AttachSplits(s, n);
    TreeKeep(s, t);
    SameHas(s, t, n);
  }

  lemma RefuseSound(s: ChainState, n: BlockNode, after: Statuses, k: nat)
    requires Sound(s) && s.Has(n) && n !in s.best
    requires var attach := Attach(s.best, n); k < |attach| && Verdict(s.status, after, attach, k)
    requires ValidReplays(s.index, after)
    requires forall x :: x in s.best ==> x.Hash() in after && after[x.Hash()] == s.status[x.Hash()]
    ensures Sound(s.(status := after)) && Tainted(after, n)
  {
    hide *;
    SoundFacts(s);
    AttachIndexed(s, n);
    var attach := Attach(s.best, n);
    var t := s.(status := after);
    VerdictKeys(s.status, after, attach, k);
    SameTree(s, t);
    forall x | x in t.best
      ensures t.Has(x) && t.KnownValid(x) && !t.KnownInvalid(x)
    {
      StatusAt(t, x);
      StatusAt(s, x);
      SameHas(s, t, x);
    }
    SoundIs(t);
    assert attach[k] in attach;
    TaintedAt(after, n, attach[k]);
  }

  lemma TaintedAt(status: Statuses, n: BlockNode, x: BlockNode)
    requires x in Path(n) && x.Hash() in status && status[x.Hash()].KnownInvalid()
    ensures Tainted(status, n)
  {
  }

  // ---- accepting a block

  /** A new node, not yet validated, keeps the invariant. */
  lemma AddNodeSound(s: ChainState, n: BlockNode)
    requires Sound(s) && n.Hash() !in s.index
    requires Linked(n) && n.parent.Some? && s.Has(n.parent.value)
    ensures Sound(AddNode(s, n)) && AddNode(s, n).Has(n) && n !in s.best
    ensures forall h :: h in s.status ==> h != n.Hash() && AddNode(s, n).status[h] == s.status[h]
  {
    hide *;
    SoundFacts(s);
    TreeFacts(s);
    AddNodeTree(s, n);
    AddNodeFacts(s, n);
    var t := AddNode(s, n);
    forall h | h in t.index && h in t.status && t.status[h].KnownValid()
      ensures Replay(Path(t.index[h])).Some?
    {
      if h != n.Hash() {
        TreeKeys(s, h);
        ValidReplaysAt(s, s.index[h]);
      }
    }
    ValidReplaysIs(t.index, t.status);
    forall x | x in t.best
      ensures t.Has(x) && t.KnownValid(x) && !t.KnownInvalid(x)
    {
      StatusAt(s, x);
      StatusAt(t, x);
      HasMore(s, t, n, x);
    }
    if n in s.best { NodeFacts(s, n); }
    SoundIs(t);
  }

  lemma AddNodeFacts(s: ChainState, n: BlockNode)
    ensures var t := AddNode(s, n);
      && t.index == s.index[n.Hash() := n] && t.status == s.status[n.Hash() := NEW_STATUS]
      && t.best == s.best && t.ledger == s.ledger && t.snapshot == s.snapshot
      && (t.best != [] ==> t.Tip() == s.Tip())
    ensures !NEW_STATUS.KnownValid() && !NEW_STATUS.KnownInvalid()
  {
  }

  lemma HasMore(s: ChainState, t: ChainState, n: BlockNode, x: BlockNode)
    requires t.index == s.index[n.Hash() := n] && n.Hash() !in s.index && s.Has(x)
    ensures t.Has(x) && x.Hash() != n.Hash()
  {
  }

  /** What accepting a block may lead to. */
  ghost predicate Accepted(s: ChainState, block: Block, o: Outcome)
    requires |s.best| > 0
  {
    && Sound(o.state)
    && (forall h :: h in s.index ==> h in o.state.index && o.state.index[h] == s.index[h])
    && (forall h :: h in o.state.index ==> h in s.index || h == block.hash)
    && (forall h :: h in s.status && s.status[h].KnownInvalid() ==>
      h in o.state.status && o.state.status[h].KnownInvalid())
    && (|| (o.state.best == s.best && (block.hash in o.state.index ==>
              o.state.index[block.hash].workSum <= s.Tip().workSum
              || Tainted(o.state.status, o.state.index[block.hash])))
        || (o.state.best == s.best + [o.state.Tip()] && o.state.Tip().Hash() == block.hash)
        || (o.state.Tip().workSum > s.Tip().workSum && o.state.Tip().Hash() == block.hash))
    && (o.state.best == s.best ==> o.state.ledger == s.ledger && o.state.snapshot == s.snapshot)
    && o.result != Failed(AssertionFailed)
  }

  /** Accepting any block keeps the invariant, never fails an assertion, and
      changes the best chain only by extending it with the block or by switching
      to a strictly heavier chain that ends in it. */
  lemma AcceptSound(r: Rules, s: ChainState, block: Block)
    requires Sound(s) && block.hash !in s.index
    ensures Tree(s) && Replay(s.best) == Some(s.ledger) && Accepted(s, block, Accept(r, s, block))
  {
    hide *;
    SoundFacts(s);
    TreeFacts(s);
    AcceptUnfold(r, s, block);
    if block.prev !in s.index || s.KnownInvalid(s.index[block.prev]) || !r.context(block, s.index[block.prev]) {
      AcceptedSame(s, block, Accept(r, s, block));
    } else {
      TreeKeys(s, block.prev);
      var prev := s.index[block.prev];
      NodeFacts(s, prev);
      ChildFacts(block, prev);
      var n := ChildOf(block, prev);
      AddNodeSound(s, n);
      AddNodeFacts(s, n);
      StatusAt(AddNode(s, n), n);
      ConnectBestSound(r, AddNode(s, n), n);
      AcceptedFrom(s, n, AddNode(s, n), ConnectBest(r, AddNode(s, n), n));
    }
  }

  lemma AcceptUnfold(r: Rules, s: ChainState, block: Block)
    requires Tree(s) && Replay(s.best) == Some(s.ledger) && block.hash !in s.index
    ensures block.prev !in s.index ==> Accept(r, s, block) == Outcome(s, Failed(PreviousBlockUnknown))
    ensures block.prev in s.index && s.KnownInvalid(s.index[block.prev]) ==>
      Accept(r, s, block) == Outcome(s, Failed(InvalidAncestorBlock))
    ensures block.prev in s.index && !s.KnownInvalid(s.index[block.prev]) && !r.context(block, s.index[block.prev]) ==>
      Accept(r, s, block) == Outcome(s, Failed(ContextRule))
    ensures block.prev in s.index && !s.KnownInvalid(s.index[block.prev]) && r.context(block, s.index[block.prev]) ==>
      && Linked(s.index[block.prev])
      && var n := ChildOf(block, s.index[block.prev]);
         && Tree(AddNode(s, n)) && AddNode(s, n).Has(n) && n.parent.Some?
         && Replay(AddNode(s, n).best) == Some(AddNode(s, n).ledger)
         && Accept(r, s, block) == ConnectBest(r, AddNode(s, n), n)
  {
    hide Tree, Replay, ConnectBest, Linked;
    if block.prev in s.index {
      TreeKeys(s, block.prev);
      NodeFacts(s, s.index[block.prev]);
      ChildFacts(block, s.index[block.prev]);
      AddNodeTree(s, ChildOf(block, s.index[block.prev]));
    }
  }

  lemma ChildFacts(block: Block, prev: BlockNode)
    requires Linked(prev) && block.prev == prev.Hash()
    ensures var n := ChildOf(block, prev);
      Linked(n) && n.parent == Some(prev) && n.block == block && n.Hash() == block.hash
  {
    Bits.AncestorHeightBelow(prev.height + 1);
  }

  lemma AcceptedSame(s: ChainState, block: Block, o: Outcome)
    requires Sound(s) && |s.best| > 0 && block.hash !in s.index
    requires o.state == s && o.result.Failed? && o.result != Failed(AssertionFailed)
    ensures Accepted(s, block, o)
  {
    hide Sound, Tainted;
  }

  /** What connecting an indexed node off the branch may lead to. */
  ghost predicate Connected(s: ChainState, n: BlockNode, o: Outcome)
    requires |s.best| > 0
  {
    && Sound(o.state)
    && o.state.index == s.index
    && KeepsInvalid(s.status, o.state.status)
    && (|| (o.state.best == s.best && (n.workSum <= s.Tip().workSum || Tainted(o.state.status, n)))
        || (o.state.best == s.best + [n])
        || (o.state.best == Path(n) && n.workSum > s.Tip().workSum))
    && (o.state.best == s.best ==> o.state.ledger == s.ledger && o.state.snapshot == s.snapshot)
    && o.result != Failed(AssertionFailed)
  }

  lemma ConnectBestSound(r: Rules, s: ChainState, n: BlockNode)
    requires Sound(s) && s.Has(n) && n.parent.Some? && n !in s.best && !s.KnownInvalid(n)
    ensures Tree(s) && Replay(s.best) == Some(s.ledger) && Connected(s, n, ConnectBest(r, s, n))
  {
    hide *;
    SoundFacts(s);
    TreeFacts(s);
    NodeFacts(s, n);
    ConnectBestUnfold(r, s, n);
    var o := ConnectBest(r, s, n);
    if n.block.prev == s.Tip().Hash() {
      SameHash(s, n.parent.value, s.Tip());
      PathUnfold(n);
      ReplayUnfold(s.best, n);
      StatusAt(s, n);
      if s.KnownValid(n) { ValidReplaysAt(s, n); }
      CheckConnectFacts(r, s.ledger, n);
      if s.KnownValid(n) || CheckConnect(r, s.ledger, n) {
        ExtendSound(s, n, o.state);
        ConnectedTo(s, n, o);
      } else {
        FailSound(s, n);
        ConnectedNot(s, n, o);
      }
    } else if n.workSum <= s.Tip().workSum {
      ConnectedSide(s, n, o);
    } else {
      ReorganizeToSound(r, s, n);
      ConnectedReorganized(s, n, o);
    }
  }

  lemma ConnectBestUnfold(r: Rules, s: ChainState, n: BlockNode)
    requires Tree(s) && s.Has(n) && n.parent.Some? && Replay(s.best) == Some(s.ledger) && n.Hash() in s.status
    ensures (&& n.block.prev == s.Tip().Hash()
             && (s.KnownValid(n) || CheckConnect(r, s.ledger, n)) && ConnectNode(s.ledger, n).Some?) ==>
      ConnectBest(r, s, n) == Outcome(ChainState(s.index, MarkOne(s.status, n, Valid), s.best + [n],
        ConnectNode(s.ledger, n).value, SnapshotOf(s.best + [n])), Done(true))
    ensures n.block.prev == s.Tip().Hash() && !s.KnownValid(n) && !CheckConnect(r, s.ledger, n) ==>
      ConnectBest(r, s, n) == Outcome(s.(status := MarkOne(s.status, n, ValidateFailed)), Failed(ConnectRule))
    ensures n.block.prev != s.Tip().Hash() && n.workSum <= s.Tip().workSum ==>
      ConnectBest(r, s, n) == Outcome(s, Done(false))
    ensures n.block.prev != s.Tip().Hash() && n.workSum > s.Tip().workSum ==>
      ConnectBest(r, s, n) == ReorganizeTo(r, s, n)
  {
    hide Tree, Replay, ReorganizeTo, ConnectNode, ConnectAny, CheckConnect, MarkOne;
    ConnectNodeAny(s.ledger, n);
  }

  lemma ExtendSound(s: ChainState, n: BlockNode, t: ChainState)
    requires Sound(s) && s.Has(n) && n.parent == Some(s.Tip()) && n !in s.best && !s.KnownInvalid(n)
    requires n.Hash() in s.status
    requires ConnectNode(s.ledger, n).Some? && s.best + [n] == Path(n)
    requires t == ChainState(s.index, MarkOne(s.status, n, Valid), s.best + [n],
      ConnectNode(s.ledger, n).value, SnapshotOf(s.best + [n]))
    ensures Sound(t) && KeepsInvalid(s.status, t.status)
  {
    hide *;
    SoundFacts(s);
    TreeFacts(s);
    MarkOneIs(s.status, n, Valid);
    MarkFacts(s.status, [n], Valid);
    SetFlagFacts(s.status[n.Hash()]);
    MarkOneFacts(s.status, n, Valid);
    NewTree(s, n, t);
    ReplayUnfold(s.best, n);
    forall h | h in t.index && h in t.status && t.status[h].KnownValid()
      ensures Replay(Path(t.index[h])).Some?
    {
      TreeKeys(s, h);
      if h != n.Hash() {
        ValidReplaysAt(s, s.index[h]);
      } else {
        SameHash(s, s.index[h], n);
      }
    }
    ValidReplaysIs(t.index, t.status);
    StatusAt(s, n);
    forall x | x in t.best
      ensures t.Has(x) && t.KnownValid(x) && !t.KnownInvalid(x)
    {
      StatusAt(s, x);
      StatusAt(t, x);
      SameHas(s, t, x);
      if x != n { SameHash(s, x, n); }
    }
    SoundIs(t);
  }

  lemma MarkOneFacts(status: Statuses, n: BlockNode, flag: Flag)
    requires n.Hash() in status
    ensures MarkOne(status, n, flag).Keys == status.Keys
    ensures forall h :: h in status ==>
      MarkOne(status, n, flag)[h] == if h == n.Hash() then SetFlag(status[h], flag) else status[h]
  {
  }

  lemma FailSound(s: ChainState, n: BlockNode)
    requires Sound(s) && s.Has(n) && n !in s.best && n.Hash() in s.status
    ensures var after := MarkOne(s.status, n, ValidateFailed);
      Sound(s.(status := after)) && KeepsInvalid(s.status, after) && Tainted(after, n)
  {
    hide *;
    SoundFacts(s);
    TreeFacts(s);
    var after := MarkOne(s.status, n, ValidateFailed);
    MarkOneIs(s.status, n, ValidateFailed);
    MarkFacts(s.status, [n], ValidateFailed);
    MarkOneFacts(s.status, n, ValidateFailed);
    SetFlagFacts(s.status[n.Hash()]);
    var t := s.(status := after);
    SameTree(s, t);
    forall h | h in t.index && h in t.status && t.status[h].KnownValid()
      ensures Replay(Path(t.index[h])).Some?
    {
      TreeKeys(s, h);
      ValidReplaysAt(s, s.index[h]);
    }
    ValidReplaysIs(t.index, t.status);
    forall x | x in t.best
      ensures t.Has(x) && t.KnownValid(x) && !t.KnownInvalid(x)
    {
      StatusAt(s, x);
      StatusAt(t, x);
      SameHas(s, t, x);
      SameHash(s, x, n);
    }
    SoundIs(t);
    TaintedAt(after, n, n);
  }

  lemma ConnectedTo(s: ChainState, n: BlockNode, o: Outcome)
    requires |s.best| > 0 && Sound(o.state) && o.state.index == s.index && KeepsInvalid(s.status, o.state.status)
    requires o.state.best == s.best + [n] && o.result == Done(true)
    ensures Connected(s, n, o)
  {
    hide Sound, KeepsInvalid, Tainted, Path;
    assert |o.state.best| == |s.best| + 1;
  }

  lemma ConnectedNot(s: ChainState, n: BlockNode, o: Outcome)
    requires |s.best| > 0 && Sound(o.state) && o.state == s.(status := o.state.status)
    requires KeepsInvalid(s.status, o.state.status)
    requires Tainted(o.state.status, n) && o.result == Failed(ConnectRule)
    ensures Connected(s, n, o)
  {
    hide Sound, KeepsInvalid, Tainted, Path;
  }

  lemma ConnectedSide(s: ChainState, n: BlockNode, o: Outcome)
    requires |s.best| > 0 && Sound(s) && o == Outcome(s, Done(false)) && n.workSum <= s.Tip().workSum
    ensures Connected(s, n, o)
  {
    hide Sound, Tainted, Path;
  }

  lemma ConnectedReorganized(s: ChainState, n: BlockNode, o: Outcome)
    requires Sound(s) && |s.best| > 0 && Reorganized(s, n, o) && n.workSum > s.Tip().workSum && n !in s.best
    ensures Connected(s, n, o)
  {
    hide Sound, Tainted, KeepsInvalid, ChangesOnly, Attach, Path;
    assert o.state.best == Path(n) ==> o.state.best[|o.state.best| - 1] == n;
    assert o.state.best == s.best ==> o.state.best != Path(n);
  }

  lemma AcceptedFrom(s: ChainState, n: BlockNode, t: ChainState, o: Outcome)
    requires |s.best| > 0 && n.Hash() !in s.index && t.index == s.index[n.Hash() := n]
    requires t.best == s.best && t.ledger == s.ledger && t.snapshot == s.snapshot
    requires forall h :: h in s.status ==> h in t.status && t.status[h] == s.status[h]
    requires Connected(t, n, o)
    ensures Accepted(s, n.block, o)
  {
    hide Sound, Tainted, Path;
    assert n.Hash() == n.block.hash;
    assert o.state.best == Path(n) ==> o.state.best[|o.state.best| - 1] == n;
  }

  // ---- the heaviest chain, over every run

  /** Every indexed node with strictly more work than the tip is known to be
      invalid, itself or through an ancestor. */
  ghost predicate Heaviest(s: ChainState) {
    |s.best| > 0 && forall h :: h in s.index && s.index[h].workSum > s.Tip().workSum ==> Tainted(s.status, s.index[h])
  }

  lemma TaintedKept(s: ChainState, t: ChainState, n: BlockNode)
    requires forall h :: h in s.status && s.status[h].KnownInvalid() ==> h in t.status && t.status[h].KnownInvalid()
    requires Tainted(s.status, n)
    ensures Tainted(t.status, n)
  {
    var x :| x in Path(n) && x.Hash() in s.status && s.status[x.Hash()].KnownInvalid();
  }

  /** Extending a chain never lowers its work. */
  lemma ExtendWork(s: ChainState, t: ChainState)
    requires Tree(s) && Tree(t) && t.best == s.best + [t.Tip()]
    ensures t.Tip().workSum >= s.Tip().workSum && t.Tip().parent == Some(s.Tip())
  {
    hide Linked;
    TreeFacts(s);
    TreeFacts(t);
    var p := t.Tip().parent;
    assert t.best == (if p.Some? then Path(p.value) else []) + [t.Tip()] by { PathUnfold(t.Tip()); }
    assert p.Some?;
    assert Path(p.value) == s.best by {
      assert t.best[..|t.best| - 1] == s.best;
      assert t.best[..|t.best| - 1] == Path(p.value);
    }
    assert Path(p.value)[|Path(p.value)| - 1] == p.value;
  }

  /** One block: the tip's work never decreases, equal work never displaces the
      tip, and the best chain stays heaviest. */
  lemma AcceptHeaviest(r: Rules, s: ChainState, block: Block)
    requires Sound(s) && Heaviest(s) && block.hash !in s.index
    ensures Tree(s) && Replay(s.best) == Some(s.ledger)
    ensures var t := Accept(r, s, block).state;
      && Sound(t) && Heaviest(t)
      && t.Tip().workSum >= s.Tip().workSum
      && (t.Tip() == s.Tip() || t.Tip().parent == Some(s.Tip()) || t.Tip().workSum > s.Tip().workSum)
  {
    hide *;
    SoundFacts(s);
    TreeFacts(s);
    AcceptSound(r, s, block);
    var o := Accept(r, s, block);
    var t := o.state;
    AcceptedFacts(s, block, o);
    SoundFacts(t);
    TreeFacts(t);
    if t.best == s.best + [t.Tip()] { ExtendWork(s, t); }
    SameTip(s, t);
    forall h | h in t.index && t.index[h].workSum > t.Tip().workSum
      ensures Tainted(t.status, t.index[h])
    {
      if h in s.index {
        HeaviestAt(s, h);
        TaintedKept(s, t, s.index[h]);
      } else {
        TipIndexed(t);
      }
    }
    HeaviestIs(t);
  }

  lemma AcceptedFacts(s: ChainState, block: Block, o: Outcome)
    requires |s.best| > 0 && Accepted(s, block, o)
    ensures Sound(o.state) && |o.state.best| > 0 && o.result != Failed(AssertionFailed)
    ensures forall h :: h in s.index ==> h in o.state.index && o.state.index[h] == s.index[h]
    ensures forall h :: h in o.state.index ==> h in s.index || h == block.hash
    ensures forall h :: h in s.status && s.status[h].KnownInvalid() ==>
      h in o.state.status && o.state.status[h].KnownInvalid()
    ensures
      || (o.state.best == s.best && (block.hash in o.state.index ==>
            o.state.index[block.hash].workSum <= s.Tip().workSum || Tainted(o.state.status, o.state.index[block.hash])))
      || (o.state.best == s.best + [o.state.Tip()] && o.state.Tip().Hash() == block.hash)
      || (o.state.Tip().workSum > s.Tip().workSum && o.state.Tip().Hash() == block.hash)
  {
    hide Tainted, Path, ValidReplays, Replay, IndexedNode;
  }

  lemma TipIndexed(s: ChainState)
    requires Tree(s)
    ensures s.Tip().Hash() in s.index && s.index[s.Tip().Hash()] == s.Tip()
  {
  }

  lemma SameTip(s: ChainState, t: ChainState)
    requires |s.best| > 0 && |t.best| > 0
    ensures s.best == t.best ==> s.Tip() == t.Tip()
  {
  }

  lemma HeaviestAt(s: ChainState, h: Hash)
    requires |s.best| > 0 && Heaviest(s) && h in s.index && s.index[h].workSum > s.Tip().workSum
    ensures Tainted(s.status, s.index[h])
  {
  }

  lemma HeaviestIs(s: ChainState)
    requires |s.best| > 0
    requires forall h :: h in s.index && s.index[h].workSum > s.Tip().workSum ==> Tainted(s.status, s.index[h])
    ensures Heaviest(s)
  {
  }

  ghost predicate Safe(s: ChainState) {
    Sound(s) && Heaviest(s)
  }

  /** One block through ProcessBlock's duplicate check and maybeAcceptBlock. */
  ghost function Step(r: Rules, s: ChainState, block: Block): (t: ChainState)
    requires Safe(s)
  {
    if block.hash in s.index then s else Accept(r, s, block).state
  }

  /** The states of a run: the one it starts in, and one more for each block. */
  ghost predicate IsRun(r: Rules, states: seq<ChainState>, blocks: seq<Block>) {
    && |states| == |blocks| + 1
    && Safe(states[0])
    && forall i :: 0 <= i < |blocks| ==> Safe(states[i]) ==> states[i + 1] == Step(r, states[i], blocks[i])
  }

  lemma StepSafe(r: Rules, s: ChainState, block: Block)
    requires Safe(s)
    ensures var t := Step(r, s, block); Safe(t) && |s.best| > 0 && t.Tip().workSum >= s.Tip().workSum
  {
    hide Sound, Heaviest, Accept;
    if block.hash !in s.index { AcceptHeaviest(r, s, block); } else { SoundFacts(s); TreeFacts(s); }
  }

  /** Safe at the start, safe throughout, and the tip's work never decreases. */
  lemma {:induction false} RunSafe(r: Rules, states: seq<ChainState>, blocks: seq<Block>, i: nat, j: nat)
    requires IsRun(r, states, blocks) && i <= j < |states|
    ensures Safe(states[i]) && Safe(states[j]) && |states[i].best| > 0 && |states[j].best| > 0
    ensures states[j].Tip().workSum >= states[i].Tip().workSum
    decreases j
  {
    hide *;
    RunFacts(r, states, blocks);
    if i < j {
      RunSafe(r, states, blocks, i, j - 1);
      StepSafe(r, states[j - 1], blocks[j - 1]);
    } else if j > 0 {
      RunSafe(r, states, blocks, j - 1, j - 1);
      StepSafe(r, states[j - 1], blocks[j - 1]);
    }
    SafeFacts(states[j]);
  }

  lemma RunFacts(r: Rules, states: seq<ChainState>, blocks: seq<Block>)
    requires IsRun(r, states, blocks)
    ensures |states| == |blocks| + 1 && Safe(states[0])
    ensures forall i :: 0 <= i < |blocks| ==> Safe(states[i]) ==> states[i + 1] == Step(r, states[i], blocks[i])
  {
    hide Safe, Step;
  }

  lemma SafeFacts(s: ChainState)
    requires Safe(s)
    ensures Sound(s) && Heaviest(s) && |s.best| > 0
  {
  }

  /** The state created from a genesis block. */
  ghost function Genesis(block: Block): ChainState {
    var g := BlockNode(block, None, None, block.work, 0);
    ChainState(map[block.hash := g], map[block.hash := Status(true, true, false, false)], [g],
      Ledger(map[], map[]), SnapshotOf([g]))
  }

  lemma GenesisSound(block: Block)
    ensures Sound(Genesis(block)) && Heaviest(Genesis(block))
  {
    var s := Genesis(block);
    assert s.best == Path(s.best[0]);
    assert IndexedNode(s, block.hash);
    assert Replay(Path(s.index[block.hash])).Some?;
  }

  /** In every state of every run from genesis the tip is not known to be invalid,
      has at least as much work as every indexed node that is not, and is no
      lighter than in any earlier state. */
  lemma HeaviestChain(r: Rules, genesis: Block, states: seq<ChainState>, blocks: seq<Block>, i: nat, j: nat,
      n: BlockNode)
    requires IsRun(r, states, blocks) && states[0] == Genesis(genesis) && i <= j < |states|
    ensures |states[i].best| > 0 && |states[j].best| > 0
    ensures states[j].Tip().workSum >= states[i].Tip().workSum
    ensures !Tainted(states[j].status, states[j].Tip())
    ensures states[j].Has(n) && !Tainted(states[j].status, n) ==> n.workSum <= states[j].Tip().workSum
  {
    hide *;
    RunSafe(r, states, blocks, i, j);
    var t := states[j];
    SafeFacts(t);
    TipUntainted(t);
    HeavierTainted(t, n);
  }

  lemma TipUntainted(s: ChainState)
    requires Sound(s)
    ensures |s.best| > 0 && !Tainted(s.status, s.Tip())
  {
    hide Path, Replay, SnapshotOf, ValidReplays, IndexedNode;
  }

  lemma HeavierTainted(s: ChainState, n: BlockNode)
    requires Heaviest(s)
    ensures s.Has(n) && !Tainted(s.status, n) ==> n.workSum <= s.Tip().workSum
  {
  }
}
