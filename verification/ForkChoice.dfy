/** Where InvalidateBlock and ReconsiderBlock leave the chain, exactly: what the
    reorganization at their end flags, when the chain moves, which descendants end up
    flagged, and when the best chain is still a heaviest one. Every condition is on the
    state before the call. */
module ForkChoice {
  import opened Wire
  import opened BlockTree
  import opened ChainSpec
  import opened ChainSafety
  import opened Invalidation

  // ---- a reorganization, exactly

  /** The first of the nodes to attach to break a rule. */
  ghost function Stop(r: Rules, s: ChainState, n: BlockNode): (k: nat)
    requires Tree(s) && s.Has(n)
    ensures k <= |Attach(s.best, n)|
  {
    var attach := Attach(s.best, n);
    AttachSplits(s, n);
    StopAt(r, s.best[..n.height - |attach| + 1], s.status, attach)
  }

  /** The chain moves: no ancestor is known to be invalid, and the dry run passes. */
  ghost predicate Moves(r: Rules, s: ChainState, n: BlockNode)
    requires Tree(s) && s.Has(n)
  {
    !Tainted(s.status, n) && Stop(r, s, n) == |Attach(s.best, n)|
  }

  /** The nodes a reorganization to n flags as invalid: those above the nearest one known
      to be invalid; and where none is, the first to break a rule and those above it. */
  ghost predicate Flags(r: Rules, s: ChainState, n: BlockNode, x: BlockNode)
    requires Tree(s) && s.Has(n) && n.parent.Some?
  {
    AttachIndexed(s, n);
    var attach := Attach(s.best, n);
    if !Tainted(s.status, n) then x in attach[Stop(r, s, n)..]
    else if s.KnownInvalid(n.parent.value) then x == n
    else x in ValidSuffix(s.status, attach)
  }

  /** A node on top of the one that breaks a rule. */
  ghost predicate Spoilt(r: Rules, s: ChainState, n: BlockNode, x: BlockNode)
    requires Tree(s) && s.Has(n)
  {
    var attach, k := Attach(s.best, n), Stop(r, s, n);
    !Tainted(s.status, n) && k < |attach| && attach[k] in Path(x)
  }

  lemma SuffixInvalid(status: Statuses, nodes: seq<BlockNode>)
    requires forall x :: x in nodes ==> x.Hash() in status
    ensures |ValidSuffix(status, nodes)| < |nodes| <==>
      exists x :: x in nodes && status[x.Hash()].KnownInvalid()
  {
    hide ValidSuffix;
    ValidSuffixFacts(status, nodes);
    var k := |nodes| - |ValidSuffix(status, nodes)|;
    if k > 0 { assert nodes[k - 1] in nodes; }
  }

  lemma SuffixAt(status: Statuses, nodes: seq<BlockNode>, y: BlockNode) returns (i: nat)
    requires (forall x :: x in nodes ==> x.Hash() in status) && y in ValidSuffix(status, nodes)
    ensures |nodes| - |ValidSuffix(status, nodes)| <= i < |nodes| && nodes[i] == y
  {
    hide ValidSuffix;
    var suffix := ValidSuffix(status, nodes);
    var j :| 0 <= j < |suffix| && suffix[j] == y;
    i := |nodes| - |suffix| + j;
  }

  lemma OnBranchOrAttached(s: ChainState, n: BlockNode, x: BlockNode)
    requires Tree(s) && s.Has(n)
    ensures x in Path(n) ==> x in s.best || x in Attach(s.best, n)
    ensures x in Attach(s.best, n) ==> x in Path(n)
  {
    hide *;
    AttachSplits(s, n);
    AttachIndexed(s, n);
  }

  /** With the best chain sound, taint comes from a node to attach. */
  lemma TaintedSuffix(s: ChainState, n: BlockNode)
    requires Sound(s) && s.Has(n)
    ensures forall x :: x in Attach(s.best, n) ==> x.Hash() in s.status
    ensures Tainted(s.status, n) <==> |ValidSuffix(s.status, Attach(s.best, n))| < |Attach(s.best, n)|
  {
    hide *;
    SoundFacts(s);
    AttachIndexed(s, n);
    var attach := Attach(s.best, n);
    SuffixInvalid(s.status, attach);
    TaintedAttached(s, n, attach);
  }

  lemma TaintedAttached(s: ChainState, n: BlockNode, attach: seq<BlockNode>)
    requires Sound(s) && s.Has(n) && attach == Attach(s.best, n) && forall x :: x in attach ==> x.Hash() in s.status
    ensures Tainted(s.status, n) <==> exists x :: x in attach && s.status[x.Hash()].KnownInvalid()
  {
    hide *;
    SoundFacts(s);
    AttachIndexed(s, n);
    if x :| x in attach && s.status[x.Hash()].KnownInvalid() { TaintedAt(s.status, n, x); }
    if Tainted(s.status, n) {
      var x := TaintedFrom(s.status, n);
      StatusAt(s, x);
      OnBranchOrAttached(s, n, x);
    }
  }

  lemma TaintedFrom(status: Statuses, n: BlockNode) returns (x: BlockNode)
    requires Tainted(status, n)
    ensures x in Path(n) && x.Hash() in status && status[x.Hash()].KnownInvalid()
  {
    x :| x in Path(n) && x.Hash() in status && status[x.Hash()].KnownInvalid();
  }

  /** One node of the list to attach is below all later ones. */
  lemma AttachOrder(s: ChainState, n: BlockNode, i: nat, j: nat)
    requires Tree(s) && s.Has(n) && i <= j < |Attach(s.best, n)|
    ensures Attach(s.best, n)[i] in Path(Attach(s.best, n)[j])
  {
    hide *;
    AttachPrefix(s, n, j);
    var attach := Attach(s.best, n);
    var f := n.height - |attach|;
    assert Path(attach[j])[f + 1 + i] == attach[i];
  }

  /** More nodes known to be invalid, all of them on top of one that already was or on
      top of a new one: taint follows. */
  lemma TaintFollows(s: ChainState, t: ChainState, x: BlockNode, z: BlockNode, spoilt: bool)
    requires Tree(s) && t.index == s.index && s.Has(x)
    requires forall y :: s.Has(y) && s.KnownInvalid(y) ==> t.KnownInvalid(y)
    requires forall y :: s.Has(y) && t.KnownInvalid(y) && !s.KnownInvalid(y) ==> z in Path(y)
    requires spoilt ==> s.Has(z) && t.KnownInvalid(z)
    requires !spoilt ==> s.KnownInvalid(z)
    ensures Tainted(t.status, x) <==> Tainted(s.status, x) || (spoilt && z in Path(x))
  {
    hide *;
    PathIndexed(s, x);
    if Tainted(t.status, x) {
      var y := TaintedFrom(t.status, x);
      StatusAt(t, y);
      StatusAt(s, y);
      if s.KnownInvalid(y) {
        TaintedAt(s.status, x, y);
      } else {
        PathTransitive(x, y, z);
        StatusAt(s, z);
        if !spoilt { TaintedAt(s.status, x, z); }
      }
    }
    if Tainted(s.status, x) {
      var y := TaintedFrom(s.status, x);
      StatusAt(s, y);
      StatusAt(t, y);
      TaintedAt(t.status, x, y);
    } else if spoilt && z in Path(x) {
      StatusAt(t, z);
      TaintedAt(t.status, x, z);
    }
  }

  lemma MarkedExact(s: ChainState, nodes: seq<BlockNode>, x: BlockNode)
    requires Tree(s) && s.Has(x) && forall y :: y in nodes ==> s.Has(y)
    ensures s.(status := Mark(s.status, nodes, InvalidAncestor)).KnownInvalid(x) <==> s.KnownInvalid(x) || x in nodes
  {
    hide *;
    var t := s.(status := Mark(s.status, nodes, InvalidAncestor));
    NodeFacts(s, x);
    MarkFacts(s.status, nodes, InvalidAncestor);
    SetFlagFacts(s.status[x.Hash()]);
    StatusAt(s, x);
    StatusAt(t, x);
    if x.Hash() in HashSet(nodes) {
      var i := HashAt(nodes, x.Hash());
      SameHash(s, nodes[i], x);
    } else if x in nodes {
      var i :| 0 <= i < |nodes| && nodes[i] == x;
      HashIn(nodes, x, i);
    }
  }

  /** An ancestor is known to be invalid: the chain stays, and the taint does. */
  lemma TaintedExact(r: Rules, s: ChainState, n: BlockNode, x: BlockNode)
    requires Sound(s) && s.Has(n) && n.parent.Some? && n !in s.best && Tainted(s.status, n) && s.Has(x)
    ensures Tree(s) && Replay(s.best).Some?
    ensures var t := ReorganizeTo(r, s, n).state;
      && t.best == s.best
      && (t.KnownInvalid(x) <==> s.KnownInvalid(x) || Flags(r, s, n, x))
      && (Tainted(t.status, x) <==> Tainted(s.status, x))
  {
    hide *;
    SoundFacts(s);
    AttachSplits(s, n);
    AttachIndexed(s, n);
    TaintedSuffix(s, n);
    NodeFacts(s, n);
    FlagsTainted(r, s, n, x);
    var attach := Attach(s.best, n);
    ReplayPrefix(s.best, n.height - |attach| + 1);
    ReorganizeToUnfold(r, s, n, attach, n.height - |attach|);
    var nodes := if s.KnownInvalid(n.parent.value) then [n] else ValidSuffix(s.status, attach);
    MarkOneIs(s.status, n, InvalidAncestor);
    var t := ReorganizeTo(r, s, n).state;
    forall y | s.Has(y)
      ensures t.KnownInvalid(y) <==> s.KnownInvalid(y) || y in nodes
    {
      MarkedExact(s, nodes, y);
    }
    var z := if s.KnownInvalid(n.parent.value) then n.parent.value else attach[|attach| - |nodes| - 1];
    AboveInvalid(s, n, nodes, z);
    TaintFollows(s, t, x, z, false);
  }

  lemma FlagsTainted(r: Rules, s: ChainState, n: BlockNode, x: BlockNode)
    requires Tree(s) && s.Has(n) && n.parent.Some? && Tainted(s.status, n)
    requires forall y :: y in Attach(s.best, n) ==> y.Hash() in s.status
    ensures Flags(r, s, n, x) <==>
      if s.KnownInvalid(n.parent.value) then x == n else x in ValidSuffix(s.status, Attach(s.best, n))
  {
    hide Tree, Tainted, ValidSuffix, Attach;
  }

  /** The nodes flagged by ancestry are on top of one that is known to be invalid. */
  lemma AboveInvalid(s: ChainState, n: BlockNode, nodes: seq<BlockNode>, z: BlockNode)
    requires Sound(s) && s.Has(n) && n.parent.Some? && Tainted(s.status, n)
    requires forall y :: y in Attach(s.best, n) ==> y.Hash() in s.status
    requires |ValidSuffix(s.status, Attach(s.best, n))| < |Attach(s.best, n)|
    requires nodes == if s.KnownInvalid(n.parent.value) then [n] else ValidSuffix(s.status, Attach(s.best, n))
    requires z == if s.KnownInvalid(n.parent.value) then n.parent.value
                  else Attach(s.best, n)[|Attach(s.best, n)| - |nodes| - 1]
    ensures s.KnownInvalid(z) && forall y :: y in nodes ==> z in Path(y)
  {
    hide *;
    SoundFacts(s);
    var attach := Attach(s.best, n);
    if s.KnownInvalid(n.parent.value) {
      PathUnfold(n);
    } else {
      ValidSuffixFacts(s.status, attach);
      var k := |attach| - |nodes|;
      StatusAt(s, z);
      assert attach[k - 1] in attach;
      forall y | y in nodes
        ensures z in Path(y)
      {
        var i := SuffixAt(s.status, attach, y);
        AttachOrder(s, n, k - 1, i);
      }
    }
  }

  /** No ancestor is known to be invalid: the dry run decides. */
  lemma DryRunState(r: Rules, s: ChainState, n: BlockNode)
    requires Sound(s) && s.Has(n) && n.parent.Some? && n !in s.best && !Tainted(s.status, n)
    ensures Tree(s) && Replay(s.best).Some?
    ensures var t, attach, k := ReorganizeTo(r, s, n).state, Attach(s.best, n), Stop(r, s, n);
      && t.index == s.index
      && t.best == (if k == |attach| then Path(n) else s.best)
      && Verdict(s.status, t.status, attach, k)
  {
    hide *;
    SoundFacts(s);
    AttachSplits(s, n);
    AttachIndexed(s, n);
    AttachOffBranch(s, n);
    AttachReplays(s, n);
    TaintedSuffix(s, n);
    NodeFacts(s, n);
    ParentClean(s, n);
    var attach := Attach(s.best, n);
    var f := n.height - |attach|;
    ReplayPrefix(s.best, f + 1);
    ReorganizeToUnfold(r, s, n, attach, f);
    ReorganizeUnfold(r, s, f, attach);
    StopIs(r, s, n, attach, f);
    var base := s.best[..f + 1];
    var k := CheckOutcome(r, base, Replay(base).value, s.status, attach);
  }

  lemma ParentClean(s: ChainState, n: BlockNode)
    requires n.parent.Some?
    ensures s.KnownInvalid(n.parent.value) ==> Tainted(s.status, n)
  {
    assert Path(n) == Path(n.parent.value) + [n];
    assert n.parent.value in Path(n);
  }

  lemma AboveStop(s: ChainState, n: BlockNode, k: nat)
    requires Tree(s) && s.Has(n) && k < |Attach(s.best, n)|
    ensures var attach := Attach(s.best, n);
      attach[k] in attach[k..] && s.Has(attach[k]) && forall y :: y in attach[k..] ==> attach[k] in Path(y)
  {
    hide *;
    AttachIndexed(s, n);
    var attach := Attach(s.best, n);
    forall y | y in attach[k..]
      ensures attach[k] in Path(y)
    {
      var i :| 0 <= i < |attach[k..]| && attach[k..][i] == y;
      assert attach[k + i] == y;
      AttachOrder(s, n, k, k + i);
    }
    assert attach[k] in attach && attach[k..][0] == attach[k];
  }

  lemma DryRunExact(r: Rules, s: ChainState, n: BlockNode, x: BlockNode)
    requires Sound(s) && s.Has(n) && n.parent.Some? && n !in s.best && !Tainted(s.status, n) && s.Has(x)
    ensures Tree(s) && Replay(s.best).Some?
    ensures var t := ReorganizeTo(r, s, n).state;
      && t.best == (if Stop(r, s, n) == |Attach(s.best, n)| then Path(n) else s.best)
      && (t.KnownInvalid(x) <==> s.KnownInvalid(x) || Flags(r, s, n, x))
      && (Tainted(t.status, x) <==> Tainted(s.status, x) || Spoilt(r, s, n, x))
  {
    hide *;
    SoundFacts(s);
    AttachIndexed(s, n);
    AttachOffBranch(s, n);
    DryRunState(r, s, n);
    var attach, k := Attach(s.best, n), Stop(r, s, n);
    var t := ReorganizeTo(r, s, n).state;
    forall y | s.Has(y)
      ensures t.KnownInvalid(y) <==> s.KnownInvalid(y) || y in attach[k..]
    {
      VerdictExact(s, t, attach, k, y);
    }
    FlagsUntainted(r, s, n, x, k);
    SpoiltIs(r, s, n, x, k);
    if k < |attach| {
      AboveStop(s, n, k);
      TaintFollows(s, t, x, attach[k], true);
    } else {
      SameTaint(s, t, x);
    }
  }

  lemma StopIs(r: Rules, s: ChainState, n: BlockNode, attach: seq<BlockNode>, f: nat)
    requires Tree(s) && s.Has(n) && attach == Attach(s.best, n) && f == n.height - |attach| < |s.best|
    ensures Stop(r, s, n) == StopAt(r, s.best[..f + 1], s.status, attach)
  {
    hide Tree, StopAt, Attach;
  }

  lemma FlagsUntainted(r: Rules, s: ChainState, n: BlockNode, x: BlockNode, k: nat)
    requires Tree(s) && s.Has(n) && n.parent.Some? && !Tainted(s.status, n) && k == Stop(r, s, n)
    ensures Flags(r, s, n, x) <==> x in Attach(s.best, n)[k..]
  {
    hide Tree, Tainted, Attach, Stop;
  }

  lemma SpoiltIs(r: Rules, s: ChainState, n: BlockNode, x: BlockNode, k: nat)
    requires Tree(s) && s.Has(n) && k == Stop(r, s, n)
    ensures Spoilt(r, s, n, x) <==>
      !Tainted(s.status, n) && k < |Attach(s.best, n)| && Attach(s.best, n)[k] in Path(x)
  {
    hide Tree, Tainted, Attach, Stop, Path;
  }

  lemma VerdictExact(s: ChainState, t: ChainState, attach: seq<BlockNode>, k: nat, y: BlockNode)
    requires Tree(s) && s.Has(y) && Verdict(s.status, t.status, attach, k) && k <= |attach| && DistinctHashes(attach)
    requires forall x :: x in attach ==> s.Has(x)
    ensures t.KnownInvalid(y) <==> s.KnownInvalid(y) || y in attach[k..]
  {
    hide *;
    NodeFacts(s, y);
    var i := VerdictAt(s.status, t.status, attach, k, y.Hash());
    StatusAt(s, y);
    StatusAt(t, y);
    SetFlagFacts(s.status[y.Hash()]);
    if i >= 0 {
      assert attach[i] in attach;
      SameHash(s, attach[i], y);
      if i >= k { assert attach[k..][i - k] == y; }
    }
    if y in attach[k..] {
      var j :| 0 <= j < |attach[k..]| && attach[k..][j] == y;
      assert attach[k + j] == y;
      if i >= 0 { DistinctAt(attach, i, k + j); } else { VerdictTouches(s.status, t.status, attach, k, k + j); }
    }
  }

  lemma DistinctAt(nodes: seq<BlockNode>, i: nat, j: nat)
    requires DistinctHashes(nodes) && i < |nodes| && j < |nodes| && nodes[i].Hash() == nodes[j].Hash()
    ensures i == j
  {
  }

  lemma VerdictTouches(before: Statuses, after: Statuses, attach: seq<BlockNode>, k: nat, j: nat)
    requires Verdict(before, after, attach, k) && k <= j < |attach|
    ensures attach[j].Hash() in after && after[attach[j].Hash()].KnownInvalid()
  {
  }

  lemma SameTaint(s: ChainState, t: ChainState, x: BlockNode)
    requires Tree(s) && s.Has(x) && forall y :: s.Has(y) ==> (t.KnownInvalid(y) <==> s.KnownInvalid(y))
    ensures Tainted(t.status, x) <==> Tainted(s.status, x)
  {
    hide *;
    PathIndexed(s, x);
    if Tainted(t.status, x) {
      var y := TaintedFrom(t.status, x);
      StatusAt(t, y);
      StatusAt(s, y);
      TaintedAt(s.status, x, y);
    }
    if Tainted(s.status, x) {
      var y := TaintedFrom(s.status, x);
      StatusAt(t, y);
      StatusAt(s, y);
      TaintedAt(t.status, x, y);
    }
  }

  /** A reorganization, exactly: the chain moves or stays, which nodes are known to be
      invalid afterwards, and which nodes have such an ancestor. */
  lemma ReorganizeExact(r: Rules, s: ChainState, n: BlockNode)
    requires Sound(s) && s.Has(n) && n.parent.Some? && n !in s.best
    ensures Tree(s) && Replay(s.best).Some?
    ensures var t := ReorganizeTo(r, s, n).state;
      && t.index == s.index
      && t.best == (if Moves(r, s, n) then Path(n) else s.best)
      && (forall x :: s.Has(x) ==> (t.KnownInvalid(x) <==> s.KnownInvalid(x) || Flags(r, s, n, x)))
      && (forall x :: s.Has(x) ==> (Tainted(t.status, x) <==> Tainted(s.status, x) || Spoilt(r, s, n, x)))
  {
    hide *;
    SoundFacts(s);
    ReorganizeToSound(r, s, n);
    var t := ReorganizeTo(r, s, n).state;
    ReorganizedEnds(s, n, ReorganizeTo(r, s, n));
    MovesIs(r, s, n);
    forall x | s.Has(x)
      ensures t.best == (if Moves(r, s, n) then Path(n) else s.best)
      ensures t.KnownInvalid(x) <==> s.KnownInvalid(x) || Flags(r, s, n, x)
      ensures Tainted(t.status, x) <==> Tainted(s.status, x) || Spoilt(r, s, n, x)
    {
      SpoiltIs(r, s, n, x, Stop(r, s, n));
      if Tainted(s.status, n) { TaintedExact(r, s, n, x); } else { DryRunExact(r, s, n, x); }
    }
  }

  lemma MovesIs(r: Rules, s: ChainState, n: BlockNode)
    requires Tree(s) && s.Has(n)
    ensures Moves(r, s, n) <==> !Tainted(s.status, n) && Stop(r, s, n) == |Attach(s.best, n)|
  {
  }

  // ---- the heaviest chain

  lemma HeaviestMeans(s: ChainState)
    requires Tree(s)
    ensures |s.best| > 0
    ensures Heaviest(s) <==> forall x :: s.Has(x) && !Tainted(s.status, x) ==> x.workSum <= s.Tip().workSum
  {
    hide Tree, Tainted;
    TreeFacts(s);
    forall h | h in s.index
      ensures s.Has(s.index[h])
    {
      TreeKeys(s, h);
    }
  }

  /** No node that is free of invalid ancestors, before the reorganization and after it,
      has more work than the chain ends with. */
  ghost predicate NothingOutweighs(r: Rules, s: ChainState, n: BlockNode)
    requires Tree(s) && s.Has(n)
  {
    forall x :: s.Has(x) && !Tainted(s.status, x) && !Spoilt(r, s, n, x) ==>
      x.workSum <= if Moves(r, s, n) then n.workSum else s.Tip().workSum
  }

  /** After a reorganization the best chain is a heaviest one exactly when nothing viable
      outweighs the node, if the chain moves to it, or the old tip, if not. */
  lemma ReorganizeHeaviest(r: Rules, s: ChainState, n: BlockNode)
    requires Sound(s) && s.Has(n) && n.parent.Some? && n !in s.best
    ensures Tree(s) && Replay(s.best).Some?
    ensures Heaviest(ReorganizeTo(r, s, n).state) <==> NothingOutweighs(r, s, n)
  {
    hide *;
    SoundFacts(s);
    ReorganizeExact(r, s, n);
    ReorganizeToSound(r, s, n);
    var t := ReorganizeTo(r, s, n).state;
    ReorganizedEnds(s, n, ReorganizeTo(r, s, n));
    SoundFacts(t);
    HeaviestMeans(t);
    HasSame(s, t);
    TreeFacts(s);
    TipIs(s);
    TipIs(t);
    OutweighsIs(r, s, n, t.Tip().workSum);
  }

  lemma OutweighsIs(r: Rules, s: ChainState, n: BlockNode, work: nat)
    requires Tree(s) && s.Has(n) && |s.best| > 0
    requires work == if Moves(r, s, n) then n.workSum else s.Tip().workSum
    ensures NothingOutweighs(r, s, n) <==>
      forall x :: s.Has(x) && !(Tainted(s.status, x) || Spoilt(r, s, n, x)) ==> x.workSum <= work
  {
    hide Tree, Tainted, Spoilt, Moves;
  }

  // ---- InvalidateBlock

  /** A node that invalidating n leaves free of invalid ancestors. */
  ghost predicate Viable(s: ChainState, n: BlockNode, x: BlockNode) {
    s.Has(x) && !Tainted(s.status, x) && n !in Path(x)
  }

  /** On the best chain, higher means on top. */
  lemma BestOrder(s: ChainState, n: BlockNode, x: BlockNode)
    requires Tree(s) && n in s.best && x in s.best && n.height <= x.height
    ensures n in Path(x)
  {
    hide *;
    TreeFacts(s);
    OnPath(s.Tip(), x);
    PathPrefix(s.Tip(), x.height);
    assert Path(x)[n.height] == n;
  }

  lemma TruncatedTaint(s: ChainState, n: BlockNode, x: BlockNode)
    requires Sound(s) && n in s.best && n.parent.Some? && n.Hash() in s.status && s.Has(x)
    ensures 0 < n.height < |s.best| && Replay(s.best).Some?
    ensures Tainted(Truncated(s, n).status, x) <==> Tainted(s.status, x) || n in Path(x)
  {
    hide *;
    SoundFacts(s);
    TreeFacts(s);
    TruncatedSound(s, n);
    TruncatedIs(s, n);
    var t := Truncated(s, n);
    forall y | s.Has(y)
      ensures s.KnownInvalid(y) ==> t.KnownInvalid(y)
      ensures t.KnownInvalid(y) && !s.KnownInvalid(y) ==> n in Path(y)
    {
      NodeFacts(s, y);
      TruncatedFlag(s, n, y);
      if y in s.best && n.height <= y.height { BestOrder(s, n, y); }
    }
    TaintFollows(s, t, x, n, true);
  }

  lemma SideTaint(s: ChainState, n: BlockNode, x: BlockNode)
    requires Sound(s) && s.Has(n) && n !in s.best && n.Hash() in s.status && s.Has(x)
    ensures Tainted(InvalidatedSide(s, n).status, x) <==> Tainted(s.status, x) || n in Path(x)
  {
    hide *;
    SoundFacts(s);
    InvalidatedSideSound(s, n);
    InvalidatedSideIs(s, n);
    PathUnfold(n);
    TaintFollows(s, InvalidatedSide(s, n), x, n, true);
  }

  /** When InvalidateBlock leaves a heaviest chain. For a block of the best chain it turns
      on the chosen tip: where the chain moves to it, on what outweighs the tip, and
      where an ancestor of it is invalid or breaks a rule, on what outweighs the
      parent of the block. */
  ghost predicate InvalidateKeeps(r: Rules, s: ChainState, n: BlockNode, tip: BlockNode)
    requires Sound(s) && s.Has(n) && n.parent.Some? && n.Hash() in s.status
  {
    if s.KnownInvalid(n) then Heaviest(s)
    else if n !in s.best then forall x :: Viable(s, n, x) ==> x.workSum <= s.Tip().workSum
    else
      TruncatedSound(s, n);
      var mid, parent := Truncated(s, n), n.parent.value;
      if tip == parent || !mid.Has(tip) then forall x :: Viable(s, n, x) ==> x.workSum <= parent.workSum
      else
        forall x :: Viable(s, n, x) && !Spoilt(r, mid, tip, x) ==>
          x.workSum <= if Moves(r, mid, tip) then tip.workSum else parent.workSum
  }

  /** InvalidateBlock leaves a heaviest chain exactly then. */
  lemma InvalidatedHeaviest(r: Rules, s: ChainState, n: BlockNode, t: ChainState, err: Option<Error>, tip: BlockNode)
    requires Sound(s) && Tree(s) && Replay(s.best).Some? && s.Has(n) && n.parent.Some? && n.Hash() in s.status
    requires Invalidated(r, s, n.Hash(), t, err, tip)
    ensures Heaviest(t) <==> InvalidateKeeps(r, s, n, tip)
  {
    hide *;
    SoundFacts(s);
    NodeFacts(s, n);
    HasIndex(s, n);
    InvalidatedCases(r, s, n.Hash(), t, err, tip);
    if s.KnownInvalid(n) {
      KeepsInvalidCase(r, s, n, tip);
    } else if n !in s.best {
      SideHeaviest(r, s, n, tip);
    } else {
      MainHeaviest(r, s, n, t, tip);
    }
  }

  lemma KeepsInvalidCase(r: Rules, s: ChainState, n: BlockNode, tip: BlockNode)
    requires Sound(s) && s.Has(n) && n.parent.Some? && n.Hash() in s.status && s.KnownInvalid(n)
    ensures InvalidateKeeps(r, s, n, tip) <==> Heaviest(s)
  {
    hide Sound, Heaviest;
  }

  lemma SideHeaviest(r: Rules, s: ChainState, n: BlockNode, tip: BlockNode)
    requires Sound(s) && s.Has(n) && n.parent.Some? && n.Hash() in s.status && !s.KnownInvalid(n) && n !in s.best
    ensures Heaviest(InvalidatedSide(s, n)) <==> InvalidateKeeps(r, s, n, tip)
  {
    hide *;
    var t := InvalidatedSide(s, n);
    InvalidatedSideSound(s, n);
    InvalidatedSideIs(s, n);
    SoundFacts(s);
    SoundFacts(t);
    TreeFacts(s);
    HeaviestMeans(t);
    HasSame(s, t);
    TipIs(s);
    TipIs(t);
    forall x | s.Has(x)
      ensures !Tainted(t.status, x) <==> Viable(s, n, x)
    {
      SideTaint(s, n, x);
      ViableIs(s, n, x);
    }
    SideKeepsIs(r, s, n, tip);
  }

  lemma ViableIs(s: ChainState, n: BlockNode, x: BlockNode)
    ensures Viable(s, n, x) <==> s.Has(x) && !Tainted(s.status, x) && n !in Path(x)
  {
  }

  lemma SideKeepsIs(r: Rules, s: ChainState, n: BlockNode, tip: BlockNode)
    requires Sound(s) && s.Has(n) && n.parent.Some? && n.Hash() in s.status && !s.KnownInvalid(n) && n !in s.best
    ensures |s.best| > 0
    ensures InvalidateKeeps(r, s, n, tip) <==> forall x :: s.Has(x) && Viable(s, n, x) ==> x.workSum <= s.Tip().workSum
  {
    hide Tainted, Path, Replay, ValidReplays;
  }

  lemma MainHeaviest(r: Rules, s: ChainState, n: BlockNode, t: ChainState, tip: BlockNode)
    requires Sound(s) && s.Has(n) && n.parent.Some? && n.Hash() in s.status && !s.KnownInvalid(n) && n in s.best
    requires 0 < n.height < |s.best| && Replay(s.best).Some?
    requires IsBestTip(Truncated(s, n), tip)
    requires tip == Truncated(s, n).Tip() ==> t == Truncated(s, n)
    requires tip != Truncated(s, n).Tip() ==>
      && Tree(Truncated(s, n)) && Replay(Truncated(s, n).best).Some? && tip.parent.Some?
      && t == ReorganizeTo(r, Truncated(s, n), tip).state
    ensures Heaviest(t) <==> InvalidateKeeps(r, s, n, tip)
  {
    hide *;
    var mid := Truncated(s, n);
    TruncatedSound(s, n);
    TruncatedIs(s, n);
    SoundFacts(mid);
    IsBestTipFacts(mid, tip);
    HasSame(s, mid);
    TipIs(mid);
    forall x | s.Has(x)
      ensures !Tainted(mid.status, x) <==> Viable(s, n, x)
    {
      TruncatedTaint(s, n, x);
      ViableIs(s, n, x);
    }
    MainKeepsIs(r, s, n, tip);
    if tip == mid.Tip() {
      HeaviestMeans(mid);
    } else {
      ReorganizeHeaviest(r, mid, tip);
      OutweighsIs(r, mid, tip, if Moves(r, mid, tip) then tip.workSum else mid.Tip().workSum);
    }
  }

  lemma MainKeepsIs(r: Rules, s: ChainState, n: BlockNode, tip: BlockNode)
    requires Sound(s) && s.Has(n) && n.parent.Some? && n.Hash() in s.status && !s.KnownInvalid(n) && n in s.best
    requires 0 < n.height < |s.best| && Replay(s.best).Some?
    requires Tree(Truncated(s, n)) && Truncated(s, n).Has(tip)
    ensures tip == n.parent.value ==>
      (InvalidateKeeps(r, s, n, tip) <==>
        forall x :: s.Has(x) && Viable(s, n, x) ==> x.workSum <= n.parent.value.workSum)
    ensures tip != n.parent.value ==>
      var mid := Truncated(s, n);
      (InvalidateKeeps(r, s, n, tip) <==> forall x :: s.Has(x) && Viable(s, n, x) && !Spoilt(r, mid, tip, x) ==>
         x.workSum <= if Moves(r, mid, tip) then tip.workSum else n.parent.value.workSum)
  {
    hide Sound, Tree, Replay, Tainted, Path, Truncated, Spoilt, Moves;
  }

  /** A block of the best chain is invalidated: its parent is the tip afterwards exactly
      when it is the chosen tip, or the chain does not move to the chosen one. */
  lemma InvalidatedTip(r: Rules, s: ChainState, n: BlockNode, t: ChainState, err: Option<Error>, tip: BlockNode)
    requires Sound(s) && Tree(s) && Replay(s.best).Some? && s.Has(n) && n.parent.Some? && n.Hash() in s.status
    requires Invalidated(r, s, n.Hash(), t, err, tip) && n in s.best && !s.KnownInvalid(n)
    ensures 0 < n.height < |s.best| && Tree(Truncated(s, n)) && Truncated(s, n).Has(tip) && |t.best| > 0
    ensures t.Tip() == n.parent.value <==> tip == n.parent.value || !Moves(r, Truncated(s, n), tip)
    ensures t.Tip() != n.parent.value ==> t.Tip() == tip
  {
    hide *;
    NodeFacts(s, n);
    HasIndex(s, n);
    InvalidatedCases(r, s, n.Hash(), t, err, tip);
    var mid := Truncated(s, n);
    TruncatedSound(s, n);
    TruncatedIs(s, n);
    SoundFacts(mid);
    IsBestTipFacts(mid, tip);
    TipIs(mid);
    InvalidatedSound(r, s, n.Hash(), t, err, tip);
    SoundFacts(t);
    TreeFacts(t);
    TipIs(t);
    if tip != mid.Tip() { ReorganizeExact(r, mid, tip); }
  }

  /** When InvalidateBlock leaves all descendants of the block flagged. For a block of the
      best chain: those on the best chain are, and of the others those that were known
      to be invalid, and what the reorganization to the chosen tip flags. */
  ghost predicate FlagsAll(r: Rules, s: ChainState, n: BlockNode, tip: BlockNode)
    requires Sound(s) && s.Has(n) && n.parent.Some? && n.Hash() in s.status
  {
    if s.KnownInvalid(n) then forall x :: s.Has(x) && Descends(x, n) ==> s.KnownInvalid(x)
    else if n !in s.best then true
    else
      TruncatedSound(s, n);
      var mid := Truncated(s, n);
      forall x :: s.Has(x) && Descends(x, n) ==>
        || x in s.best
        || s.KnownInvalid(x)
        || (tip != n.parent.value && mid.Has(tip) && tip.parent.Some? && Flags(r, mid, tip, x))
  }

  /** InvalidateBlock leaves all descendants flagged exactly then. */
  lemma InvalidatedFlags(r: Rules, s: ChainState, n: BlockNode, t: ChainState, err: Option<Error>, tip: BlockNode)
    requires Sound(s) && Tree(s) && Replay(s.best).Some? && s.Has(n) && n.parent.Some? && n.Hash() in s.status
    requires Invalidated(r, s, n.Hash(), t, err, tip)
    ensures (forall x :: s.Has(x) && n in Path(x) ==> t.KnownInvalid(x)) <==> FlagsAll(r, s, n, tip)
  {
    hide *;
    SoundFacts(s);
    NodeFacts(s, n);
    HasIndex(s, n);
    InvalidatedCases(r, s, n.Hash(), t, err, tip);
    InvalidatedSound(r, s, n.Hash(), t, err, tip);
    forall x | true
      ensures n in Path(x) <==> x == n || Descends(x, n)
    {
      DescendsIs(x, n);
      PathUnfold(x);
    }
    if s.KnownInvalid(n) {
      FlagsAllInvalid(r, s, n, tip);
    } else if n !in s.best {
      FlagsAllSide(r, s, n, tip);
      InvalidatedSideSound(s, n);
    } else {
      MainFlags(r, s, n, t, tip);
    }
  }

  lemma FlagsAllInvalid(r: Rules, s: ChainState, n: BlockNode, tip: BlockNode)
    requires Sound(s) && s.Has(n) && n.parent.Some? && n.Hash() in s.status && s.KnownInvalid(n)
    ensures FlagsAll(r, s, n, tip) <==> forall x :: s.Has(x) && Descends(x, n) ==> s.KnownInvalid(x)
  {
    hide Sound, Descends;
  }

  lemma FlagsAllSide(r: Rules, s: ChainState, n: BlockNode, tip: BlockNode)
    requires Sound(s) && s.Has(n) && n.parent.Some? && n.Hash() in s.status && !s.KnownInvalid(n) && n !in s.best
    ensures FlagsAll(r, s, n, tip)
  {
    hide Sound, Descends;
  }

  lemma MainFlags(r: Rules, s: ChainState, n: BlockNode, t: ChainState, tip: BlockNode)
    requires Sound(s) && s.Has(n) && n.parent.Some? && n.Hash() in s.status && !s.KnownInvalid(n) && n in s.best
    requires 0 < n.height < |s.best| && Replay(s.best).Some?
    requires IsBestTip(Truncated(s, n), tip)
    requires tip == Truncated(s, n).Tip() ==> t == Truncated(s, n)
    requires tip != Truncated(s, n).Tip() ==>
      && Tree(Truncated(s, n)) && Replay(Truncated(s, n).best).Some? && tip.parent.Some?
      && t == ReorganizeTo(r, Truncated(s, n), tip).state
    ensures (forall x :: s.Has(x) && (x == n || Descends(x, n)) ==> t.KnownInvalid(x)) <==> FlagsAll(r, s, n, tip)
  {
    hide *;
    var mid := Truncated(s, n);
    SoundFacts(s);
    TreeFacts(s);
    TruncatedSound(s, n);
    TruncatedIs(s, n);
    SoundFacts(mid);
    IsBestTipFacts(mid, tip);
    HasSame(s, mid);
    TipIs(mid);
    forall x | s.Has(x) && Descends(x, n)
      ensures mid.KnownInvalid(x) <==> x in s.best || s.KnownInvalid(x)
    {
      NodeFacts(s, x);
      DescendsIs(x, n);
      DescendsHigher(s, x, n);
      TruncatedFlag(s, n, x);
      if x in s.best { assert s.best[x.height] == x; }
    }
    FlagsAllMain(r, s, n, tip);
    if tip != mid.Tip() { ReorganizeExact(r, mid, tip); }
  }

  lemma FlagsAllMain(r: Rules, s: ChainState, n: BlockNode, tip: BlockNode)
    requires Sound(s) && s.Has(n) && n.parent.Some? && n.Hash() in s.status && !s.KnownInvalid(n) && n in s.best
    requires 0 < n.height < |s.best| && Replay(s.best).Some?
    requires Tree(Truncated(s, n)) && Truncated(s, n).Has(tip) && (tip != n.parent.value ==> tip.parent.Some?)
    ensures tip == n.parent.value ==>
      (FlagsAll(r, s, n, tip) <==> forall x :: s.Has(x) && Descends(x, n) ==> x in s.best || s.KnownInvalid(x))
    ensures tip != n.parent.value ==>
      var mid := Truncated(s, n);
      (FlagsAll(r, s, n, tip) <==>
        forall x :: s.Has(x) && Descends(x, n) ==> x in s.best || s.KnownInvalid(x) || Flags(r, mid, tip, x))
  {
    hide Sound, Tree, Replay, Descends, Truncated, Flags;
  }

  // ---- ReconsiderBlock

  /** Still known to be invalid once n is reconsidered: not n itself, of its descendants
      those that failed themselves, and all others as before. */
  ghost predicate StillInvalid(s: ChainState, n: BlockNode, y: BlockNode) {
    && y != n && y.Hash() in s.status
    && if Descends(y, n) then s.status[y.Hash()].validateFailed else s.KnownInvalid(y)
  }

  /** Which ancestors still count against a node once n is reconsidered. */
  lemma ReconsideredTaint(s: ChainState, n: BlockNode, x: BlockNode)
    requires Sound(s) && s.Has(n) && n !in s.best && n.Hash() in s.status && s.Has(x)
    ensures Tainted(Reconsidered(s, n).status, x) <==> exists y :: y in Path(x) && StillInvalid(s, n, y)
  {
    hide *;
    SoundFacts(s);
    PathIndexed(s, x);
    ReconsideredSound(s, n);
    ReconsideredIs(s, n);
    var t := Reconsidered(s, n);
    forall y | y in Path(x)
      ensures t.KnownInvalid(y) <==> StillInvalid(s, n, y)
    {
      NodeFacts(s, y);
      DescendsIs(y, n);
      StillInvalidIs(s, n, y);
    }
    if Tainted(t.status, x) {
      var y := TaintedFrom(t.status, x);
      StatusAt(t, y);
    }
    if y :| y in Path(x) && StillInvalid(s, n, y) {
      StatusAt(t, y);
      TaintedAt(t.status, x, y);
    }
  }

  lemma StillInvalidIs(s: ChainState, n: BlockNode, y: BlockNode)
    requires y.Hash() in s.status
    ensures StillInvalid(s, n, y) <==>
      y != n && if Descends(y, n) then s.status[y.Hash()].validateFailed else s.KnownInvalid(y)
  {
  }

  /** When ReconsiderBlock leaves a heaviest chain: it turns on the one leaf that is tried,
      and on all nodes that are free of invalid ancestors once the block is
      reconsidered. */
  ghost predicate ReconsiderKeeps(r: Rules, s: ChainState, n: BlockNode, tip: BlockNode)
    requires Sound(s) && s.Has(n) && n.Hash() in s.status
  {
    if s.KnownValid(n) then Heaviest(s)
    else
      var mid := Reconsidered(s, n);
      StatusAt(s, n);
      ReconsideredSound(s, n);
      if tip.workSum <= s.Tip().workSum || !mid.Has(tip) then
        forall x :: s.Has(x) && !Tainted(mid.status, x) ==> x.workSum <= s.Tip().workSum
      else
        forall x :: s.Has(x) && !Tainted(mid.status, x) && !Spoilt(r, mid, tip, x) ==>
          x.workSum <= if Moves(r, mid, tip) then tip.workSum else s.Tip().workSum
  }

  /** ReconsiderBlock leaves a heaviest chain exactly then. */
  lemma ReconsideredHeaviest(r: Rules, s: ChainState, n: BlockNode, t: ChainState, err: Option<Error>, tip: BlockNode)
    requires Sound(s) && Tree(s) && Replay(s.best).Some? && s.Has(n) && n.Hash() in s.status
    requires ReconsideredTo(r, s, n.Hash(), t, err, tip)
    ensures Heaviest(t) <==> ReconsiderKeeps(r, s, n, tip)
  {
    hide *;
    SoundFacts(s);
    TreeFacts(s);
    HasIndex(s, n);
    ReconsideredCases(r, s, n.Hash(), t, err, tip);
    if s.KnownValid(n) {
      ReconsiderKeepsValid(r, s, n, tip);
    } else {
      StatusAt(s, n);
      ReconsideredSound(s, n);
      ReconsideredIs(s, n);
      var mid := Reconsidered(s, n);
      SoundFacts(mid);
      HasSame(s, mid);
      TipIs(s);
      TipIs(mid);
      OffLeafFacts(mid, tip);
      ReconsiderKeepsIs(r, s, n, tip);
      if tip.workSum <= s.Tip().workSum {
        HeaviestMeans(mid);
      } else {
        ReorganizeHeaviest(r, mid, tip);
        OutweighsIs(r, mid, tip, if Moves(r, mid, tip) then tip.workSum else mid.Tip().workSum);
      }
    }
  }

  lemma ReconsiderKeepsValid(r: Rules, s: ChainState, n: BlockNode, tip: BlockNode)
    requires Sound(s) && s.Has(n) && n.Hash() in s.status && s.KnownValid(n)
    ensures ReconsiderKeeps(r, s, n, tip) <==> Heaviest(s)
  {
    hide Sound, Heaviest;
  }

  lemma ReconsiderKeepsIs(r: Rules, s: ChainState, n: BlockNode, tip: BlockNode)
    requires Sound(s) && s.Has(n) && n.Hash() in s.status && !s.KnownValid(n) && |s.best| > 0
    requires Tree(Reconsidered(s, n)) && Reconsidered(s, n).Has(tip)
    ensures tip.workSum <= s.Tip().workSum ==>
      (ReconsiderKeeps(r, s, n, tip) <==>
        forall x :: s.Has(x) && !Tainted(Reconsidered(s, n).status, x) ==> x.workSum <= s.Tip().workSum)
    ensures tip.workSum > s.Tip().workSum ==>
      var mid := Reconsidered(s, n);
      (ReconsiderKeeps(r, s, n, tip) <==>
        forall x :: s.Has(x) && !Tainted(mid.status, x) && !Spoilt(r, mid, tip, x) ==>
          x.workSum <= if Moves(r, mid, tip) then tip.workSum else s.Tip().workSum)
  {
    hide Sound, Tree, Tainted, Reconsidered, Spoilt, Moves;
  }

  /** Reconsidering what was just invalidated off the best chain, to the end of
      ReconsiderBlock: it restores which nodes are known to be invalid exactly when its
      reorganization, if it comes to one, flags every descendant that was invalid by
      ancestry alone before, and flags nothing that was not invalid. */
  lemma ReconsiderRestores(r: Rules, s: ChainState, n: BlockNode, t: ChainState, err: Option<Error>, tip: BlockNode)
    requires Sound(s) && s.Has(n) && n !in s.best && n.Hash() in s.status && !s.KnownInvalid(n)
    requires var u := InvalidatedSide(s, n);
      Tree(u) && Replay(u.best).Some? && ReconsideredTo(r, u, n.Hash(), t, err, tip)
    ensures n.Hash() in InvalidatedSide(s, n).status && |s.best| > 0
    ensures var mid := Reconsidered(InvalidatedSide(s, n), n);
      && Tree(mid) && mid.Has(tip) && tip.parent.Some?
      && ((forall x :: s.Has(x) ==> (t.KnownInvalid(x) <==> s.KnownInvalid(x))) <==>
          (forall x :: s.Has(x) ==>
            && (Descends(x, n) && s.KnownInvalid(x) && !s.status[x.Hash()].validateFailed ==>
                  tip.workSum > s.Tip().workSum && Flags(r, mid, tip, x))
            && (tip.workSum > s.Tip().workSum && Flags(r, mid, tip, x) ==> s.KnownInvalid(x))))
  {
    hide *;
    SoundFacts(s);
    TreeFacts(s);
    RoundTripAt(s, n, n);
    var u := InvalidatedSide(s, n);
    InvalidatedSideSound(s, n);
    InvalidatedSideIs(s, n);
    HasSame(s, u);
    HasIndex(u, n);
    ReconsideredCases(r, u, n.Hash(), t, err, tip);
    ReconsideredSound(u, n);
    ReconsideredIs(u, n);
    var mid := Reconsidered(u, n);
    HasSame(u, mid);
    SoundFacts(mid);
    OffLeafFacts(mid, tip);
    NodeFacts(mid, tip);
    TipIs(s);
    TipIs(u);
    forall x | s.Has(x)
      ensures x.Hash() in s.status
      ensures mid.KnownInvalid(x) <==> if Descends(x, n) then s.status[x.Hash()].validateFailed else s.KnownInvalid(x)
      ensures s.status[x.Hash()].validateFailed ==> s.KnownInvalid(x)
    {
      NodeFacts(s, x);
      RoundTripAt(s, n, x);
      FailedInvalid(s, x);
    }
    if tip.workSum > s.Tip().workSum { ReorganizeExact(r, mid, tip); }
  }
}
