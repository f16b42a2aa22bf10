/** The block tree: nodes with a parent pointer and a skip pointer
    (btcd/blockchain/blockindex.go). Nodes never change once built, apart from
    their status, which the chain state keeps; a pointer is the node it points at. */
module BlockTree {
  import opened Wire
  import opened Bits

  datatype BlockNode = BlockNode(
    block: Block,
    parent: Option<BlockNode>,
    ancestor: Option<BlockNode>,
    workSum: nat,
    height: nat)
  {
    function Hash(): Hash { block.hash }
    function Timestamp(): int { block.timestamp }
  }

  /** blockStatus: the validation flags of a node, one bit each in the code. */
  datatype Status = Status(haveData: bool, valid: bool, validateFailed: bool, invalidAncestor: bool) {
    predicate KnownValid() { valid }
    predicate KnownInvalid() { validateFailed || invalidAncestor }
  }

  // ---- plain parent walking: the reference everything else is measured against

  /** Heights, work and parent hashes agree all the way down to genesis. */
  ghost predicate Chained(n: BlockNode) {
    match n.parent
    case None =>
      n.height == 0 && n.workSum == n.block.work
    case Some(p) =>
      && Chained(p)
      && n.height == p.height + 1
      && n.block.prev == p.Hash()
      && n.workSum == p.workSum + n.block.work
  }

  /** The node at a height, found by following parents one at a time. */
  ghost function At(n: BlockNode, height: nat): (a: BlockNode)
    requires Chained(n) && height <= n.height
    ensures a.height == height && Chained(a)
  {
    if n.height == height then n else At(n.parent.value, height)
  }

  /** A node built by initBlockNode on nodes built by it: chained, and every
      skip pointer at its proper ancestor. */
  ghost predicate Linked(n: BlockNode) {
    && Chained(n)
    && match n.parent
       case None => n.ancestor == None
       case Some(p) =>
         && Linked(p)
         && AncestorHeight(n.height) <= p.height
         && n.ancestor == Some(At(p, AncestorHeight(n.height)))
  }

  /** The chain from genesis to a node. */
  function Path(n: BlockNode): (path: seq<BlockNode>)
    ensures |path| > 0 && path[|path| - 1] == n
  {
    match n.parent
    case None => [n]
    case Some(p) => Path(p) + [n]
  }

  /** The work of blocks together. */
  function TotalWork(path: seq<BlockNode>): nat {
    if path == [] then 0 else path[0].block.work + TotalWork(path[1..])
  }

  lemma {:induction false} TotalWorkSnoc(path: seq<BlockNode>, n: BlockNode)
    ensures TotalWork(path + [n]) == TotalWork(path) + n.block.work
  {
    if path == [] {
      assert [n][1..] == [];
    } else {
      TotalWorkSnoc(path[1..], n);
      assert (path + [n])[1..] == path[1..] + [n];
    }
  }

  /** The work sum of a node is the work of all blocks from genesis to it. */
  lemma {:induction false} WorkSumIs(n: BlockNode)
    requires Chained(n)
    ensures n.workSum == TotalWork(Path(n))
  {
    if n.parent.Some? {
      WorkSumIs(n.parent.value);
      TotalWorkSnoc(Path(n.parent.value), n);
    } else {
      TotalWorkSnoc([], n);
      assert [] + [n] == [n];
    }
  }

  lemma AtSelf(n: BlockNode)
    requires Chained(n)
    ensures At(n, n.height) == n
  {
  }

  lemma {:induction false} PathAt(n: BlockNode)
    requires Chained(n)
    ensures |Path(n)| == n.height + 1
    ensures forall i :: 0 <= i <= n.height ==> Path(n)[i] == At(n, i)
  {
    if n.parent.Some? { PathAt(n.parent.value); }
  }

  /** Walking to a and from there to b is walking to b. */
  lemma {:induction false} AtAt(n: BlockNode, a: nat, b: nat)
    requires Chained(n) && b <= a <= n.height
    ensures At(At(n, a), b) == At(n, b)
  {
    if a < n.height { AtAt(n.parent.value, a, b); }
  }

  /** The chain to an ancestor is a prefix of the chain to the node. */
  lemma {:induction false} PathPrefix(n: BlockNode, height: nat)
    requires Chained(n) && height <= n.height
    ensures |Path(n)| == n.height + 1
    ensures Path(At(n, height)) == Path(n)[..height + 1]
  {
    PathAt(n);
    if height == n.height {
      assert Path(n)[..height + 1] == Path(n);
    } else {
      PathPrefix(n.parent.value, height);
      assert Path(n)[..height + 1] == Path(n.parent.value)[..height + 1];
    }
  }

  lemma {:induction false} AtLinked(n: BlockNode, height: nat)
    requires Linked(n) && height <= n.height
    ensures Linked(At(n, height))
  {
    if height < n.height { AtLinked(n.parent.value, height); }
  }

  /** The whole chain of a node is determined by any node on it. */
  lemma OnPath(n: BlockNode, a: BlockNode)
    requires Chained(n)
    ensures a in Path(n) <==> a.height <= n.height && At(n, a.height) == a
  {
    PathAt(n);
    if a.height <= n.height && At(n, a.height) == a {
      assert Path(n)[a.height] == a;
    }
    if a in Path(n) {
      var i :| 0 <= i < |Path(n)| && Path(n)[i] == a;
    }
  }

  // ---- the skip list

  /** The height the search for `target` moves to from `height`. */
  function NextHeight(height: nat, target: nat): (next: nat)
    requires target < height
    ensures target <= next < height
  {
    AncestorHeightBelow(height);
    if AncestorHeight(height) >= target then AncestorHeight(height) else height - 1
  }

  /** How many times the search follows a parent, and how many times a skip pointer. */
  function Parents(height: nat, target: nat): nat
    requires target <= height
    decreases height
  {
    if height == target then 0
    else (if AncestorHeight(height) >= target then 0 else 1) + Parents(NextHeight(height, target), target)
  }

  function Skips(height: nat, target: nat): nat
    requires target <= height
    decreases height
  {
    if height == target then 0
    else (if AncestorHeight(height) >= target then 1 else 0) + Skips(NextHeight(height, target), target)
  }

  function Steps(height: nat, target: nat): nat
    requires target <= height
  {
    Parents(height, target) + Skips(height, target)
  }

  /** Ancestor: the search by skip pointers ends at the node plain parent
      walking ends at, is nil exactly out of range, and iterates Steps times. */
  method Ancestor(node: BlockNode, height: int) returns (r: Option<BlockNode>, ghost steps: nat)
    requires Linked(node)
    ensures height < 0 || height > node.height ==> r == None
    ensures 0 <= height <= node.height ==> r == Some(At(node, height))
    ensures 0 <= height <= node.height ==> steps == Steps(node.height, height)
  {
    steps := 0;
    if height < 0 || height > node.height {
      return None, steps;
    }
    var n := Some(node);
    while n.Some? && n.value.height != height
      invariant n.Some? && Linked(n.value) && height <= n.value.height <= node.height
      invariant At(n.value, height) == At(node, height)
      invariant steps + Steps(n.value.height, height) == Steps(node.height, height)
      decreases n.value.height
    {
      var cur := n.value;
      steps := steps + 1;
      if cur.ancestor.Some? && AncestorHeight(cur.height) >= height {
        AtAt(cur.parent.value, AncestorHeight(cur.height), height);
        AtLinked(cur.parent.value, AncestorHeight(cur.height));
        n := cur.ancestor;
      } else {
        n := cur.parent;
      }
    }
    r := n;
  }

  /** A node on top of a parent, as initBlockNode and buildAncestor make it. */
  ghost function ChildOf(block: Block, parent: BlockNode): BlockNode
    requires Linked(parent)
  {
    AncestorHeightBelow(parent.height + 1);
    BlockNode(block, Some(parent), Some(At(parent, AncestorHeight(parent.height + 1))),
      parent.workSum + block.work, parent.height + 1)
  }

  /** Every node newBlockNode makes on a tree it made is linked. */
  method NewBlockNode(block: Block, parent: Option<BlockNode>) returns (n: BlockNode)
    requires parent.Some? ==> Linked(parent.value) && block.prev == parent.value.Hash()
    ensures Linked(n) && n.block == block && n.parent == parent
    ensures parent.Some? ==> n == ChildOf(block, parent.value)
    ensures n.ancestor.None? <==> n.height == 0
  {
    hide AncestorHeight;
    n := BlockNode(block, None, None, block.work, 0);
    if parent.Some? {
      n := n.(parent := parent, height := parent.value.height + 1,
        workSum := parent.value.workSum + block.work);
      AncestorHeightBelow(n.height);
      var skip, _ := Ancestor(parent.value, AncestorHeight(n.height));
      n := n.(ancestor := skip);
    }
  }

  // ---- how long the search can take

  /** One step of the search. */
  lemma Unfold(height: nat, target: nat, next: nat)
    requires target < height
    requires next == if AncestorHeight(height) >= target then AncestorHeight(height) else height - 1
    ensures target <= next < height
    ensures Parents(height, target) ==
      Parents(next, target) + if AncestorHeight(height) >= target then 0 else 1
    ensures Skips(height, target) ==
      Skips(next, target) + if AncestorHeight(height) >= target then 1 else 0
  {
    AncestorHeightBelow(height);
  }

  /** Four times the height and four times the target: skips stay skips, and each
      parent step becomes a parent step and a skip over three set bits. */
  lemma {:induction false} StepsQuadrupled(height: nat, target: nat)
    requires target <= height
    ensures Parents(4 * height, 4 * target) == Parents(height, target)
    ensures Skips(4 * height, 4 * target) == Skips(height, target) + Parents(height, target)
    decreases height
  {
    hide AncestorHeight, InvertLowestOne, BitAnd;
    if target < height {
      AncestorHeightMod4(height);
      AncestorHeightMod4(height - 1);
      AncestorHeightBelow(height);
      assert 4 * height - 1 == 4 * (height - 1) + 3;
      if AncestorHeight(height) >= target {
        StepsQuadrupled(AncestorHeight(height), target);
      } else {
        StepsQuadrupled(height - 1, target);
        Unfold(4 * height, 4 * target, 4 * height - 1);
        Unfold(4 * height - 1, 4 * target, 4 * (height - 1));
      }
    }
  }

  /** A target between two multiples of four is reached from the one above it. */
  lemma {:induction false} StepsBetween(height: nat, u: nat, r: nat)
    requires u < height && 0 < r < 4
    ensures Parents(4 * height, 4 * u + r) == Parents(height, u + 1) + 4 - r
    ensures Skips(4 * height, 4 * u + r) == Skips(height, u + 1) + Parents(height, u + 1)
    decreases height
  {
    hide AncestorHeight, InvertLowestOne, BitAnd;
    var target := 4 * u + r;
    AncestorHeightMod4(height);
    AncestorHeightMod4(height - 1);
    AncestorHeightBelow(height);
    if height == u + 1 {
      DownToBetween(u, r);
    } else if AncestorHeight(height) >= u + 1 {
      Unfold(4 * height, target, 4 * AncestorHeight(height));
      StepsBetween(AncestorHeight(height), u, r);
    } else {
      Unfold(4 * height, target, 4 * height - 1);
      Unfold(4 * height - 1, target, 4 * (height - 1));
      StepsBetween(height - 1, u, r);
    }
  }

  /** No skip pointer helps just below a multiple of four. */
  lemma DownToBetween(u: nat, r: nat)
    requires 0 < r < 4
    ensures Parents(4 * u + 4, 4 * u + r) == 4 - r && Skips(4 * u + 4, 4 * u + r) == 0
  {
    hide AncestorHeight, InvertLowestOne, BitAnd;
    var target := 4 * u + r;
    AncestorHeightMod4(u);
    AncestorHeightMod4(u + 1);
    AncestorHeightBelow(u + 1);
    PopBelow(u);
    Unfold(4 * u + 4, target, 4 * u + 3);
    if r < 3 { Unfold(4 * u + 3, target, 4 * u + 2); }
    if r < 2 { Unfold(4 * u + 2, target, 4 * u + 1); }
  }

  lemma PopBelow(n: nat)
    ensures InvertLowestOne(n) <= n && (n > 0 ==> InvertLowestOne(n) < n)
  {
  }

  /** The most iterations from height 2^(2k+1): 1, 5, 12, 22, ... */
  function MaxSteps(k: nat): nat {
    if k == 0 then 1 else MaxSteps(k - 1) + 3 * k + 1
  }

  lemma {:induction false} MaxStepsClosed(k: nat)
    ensures 2 * MaxSteps(k) == (k + 1) * (3 * k + 2)
  {
    if k > 0 { MaxStepsClosed(k - 1); }
  }

  /** From height 2^(2k+1), for every target: at most 3k+1 parent steps and
      MaxSteps(k) iterations. */
  lemma {:induction false} StepsFromPowerOfTwo(k: nat, target: nat)
    requires target <= Pow2(2 * k + 1)
    ensures Parents(Pow2(2 * k + 1), target) <= 3 * k + 1
    ensures Steps(Pow2(2 * k + 1), target) <= MaxSteps(k)
    decreases k
  {
    hide Parents, Skips;
    if k == 0 {
      StepsFromTwo(target);
    } else {
      var h := Pow2(2 * (k - 1) + 1);
      assert Pow2(2 * k + 1) == 4 * h;
      var u, r := target / 4, target % 4;
      if r == 0 {
        StepsFromPowerOfTwo(k - 1, u);
        StepsQuadrupled(h, u);
      } else {
        StepsFromPowerOfTwo(k - 1, u + 1);
        StepsBetween(h, u, r);
      }
    }
  }

  lemma StepsFromTwo(target: nat)
    requires target <= 2
    ensures Pow2(1) == 2
    ensures Parents(2, target) == (if target == 1 then 1 else 0)
    ensures Skips(2, target) == (if target == 0 then 1 else 0)
  {
    AncestorHeightMod4(0);
    assert AncestorHeight(2) == 0;
    if target < 2 { Unfold(2, target, target); }
  }

  /** The bound is met: the search for height 1 takes exactly that long. */
  lemma {:induction false} StepsToHeightOne(k: nat)
    ensures Pow2(2 * k + 1) > 1
    ensures Parents(Pow2(2 * k + 1), 1) == 3 * k + 1
    ensures Steps(Pow2(2 * k + 1), 1) == MaxSteps(k)
    decreases k
  {
    hide Parents, Skips;
    if k == 0 {
      StepsFromTwo(1);
    } else {
      StepsToHeightOne(k - 1);
      var h := Pow2(2 * (k - 1) + 1);
      assert Pow2(2 * k + 1) == 4 * h;
      StepsBetween(h, 0, 1);
    }
  }

  /** The documented worst case: 330 iterations from height 1<<29, attained. */
  lemma WorstCaseFrom29Bits(height: nat, target: nat)
    requires height == Pow2(29) && target <= height
    ensures Steps(height, target) <= 330
    ensures height > 1 && Steps(height, 1) == 330
  {
    hide Steps, Pow2, MaxSteps;
    var k := 14;
    MaxStepsClosed(k);
    assert 2 * k + 1 == 29 && (k + 1) * (3 * k + 2) == 660;
    StepsFromPowerOfTwo(k, target);
    StepsToHeightOne(k);
  }

  /** From any height of at most 2k bits, for every target: at most 5k(k+1)/2
      iterations, a quadratic in the bit length of the height. */
  lemma {:induction false} StepsFromAnyHeight(k: nat, height: nat, target: nat)
    requires height < Pow2(2 * k) && target <= height
    ensures Parents(height, target) <= 5 * k
    ensures Steps(height, target) <= AnyHeightBound(k)
    decreases k
  {
    hide Parents, Skips;
    if target == height {
      NoSteps(height);
    } else if k > 0 {
      var u, r := target / 4, target % 4;
      assert Pow2(2 * k) == 4 * Pow2(2 * (k - 1));
      var z := ToMultipleOfFour(height, target);
      if target < 4 * z {
        if r == 0 {
          StepsFromAnyHeight(k - 1, z, u);
          StepsQuadrupled(z, u);
        } else {
          StepsFromAnyHeight(k - 1, z, u + 1);
          StepsBetween(z, u, r);
        }
      }
    }
  }

  function AnyHeightBound(k: nat): nat {
    if k == 0 then 0 else AnyHeightBound(k - 1) + 5 * k
  }

  lemma {:induction false} AnyHeightBoundClosed(k: nat)
    ensures 2 * AnyHeightBound(k) == 5 * k * (k + 1)
  {
    if k > 0 { AnyHeightBoundClosed(k - 1); }
  }

  lemma NoSteps(height: nat)
    ensures Parents(height, height) == 0 && Skips(height, height) == 0
  {
  }

  /** The first few steps lead to the target or to a multiple of four above it. */
  lemma ToMultipleOfFour(height: nat, target: nat) returns (z: nat)
    requires target < height
    ensures 4 * z <= height
    ensures 4 * z <= target ==> Parents(height, target) <= 2 && Steps(height, target) <= 2
    ensures target < 4 * z ==>
      && Parents(height, target) <= Parents(4 * z, target) + 2
      && Steps(height, target) <= Steps(4 * z, target) + 2
  {
    hide AncestorHeight, InvertLowestOne, BitAnd;
    var y, q := height / 4, height % 4;
    AncestorHeightMod4(y);
    PopBelow(y);
    z := y;
    if target >= 4 * y {
      NoSteps(target);
      if q == 3 && target == 4 * y {
        Unfold(height, target, target);
      } else if y == 0 && target == 0 {
        AncestorHeightMod4(0);
        AncestorHeightBelow(height);
        Unfold(height, target, 0);
      } else {
        Unfold(height, target, height - 1);
        if height - target == 2 { Unfold(height - 1, target, target); }
      }
    } else if q == 3 {
      Unfold(height, target, 4 * y);
    } else if q != 0 {
      if 4 * InvertLowestOne(y) >= target {
        z := InvertLowestOne(y);
        Unfold(height, target, 4 * z);
        NoSteps(4 * z);
      } else {
        if q == 2 { Unfold(height, target, 4 * y + 1); }
        Unfold(4 * y + 1, target, 4 * y);
      }
    }
  }
}
