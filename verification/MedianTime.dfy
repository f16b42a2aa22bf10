/** The past median time of a node (CalcPastMedianTime in
    btcd/blockchain/blockindex.go), the clock of the Specification section of
    BIP 113. */
module MedianTime {
  import opened Wire
  import opened BlockTree

  const MEDIAN_TIME_BLOCKS := 11

  /** The timestamps of a node and its nearest ancestors, newest first, at most k. */
  function Window(n: BlockNode, k: nat): (w: seq<int>)
    ensures k > 0 ==> |w| > 0
    ensures |w| <= k
    decreases k
  {
    if k == 0 then []
    else match n.parent
      case None => [n.Timestamp()]
      case Some(p) => [n.Timestamp()] + Window(p, k - 1)
  }

  function Insert(x: int, s: seq<int>): (r: seq<int>) {
    if s == [] then [x] else if x <= s[0] then [x] + s else [s[0]] + Insert(x, s[1..])
  }

  /** The timestamps in increasing order. */
  function Sort(s: seq<int>): (r: seq<int>) {
    if s == [] then [] else Insert(s[0], Sort(s[1..]))
  }

  ghost predicate Sorted(s: seq<int>) {
    |s| < 2 || (s[0] <= s[1] && Sorted(s[1..]))
  }

  lemma {:induction false} SortedOrder(s: seq<int>, i: nat, j: nat)
    requires Sorted(s) && i <= j < |s|
    ensures s[i] <= s[j]
  {
    if i > 0 {
      SortedOrder(s[1..], i - 1, j - 1);
    } else if j > 0 {
      SortedOrder(s[1..], 0, j - 1);
    }
  }

  lemma {:induction false} InsertSorts(x: int, s: seq<int>)
    requires Sorted(s)
    ensures Sorted(Insert(x, s)) && |Insert(x, s)| == |s| + 1
    ensures Insert(x, s)[0] == x || (|s| > 0 && Insert(x, s)[0] == s[0])
  {
    if s != [] && x > s[0] {
      InsertSorts(x, s[1..]);
      assert Insert(x, s)[1..] == Insert(x, s[1..]);
    } else if s != [] {
      assert Insert(x, s)[1..] == s;
    }
  }

  lemma {:induction false} SortSorts(s: seq<int>)
    ensures Sorted(Sort(s)) && |Sort(s)| == |s|
  {
    if s != [] {
      SortSorts(s[1..]);
      InsertSorts(s[0], Sort(s[1..]));
    }
  }

  /** The element the code takes for the median, also of an even number of them. */
  function Median(s: seq<int>): int
    requires s != []
  {
    SortSorts(s);
    Sort(s)[|s| / 2]
  }

  function PastMedianTime(n: BlockNode): int {
    Median(Window(n, MEDIAN_TIME_BLOCKS))
  }

  /** CalcPastMedianTime: collect, prune, sort, pick. */
  method CalcPastMedianTime(node: BlockNode) returns (median: int)
    ensures median == PastMedianTime(node)
    ensures Chained(node) ==> exists h: nat :: Recent(node, 11, h) && median == At(node, h).Timestamp()
    ensures Chained(node) ==> forall v ::
      median >= v <==> |Late(node, 11, v)| >= LastEleven(node) - LastEleven(node) / 2
  {
    hide Sort, Window, Median, PastMedianTime, Late, Chained, At;
    var timestamps := new int[MEDIAN_TIME_BLOCKS](_ => 0);
    var numNodes := 0;
    var iter := Some(node);
    while numNodes < MEDIAN_TIME_BLOCKS && iter.Some?
      invariant 0 <= numNodes <= MEDIAN_TIME_BLOCKS
      invariant iter.None? ==> timestamps[..numNodes] == Window(node, MEDIAN_TIME_BLOCKS)
      invariant iter.Some? ==>
        timestamps[..numNodes] + Window(iter.value, MEDIAN_TIME_BLOCKS - numNodes) == Window(node, MEDIAN_TIME_BLOCKS)
    {
      ghost var before := timestamps[..numNodes];
      WindowUnfold(iter.value, MEDIAN_TIME_BLOCKS - numNodes);
      timestamps[numNodes] := iter.value.Timestamp();
      numNodes := numNodes + 1;
      assert timestamps[..numNodes] == before + [iter.value.Timestamp()];
      iter := iter.value.parent;
    }
    assert iter.Some? ==> Window(iter.value, MEDIAN_TIME_BLOCKS - numNodes) == [];
    assert timestamps[..numNodes] == Window(node, MEDIAN_TIME_BLOCKS);
    median := MedianOf(timestamps[..numNodes]);
    MedianUnique(timestamps[..numNodes], median);
    PastMedianTimeIs(node);
    if Chained(node) {
      var h := MedianOfEleven(node, 0);
      forall v | true
        ensures median >= v <==> |Late(node, 11, v)| >= LastEleven(node) - LastEleven(node) / 2
      {
        var _ := MedianOfEleven(node, v);
      }
    }
  }

  /** Sorted, the timestamp in the middle; of an even number, the later one. So it is one
      of the timestamps, and reaches v exactly when the upper half of them does. */
  method MedianOf(timestamps: seq<int>) returns (median: int)
    requires timestamps != []
    ensures median in timestamps
    ensures forall v :: median >= v <==> AtLeast(timestamps, v) >= |timestamps| - |timestamps| / 2
  {
    hide Sort, Median, AtLeast;
    var sorted := Sort(timestamps);
    SortSorts(timestamps);
    MedianIs(timestamps);
    median := sorted[|timestamps| / 2];
    SortMembers(timestamps, median);
    forall v | true
      ensures median >= v <==> AtLeast(timestamps, v) >= |timestamps| - |timestamps| / 2
    {
      MedianAtLeast(timestamps, v);
    }
  }

  lemma MedianIs(s: seq<int>)
    requires s != []
    ensures |Sort(s)| == |s| && Median(s) == Sort(s)[|s| / 2]
  {
    SortSorts(s);
  }

  lemma {:induction false} InsertMembers(x: int, s: seq<int>, v: int)
    ensures v in Insert(x, s) <==> v == x || v in s
  {
    if s != [] && x > s[0] { InsertMembers(x, s[1..], v); }
  }

  lemma {:induction false} SortMembers(s: seq<int>, v: int)
    ensures v in Sort(s) <==> v in s
  {
    if s != [] {
      SortMembers(s[1..], v);
      InsertMembers(s[0], Sort(s[1..]), v);
    }
  }

  /** No other number than the median reaches exactly what the upper half does. */
  lemma MedianUnique(s: seq<int>, m: int)
    requires s != []
    ensures m == Median(s) <==> forall v :: m >= v <==> AtLeast(s, v) >= |s| - |s| / 2
  {
    hide Median, AtLeast;
    forall v | true
      ensures Median(s) >= v <==> AtLeast(s, v) >= |s| - |s| / 2
    {
      MedianAtLeast(s, v);
    }
    if forall v :: m >= v <==> AtLeast(s, v) >= |s| - |s| / 2 {
      assert AtLeast(s, m) >= |s| - |s| / 2;
      assert AtLeast(s, Median(s)) >= |s| - |s| / 2;
    }
  }

  lemma WindowUnfold(n: BlockNode, k: nat)
    requires k > 0
    ensures Window(n, k) == [n.Timestamp()] + if n.parent.Some? then Window(n.parent.value, k - 1) else []
    ensures n.parent.Some? && k == 1 ==> Window(n.parent.value, k - 1) == []
  {
  }

  lemma PastMedianTimeIs(n: BlockNode)
    ensures PastMedianTime(n) == Median(Window(n, MEDIAN_TIME_BLOCKS))
  {
  }

  // ---- order statistics by counting

  function AtLeast(s: seq<int>, v: int): (c: nat)
    ensures c <= |s|
  {
    if s == [] then 0 else (if s[0] >= v then 1 else 0) + AtLeast(s[1..], v)
  }

  lemma {:induction false} AtLeastSplit(s: seq<int>, v: int, k: nat)
    requires k <= |s|
    ensures AtLeast(s, v) == AtLeast(s[..k], v) + AtLeast(s[k..], v)
  {
    if k == 0 {
      assert s[0..] == s && s[..0] == [];
    } else {
      AtLeastSplit(s[1..], v, k - 1);
      assert s[1..][..k - 1] == s[..k][1..];
      assert s[1..][k - 1..] == s[k..];
    }
  }

  lemma {:induction false} InsertCounts(x: int, s: seq<int>, v: int)
    ensures AtLeast(Insert(x, s), v) == AtLeast(s, v) + if x >= v then 1 else 0
  {
    if s != [] && x > s[0] { InsertCounts(x, s[1..], v); }
  }

  lemma {:induction false} SortCounts(s: seq<int>, v: int)
    ensures AtLeast(Sort(s), v) == AtLeast(s, v)
  {
    if s != [] {
      SortCounts(s[1..], v);
      InsertCounts(s[0], Sort(s[1..]), v);
    }
  }

  lemma {:induction false} AllAtLeast(s: seq<int>, v: int)
    ensures (forall i :: 0 <= i < |s| ==> s[i] >= v) ==> AtLeast(s, v) == |s|
    ensures (forall i :: 0 <= i < |s| ==> s[i] < v) ==> AtLeast(s, v) == 0
  {
    if s != [] { AllAtLeast(s[1..], v); }
  }

  /** The median reaches v exactly when the upper half of the window does. */
  lemma MedianAtLeast(s: seq<int>, v: int)
    requires s != []
    ensures Median(s) >= v <==> AtLeast(s, v) >= |s| - |s| / 2
  {
    hide Sort, Sorted, AtLeast;
    SortSorts(s);
    SortCounts(s, v);
    var t, k := Sort(s), |s| / 2;
    if t[k] >= v {
      AtLeastSplit(t, v, k);
      forall i | k <= i < |t| ensures t[i] >= v { SortedOrder(t, k, i); }
      AllAtLeast(t[k..], v);
    } else {
      AtLeastSplit(t, v, k + 1);
      forall i | 0 <= i <= k ensures t[i] < v { SortedOrder(t, i, k); }
      AllAtLeast(t[..k + 1], v);
    }
  }

  // ---- the eleven blocks

  /** The last m blocks up to a node, by height. */
  predicate Recent(n: BlockNode, m: nat, h: nat) {
    n.height < h + m && h <= n.height
  }

  /** Those of them with a timestamp of at least v. */
  ghost function Late(n: BlockNode, m: nat, v: int): set<nat>
    requires Chained(n)
  {
    set h: nat | h <= n.height && n.height < h + m && At(n, h).Timestamp() >= v
  }

  /** A block and the ten before it, or all blocks if there are fewer than eleven. */
  function LastEleven(n: BlockNode): nat {
    if n.height < 11 then n.height + 1 else 11
  }

  lemma {:induction false} WindowLate(n: BlockNode, k: nat, v: int)
    requires Chained(n)
    ensures |Window(n, k)| == if k <= n.height then k else n.height + 1
    ensures AtLeast(Window(n, k), v) == |Late(n, k, v)|
    decreases k
  {
    if k == 0 {
      assert Late(n, k, v) == {};
    } else {
      var mine := if n.Timestamp() >= v then {n.height} else {};
      var w := Window(n, k);
      if n.parent.None? {
        assert Late(n, k, v) == mine && w[1..] == [];
      } else {
        var p := n.parent.value;
        WindowLate(p, k - 1, v);
        LateStep(n, p, k, v);
        assert w[1..] == Window(p, k - 1);
      }
    }
  }

  lemma LateStep(n: BlockNode, p: BlockNode, k: nat, v: int)
    requires Chained(n) && n.parent == Some(p) && k > 0
    ensures n.height !in Late(p, k - 1, v)
    ensures Late(n, k, v) == Late(p, k - 1, v) + if n.Timestamp() >= v then {n.height} else {}
  {
    assert forall h: nat :: h <= p.height ==> At(n, h) == At(p, h);
  }

  lemma {:induction false} WindowFrom(n: BlockNode, k: nat, t: int) returns (h: nat)
    requires Chained(n) && t in Window(n, k)
    ensures Recent(n, k, h) && At(n, h).Timestamp() == t
    decreases k
  {
    if t == n.Timestamp() {
      h := n.height;
    } else {
      h := WindowFrom(n.parent.value, k - 1, t);
    }
  }

  /** The past median time of a block is the timestamp of one of the last eleven blocks up
      to it, and at least v exactly when the later half of these, the larger half if
      they are an odd number, have timestamps of at least v. */
  lemma MedianOfEleven(n: BlockNode, v: int) returns (h: nat)
    requires Chained(n)
    ensures Recent(n, 11, h) && PastMedianTime(n) == At(n, h).Timestamp()
    ensures PastMedianTime(n) >= v <==> |Late(n, 11, v)| >= LastEleven(n) - LastEleven(n) / 2
  {
    hide Window, Median, Sort, AtLeast, Chained, At, Late;
    var w := Window(n, MEDIAN_TIME_BLOCKS);
    WindowLate(n, MEDIAN_TIME_BLOCKS, v);
    MedianAtLeast(w, v);
    MedianIs(w);
    SortMembers(w, Median(w));
    h := WindowFrom(n, MEDIAN_TIME_BLOCKS, Median(w));
  }

  /** With timestamps that are the heights, the past median time of block 10 is 5. */
  lemma MedianOfHeights(n: BlockNode)
    requires Chained(n) && n.height == 10 && forall h: nat :: h <= 10 ==> At(n, h).Timestamp() == h
    ensures PastMedianTime(n) == 5
  {
    hide *;
    var _ := MedianOfEleven(n, 5);
    var _ := MedianOfEleven(n, 6);
    LateHeights(n);
  }

  lemma LateHeights(n: BlockNode)
    requires Chained(n) && n.height == 10 && forall h: nat :: h <= 10 ==> At(n, h).Timestamp() == h
    ensures LastEleven(n) == 11 && |Late(n, 11, 5)| == 6 && |Late(n, 11, 6)| == 5
  {
    hide Chained, At;
    assert Late(n, 11, 5) == {5, 6, 7, 8, 9, 10};
    assert Late(n, 11, 6) == {6, 7, 8, 9, 10};
  }

  // ---- the clock never runs backwards

  /** Every block's timestamp is after its parent's past median time, the rule
      checkBlockContext enforces. */
  ghost predicate TimesAdvance(n: BlockNode) {
    n.parent.Some? ==>
      TimesAdvance(n.parent.value) && n.Timestamp() > PastMedianTime(n.parent.value)
  }

  lemma {:induction false} WindowPrefix(n: BlockNode, k: nat)
    requires k > 0
    ensures Window(n, k - 1) == if |Window(n, k)| == k then Window(n, k)[..k - 1] else Window(n, k)
    decreases k
  {
    if k > 1 && n.parent.Some? { WindowPrefix(n.parent.value, k - 1); }
  }

  /** One block: the window of a child is the child's timestamp and the parent's
      window, less its oldest entry once it is full. */
  lemma MedianStep(n: BlockNode)
    requires n.parent.Some? && n.Timestamp() > PastMedianTime(n.parent.value)
    ensures PastMedianTime(n) >= PastMedianTime(n.parent.value)
  {
    hide Sort, Median, Window, AtLeast;
    var p := n.parent.value;
    var w, w' := Window(p, MEDIAN_TIME_BLOCKS), Window(n, MEDIAN_TIME_BLOCKS);
    var m := Median(w);
    WindowStep(n);
    WindowCounts(w, w', m, n.Timestamp());
    MedianAtLeast(w, m);
    MedianAtLeast(w', m);
  }

  lemma WindowStep(n: BlockNode)
    requires n.parent.Some?
    ensures var w := Window(n.parent.value, MEDIAN_TIME_BLOCKS);
      Window(n, MEDIAN_TIME_BLOCKS) ==
        [n.Timestamp()] + if |w| == MEDIAN_TIME_BLOCKS then w[..MEDIAN_TIME_BLOCKS - 1] else w
  {
    WindowPrefix(n.parent.value, MEDIAN_TIME_BLOCKS);
  }

  lemma WindowCounts(w: seq<int>, w': seq<int>, m: int, t: int)
    requires 0 < |w| <= MEDIAN_TIME_BLOCKS && t > m
    requires w' == [t] + if |w| == MEDIAN_TIME_BLOCKS then w[..MEDIAN_TIME_BLOCKS - 1] else w
    ensures AtLeast(w', m) >= AtLeast(w, m) + (if |w| == MEDIAN_TIME_BLOCKS then 0 else 1)
  {
    assert w'[0] == t && w'[1..] == if |w| == MEDIAN_TIME_BLOCKS then w[..MEDIAN_TIME_BLOCKS - 1] else w;
    if |w| == MEDIAN_TIME_BLOCKS {
      AtLeastSplit(w, m, MEDIAN_TIME_BLOCKS - 1);
    }
  }

  /** Along any chain whose timestamps follow the rule, from genesis on, the past
      median time never decreases. */
  lemma {:induction false} MedianTimeMonotone(n: BlockNode, height: nat)
    requires Chained(n) && TimesAdvance(n) && height <= n.height
    ensures PastMedianTime(At(n, height)) <= PastMedianTime(n)
  {
    hide PastMedianTime;
    if height < n.height {
      MedianTimeMonotone(n.parent.value, height);
      MedianStep(n);
    }
  }
}
