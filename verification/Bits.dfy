/** Bit arithmetic on heights: the bitwise operators of the node's int32 and
    uint32 code, written out over non-negative integers. */
module Bits {

  /** Bitwise `&` of two non-negative words, one bit at a time. */
  function BitAnd(a: nat, b: nat): (r: nat)
    ensures r <= a && r <= b
  {
    if a == 0 || b == 0 then 0
    else (if a % 2 == 1 && b % 2 == 1 then 1 else 0) + 2 * BitAnd(a / 2, b / 2)
  }

  /** `n & (n - 1)`; for zero the word `n - 1` is all ones, and the result zero. */
  function InvertLowestOne(n: nat): nat {
    if n == 0 then 0 else BitAnd(n, n - 1)
  }

  /** The height a node's skip pointer points at: two 1 bits popped off. */
  function AncestorHeight(height: nat): nat {
    InvertLowestOne(InvertLowestOne(height))
  }

  function Pow2(k: nat): (r: nat)
    ensures r > 0
  {
    if k == 0 then 1 else 2 * Pow2(k - 1)
  }

  lemma {:induction false} BitAndSelf(n: nat)
    ensures BitAnd(n, n) == n
  {
    if n > 0 { BitAndSelf(n / 2); }
  }

  /** The lowest 1 bit: popping it off an odd number subtracts one, and popping
      it off an even number commutes with halving. */
  lemma InvertLowestOneBits(n: nat)
    ensures n % 2 == 1 ==> InvertLowestOne(n) == n - 1
    ensures n % 2 == 0 ==> InvertLowestOne(n) == 2 * InvertLowestOne(n / 2)
    ensures n > 0 ==> InvertLowestOne(n) < n
  {
    if n % 2 == 1 {
      BitAndSelf(n / 2);
      assert (n - 1) / 2 == n / 2;
    } else if n > 0 {
      assert (n - 1) / 2 == n / 2 - 1;
    }
  }

  /** The skip pointer by the two low bits of the height. */
  lemma AncestorHeightMod4(y: nat)
    ensures AncestorHeight(4 * y) == 4 * AncestorHeight(y)
    ensures AncestorHeight(4 * y + 1) == 4 * InvertLowestOne(y)
    ensures AncestorHeight(4 * y + 2) == 4 * InvertLowestOne(y)
    ensures AncestorHeight(4 * y + 3) == 4 * y
  {
    PopQuadruple(y);
    PopQuadruple(InvertLowestOne(y));
    InvertLowestOneBits(4 * y + 1);
    InvertLowestOneBits(4 * y + 2);
    InvertLowestOneBits(2 * y + 1);
    assert (4 * y + 2) / 2 == 2 * y + 1;
    InvertLowestOneBits(4 * y + 3);
  }

  lemma PopQuadruple(y: nat)
    ensures InvertLowestOne(4 * y) == 4 * InvertLowestOne(y)
  {
    InvertLowestOneBits(4 * y);
    InvertLowestOneBits(2 * y);
    assert (4 * y) / 2 == 2 * y && (2 * y) / 2 == y;
  }

  lemma AncestorHeightBelow(height: nat)
    ensures height > 0 ==> AncestorHeight(height) < height
  {
    InvertLowestOneBits(height);
  }

  // ---- floor(log2) by masks and shifts

  /** The masks of the five-step logarithm: (2^w - 1) * 2^w for w = 16, 8, 4, 2, 1. */
  const LOG2_FLOOR_MASKS: seq<nat> := [0xffff0000, 0xff00, 0xf0, 0xc, 0x2]

  ghost predicate IsLog2Floor(n: nat, k: nat) {
    Pow2(k) <= n < Pow2(k + 1)
  }

  lemma {:induction false} Pow2Monotone(a: nat, b: nat)
    requires a <= b
    ensures Pow2(a) <= Pow2(b)
    decreases b - a
  {
    if a < b { Pow2Monotone(a, b - 1); }
  }

  lemma Log2FloorUnique(n: nat, j: nat, k: nat)
    requires IsLog2Floor(n, j) && IsLog2Floor(n, k)
    ensures j == k
  {
    if j < k { Pow2Monotone(j + 1, k); }
    if k < j { Pow2Monotone(k + 1, j); }
  }

  /** A mask of all ones keeps a number that fits under it. */
  lemma {:induction false} BitAndOnes(n: nat, w: nat)
    requires n < Pow2(w)
    ensures BitAnd(n, Pow2(w) - 1) == n
    decreases w
  {
    if n > 0 && w > 0 {
      assert (Pow2(w) - 1) / 2 == Pow2(w - 1) - 1;
      assert (Pow2(w) - 1) % 2 == 1;
      BitAndOnes(n / 2, w - 1);
    }
  }

  /** `n >> w`. */
  function Shr(n: nat, w: nat): nat
    decreases w
  {
    if w == 0 then n else Shr(n / 2, w - 1)
  }

  /** `n << w`, with no bits lost. */
  function Shl(n: nat, w: nat): nat
    decreases w
  {
    if w == 0 then n else 2 * Shl(n, w - 1)
  }

  /** A mask with w trailing zeros looks only at the bits above them. */
  lemma {:induction false} BitAndShifted(n: nat, m: nat, w: nat)
    ensures BitAnd(n, Shl(m, w)) != 0 <==> BitAnd(Shr(n, w), m) != 0
    decreases w
  {
    if w > 0 {
      var half := Shl(m, w - 1);
      assert (2 * half) % 2 == 0 && (2 * half) / 2 == half;
      BitAndShifted(n / 2, m, w - 1);
    }
  }

  /** A shift by w moves every power of two by w. */
  lemma {:induction false} ShrBound(n: nat, w: nat, k: nat)
    ensures Shr(n, w) < Pow2(k) <==> n < Pow2(w + k)
    decreases w
  {
    if w > 0 {
      ShrBound(n / 2, w - 1, k);
      assert Pow2(w + k) == 2 * Pow2(w - 1 + k);
    }
  }

  lemma ShrZero(n: nat)
    ensures Shr(n, 0) == n && Pow2(0) == 1
  {
  }

  lemma {:induction false} ShrShr(n: nat, a: nat, b: nat)
    ensures Shr(Shr(n, a), b) == Shr(n, a + b)
    decreases a
  {
    if a > 0 { ShrShr(n / 2, a - 1, b); }
  }

  /** Testing the mask of width w is comparing with 2^w. */
  lemma MaskTest(n: nat, w: nat)
    requires n < Pow2(2 * w)
    ensures BitAnd(n, Shl(Pow2(w) - 1, w)) != 0 <==> n >= Pow2(w)
    ensures Shr(n, w) < Pow2(w)
    ensures n >= Pow2(w) ==> Shr(n, w) > 0
  {
    BitAndShifted(n, Pow2(w) - 1, w);
    ShrBound(n, w, w);
    ShrBound(n, w, 0);
    assert Pow2(0) == 1;
    BitAndOnes(Shr(n, w), w);
  }

  lemma MaskValue(i: nat)
    requires i < 5
    ensures LOG2_FLOOR_MASKS[i] == var w := [16, 8, 4, 2, 1][i]; Shl(Pow2(w) - 1, w)
  {
    Pow2Values();
    var w := [16, 8, 4, 2, 1][i];
    ShlEight(Pow2(w) - 1);
    if i == 0 { ShlEight(Shl(0xffff, 8)); ShlShl(0xffff, 8, 8); }
  }

  lemma ShlEight(n: nat)
    ensures Shl(n, 1) == 2 * n && Shl(n, 2) == 4 * n && Shl(n, 4) == 16 * n && Shl(n, 8) == 256 * n
  {
    assert Shl(n, 1) == 2 * n;
    assert Shl(n, 3) == 8 * n;
    assert Shl(n, 5) == 32 * n;
    assert Shl(n, 7) == 128 * n;
  }

  lemma {:induction false} ShlShl(n: nat, a: nat, b: nat)
    ensures Shl(Shl(n, a), b) == Shl(n, a + b)
    decreases b
  {
    if b > 0 { ShlShl(n, a, b - 1); assert a + b - 1 == a + (b - 1); }
  }

  lemma Pow2Values()
    ensures Pow2(1) == 2 && Pow2(2) == 4 && Pow2(4) == 0x10 && Pow2(8) == 0x100
    ensures Pow2(16) == 0x10000 && Pow2(32) == 0x1_0000_0000
  {
    assert Pow2(1) == 2;
    assert Pow2(3) == 8;
    assert Pow2(5) == 32;
    assert Pow2(7) == 128;
    assert Pow2(10) == 1024;
    assert Pow2(13) == 0x2000;
    assert Pow2(16) == 0x10000;
    assert Pow2(19) == 0x80000;
    assert Pow2(22) == 0x400000;
    assert Pow2(25) == 0x2000000;
    assert Pow2(28) == 0x10000000;
    assert Pow2(31) == 0x80000000;
  }

  /** floor(log2(n)) in five mask-and-shift steps. For zero, which has no
      logarithm, the code returns zero. */
  method FastLog2Floor(n0: nat) returns (rv: nat)
    requires n0 < 0x1_0000_0000
    ensures rv < 32
    ensures n0 > 0 ==> IsLog2Floor(n0, rv)
    ensures n0 == 0 ==> rv == 0
  {
    hide Pow2, BitAnd, Shr, Shl;
    rv := 0;
    var n := n0;
    var exponent := 16;
    Pow2Values();
    ShrZero(n0);
    for i := 0 to 5
      invariant exponent == [16, 8, 4, 2, 1, 0][i]
      invariant n < Pow2(if i == 5 then 1 else 2 * exponent)
      invariant rv + (if i == 5 then 1 else 2 * exponent) <= 32
      invariant n0 > 0 ==> n > 0
      invariant n0 == 0 ==> n == 0 && rv == 0
      invariant n == Shr(n0, rv)
    {
      MaskTest(n, exponent);
      MaskValue(i);
      if BitAnd(n, LOG2_FLOOR_MASKS[i]) != 0 {
        ShrShr(n0, rv, exponent);
        rv := rv + exponent;
        n := Shr(n, exponent);
      }
      exponent := exponent / 2;
    }
    if n0 > 0 {
      ShrBound(n0, rv, 0);
      ShrBound(n0, rv, 1);
    }
  }
}
