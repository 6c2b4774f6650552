// Identifiers of the network: the 128-bit AID, the two-coordinate RID, and the
// blocks of RIDs that spaces and routes are made of (src/common/addressing.py).

module Addressing {
  import opened Numbers

  type U32 = x: int | 0 <= x < 0x1_0000_0000
  type U64 = x: int | 0 <= x < 0x1_0000_0000_0000_0000
  type U128 = x: int | 0 <= x < 0x1_0000_0000_0000_0000_0000_0000_0000_0000
  type MaskBits = m: int | 0 <= m <= 32

  datatype AID = AID(value: U128)

  datatype RID = RID(x: U32, y: U32)
  {
    /** The 64-bit integer `(x << 32) | y`. */
    function AsInt(): (v: U64)
      ensures RID.FromInt(v) == this
    {
      x * 0x1_0000_0000 + y
    }

    static function FromInt(v: U64): (r: RID) {
      RID(v / 0x1_0000_0000, v % 0x1_0000_0000)
    }
  }

  /** The block of RIDs that agree with (x, y) on the first mask bits of each axis. */
  datatype RIDSpace = RIDSpace(x: U32, y: U32, xMask: MaskBits, yMask: MaskBits)
  {
    // The two shift comparisons, each skipped when its mask is zero.
    predicate Contains(r: RID) {
      && (xMask > 0 ==> Shr(r.x, 32 - xMask) == Shr(x, 32 - xMask))
      && (yMask > 0 ==> Shr(r.y, 32 - yMask) == Shr(y, 32 - yMask))
    }
  }

  // ---------------------------------------------------------------- bit operations

  /** `n >> k`. */
  function Shr(n: nat, k: nat): nat {
    if k == 0 then n else Shr(n / 2, k - 1)
  }

  /** `a ^ b`, bit by bit from the least significant end. */
  function Xor(a: nat, b: nat): nat {
    if a == 0 && b == 0 then 0
    else 2 * Xor(a / 2, b / 2) + if a % 2 == b % 2 then 0 else 1
  }

  /** Python's `int.bit_length`. */
  function BitLength(n: nat): nat {
    if n == 0 then 0 else 1 + BitLength(n / 2)
  }

  /** The number of leading bits that a and b share, at most width. */
  function CommonPrefixBits(a: nat, b: nat, width: nat): nat {
    if a == b then width
    else
      var leading := BitLength(Xor(a, b));
      if width - leading > 0 then width - leading else 0
  }

  lemma {:induction false} XorZero(a: nat, b: nat)
    ensures Xor(a, b) == 0 <==> a == b
  {
    if a != 0 || b != 0 {
      XorZero(a / 2, b / 2);
    }
  }

  /** The xor of two numbers fits in k bits exactly when they agree above bit k. */
  lemma {:induction false} XorFits(a: nat, b: nat, k: nat)
    ensures BitLength(Xor(a, b)) <= k <==> Shr(a, k) == Shr(b, k)
    decreases k
  {
    XorZero(a, b);
    if k > 0 {
      XorFits(a / 2, b / 2, k - 1);
      assert Xor(a, b) / 2 == Xor(a / 2, b / 2);
    }
  }

  lemma {:induction false} ShrComposes(n: nat, j: nat, k: nat)
    ensures Shr(Shr(n, j), k) == Shr(n, j + k)
    decreases j
  {
    if j > 0 {
      ShrComposes(n / 2, j - 1, k);
    }
  }

  lemma {:induction false} ShrZeroIffSmall(n: nat, k: nat)
    ensures Shr(n, k) == 0 <==> n < Power(2, k)
    decreases k
  {
    if k > 0 {
      ShrZeroIffSmall(n / 2, k - 1);
    }
  }

  lemma FitsIn32(n: nat)
    ensures n < 0x1_0000_0000 <==> Shr(n, 32) == 0
  {
    ShrZeroIffSmall(n, 32);
    PowersOf2();
  }

  lemma PowersOf2()
    ensures Power(2, 32) == 0x1_0000_0000 && Power(2, 64) == 0x1_0000_0000_0000_0000
  {
    assert Power(2, 8) == 256;
    assert Power(2, 16) == 0x1_0000 by { assert Power(2, 12) == 4096; }
    assert Power(2, 24) == 0x100_0000 by { assert Power(2, 20) == 0x10_0000; }
    assert Power(2, 32) == 0x1_0000_0000 by { assert Power(2, 28) == 0x1000_0000; }
    assert Power(2, 40) == 0x100_0000_0000 by { assert Power(2, 36) == 0x10_0000_0000; }
    assert Power(2, 48) == 0x1_0000_0000_0000 by { assert Power(2, 44) == 0x1000_0000_0000; }
    assert Power(2, 56) == 0x100_0000_0000_0000 by { assert Power(2, 52) == 0x10_0000_0000_0000; }
    assert Power(2, 64) == 0x1_0000_0000_0000_0000 by { assert Power(2, 60) == 0x1000_0000_0000_0000; }
  }

  // ------------------------------------------------- prefix counting against shifting

  /** Counting shared leading bits and shifting the low bits away are the same test. */
  lemma PrefixCountIsShiftTest(a: U32, b: U32, m: MaskBits)
    ensures CommonPrefixBits(a, b, 32) >= m <==> Shr(a, 32 - m) == Shr(b, 32 - m)
  {
    XorFits(a, b, 32 - m);
    XorFits(a, b, 32);
    FitsIn32(a);
    FitsIn32(b);
  }

  /** The filter of the route scan is exactly membership in the entry's block. */
  lemma ScanFilterIsContains(s: RIDSpace, r: RID)
    ensures s.Contains(r) <==>
            CommonPrefixBits(r.x, s.x, 32) >= s.xMask && CommonPrefixBits(r.y, s.y, 32) >= s.yMask
  {
    PrefixCountIsShiftTest(r.x, s.x, s.xMask);
    PrefixCountIsShiftTest(r.y, s.y, s.yMask);
  }

  /** Shared prefix length is an ultrametric: of the three lengths among a, b and c,
      the two smallest are equal. */
  lemma PrefixIsUltrametric(a: U32, b: U32, c: U32)
    ensures CommonPrefixBits(a, c, 32) >= CommonPrefixBits(a, b, 32)
         || CommonPrefixBits(a, c, 32) >= CommonPrefixBits(b, c, 32)
    ensures CommonPrefixBits(a, b, 32) > CommonPrefixBits(b, c, 32)
         ==> CommonPrefixBits(a, c, 32) == CommonPrefixBits(b, c, 32)
  {
    var ab, bc := CommonPrefixBits(a, b, 32), CommonPrefixBits(b, c, 32);
    var low := if ab <= bc then ab else bc;
    PrefixCountIsShiftTest(a, b, low);
    PrefixCountIsShiftTest(b, c, low);
    PrefixCountIsShiftTest(a, c, low);
    if ab > bc {
      PrefixCountIsShiftTest(a, b, bc + 1);
      PrefixCountIsShiftTest(b, c, bc + 1);
      PrefixCountIsShiftTest(a, c, bc + 1);
    }
  }

  /** Coordinate v agrees with base on its first m bits. */
  predicate OnAxis(base: U32, m: MaskBits, v: U32) {
    Shr(v, 32 - m) == Shr(base, 32 - m)
  }

  /** Two prefix blocks on one axis are nested or disjoint. */
  lemma AxisBlocksNestOrAreDisjoint(a: U32, m: MaskBits, b: U32, n: MaskBits)
    requires m <= n
    ensures (forall v: U32 :: OnAxis(b, n, v) ==> OnAxis(a, m, v))
         || (forall v: U32 :: !(OnAxis(a, m, v) && OnAxis(b, n, v)))
  {
    forall v: U32 | OnAxis(b, n, v)
      ensures Shr(v, 32 - m) == Shr(b, 32 - m)
    {
      ShrComposes(v, 32 - n, n - m);
      ShrComposes(b, 32 - n, n - m);
    }
  }

  // ------------------------------------------------------------ inclusion of blocks

  /** Some number agrees with a above bit hi and differs from it above bit lo. */
  lemma {:induction false} DifferBetween(a: nat, lo: nat, hi: nat) returns (v: nat)
    requires lo < hi
    ensures Shr(v, hi) == Shr(a, hi) && Shr(v, lo) != Shr(a, lo)
    decreases lo
  {
    if lo == 0 {
      v := if a % 2 == 0 then a + 1 else a - 1;
      assert v / 2 == a / 2;
    } else {
      var w := DifferBetween(a / 2, lo - 1, hi - 1);
      v := 2 * w;
    }
  }

  lemma DifferOnAxis(a: U32, m: MaskBits, n: MaskBits) returns (v: U32)
    requires m < n
    ensures OnAxis(a, m, v) && !OnAxis(a, n, v)
  {
    var w := DifferBetween(a, 32 - n, 32 - m);
    ShrComposes(w, 32 - m, m);
    ShrComposes(a, 32 - m, m);
    FitsIn32(a);
    FitsIn32(w);
    v := w;
  }

  /** The RIDs of `inner` all lie in `outer`. */
  ghost predicate Inside(inner: RIDSpace, outer: RIDSpace) {
    forall r: RID :: inner.Contains(r) ==> outer.Contains(r)
  }

  ghost predicate StrictlyInside(inner: RIDSpace, outer: RIDSpace) {
    Inside(inner, outer) && !Inside(outer, inner)
  }

  /** The two denote the same set of RIDs. */
  ghost predicate SameBlock(a: RIDSpace, b: RIDSpace) {
    Inside(a, b) && Inside(b, a)
  }

  lemma ContainsByAxis(s: RIDSpace, r: RID)
    ensures s.Contains(r) <==> OnAxis(s.x, s.xMask, r.x) && OnAxis(s.y, s.yMask, r.y)
  {
    FitsIn32(s.x);
    FitsIn32(s.y);
    FitsIn32(r.x);
    FitsIn32(r.y);
  }

  lemma {:induction false} ShrIsDivision(n: nat, k: nat)
    ensures Shr(n, k) == n / Power(2, k)
    decreases k
  {
    if k > 0 {
      ShrIsDivision(n / 2, k - 1);
      DividedTwice(n, 2, Power(2, k - 1));
    }
  }

  /** A block is the RIDs in an aligned rectangle: on each axis, those with the base's quotient by
      a power of two, 2^(32 - m) for a mask of m bits. */
  lemma BlockIsARectangle(s: RIDSpace, r: RID)
    ensures s.Contains(r) <==>
            && r.x / Power(2, 32 - s.xMask) == s.x / Power(2, 32 - s.xMask)
            && r.y / Power(2, 32 - s.yMask) == s.y / Power(2, 32 - s.yMask)
  {
    ContainsByAxis(s, r);
    ShrIsDivision(r.x, 32 - s.xMask);
    ShrIsDivision(s.x, 32 - s.xMask);
    ShrIsDivision(r.y, 32 - s.yMask);
    ShrIsDivision(s.y, 32 - s.yMask);
  }

  /** A block inside another has masks at least as long on both axes. */
  lemma InsideLengthensMasks(inner: RIDSpace, outer: RIDSpace)
    requires Inside(inner, outer)
    ensures inner.xMask >= outer.xMask && inner.yMask >= outer.yMask
  {
    ContainsByAxis(inner, RID(inner.x, inner.y));
    ContainsByAxis(outer, RID(inner.x, inner.y));
    if inner.xMask < outer.xMask {
      var v := DifferOnAxis(inner.x, inner.xMask, outer.xMask);
      ContainsByAxis(inner, RID(v, inner.y));
      ContainsByAxis(outer, RID(v, inner.y));
    }
    if inner.yMask < outer.yMask {
      var v := DifferOnAxis(inner.y, inner.yMask, outer.yMask);
      ContainsByAxis(inner, RID(inner.x, v));
      ContainsByAxis(outer, RID(inner.x, v));
    }
  }

  /** Blocks with a common RID are nested as soon as one has the longer masks. */
  lemma LongerMasksLieInside(inner: RIDSpace, outer: RIDSpace, common: RID)
    requires inner.Contains(common) && outer.Contains(common)
    requires inner.xMask >= outer.xMask && inner.yMask >= outer.yMask
    ensures Inside(inner, outer)
  {
    forall r: RID | inner.Contains(r)
      ensures outer.Contains(r)
    {
      ContainsByAxis(inner, r);
      ContainsByAxis(outer, r);
      ContainsByAxis(inner, common);
      ContainsByAxis(outer, common);
      ShrComposes(r.x, 32 - inner.xMask, inner.xMask - outer.xMask);
      ShrComposes(common.x, 32 - inner.xMask, inner.xMask - outer.xMask);
      ShrComposes(r.y, 32 - inner.yMask, inner.yMask - outer.yMask);
      ShrComposes(common.y, 32 - inner.yMask, inner.yMask - outer.yMask);
    }
  }

  /** Blocks with a common RID and equal masks are one block. */
  lemma SameMasksSameBlock(a: RIDSpace, b: RIDSpace, common: RID)
    requires a.Contains(common) && b.Contains(common)
    requires a.xMask == b.xMask && a.yMask == b.yMask
    ensures SameBlock(a, b)
  {
    LongerMasksLieInside(a, b, common);
    LongerMasksLieInside(b, a, common);
  }
}
