/**
 * Mip-chain arithmetic: how many levels a mipmapped texture gets
 * (`calcMipLevels`) and the extent of each level when the chain is uploaded
 * (`uploadTextureData`).
 */
module MipChain {

  function Min(a: nat, b: nat): nat { if a <= b then a else b }

  /** `Math.max(x, 1)`. */
  function Max1(n: int): nat { if n >= 1 then n else 1 }

  function Pow2(k: nat): (p: nat)
    ensures p >= 1
  {
    if k == 0 then 1 else 2 * Pow2(k - 1)
  }

  /** The number of times `m` can be halved (rounding down) before it reaches 0. */
  function MipCount(m: nat): nat
    decreases m
  {
    if m == 0 then 0 else 1 + MipCount(m / 2)
  }

  /** The halving count is floor(log2 m) + 1: the k with 2^(k-1) <= m < 2^k. */
  lemma {:induction false} MipCountIsFloorLog2PlusOne(m: nat)
    requires m >= 1
    ensures MipCount(m) >= 1
    ensures Pow2(MipCount(m) - 1) <= m < Pow2(MipCount(m))
  {
    if m == 1 {
      assert MipCount(0) == 0;
    } else {
      MipCountIsFloorLog2PlusOne(m / 2);
      var k := MipCount(m / 2);
      assert MipCount(m) == k + 1;
      assert Pow2(k) == 2 * Pow2(k - 1);
    }
  }

  lemma {:induction false} Pow2Monotone(a: nat, b: nat)
    requires a <= b
    ensures Pow2(a) <= Pow2(b)
    decreases b
  {
    if a < b {
      Pow2Monotone(a, b - 1);
    }
  }

  /** floor(log2 m) + 1 is the only k with 2^(k-1) <= m < 2^k. */
  lemma {:induction false} MipCountUnique(m: nat, k: nat)
    requires k >= 1 && Pow2(k - 1) <= m < Pow2(k)
    ensures k == MipCount(m)
  {
    MipCountIsFloorLog2PlusOne(m);
    var c := MipCount(m);
    if k < c {
      Pow2Monotone(k, c - 1);
    } else if c < k {
      Pow2Monotone(c, k - 1);
    }
  }

  /** `calcMipLevels`, halving with integer division (see the findings). */
  method CalcMipLevels(w: nat, h: nat) returns (levels: nat)
    ensures levels == MipCount(Min(w, h))
    ensures Min(w, h) == 0 ==> levels == 0
    ensures Min(w, h) >= 1 ==> levels >= 1 && Pow2(levels - 1) <= Min(w, h) < Pow2(levels)
  {
    var m := Min(w, h);
    var i := 0;
    while m > 0
      invariant i + MipCount(m) == MipCount(Min(w, h))
    {
      m := m / 2;
      i := i + 1;
    }
    levels := i;
    if Min(w, h) >= 1 {
      MipCountIsFloorLog2PlusOne(Min(w, h));
    }
  }

  /** The level count `createTexture` allocates. */
  function MipLevelCount(mipmapped: bool, w: nat, h: nat): (n: nat)
    ensures !mipmapped ==> n == 1
    ensures mipmapped && Min(w, h) >= 1 ==> n >= 1 && Pow2(n - 1) <= Min(w, h) < Pow2(n)
  {
    if mipmapped then
      if Min(w, h) >= 1 then MipCountIsFloorLog2PlusOne(Min(w, h)); MipCount(Min(w, h))
      else MipCount(Min(w, h))
    else 1
  }

  // ---------------------------------------------------------------- level extents

  /** The extent `uploadTextureData` uses at level i: halved and floored at 1 per level. */
  function LevelExtent(n: nat, i: nat): nat {
    if i == 0 then n else Max1(LevelExtent(n, i - 1) / 2)
  }

  lemma DivUnique(n: nat, d: nat, q: nat, r: nat)
    requires d >= 1 && r < d && n == d * q + r
    ensures n / d == q
  {
    var q', r' := n / d, n % d;
    assert d * q' + r' == d * q + r;
    assert d * (q' + 1) == d * q' + d && d * (q + 1) == d * q + d;
    if q' < q {
      MulMonotone(d, q' + 1, q);
    } else if q < q' {
      MulMonotone(d, q + 1, q');
    }
  }

  lemma MulMonotone(d: nat, a: nat, b: nat)
    requires a <= b
    ensures d * a <= d * b
  {
    assert d * b == d * a + d * (b - a);
  }

  lemma DivHalf(n: nat, p: nat)
    requires p >= 1
    ensures (n / p) / 2 == n / (p * 2)
  {
    var q, r := n / p, n % p;
    var q2, r2 := q / 2, q % 2;
    assert n == p * q + r;
    assert q == 2 * q2 + r2;
    assert n == (p * 2) * q2 + (p * r2 + r) by {
      calc {
        n;
        p * q + r;
        p * (2 * q2 + r2) + r;
        (p * 2) * q2 + (p * r2 + r);
      }
    }
    assert p * r2 + r < p * 2 by {
      assert p * r2 <= p;
    }
    DivUnique(n, p * 2, q2, p * r2 + r);
  }

  /** Level i of an extent n is max(floor(n / 2^i), 1) for every level after the first. */
  lemma {:induction false} LevelExtentClosedForm(n: nat, i: nat)
    ensures LevelExtent(n, i) == if i == 0 then n else Max1(n / Pow2(i))
  {
    if i == 1 {
      assert Pow2(1) == 2;
    } else if i >= 2 {
      LevelExtentClosedForm(n, i - 1);
      var p := Pow2(i - 1);
      var q := n / p;
      assert LevelExtent(n, i - 1) == Max1(q);
      DivHalf(n, p);
      assert Pow2(i) == p * 2;
      assert n / Pow2(i) == q / 2;
      Max1Half(q);
    }
  }

  lemma Max1Half(q: int)
    ensures Max1(Max1(q) / 2) == Max1(q / 2)
  {
  }

  /** Every level after the first is at least 1 and never larger than the one before. */
  lemma {:induction false} LevelExtentShrinks(n: nat, i: nat)
    requires i >= 1
    ensures 1 <= LevelExtent(n, i)
    ensures LevelExtent(n, i) <= Max1(LevelExtent(n, i - 1))
  {
  }

  // ---------------------------------------------------------------- as written

  /** The value of `m` after k passes of the loop as written, with exact `m /= 2`. */
  function AsWrittenHalvings(m: real, k: nat): real {
    if k == 0 then m else AsWrittenHalvings(m, k - 1) / 2.0
  }

  /** With exact division the loop guard `m > 0` holds after any number of passes:
    * the loop as written exits only by floating-point underflow. */
  lemma {:induction false} AsWrittenLoopStaysPositive(m: real, k: nat)
    requires m > 0.0
    ensures AsWrittenHalvings(m, k) > 0.0
  {
    if k > 0 {
      AsWrittenLoopStaysPositive(m, k - 1);
    }
  }

  /** A 1x1 texture: the intended count is 1, but after that one pass the source's `m` is
    * 0.5, so its loop runs on. */
  lemma AsWrittenOneByOne()
    ensures MipCount(Min(1, 1)) == 1
    ensures AsWrittenHalvings(1.0, MipCount(Min(1, 1))) == 0.5
  {
    assert MipCount(0) == 0;
  }
}
