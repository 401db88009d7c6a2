/** The bit masks of the sequencing table, as natural numbers. */
module Bits {

  function Pow2(n: nat): (p: nat)
    ensures p > 0
  {
    if n == 0 then 1 else 2 * Pow2(n - 1)
  }

  /** `mask >> j & 1` */
  predicate Bit(mask: nat, j: nat) {
    if j == 0 then mask % 2 == 1 else Bit(mask / 2, j - 1)
  }

  /** `mask | 1 << j` */
  function SetBit(mask: nat, j: nat): nat {
    if j == 0 then mask / 2 * 2 + 1 else 2 * SetBit(mask / 2, j - 1) + mask % 2
  }

  /** `mask ^ 1 << j` */
  function FlipBit(mask: nat, j: nat): nat {
    if j == 0 then mask / 2 * 2 + 1 - mask % 2 else 2 * FlipBit(mask / 2, j - 1) + mask % 2
  }

  /** `mask.bit_count()` */
  function BitCount(mask: nat): nat {
    if mask == 0 then 0 else mask % 2 + BitCount(mask / 2)
  }

  lemma {:induction false} SetBitMembers(mask: nat, j: nat, x: nat)
    ensures Bit(SetBit(mask, j), x) <==> x == j || Bit(mask, x)
  {
    if j > 0 && x > 0 {
      SetBitMembers(mask / 2, j - 1, x - 1);
    }
  }

  lemma {:induction false} FlipBitMembers(mask: nat, j: nat, x: nat)
    ensures Bit(FlipBit(mask, j), x) <==> (if x == j then !Bit(mask, x) else Bit(mask, x))
  {
    if j > 0 && x > 0 {
      FlipBitMembers(mask / 2, j - 1, x - 1);
    }
  }

  lemma {:induction false} SetBitGrows(mask: nat, j: nat)
    requires !Bit(mask, j)
    ensures SetBit(mask, j) > mask
    ensures BitCount(SetBit(mask, j)) == BitCount(mask) + 1
    ensures FlipBit(SetBit(mask, j), j) == mask
  {
    if j > 0 {
      var half := SetBit(mask / 2, j - 1);
      SetBitGrows(mask / 2, j - 1);
      assert SetBit(mask, j) / 2 == half && SetBit(mask, j) % 2 == mask % 2;
    } else {
      assert SetBit(mask, 0) / 2 == mask / 2;
    }
  }

  lemma {:induction false} FlipBitShrinks(mask: nat, j: nat)
    requires Bit(mask, j)
    ensures FlipBit(mask, j) < mask
    ensures SetBit(FlipBit(mask, j), j) == mask
    ensures BitCount(mask) == BitCount(FlipBit(mask, j)) + 1
  {
    if j > 0 {
      var half := FlipBit(mask / 2, j - 1);
      FlipBitShrinks(mask / 2, j - 1);
      assert FlipBit(mask, j) / 2 == half && FlipBit(mask, j) % 2 == mask % 2;
    } else {
      assert FlipBit(mask, 0) / 2 == mask / 2;
    }
  }

  lemma {:induction false} SetBitBelow(mask: nat, j: nat, n: nat)
    requires mask < Pow2(n) && j < n
    ensures SetBit(mask, j) < Pow2(n)
  {
    if j > 0 {
      SetBitBelow(mask / 2, j - 1, n - 1);
    } else {
      assert Pow2(n) == 2 * Pow2(n - 1);
    }
  }

  /** No bit of a mask below `2^n` lies at or above `n`. */
  lemma {:induction false} HighBitsClear(mask: nat, n: nat, x: nat)
    requires mask < Pow2(n) && n <= x
    ensures !Bit(mask, x)
  {
    if n > 0 {
      HighBitsClear(mask / 2, n - 1, x - 1);
    } else {
      ZeroHasNoBits(x);
    }
  }

  lemma ZeroHasNoBits(x: nat)
    ensures !Bit(0, x)
  {
  }

  lemma {:induction false} SingleBit(j: nat)
    ensures SetBit(0, j) == Pow2(j)
  {
    if j > 0 {
      SingleBit(j - 1);
    }
  }

  /** `(1 << n) - 1` has exactly the bits below `n`. */
  lemma {:induction false} FullMask(n: nat, x: nat)
    ensures Bit(Pow2(n) - 1, x) <==> x < n
  {
    if n == 0 {
      ZeroHasNoBits(x);
    } else if x > 0 {
      assert (Pow2(n) - 1) / 2 == Pow2(n - 1) - 1;
      FullMask(n - 1, x - 1);
    } else {
      assert Pow2(n) - 1 == 2 * (Pow2(n - 1) - 1) + 1;
    }
  }

  /** A mask is determined by its bits. */
  lemma {:induction false} SameBits(a: nat, b: nat)
    requires forall x: nat :: Bit(a, x) <==> Bit(b, x)
    ensures a == b
    decreases a + b
  {
    assert Bit(a, 0) <==> Bit(b, 0);
    if a > 0 || b > 0 {
      forall x: nat ensures Bit(a / 2, x) <==> Bit(b / 2, x) {
        assert Bit(a, x + 1) <==> Bit(b, x + 1);
      }
      SameBits(a / 2, b / 2);
    }
  }

  lemma {:induction false} BitCountZero(mask: nat)
    requires BitCount(mask) == 0
    ensures mask == 0
  {
    if mask > 0 {
      BitCountZero(mask / 2);
    }
  }
}
