/** The bitwise "and" of unsigned numbers, and what its bits are. */
module Bits {
  function And(a: nat, b: nat): nat {
    if a == 0 || b == 0 then 0
    else 2 * And(a / 2, b / 2) + if a % 2 == 1 && b % 2 == 1 then 1 else 0
  }

  /** Bit k, counted from the least significant. */
  predicate Bit(a: nat, k: nat) {
    if k == 0 then a % 2 == 1 else Bit(a / 2, k - 1)
  }

  lemma {:induction false} ZeroBits(k: nat)
    ensures !Bit(0, k)
  {
    if k > 0 { ZeroBits(k - 1); }
  }

  lemma {:induction false} AndBit(a: nat, b: nat, k: nat)
    ensures Bit(And(a, b), k) <==> Bit(a, k) && Bit(b, k)
    decreases k
  {
    if a == 0 || b == 0 {
      ZeroBits(k);
    } else if k > 0 {
      assert And(a, b) / 2 == And(a / 2, b / 2);
      AndBit(a / 2, b / 2, k - 1);
    }
  }

  /** A number is its bits. */
  lemma {:induction false} SameBits(a: nat, b: nat)
    requires forall k: nat :: Bit(a, k) <==> Bit(b, k)
    ensures a == b
    decreases a
  {
    assert Bit(a, 0) <==> Bit(b, 0);
    forall k: nat ensures Bit(a / 2, k) <==> Bit(b / 2, k) {
      assert Bit(a, k + 1) <==> Bit(b, k + 1);
    }
    if a == 0 {
      forall k: nat ensures !Bit(b, k) {
        ZeroBits(k);
        assert Bit(a, k) <==> Bit(b, k);
      }
      NoBits(b);
    } else {
      SameBits(a / 2, b / 2);
    }
  }

  lemma {:induction false} NoBits(b: nat)
    requires forall k: nat :: !Bit(b, k)
    ensures b == 0
    decreases b
  {
    assert !Bit(b, 0);
    if b > 0 {
      forall k: nat ensures !Bit(b / 2, k) {
        assert !Bit(b, k + 1);
      }
      NoBits(b / 2);
    }
  }

  /** The numbers have the same bit wherever the mask has one. */
  ghost predicate AgreeOn(mask: nat, a: nat, b: nat) {
    forall k: nat :: Bit(mask, k) ==> Bit(a, k) == Bit(b, k)
  }

  /** Two numbers agree under a mask exactly when they agree on every bit of the mask. */
  lemma SameUnderMask(mask: nat, a: nat, b: nat)
    ensures And(a, mask) == And(b, mask) <==> AgreeOn(mask, a, b)
  {
    var x, y := And(a, mask), And(b, mask);
    forall k: nat
      ensures Bit(x, k) == (Bit(a, k) && Bit(mask, k))
      ensures Bit(y, k) == (Bit(b, k) && Bit(mask, k))
    {
      AndBit(a, mask, k);
      AndBit(b, mask, k);
    }
    if x == y {
      forall k: nat | Bit(mask, k) ensures Bit(a, k) == Bit(b, k) {
        assert Bit(x, k) == Bit(a, k) && Bit(y, k) == Bit(b, k);
      }
    }
    if AgreeOn(mask, a, b) {
      forall k: nat ensures Bit(x, k) <==> Bit(y, k) {
        assert Bit(mask, k) ==> Bit(a, k) == Bit(b, k);
      }
      SameBits(x, y);
    }
  }

  function Pow2(n: nat): nat
    ensures Pow2(n) > 0
  {
    if n == 0 then 1 else 2 * Pow2(n - 1)
  }

  /** n ones keep the value modulo 2 to the n. */
  lemma {:induction false} AndOnes(a: nat, n: nat)
    ensures And(a, Pow2(n) - 1) == a % Pow2(n)
    decreases n
  {
    if n > 0 {
      var m := Pow2(n - 1);
      AndOnes(a / 2, n - 1);
      assert (2 * m - 1) / 2 == m - 1;
      HalfMod(a, m);
    }
  }

  lemma HalfMod(a: nat, m: nat)
    requires m > 0
    ensures a % (2 * m) == 2 * ((a / 2) % m) + a % 2
  {
    var h := a / 2;
    var q, r := h / m, h % m;
    assert a == 2 * (q * m + r) + a % 2;
    assert a == (2 * m) * q + (2 * r + a % 2);
    ModIs(a, 2 * m, q, 2 * r + a % 2);
  }

  lemma ModIs(a: nat, d: nat, q: nat, r: nat)
    requires r < d && a == d * q + r
    ensures a % d == r
  {
    var k := a / d - q;
    assert a == d * (a / d) + a % d;
    assert k * d == r - a % d;
    if k != 0 { FarFromZero(k, d); }
  }

  lemma FarFromZero(k: int, d: int)
    requires k != 0 && d >= 0
    ensures k * d >= d || k * d <= -d
  {
    if k > 0 {
      assert (k - 1) * d >= 0;
    } else {
      assert (-k - 1) * d >= 0;
    }
  }

  lemma Powers()
    ensures Pow2(8) == 0x100 && Pow2(12) == 0x1000
  {
    assert Pow2(4) == 16;
    assert Pow2(8) == 0x100;
  }

  lemma Mask12(a: nat)
    ensures And(a, 0xfff) == a % 0x1000
  {
    Powers();
    AndOnes(a, 12);
  }

  /** A mask of n ones keeps a number of n bits. */
  lemma {:induction false} AndFits(mask: nat, a: nat, n: nat)
    requires mask == Pow2(n) - 1 && a < Pow2(n)
    ensures And(a, mask) == a
    decreases n
  {
    if n > 0 {
      assert mask / 2 == Pow2(n - 1) - 1 && mask % 2 == 1;
      AndFits(mask / 2, a / 2, n - 1);
    }
  }

  /** Numbers that fit under a mask agree on it only when they are the same. */
  lemma AgreeOnFits(mask: nat, a: nat, b: nat)
    requires And(a, mask) == a && And(b, mask) == b
    ensures AgreeOn(mask, a, b) <==> a == b
  {
    SameUnderMask(mask, a, b);
  }

  lemma AgreeOnOnes(mask: nat, a: nat, b: nat, n: nat)
    requires mask == Pow2(n) - 1 && a < Pow2(n) && b < Pow2(n)
    ensures AgreeOn(mask, a, b) <==> a == b
  {
    AndFits(mask, a, n);
    AndFits(mask, b, n);
    AgreeOnFits(mask, a, b);
  }
}
