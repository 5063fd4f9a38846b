/** Single bits of non-negative integers: how the bitwise operators and the
    shifts act on them, and that a number is the sum of its bits. */
module BitsAt {
  import opened BitStrings

  predicate BitAt(x: nat, i: nat) {
    if i == 0 then x % 2 == 1 else BitAt(x / 2, i - 1)
  }

  lemma {:induction false} ZeroAt(i: nat)
    ensures !BitAt(0, i)
  {
    if i > 0 {
      ZeroAt(i - 1);
    }
  }

  lemma {:induction false} XorAt(x: nat, y: nat, i: nat)
    ensures BitAt(Xor(x, y), i) == (BitAt(x, i) != BitAt(y, i))
    decreases i
  {
    hide Xor;
    XorHalves(x, y);
    if i > 0 {
      XorAt(x / 2, y / 2, i - 1);
    }
  }

  lemma XorHalves(x: nat, y: nat)
    ensures Xor(x, y) / 2 == Xor(x / 2, y / 2)
    ensures (Xor(x, y) % 2 == 1) == ((x % 2 == 1) != (y % 2 == 1))
  {
  }

  lemma {:induction false} AndAt(x: nat, y: nat, i: nat)
    ensures BitAt(And(x, y), i) == (BitAt(x, i) && BitAt(y, i))
    decreases i
  {
    hide And;
    AndHalves(x, y);
    if i > 0 {
      AndAt(x / 2, y / 2, i - 1);
    }
  }

  lemma AndHalves(x: nat, y: nat)
    ensures And(x, y) / 2 == And(x / 2, y / 2)
    ensures (And(x, y) % 2 == 1) == ((x % 2 == 1) && (y % 2 == 1))
  {
  }

  lemma {:induction false} OrAt(x: nat, y: nat, i: nat)
    ensures BitAt(Or(x, y), i) == (BitAt(x, i) || BitAt(y, i))
    decreases i
  {
    hide Or;
    OrHalves(x, y);
    if i > 0 {
      OrAt(x / 2, y / 2, i - 1);
    }
  }

  lemma OrHalves(x: nat, y: nat)
    ensures Or(x, y) / 2 == Or(x / 2, y / 2)
    ensures (Or(x, y) % 2 == 1) == ((x % 2 == 1) || (y % 2 == 1))
  {
  }

  lemma {:induction false} ShlAt(x: nat, k: nat, i: nat)
    ensures BitAt(Shl(x, k), i) == (i >= k && BitAt(x, i - k))
    decreases k
  {
    if k > 0 {
      assert Shl(x, k) == 2 * Shl(x, k - 1);
      if i > 0 {
        ShlAt(x, k - 1, i - 1);
      }
    }
  }

  lemma {:induction false} ShrAt(x: nat, k: nat, i: nat)
    ensures BitAt(Shr(x, k), i) == BitAt(x, i + k)
    decreases k
  {
    if k > 0 {
      ShrAt(x / 2, k - 1, i);
      ModDouble(x, Pow2(k - 1));
    }
  }

  /** The mask of n ones. */
  lemma {:induction false} MaskAt(n: nat, i: nat)
    ensures BitAt(Pow2(n) - 1, i) == (i < n)
  {
    if n == 0 {
      ZeroAt(i);
    } else if i > 0 {
      assert (Pow2(n) - 1) / 2 == Pow2(n - 1) - 1;
      MaskAt(n - 1, i - 1);
    }
  }

  lemma {:induction false} HighBitsZero(x: nat, n: nat, i: nat)
    requires x < Pow2(n) && n <= i
    ensures !BitAt(x, i)
    decreases n
  {
    if n == 0 {
      ZeroAt(i);
    } else {
      HighBitsZero(x / 2, n - 1, i - 1);
    }
  }

  /** Numbers of n bits that agree on every bit are the same. */
  lemma {:induction false} SameBits(x: nat, y: nat, n: nat)
    requires x < Pow2(n) && y < Pow2(n)
    requires forall i: nat :: i < n ==> BitAt(x, i) == BitAt(y, i)
    ensures x == y
    decreases n
  {
    if n > 0 {
      assert BitAt(x, 0) == BitAt(y, 0);
      forall i: nat | i < n - 1
        ensures BitAt(x / 2, i) == BitAt(y / 2, i)
      {
        assert BitAt(x, i + 1) == BitAt(y, i + 1);
      }
      SameBits(x / 2, y / 2, n - 1);
    }
  }

  /** A number without bits from position n up is below 2^n. */
  lemma {:induction false} BitsBound(x: nat, n: nat)
    requires forall i: nat :: i >= n ==> !BitAt(x, i)
    ensures x < Pow2(n)
    decreases x
  {
    if x == 0 {
    } else if n == 0 {
      TopBit(x);
    } else {
      forall i: nat | i >= n - 1
        ensures !BitAt(x / 2, i)
      {
        assert !BitAt(x, i + 1);
      }
      BitsBound(x / 2, n - 1);
    }
  }

  lemma {:induction false} TopBit(x: nat)
    requires x > 0
    ensures exists i: nat :: BitAt(x, i)
  {
    if x % 2 == 1 {
      assert BitAt(x, 0);
    } else {
      TopBit(x / 2);
      var i: nat :| BitAt(x / 2, i);
      assert BitAt(x, i + 1);
    }
  }
}
