/** Bit strings (most significant bit first) and the bitwise operators on
    non-negative integers, with the facts that turn shifting, masking and
    or-ing into arithmetic. */
module BitStrings {

  function Pow2(n: nat): (p: nat)
    ensures p > 0
  {
    if n == 0 then 1 else 2 * Pow2(n - 1)
  }

  /** x << n */
  function Shl(x: nat, n: nat): nat {
    x * Pow2(n)
  }

  /** x >> n */
  function Shr(x: nat, n: nat): nat {
    Quotient(x, Pow2(n))
  }

  /** The n low bits of x, as a number. */
  function Low(x: nat, n: nat): (r: nat)
    ensures r < Pow2(n)
  {
    x % Pow2(n)
  }

  function Quotient(x: nat, d: nat): nat
    requires d > 0
  {
    x / d
  }

  lemma QuotientLow(x: nat, n: nat)
    ensures x == Shr(x, n) * Pow2(n) + Low(x, n)
  {
    var d := Pow2(n);
    assert x == x / d * d + x % d;
  }

  /** x | y */
  function Or(x: nat, y: nat): nat
    decreases x + y
  {
    if x == 0 && y == 0 then 0
    else 2 * Or(x / 2, y / 2) + (if x % 2 == 1 || y % 2 == 1 then 1 else 0)
  }

  /** x & y */
  function And(x: nat, y: nat): nat
    decreases x + y
  {
    if x == 0 && y == 0 then 0
    else 2 * And(x / 2, y / 2) + (if x % 2 == 1 && y % 2 == 1 then 1 else 0)
  }

  /** x ^ y */
  function Xor(x: nat, y: nat): nat
    decreases x + y
  {
    if x == 0 && y == 0 then 0
    else 2 * Xor(x / 2, y / 2) + (if x % 2 != y % 2 then 1 else 0)
  }

  lemma {:induction false} OrShifted(x: nat, n: nat, low: nat)
    requires low < Pow2(n)
    ensures Or(Shl(x, n), low) == x * Pow2(n) + low
  {
    if n == 0 {
      OrZero(x);
    } else {
      var half := x * Pow2(n - 1);
      assert x * Pow2(n) == 2 * half;
      OrShifted(x, n - 1, low / 2);
    }
  }

  lemma {:induction false} OrZero(x: nat)
    ensures Or(x, 0) == x
  {
    if x != 0 {
      OrZero(x / 2);
    }
  }

  lemma {:induction false} AndMask(x: nat, n: nat)
    ensures And(x, Pow2(n) - 1) == Low(x, n)
    decreases n, x
  {
    if n == 0 {
      AndZero(x);
    } else {
      AndMask(x / 2, n - 1);
      var p := Pow2(n - 1);
      assert (Pow2(n) - 1) / 2 == p - 1;
      ModDouble(x, p);
    }
  }

  lemma {:induction false} AndZero(x: nat)
    ensures And(x, 0) == 0
  {
    if x != 0 {
      AndZero(x / 2);
    }
  }

  lemma ModDouble(x: nat, p: nat)
    requires p > 0
    ensures x % (2 * p) == 2 * (x / 2 % p) + x % 2
    ensures x / (2 * p) == x / 2 / p
  {
    var h := x / 2;
    var q, r := h / p, h % p;
    assert h == q * p + r;
    assert x == 2 * h + x % 2;
    assert x == q * (2 * p) + (2 * r + x % 2);
    DivModUnique(x, 2 * p, q, 2 * r + x % 2);
  }

  lemma MulAtLeast(k: int, d: int)
    requires k >= 1 && d > 0
    ensures k * d >= d
  {
  }

  lemma DivModUnique(x: int, d: int, q: int, r: int)
    requires d > 0 && 0 <= r < d && x == q * d + r
    ensures x / d == q && x % d == r
  {
    var q', r' := x / d, x % d;
    var gap := q - q';
    assert gap * d == r' - r by {
      assert x == q' * d + r';
      assert gap * d == q * d - q' * d;
    }
    if gap >= 1 {
      MulAtLeast(gap, d);
    } else if gap <= -1 {
      MulAtLeast(-gap, d);
    }
  }

  /** Removing the bits above position n by xor-ing them with themselves. */
  lemma {:induction false} XorHigh(x: nat, n: nat)
    ensures Xor(x, Shl(Shr(x, n), n)) == Low(x, n)
    decreases n, x
  {
    hide Xor;
    if n == 0 {
      XorSelf(x);
    } else {
      XorHigh(x / 2, n - 1);
      HighHalf(x, n);
      XorHalf(x, Shl(Shr(x, n), n));
    }
  }

  /** The high bits of a number are twice those of its half. */
  lemma HighHalf(x: nat, n: nat)
    requires n > 0
    ensures Shl(Shr(x, n), n) == 2 * Shl(Shr(x / 2, n - 1), n - 1)
    ensures Low(x, n) == 2 * Low(x / 2, n - 1) + x % 2
  {
    var p := Pow2(n - 1);
    ModDouble(x, p);
    var hi := Shr(x, n);
    assert hi == Shr(x / 2, n - 1);
    assert hi * Pow2(n) == 2 * (hi * p);
  }

  lemma XorHalf(x: nat, y: nat)
    ensures Xor(x, y) == 2 * Xor(x / 2, y / 2) + if x % 2 != y % 2 then 1 else 0
  {
  }

  lemma {:induction false} XorSelf(x: nat)
    ensures Xor(x, x) == 0
  {
    if x != 0 {
      XorSelf(x / 2);
    }
  }

  /** The n low bits of v, most significant first. */
  function ToBits(v: nat, n: nat): (bits: seq<bool>)
    ensures |bits| == n
  {
    if n == 0 then [] else ToBits(v / 2, n - 1) + [v % 2 == 1]
  }

  /** The number that a bit string denotes. */
  function FromBits(bits: seq<bool>): nat {
    if bits == [] then 0
    else 2 * FromBits(bits[..|bits| - 1]) + (if bits[|bits| - 1] then 1 else 0)
  }

  lemma {:induction false} FromToBits(v: nat, n: nat)
    requires v < Pow2(n)
    ensures FromBits(ToBits(v, n)) == v
  {
    if n > 0 {
      FromToBits(v / 2, n - 1);
      var bits := ToBits(v, n);
      assert bits[..n - 1] == ToBits(v / 2, n - 1);
    }
  }

  lemma {:induction false} ToBitsAppend(v: nat, m: nat, low: nat, n: nat)
    requires low < Pow2(n)
    ensures ToBits(v * Pow2(n) + low, m + n) == ToBits(v, m) + ToBits(low, n)
    decreases n
  {
    hide ToBits;
    if n == 0 {
      NoBits(low);
      assert v * Pow2(0) + low == v;
    } else {
      var half := v * Pow2(n - 1);
      HalfOfShifted(v, n, low);
      ToBitsAppend(v, m, low / 2, n - 1);
      LastBit(2 * half + low, m + n);
      LastBit(low, n);
      assert ToBits(2 * half + low, m + n) == ToBits(half + low / 2, m + n - 1) + [low % 2 == 1];
    }
  }

  lemma NoBits(v: nat)
    ensures ToBits(v, 0) == []
  {
  }

  lemma LastBit(v: nat, n: nat)
    requires n > 0
    ensures ToBits(v, n) == ToBits(v / 2, n - 1) + [v % 2 == 1]
  {
  }

  lemma HalfOfShifted(v: nat, n: nat, low: nat)
    requires n > 0 && low < Pow2(n)
    ensures var half := v * Pow2(n - 1);
            && v * Pow2(n) == 2 * half && low / 2 < Pow2(n - 1)
            && (2 * half + low) / 2 == half + low / 2 && (2 * half + low) % 2 == low % 2
  {
    assert Pow2(n) == 2 * Pow2(n - 1);
  }

  lemma ToBitsSplit(v: nat, m: nat, n: nat)
    ensures ToBits(v, m + n) == ToBits(Shr(v, n), m) + ToBits(Low(v, n), n)
  {
    QuotientLow(v, n);
    ToBitsAppend(Shr(v, n), m, Low(v, n), n);
  }
}
