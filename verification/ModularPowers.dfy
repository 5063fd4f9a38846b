/** Powers and remainders: the laws that key agreement rests on. */
module ModularPowers {
  import BitStrings

  function Pow(base: int, exponent: nat): int {
    if exponent == 0 then 1 else base * Pow(base, exponent - 1)
  }

  /** Equal remainders, with the multiple of n that lies between. */
  ghost predicate Congruent(a: int, b: int, n: int) {
    exists k: int :: Differ(a, b, k, n)
  }

  predicate Differ(a: int, b: int, k: int, n: int) {
    a == b + k * n
  }

  lemma CongruentMod(a: int, b: int, n: int)
    requires n > 0 && Congruent(a, b, n)
    ensures a % n == b % n
  {
    var k :| Differ(a, b, k, n);
    var q, r := b / n, b % n;
    assert b == q * n + r;
    assert a == (q + k) * n + r;
    BitStrings.DivModUnique(a, n, q + k, r);
  }

  lemma ModCongruent(a: int, n: int)
    requires n > 0
    ensures Congruent(a % n, a, n)
  {
    assert a == a / n * n + a % n;
    assert Differ(a % n, a, -(a / n), n);
  }

  lemma CongruentRefl(a: int, n: int)
    ensures Congruent(a, a, n)
  {
    assert Differ(a, a, 0, n);
  }

  lemma CongruentTrans(a: int, b: int, c: int, n: int)
    requires Congruent(a, b, n) && Congruent(b, c, n)
    ensures Congruent(a, c, n)
  {
    var k :| Differ(a, b, k, n);
    var l :| Differ(b, c, l, n);
    assert k * n + l * n == (k + l) * n;
    assert Differ(a, c, k + l, n);
  }

  lemma CongruentMul(a: int, b: int, c: int, d: int, n: int)
    requires Congruent(a, b, n) && Congruent(c, d, n)
    ensures Congruent(a * c, b * d, n)
  {
    var k :| Differ(a, b, k, n);
    var l :| Differ(c, d, l, n);
    MulExpand(b, k, d, l, n);
    assert Differ(a * c, b * d, k * d + b * l + k * l * n, n);
  }

  lemma MulExpand(b: int, k: int, d: int, l: int, n: int)
    ensures (b + k * n) * (d + l * n) == b * d + (k * d + b * l + k * l * n) * n
  {
    var x, y := k * n, l * n;
    assert (b + x) * (d + y) == b * d + b * y + x * d + x * y;
    assert b * y == b * l * n;
    assert x * d == k * d * n;
    assert x * y == k * l * n * n;
    assert (k * d + b * l + k * l * n) * n == k * d * n + b * l * n + k * l * n * n;
  }

  lemma CongruentSub(a: int, b: int, c: int, d: int, n: int)
    requires Congruent(a, b, n) && Congruent(c, d, n)
    ensures Congruent(a - c, b - d, n)
  {
    var k :| Differ(a, b, k, n);
    var l :| Differ(c, d, l, n);
    assert k * n - l * n == (k - l) * n;
    assert Differ(a - c, b - d, k - l, n);
  }

  lemma {:induction false} CongruentPow(a: int, b: int, e: nat, n: int)
    requires Congruent(a, b, n)
    ensures Congruent(Pow(a, e), Pow(b, e), n)
  {
    if e == 0 {
      CongruentRefl(1, n);
    } else {
      CongruentPow(a, b, e - 1, n);
      CongruentMul(a, b, Pow(a, e - 1), Pow(b, e - 1), n);
    }
  }

  lemma {:induction false} PowAdd(b: int, d: nat, e: nat)
    ensures Pow(b, d + e) == Pow(b, d) * Pow(b, e)
  {
    if d > 0 {
      PowAdd(b, d - 1, e);
      assert b * (Pow(b, d - 1) * Pow(b, e)) == b * Pow(b, d - 1) * Pow(b, e);
    }
  }

  lemma {:induction false} PowPow(b: int, d: nat, e: nat)
    ensures d * e >= 0
    ensures Pow(Pow(b, d), e) == Pow(b, d * e)
  {
    if e == 0 {
      assert d * e == 0;
    } else {
      PowPow(b, d, e - 1);
      assert d * e == d + d * (e - 1);
      PowAdd(b, d, d * (e - 1));
    }
  }
}
