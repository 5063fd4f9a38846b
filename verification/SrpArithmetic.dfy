/** The arithmetic of the password login (SRP-6a, section 2.5 and 2.6 of
    RFC 5054): what the client computes, what a server computes, and that the
    two agree. */
module SrpArithmetic {
  import opened ModularPowers

  /** A group: modulus and generator. Nothing about primality is needed. */
  datatype Group = Group(modulus: int, generator: int) {
    predicate Valid() { modulus > 1 }
  }

  /** big.Int.Exp: the power, reduced to a non-negative remainder. */
  function ModExp(base: int, exponent: nat, modulus: int): (r: int)
    requires modulus > 0
    ensures 0 <= r < modulus
  {
    Pow(base, exponent) % modulus
  }

  // ---- The client ----

  function ClientPublic(group: Group, a: nat): int
    requires group.Valid()
  {
    ModExp(group.generator, a, group.modulus)
  }

  /** The client's secret. The difference may be negative. */
  function ClientSecret(group: Group, k: nat, x: nat, a: nat, serverB: int, u: nat): int
    requires group.Valid()
  {
    var gx := ModExp(group.generator, x, group.modulus);
    var difference := serverB - k * gx;
    var exponent := a + u * x;
    assert u * x >= 0;
    ModExp(difference, exponent, group.modulus) % group.modulus
  }

  // ---- The server of RFC 5054 ----

  function Verifier(group: Group, x: nat): int
    requires group.Valid()
  {
    ModExp(group.generator, x, group.modulus)
  }

  function ServerPublic(group: Group, k: nat, v: int, b: nat): int
    requires group.Valid()
  {
    (k * v + ModExp(group.generator, b, group.modulus)) % group.modulus
  }

  function ServerSecret(group: Group, clientA: int, v: int, u: nat, b: nat): int
    requires group.Valid()
  {
    ModExp(clientA * Pow(v, u), b, group.modulus)
  }

  // ---- Agreement ----

  /** Take k times the verifier away from the server's value and the plain
      public power is left. */
  lemma Unmasked(group: Group, k: nat, x: nat, b: nat)
    requires group.Valid()
    ensures var v := Verifier(group, x);
            Congruent(ServerPublic(group, k, v, b) - k * v, Pow(group.generator, b), group.modulus)
  {
    var n, v := group.modulus, Verifier(group, x);
    var gb := Pow(group.generator, b);
    var sum := k * v + gb % n;
    ModCongruent(sum, n);
    CongruentRefl(k * v, n);
    CongruentSub(sum % n, sum, k * v, k * v, n);
    ModCongruent(gb, n);
    CongruentTrans(sum % n - k * v, gb % n, gb, n);
  }

  lemma ClientPower(group: Group, k: nat, x: nat, a: nat, b: nat, u: nat)
    requires group.Valid()
    ensures a + u * x >= 0 && b * (a + u * x) >= 0
    ensures ClientSecret(group, k, x, a, ServerPublic(group, k, Verifier(group, x), b), u)
            == Pow(group.generator, b * (a + u * x)) % group.modulus
  {
    hide Pow, ServerPublic;
    var n, v := group.modulus, Verifier(group, x);
    var difference := ServerPublic(group, k, v, b) - k * v;
    assert u * x >= 0;
    var exponent: nat := a + u * x;
    Unmasked(group, k, x, b);
    CongruentPow(difference, Pow(group.generator, b), exponent, n);
    PowPow(group.generator, b, exponent);
    CongruentMod(Pow(difference, exponent), Pow(group.generator, b * exponent), n);
    ReducedTwice(Pow(difference, exponent), n);
  }

  lemma ReducedTwice(a: int, n: int)
    requires n > 0
    ensures a % n % n == a % n
  {
  }

  lemma ServerPower(group: Group, x: nat, a: nat, b: nat, u: nat)
    requires group.Valid()
    ensures a + u * x >= 0 && b * (a + u * x) >= 0
    ensures ServerSecret(group, ClientPublic(group, a), Verifier(group, x), u, b)
            == Pow(group.generator, b * (a + u * x)) % group.modulus
  {
    var n, g, v := group.modulus, group.generator, Verifier(group, x);
    assert u * x == x * u >= 0;
    var exponent: nat := a + u * x;
    // v^u is congruent to g^(x*u), and A to g^a.
    ModCongruent(Pow(g, x), n);
    CongruentPow(v, Pow(g, x), u, n);
    PowPow(g, x, u);
    ModCongruent(Pow(g, a), n);
    CongruentMul(ClientPublic(group, a), Pow(g, a), Pow(v, u), Pow(g, x * u), n);
    PowAdd(g, a, x * u);
    CongruentPow(ClientPublic(group, a) * Pow(v, u), Pow(g, exponent), b, n);
    PowPow(g, exponent, b);
    assert exponent * b == b * exponent;
    CongruentMod(Pow(ClientPublic(group, a) * Pow(v, u), b), Pow(g, b * exponent), n);
  }

  /** Client and server arrive at the same secret, whatever the secrets, the
      password hash, the scrambler and the multiplier. */
  lemma SecretsAgree(group: Group, k: nat, x: nat, a: nat, b: nat, u: nat)
    requires group.Valid()
    ensures ClientSecret(group, k, x, a, ServerPublic(group, k, Verifier(group, x), b), u)
            == ServerSecret(group, ClientPublic(group, a), Verifier(group, x), u, b)
  {
    ClientPower(group, k, x, a, b, u);
    ServerPower(group, x, a, b, u);
  }
}
