/** The client of the password login: its public value, the server's challenge
    and the two proofs, over an arbitrary hash function of 32 bytes. */
module SrpClient {
  import opened Wrappers
  import opened BigEndian
  import opened ModularPowers
  import opened SrpArithmetic
  import SrpServer

  type Hash = seq<Byte> -> seq<Byte>

  ghost predicate Hash32(hash: Hash) {
    forall data: seq<Byte> :: |hash(data)| == 32
  }

  /** A group whose numbers fit the fixed width. */
  predicate Usable(group: Group) {
    group.Valid() && 0 <= group.generator && group.modulus <= Pow256(PAD_WIDTH)
  }

  function PadNumber(value: nat): seq<Byte> {
    Padded(ToBytes(value))
  }

  /** k: hash of the modulus and of the generator at the modulus' length. */
  function Multiplier(hash: Hash, group: Group): nat
    requires Usable(group)
  {
    var n, g := ToBytes(group.modulus), ToBytes(group.generator);
    var lead := if |g| < |n| then Zeros(|n| - |g|) else [];
    FromBytes(hash(n + (lead + g)))
  }

  /** x: the salted hash of the derived password. */
  function PasswordExponent(hash: Hash, salt: seq<Byte>, derived: seq<Byte>): nat {
    FromBytes(hash(salt + hash([0x3a] + derived)))
  }

  /** u: hash of both public values. */
  function Scrambler(hash: Hash, clientA: nat, serverB: nat): nat {
    FromBytes(hash(PadNumber(clientA) + PadNumber(serverB)))
  }

  /** Client and server derive the same numbers. */
  lemma SameParameters(hash: Hash, group: Group, clientA: nat, serverB: nat, salt: seq<Byte>, derived: seq<Byte>)
    requires Usable(group)
    ensures Multiplier(hash, group) == SrpServer.Multiplier(hash, group)
    ensures Scrambler(hash, clientA, serverB) == SrpServer.Scrambler(hash, clientA, serverB)
    ensures PasswordExponent(hash, salt, derived) == SrpServer.PasswordExponent(hash, salt, derived)
  {
    hide Multiplier, SrpServer.Multiplier, FromBytes, ToBytes, Padded, SrpServer.Wide;
    SameMultiplier(hash, group);
    SrpServer.PadIsWide(clientA);
    SrpServer.PadIsWide(serverB);
  }

  lemma SameMultiplier(hash: Hash, group: Group)
    requires Usable(group)
    ensures Multiplier(hash, group) == SrpServer.Multiplier(hash, group)
  {
    hide FromBytes, ToBytes, Padded, SrpServer.Wide;
    var n, g := ToBytes(group.modulus), ToBytes(group.generator);
    SrpServer.PadIsWide(group.modulus);
    SrpServer.WideIs(group.generator, |n|);
    assert (if |g| < |n| then Zeros(|n| - |g|) else []) == Zeros(SrpServer.Lead(group.generator, |n|));
  }

  /** The client's key is the one of any server that sent this value. */
  lemma KeyAgrees(hash: Hash, group: Group, salt: seq<Byte>, derived: seq<Byte>, a: nat, serverB: nat, b: nat)
    requires Usable(group) && serverB == SrpServer.PublicValue(hash, group, salt, derived, b)
    ensures var clientA := ClientPublic(group, a);
            var secret := ClientSecret(group, Multiplier(hash, group), PasswordExponent(hash, salt, derived), a, serverB,
                                       Scrambler(hash, clientA, serverB));
            hash(PadNumber(secret)) == SrpServer.SessionKey(hash, SrpServer.Secret(hash, group, salt, derived, clientA, serverB, b))
  {
    hide SrpServer.Wide, FromBytes, Padded, ToBytes, Pow, SrpServer.Multiplier, SrpServer.Scrambler, Multiplier, Scrambler,
      PasswordExponent, SrpServer.PasswordExponent;
    var clientA := ClientPublic(group, a);
    SameParameters(hash, group, clientA, serverB, salt, derived);
    var k, x, u := Multiplier(hash, group), PasswordExponent(hash, salt, derived), Scrambler(hash, clientA, serverB);
    SecretsAgree(group, k, x, a, b, u);
    SrpServer.PadIsWide(ClientSecret(group, k, x, a, serverB, u));
  }

  datatype ChallengeError = InvalidServerB | InvalidScrambler

  class Client {
    const hash: Hash
    const group: Group
    const a: nat
    const A: nat
    const k: nat
    var M1: seq<Byte>
    var M2: seq<Byte>

    ghost predicate Valid() {
      && Usable(group) && Hash32(hash)
      && A == ClientPublic(group, a) && k == Multiplier(hash, group)
    }

    constructor (hash: Hash, group: Group, secret: seq<Byte>)
      requires Usable(group) && Hash32(hash)
      ensures Valid() && this.hash == hash && this.group == group && a == FromBytes(secret)
      ensures A == Pow(group.generator, a) % group.modulus && k == SrpServer.Multiplier(hash, group)
      ensures M1 == [] && M2 == []
    {
      SameParameters(hash, group, 0, 0, [], []);
      this.hash, this.group := hash, group;
      a := FromBytes(secret);
      A := ClientPublic(group, FromBytes(secret));
      k := Multiplier(hash, group);
      M1, M2 := [], [];
    }

    /** Refuses a server value outside (0, N) and a zero scrambler. For a server
        that knows the verifier, whatever its secret b, the proofs are the ones
        that server computes with its own multiplier, scrambler and exponent. */
    method ProcessChallenge(user: seq<Byte>, derived: seq<Byte>, salt: seq<Byte>, serverB: seq<Byte>)
      returns (error: Option<ChallengeError>)
      requires Valid()
      modifies this
      ensures Valid()
      ensures var B := FromBytes(serverB);
              error == if B == 0 || B >= group.modulus then Some(InvalidServerB)
                       else if SrpServer.Scrambler(hash, A, B) == 0 then Some(InvalidScrambler)
                       else None
      ensures error.Some? ==> M1 == old(M1) && M2 == old(M2)
      ensures error.None? ==>
        var B := FromBytes(serverB);
        forall b: nat :: B == SrpServer.PublicValue(hash, group, salt, derived, b) ==>
          var key := SrpServer.SessionKey(hash, SrpServer.Secret(hash, group, salt, derived, A, B, b));
          && M1 == SrpServer.Proof(hash, group, user, salt, A, B, key)
          && M2 == SrpServer.Answer(hash, A, M1, key)
    {
      hide SrpServer.Wide, FromBytes, Padded, ToBytes, Pow, XorAll, SrpServer.Multiplier, SrpServer.Scrambler, Multiplier, Scrambler,
        PasswordExponent, SrpServer.PasswordExponent;
      SameParameters(hash, group, A, FromBytes(serverB), salt, derived);
      var B := FromBytes(serverB);
      if B == 0 || B >= group.modulus {
        return Some(InvalidServerB);
      }
      var x := PasswordExponent(hash, salt, derived);
      var u := Scrambler(hash, A, B);
      if u == 0 {
        return Some(InvalidScrambler);
      }
      var shared := Pad(ClientSecret(group, k, x, a, B, u));
      var key := hash(shared);
      var aBytes := Pad(A);
      var bBytes := Pad(B);
      var m1 := ComputeM1(user, salt, aBytes, bBytes, key);
      M1 := m1;
      M2 := hash(aBytes + m1 + key);
      error := None;
      SrpServer.PadIsWide(A);
      forall b: nat | B == SrpServer.PublicValue(hash, group, salt, derived, b)
        ensures key == SrpServer.SessionKey(hash, SrpServer.Secret(hash, group, salt, derived, A, B, b))
      {
        KeyAgrees(hash, group, salt, derived, a, B, b);
      }
    }

    /** M1 with the exclusive or filled in byte by byte. */
    method ComputeM1(user: seq<Byte>, salt: seq<Byte>, aBytes: seq<Byte>, bBytes: seq<Byte>, key: seq<Byte>)
      returns (m1: seq<Byte>)
      requires Valid() && aBytes == PadNumber(A)
      ensures forall B: nat :: bBytes == PadNumber(B) ==> m1 == SrpServer.Proof(hash, group, user, salt, A, B, key)
    {
      hide FromBytes, Padded, ToBytes, Pow, XorBytes, XorAll, Multiplier, SrpServer.Proof, SrpServer.Wide;
      var paddedG := Pad(group.generator);
      var hg, hn := hash(paddedG), hash(ToBytes(group.modulus));
      assert |hg| == 32 && |hn| == 32;
      var xor := ExclusiveOr(hg, hn);
      m1 := hash(xor + hash(user) + salt + aBytes + bBytes + key);
      forall B: nat | bBytes == PadNumber(B)
        ensures m1 == SrpServer.Proof(hash, group, user, salt, A, B, key)
      {
        ServersProof(hash, group, user, salt, A, B, key);
      }
    }
  }

  method ExclusiveOr(hg: seq<Byte>, hn: seq<Byte>) returns (result: seq<Byte>)
    requires |hg| == |hn|
    ensures result == XorAll(hn, hg)
  {
    hide XorBytes, XorAll;
    var xor := new Byte[|hg|](_ => 0);
    for index := 0 to |hg|
      invariant xor[..index] == XorAll(hn, hg)[..index]
    {
      XorAt(hn, hg, index);
      xor[index] := XorBytes(hg[index], hn[index]);
    }
    assert xor[..] == XorAll(hn, hg);
    result := xor[..];
  }

  lemma XorAt(a: seq<Byte>, b: seq<Byte>, i: nat)
    requires i < |a| == |b|
    ensures XorAll(a, b)[i] == XorBytes(b[i], a[i])
    ensures XorAll(a, b)[..i + 1] == XorAll(a, b)[..i] + [XorBytes(b[i], a[i])]
  {
    XorCommutes(a[i], b[i]);
  }

  /** What the server expects, in the client's forms of the numbers. */
  lemma ServersProof(hash: Hash, group: Group, user: seq<Byte>, salt: seq<Byte>, clientA: nat, serverB: nat, key: seq<Byte>)
    requires Usable(group) && Hash32(hash)
    ensures SrpServer.Proof(hash, group, user, salt, clientA, serverB, key)
            == hash(XorAll(hash(ToBytes(group.modulus)), hash(PadNumber(group.generator)))
                    + hash(user) + salt + PadNumber(clientA) + PadNumber(serverB) + key)
  {
    hide FromBytes, Padded, ToBytes, XorAll, SrpServer.Wide;
    SrpServer.PadIsWide(group.generator);
    SrpServer.PadIsWide(group.modulus);
    SrpServer.PadIsWide(clientA);
    SrpServer.PadIsWide(serverB);
  }
}
