/** The server of the login, after RFC 5054, with this service's variant of the
    password hash and of the proofs of section 3 of RFC 2945. Nothing here is
    taken from the client. */
module SrpServer {
  import opened BigEndian
  import opened ModularPowers
  import opened SrpArithmetic

  type Hash = seq<Byte> -> seq<Byte>

  /** A number in at least so many bytes: with a width of zero the shortest form,
      otherwise PAD (section 2.1 of RFC 5054). */
  function Wide(n: nat, width: nat): (data: seq<Byte>)
    ensures FromBytes(data) == n && |data| >= width
    decreases n + width
  {
    if n == 0 && width == 0 then []
    else Wide(n / 256, if width == 0 then 0 else width - 1) + [n % 256]
  }

  /** k, with the generator at the length of the modulus (section 2.5.3). */
  function Multiplier(hash: Hash, group: Group): nat
    requires group.modulus >= 0 && group.generator >= 0
  {
    var n := Wide(group.modulus, 0);
    FromBytes(hash(n + Wide(group.generator, |n|)))
  }

  /** u (section 2.5.4). */
  function Scrambler(hash: Hash, clientA: nat, serverB: nat): nat {
    FromBytes(hash(Wide(clientA, 256) + Wide(serverB, 256)))
  }

  /** x: the hash of the salt and of the derived password behind an empty user name
      and a colon. */
  function PasswordExponent(hash: Hash, salt: seq<Byte>, derived: seq<Byte>): nat {
    FromBytes(hash(salt + hash([':' as int] + derived)))
  }

  function Verifier(hash: Hash, group: Group, salt: seq<Byte>, derived: seq<Byte>): int
    requires group.Valid()
  {
    Pow(group.generator, PasswordExponent(hash, salt, derived)) % group.modulus
  }

  /** B, for the secret b. */
  function PublicValue(hash: Hash, group: Group, salt: seq<Byte>, derived: seq<Byte>, b: nat): int
    requires group.Valid() && group.generator >= 0
  {
    (Multiplier(hash, group) * Verifier(hash, group, salt, derived) + Pow(group.generator, b) % group.modulus) % group.modulus
  }

  /** The secret of the server: the client's value and the verifier to the power of
      the scrambler, to the power of b (section 2.6). */
  function Secret(hash: Hash, group: Group, salt: seq<Byte>, derived: seq<Byte>, clientA: nat, serverB: nat, b: nat): int
    requires group.Valid()
  {
    Pow(clientA * Pow(Verifier(hash, group, salt, derived), Scrambler(hash, clientA, serverB)), b) % group.modulus
  }

  function SessionKey(hash: Hash, secret: nat): seq<Byte> {
    hash(Wide(secret, 256))
  }

  /** M1: (H(N) xor H(g)), H(user), salt, A, B, K. */
  function Proof(hash: Hash, group: Group, user: seq<Byte>, salt: seq<Byte>, clientA: nat, serverB: nat, key: seq<Byte>): seq<Byte>
    requires group.modulus >= 0 && group.generator >= 0
    requires |hash(Wide(group.modulus, 0))| == |hash(Wide(group.generator, 256))|
  {
    hash(XorAll(hash(Wide(group.modulus, 0)), hash(Wide(group.generator, 256)))
         + hash(user) + salt + Wide(clientA, 256) + Wide(serverB, 256) + key)
  }

  /** M2. */
  function Answer(hash: Hash, clientA: nat, proof: seq<Byte>, key: seq<Byte>): seq<Byte> {
    hash(Wide(clientA, 256) + proof + key)
  }

  // ---- The client's forms of numbers ----

  /** How many zero bytes stand in front. */
  function Lead(n: nat, width: nat): nat {
    var length := |ToBytes(n)|;
    if length < width then width - length else 0
  }

  lemma {:induction false} WideIs(n: nat, width: nat)
    ensures Wide(n, width) == Zeros(Lead(n, width)) + ToBytes(n)
    decreases n + width
  {
    hide FromBytes;
    if n == 0 {
      WideZero(width);
    } else {
      var rest := if width == 0 then 0 else width - 1;
      WideIs(n / 256, rest);
      assert ToBytes(n) == ToBytes(n / 256) + [n % 256] && Lead(n, width) == Lead(n / 256, rest);
      hide Wide, ToBytes;
      assert Zeros(Lead(n, width)) + (ToBytes(n / 256) + [n % 256]) == Zeros(Lead(n, width)) + ToBytes(n / 256) + [n % 256];
    }
  }

  lemma {:induction false} WideZero(width: nat)
    ensures Wide(0, width) == Zeros(width) + [] && ToBytes(0) == [] && Lead(0, width) == width
  {
    hide FromBytes;
    if width > 0 {
      WideZero(width - 1);
      assert Zeros(width - 1) + [0] == Zeros(width);
    }
  }

  /** The padded form of the client is PAD. */
  lemma PadIsWide(n: nat)
    ensures Padded(ToBytes(n)) == Wide(n, 256)
    ensures ToBytes(n) == Wide(n, 0)
  {
    WideIs(n, 256);
    WideIs(n, 0);
    assert Zeros(0) + ToBytes(n) == ToBytes(n);
  }
}
