/** Non-negative integers as byte strings, the highest byte first, and the
    fixed-width form PAD of section 2.1 of RFC 5054. */
module BigEndian {
  import opened BitStrings

  type Byte = b: int | 0 <= b < 256

  function FromBytes(data: seq<Byte>): nat {
    if data == [] then 0 else FromBytes(data[..|data| - 1]) * 256 + data[|data| - 1]
  }

  /** The shortest form: no leading zero byte, nothing at all for zero. */
  function ToBytes(n: nat): (data: seq<Byte>)
    ensures FromBytes(data) == n
  {
    if n == 0 then [] else ToBytes(n / 256) + [n % 256]
  }

  function Pow256(k: nat): (p: nat)
    ensures p > 0
  {
    if k == 0 then 1 else 256 * Pow256(k - 1)
  }

  lemma {:induction false} ToBytesLength(n: nat, k: nat)
    requires n < Pow256(k)
    ensures |ToBytes(n)| <= k
  {
    if n > 0 {
      ToBytesLength(n / 256, k - 1);
    }
  }

  function Zeros(k: nat): (data: seq<Byte>)
    ensures |data| == k
  {
    seq(k, _ => 0)
  }

  const PAD_WIDTH: nat := 256

  /** PAD: zero bytes in front up to the fixed width. */
  function Padded(data: seq<Byte>): (padded: seq<Byte>)
    ensures |padded| == if |data| >= PAD_WIDTH then |data| else PAD_WIDTH
  {
    if |data| >= PAD_WIDTH then data else Zeros(PAD_WIDTH - |data|) + data
  }

  lemma {:induction false} LeadingZeros(k: nat, data: seq<Byte>)
    ensures FromBytes(Zeros(k) + data) == FromBytes(data)
  {
    if data != [] {
      var n := |data| - 1;
      LeadingZeros(k, data[..n]);
      assert (Zeros(k) + data)[..k + n] == Zeros(k) + data[..n];
    } else if k > 0 {
      LeadingZeros(k - 1, []);
      assert (Zeros(k) + data)[..k - 1] == Zeros(k - 1) + [];
    }
  }

  /** The padded form decodes to the number it came from, and every number
      below 256^256 gets exactly the fixed width. */
  lemma PadDecodes(n: nat)
    ensures FromBytes(Padded(ToBytes(n))) == n
    ensures n < Pow256(PAD_WIDTH) ==> |Padded(ToBytes(n))| == PAD_WIDTH
  {
    var data := ToBytes(n);
    if |data| < PAD_WIDTH {
      LeadingZeros(PAD_WIDTH - |data|, data);
    }
    if n < Pow256(PAD_WIDTH) {
      ToBytesLength(n, PAD_WIDTH);
    }
  }

  /** Numbers of one width with the same padded form are the same. */
  lemma PadInjective(m: nat, n: nat)
    requires Padded(ToBytes(m)) == Padded(ToBytes(n))
    ensures m == n
  {
    PadDecodes(m);
    PadDecodes(n);
  }

  /** Copies the data to the end of a fresh buffer of zero bytes. */
  method Pad(value: nat) returns (result: seq<Byte>)
    ensures result == Padded(ToBytes(value))
  {
    var data := ToBytes(value);
    if |data| >= PAD_WIDTH {
      return data;
    }
    var buffer := new Byte[PAD_WIDTH](_ => 0);
    var offset := PAD_WIDTH - |data|;
    for i := 0 to |data|
      invariant buffer[..offset] == Zeros(offset)
      invariant buffer[offset..offset + i] == data[..i]
    {
      buffer[offset + i] := data[i];
      assert data[..i + 1] == data[..i] + [data[i]];
      assert buffer[offset..offset + i + 1] == buffer[offset..offset + i] + [data[i]];
    }
    assert data[..|data|] == data;
    result := buffer[..];
    SplitAt(result, offset);
    assert result[..offset] == buffer[..offset] && result[offset..] == buffer[offset..offset + |data|];
  }

  lemma SplitAt(s: seq<Byte>, i: nat)
    requires i <= |s|
    ensures s == s[..i] + s[i..]
  {
  }

  function XorBytes(a: Byte, b: Byte): Byte {
    XorFits(a, b, 8);
    Xor(a, b)
  }

  lemma {:induction false} XorFits(a: nat, b: nat, n: nat)
    requires a < Pow2(n) && b < Pow2(n)
    ensures Xor(a, b) < Pow2(n)
  {
    if n > 0 {
      XorFits(a / 2, b / 2, n - 1);
    }
  }

  lemma {:induction false} XorCommutes(a: nat, b: nat)
    ensures Xor(a, b) == Xor(b, a)
    decreases a + b
  {
    if a != 0 || b != 0 {
      XorCommutes(a / 2, b / 2);
    }
  }

  function XorAll(a: seq<Byte>, b: seq<Byte>): (x: seq<Byte>)
    requires |a| <= |b|
    ensures |x| == |a|
  {
    seq(|a|, i requires 0 <= i < |a| => XorBytes(a[i], b[i]))
  }
}
