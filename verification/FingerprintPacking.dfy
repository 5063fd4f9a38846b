/** Bits packed six at a time into printable characters, and the bit buffer
    that does the packing while code words of any width are pushed. */
module FingerprintPacking {
  import opened Wrappers
  import opened BitStrings

  const DIGITS := ".0123456789"
  const UPPER := "ABCDEFGHIJKLMNOPQRSTUVWXYZ"
  const LOWER := "_abcdefghijklmnopqrstuvwxyz"
  const ALPHABET := DIGITS + UPPER + LOWER

  /** The six-bit value of an alphabet character. */
  function SixBitValue(c: char): (value: Option<nat>)
    ensures value.Some? ==> value.value < 64
  {
    if c == '.' then Some(0)
    else if '0' <= c <= '9' then Some(c as nat - '0' as nat + 1)
    else if 'A' <= c <= 'Z' then Some(c as nat - 'A' as nat + 11)
    else if c == '_' then Some(37)
    else if 'a' <= c <= 'z' then Some(c as nat - 'a' as nat + 38)
    else None
  }

  lemma AlphabetValue(index: nat)
    requires index < 64
    ensures |ALPHABET| == 64
    ensures SixBitValue(ALPHABET[index]) == Some(index)
  {
    assert |DIGITS| == 11 && |UPPER| == 26 && |LOWER| == 27;
    if index < 11 {
      assert ALPHABET[index] == DIGITS[index];
      DigitValue(index);
    } else if index < 37 {
      assert ALPHABET[index] == UPPER[index - 11];
      UpperValue(index - 11);
    } else {
      assert ALPHABET[index] == LOWER[index - 37];
      LowerValue(index - 37);
    }
  }

  lemma DigitValue(i: nat)
    requires i < |DIGITS|
    ensures SixBitValue(DIGITS[i]) == Some(i)
  {
    assert i > 0 ==> DIGITS[i] as nat == i - 1 + '0' as nat;
  }

  lemma UpperValue(i: nat)
    requires i < |UPPER|
    ensures SixBitValue(UPPER[i]) == Some(i + 11)
  {
    assert UPPER[i] as nat == i + 'A' as nat;
  }

  lemma LowerValue(i: nat)
    requires i < |LOWER|
    ensures SixBitValue(LOWER[i]) == Some(i + 37)
  {
    assert i > 0 ==> LOWER[i] as nat == i - 1 + 'a' as nat;
  }

  /** Unpacks a text to its bits. None when a character is not in the alphabet. */
  function Unpack(text: string): (bits: Option<seq<bool>>)
    ensures bits.Some? ==> |bits.value| == 6 * |text|
  {
    if text == [] then Some([])
    else
      var last := SixBitValue(text[|text| - 1]);
      var front := Unpack(text[..|text| - 1]);
      if front.Some? && last.Some? then Some(front.value + ToBits(last.value, 6)) else None
  }

  /** Unpacking loses nothing: two texts with the same bits are the same. */
  lemma {:induction false} UnpackInjective(a: string, b: string)
    requires Unpack(a).Some? && Unpack(a) == Unpack(b)
    ensures a == b
  {
    hide ToBits, SixBitValue;
    assert |a| == |b|;
    if a != [] {
      var n := |a| - 1;
      var va, vb := SixBitValue(a[n]).value, SixBitValue(b[n]).value;
      SplitEqual(Unpack(a[..n]).value, ToBits(va, 6), Unpack(b[..n]).value, ToBits(vb, 6));
      SameSix(va, vb);
      SameCharacter(a[n], b[n]);
      UnpackInjective(a[..n], b[..n]);
      assert a == a[..n] + [a[n]] && b == b[..n] + [b[n]];
    }
  }

  lemma SameSix(a: nat, b: nat)
    requires a < 64 && b < 64 && ToBits(a, 6) == ToBits(b, 6)
    ensures a == b
  {
    hide ToBits;
    assert Pow2(6) == 64;
    FromToBits(a, 6);
    FromToBits(b, 6);
  }

  lemma SameCharacter(a: char, b: char)
    requires SixBitValue(a).Some? && SixBitValue(a) == SixBitValue(b)
    ensures a == b
  {
  }

  lemma SplitEqual<T>(a: seq<T>, b: seq<T>, c: seq<T>, d: seq<T>)
    requires a + b == c + d && |a| == |c|
    ensures a == c && b == d
  {
    assert a == (a + b)[..|a|] && b == (a + b)[|a|..];
    assert c == (c + d)[..|c|] && d == (c + d)[|c|..];
  }

  lemma UnpackSnoc(text: string, index: nat)
    requires index < 64 && Unpack(text).Some?
    ensures Unpack(text + [ALPHABET[index]]) == Some(Unpack(text).value + ToBits(index, 6))
  {
    AlphabetValue(index);
    var longer := text + [ALPHABET[index]];
    assert longer[..|longer| - 1] == text;
  }

  /** The bit buffer of the encoder: a text of whole characters and fewer than
      six pending bits. */
  class BitPacker {
    var text: string
    var bitBuffer: nat
    var bitCount: nat

    /** What holds between two pushes; inside a push more bits may be pending. */
    ghost predicate Valid()
      reads this
    {
      bitCount < 6 && Consistent()
    }

    ghost predicate Consistent()
      reads this
    {
      bitBuffer < Pow2(bitCount) && Unpack(text).Some?
    }

    /** All bits pushed so far. */
    ghost function Bits(): seq<bool>
      requires Consistent()
      reads this
    {
      Unpack(text).value + ToBits(bitBuffer, bitCount)
    }

    constructor ()
      ensures Valid() && Bits() == [] && text == []
    {
      text, bitBuffer, bitCount := [], 0, 0;
    }

    /** Appends a code word. No bit is lost and fewer than six stay pending. */
    method Push(width: nat, code: nat)
      requires Valid() && code < Pow2(width)
      modifies this
      ensures Valid() && Bits() == old(Bits()) + ToBits(code, width)
    {
      hide Pow2, Unpack, ToBits, Or, Shl;
      OrShifted(bitBuffer, width, code);
      ToBitsAppend(bitBuffer, bitCount, code, width);
      BufferFits(bitBuffer, bitCount, code, width);
      bitBuffer := Or(Shl(bitBuffer, width), code);
      bitCount := bitCount + width;
      while bitCount >= 6
        invariant Consistent()
        invariant Bits() == old(Bits()) + ToBits(code, width)
      {
        EmitSix();
      }
    }

    /** Completes the last character with zero bits. */
    method Flush()
      requires Valid()
      modifies this
      ensures Unpack(text) == Some(Padded(old(Bits())))
      ensures var bits := Unpack(text).value;
              && old(Bits()) <= bits && |bits| - |old(Bits())| < 6
              && forall i :: |old(Bits())| <= i < |bits| ==> !bits[i]
    {
      hide Pow2, Unpack, ToBits;
      ghost var bits := Bits();
      assert |bits| == 6 * |text| + bitCount;
      if bitCount > 0 {
        ghost var zeros := 6 - bitCount;
        ZeroBits(zeros);
        Push(6 - bitCount, 0);
        assert |Bits()| == 6 * |text| + bitCount && |Bits()| == |bits| + zeros;
      }
      assert bitCount == 0 && Bits() == Unpack(text).value;
    }

    /** Moves the six oldest pending bits into the text. */
    method EmitSix()
      requires Consistent() && bitCount >= 6
      modifies this
      ensures Consistent() && Bits() == old(Bits()) && bitCount == old(bitCount) - 6
    {
      hide Pow2, ToBits, Unpack, And, Xor, Shl, Shr;
      var rest := bitCount - 6;
      var index := And(Shr(bitBuffer, rest), 63);
      TopSixBits(bitBuffer, rest);
      UnpackSnoc(text, index);
      text := text + [ALPHABET[index]];
      bitCount := rest;
      bitBuffer := Xor(bitBuffer, Shl(index, rest));
      assert Unpack(text).value == Unpack(old(text)).value + ToBits(index, 6);
    }
  }

  /** Zero bits up to a whole character. */
  function Zeros(n: nat): (bits: seq<bool>)
    ensures |bits| == n
  {
    seq(n, _ => false)
  }

  function Padded(bits: seq<bool>): seq<bool> {
    bits + Zeros((6 - |bits| % 6) % 6)
  }

  lemma {:induction false} ZeroBits(n: nat)
    ensures ToBits(0, n) == Zeros(n)
  {
    if n > 0 {
      ZeroBits(n - 1);
    }
  }

  lemma BufferFits(buffer: nat, count: nat, code: nat, width: nat)
    requires buffer < Pow2(count) && code < Pow2(width)
    ensures buffer * Pow2(width) + code < Pow2(count + width)
  {
    Pow2Add(count, width);
    MulMono(buffer + 1, Pow2(count), Pow2(width));
  }

  lemma {:induction false} Pow2Add(m: nat, n: nat)
    ensures Pow2(m + n) == Pow2(m) * Pow2(n)
  {
    if m > 0 {
      Pow2Add(m - 1, n);
      assert Pow2(m) * Pow2(n) == 2 * (Pow2(m - 1) * Pow2(n));
    }
  }

  lemma MulMono(a: nat, b: nat, k: nat)
    requires a <= b
    ensures a * k <= b * k && (a * k == 0 || a > 0)
  {
  }

  /** The six top bits of a buffer, and what remains when they are removed. */
  lemma TopSixBits(buffer: nat, rest: nat)
    requires buffer < Pow2(rest + 6)
    ensures var index := And(Shr(buffer, rest), 63);
            && index < 64 && index == Shr(buffer, rest)
            && Xor(buffer, Shl(index, rest)) == Low(buffer, rest)
            && ToBits(buffer, rest + 6) == ToBits(index, 6) + ToBits(Low(buffer, rest), rest)
  {
    assert Pow2(6) == 64;
    Pow2Add(6, rest);
    var high := Shr(buffer, rest);
    QuotientLow(buffer, rest);
    if high >= 64 {
      MulMono(64, high, Pow2(rest));
      assert false;
    }
    AndMask(high, 6);
    DivModUnique(high, 64, 0, high);
    XorHigh(buffer, rest);
    ToBitsSplit(buffer, 6, rest);
  }
}
