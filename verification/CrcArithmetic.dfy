/** Arithmetic of the fingerprint's sixteen-bit checksum register: the update
    by swaps, shifts and xors that takes a whole byte, and long division by
    x^16 + x^12 + x^5 + 1, the generator of section 2 of ITU-T V.41, that takes
    it bit by bit. */
module CrcArithmetic {
  import opened BitStrings
  import opened BitsAt

  // ---- Long division ----

  /** One bit: a message bit meets the bit that falls out at the top, and the
      generator is subtracted when they differ. */
  function BitStep(register: nat, bit: bool): nat {
    var shifted := And(Shl(register, 1), 0xffff);
    if BitAt(register, 15) != bit then Xor(shifted, 0x1021) else shifted
  }

  /** The eight bits of a byte, the highest first. */
  function DivideByte(register: nat, value: nat): nat {
    FourBits(FourBits(register, value, 4), value, 0)
  }

  function FourBits(register: nat, value: nat, low: nat): nat {
    var r3 := BitStep(register, BitAt(value, low + 3));
    var r2 := BitStep(r3, BitAt(value, low + 2));
    var r1 := BitStep(r2, BitAt(value, low + 1));
    BitStep(r1, BitAt(value, low))
  }

  /** Bit j of what falls out during four steps. */
  predicate Falls(register: nat, value: nat, low: nat, j: int)
    requires low <= 4
  {
    0 <= j < 4 && BitAt(register, 12 + j) != BitAt(value, low + j)
  }

  lemma BitStepAt(register: nat, bit: bool, i: nat)
    requires i < 16
    ensures var falls := BitAt(register, 15) != bit;
            BitAt(BitStep(register, bit), i) ==
            ((i > 0 && BitAt(register, i - 1)) != (falls && (i == 0 || i == 5 || i == 12)))
  {
    var shifted := And(Shl(register, 1), 0xffff);
    XorAt(shifted, 0x1021, i);
    AndAt(Shl(register, 1), 0xffff, i);
    ShlAt(register, 1, i);
    SixteenOnes(i);
    GeneratorAt(i);
  }

  lemma SixteenOnes(i: nat)
    ensures BitAt(0xffff, i) == (i < 16)
  {
    assert Pow2(8) == 256 && Pow2(16) == 65536;
    MaskAt(16, i);
  }

  lemma EightOnes(i: nat)
    ensures BitAt(0xff, i) == (i < 8)
  {
    assert Pow2(8) == 256;
    MaskAt(8, i);
  }

  lemma GeneratorAt(i: nat)
    requires i < 16
    ensures BitAt(0x1021, i) == (i == 0 || i == 5 || i == 12)
  {
    assert 0x1021 / 2 == 2064 && 2064 / 2 == 1032 && 1032 / 2 == 516 && 516 / 2 == 258;
    assert 258 / 2 == 129 && 129 / 2 == 64 && 64 / 2 == 32 && 32 / 2 == 16;
    if i > 0 { assert BitAt(0x1021, i) == BitAt(2064, i - 1); }
    if i > 4 { assert BitAt(2064, i - 1) == BitAt(1032, i - 2) == BitAt(516, i - 3) == BitAt(258, i - 4) == BitAt(129, i - 5); }
    if i > 8 { assert BitAt(129, i - 5) == BitAt(64, i - 6) == BitAt(32, i - 7) == BitAt(16, i - 8); }
    if i > 12 {
      assert BitAt(16, i - 8) == BitAt(8, i - 9) == BitAt(4, i - 10);
      assert BitAt(4, i - 10) == BitAt(2, i - 11) == BitAt(1, i - 12) == BitAt(0, i - 13);
      ZeroAt(i - 13);
    }
  }

  /** Four steps at once: the register moves up by four and every bit that
      falls out comes back at its own place, five and twelve places up. */
  lemma FourBitsAt(register: nat, value: nat, low: nat, i: nat)
    requires i < 16 && low <= 4
    ensures BitAt(FourBits(register, value, low), i) ==
            ((i >= 4 && BitAt(register, i - 4)) !=
             (Falls(register, value, low, i) !=
              (Falls(register, value, low, i - 5) != Falls(register, value, low, i - 12))))
  {
    hide BitAt, BitStep;
    var r3 := BitStep(register, BitAt(value, low + 3));
    var r2 := BitStep(r3, BitAt(value, low + 2));
    var r1 := BitStep(r2, BitAt(value, low + 1));
    BitStepAt(r1, BitAt(value, low), i);
    StepUp(register, BitAt(value, low + 3));
    StepUp(r3, BitAt(value, low + 2));
    StepUp(r2, BitAt(value, low + 1));
  }

  lemma StepUp(register: nat, bit: bool)
    ensures forall i: nat :: i < 16 ==>
      BitAt(BitStep(register, bit), i) ==
      ((i > 0 && BitAt(register, i - 1)) != ((BitAt(register, 15) != bit) && (i == 0 || i == 5 || i == 12)))
  {
    forall i: nat | i < 16 {
      BitStepAt(register, bit, i);
    }
  }

  // ---- The encoder's update of its register, a whole byte at once ----

  function SwapHalves(c: nat): nat { And(Or(Shr(c, 8), Shl(c, 8)), 0xffff) }
  function XorByte(c: nat, value: nat): nat { Xor(c, And(value, 0xff)) }
  function XorHighNibble(c: nat): nat { Xor(c, Shr(And(c, 0xff), 4)) }
  function XorTop(c: nat): nat { Xor(c, And(Shl(c, 12), 0xffff)) }
  function XorMiddle(c: nat): nat { Xor(c, And(Shl(And(c, 0xff), 5), 0xffff)) }

  function ByteStep(register: nat, value: nat): nat {
    XorMiddle(XorTop(XorHighNibble(XorByte(SwapHalves(register), value))))
  }

  lemma SwapAt(c: nat, i: nat)
    requires c < 0x10000
    ensures BitAt(SwapHalves(c), i) == (i < 16 && BitAt(c, if i < 8 then i + 8 else i - 8))
  {
    AndAt(Or(Shr(c, 8), Shl(c, 8)), 0xffff, i);
    OrAt(Shr(c, 8), Shl(c, 8), i);
    ShrAt(c, 8, i);
    ShlAt(c, 8, i);
    SixteenOnes(i);
    if i >= 8 {
      assert Pow2(8) == 256 && Pow2(16) == 65536;
      HighBitsZero(c, 16, i + 8);
    }
  }

  lemma XorByteAt(c: nat, value: nat, i: nat)
    ensures BitAt(XorByte(c, value), i) == (BitAt(c, i) != (i < 8 && BitAt(value, i)))
  {
    XorAt(c, And(value, 0xff), i);
    AndAt(value, 0xff, i);
    EightOnes(i);
  }

  lemma XorHighNibbleAt(c: nat, i: nat)
    ensures BitAt(XorHighNibble(c), i) == (BitAt(c, i) != (i < 4 && BitAt(c, i + 4)))
  {
    XorAt(c, Shr(And(c, 0xff), 4), i);
    ShrAt(And(c, 0xff), 4, i);
    AndAt(c, 0xff, i + 4);
    EightOnes(i + 4);
  }

  lemma XorTopAt(c: nat, i: nat)
    ensures BitAt(XorTop(c), i) == (BitAt(c, i) != (12 <= i < 16 && BitAt(c, i - 12)))
  {
    XorAt(c, And(Shl(c, 12), 0xffff), i);
    AndAt(Shl(c, 12), 0xffff, i);
    ShlAt(c, 12, i);
    SixteenOnes(i);
  }

  lemma XorMiddleAt(c: nat, i: nat)
    ensures BitAt(XorMiddle(c), i) == (BitAt(c, i) != (5 <= i < 13 && BitAt(c, i - 5)))
  {
    XorAt(c, And(Shl(And(c, 0xff), 5), 0xffff), i);
    AndAt(Shl(And(c, 0xff), 5), 0xffff, i);
    ShlAt(And(c, 0xff), 5, i);
    SixteenOnes(i);
    if i >= 5 {
      AndAt(c, 0xff, i - 5);
      EightOnes(i - 5);
    }
  }

  /** Bit j of the low half after the byte and its own high nibble are in. */
  predicate Mixed(register: nat, value: nat, j: int) {
    0 <= j < 8
    && (BitAt(register, 8 + j) != BitAt(value, j)) != (j < 4 && BitAt(register, 12 + j) != BitAt(value, 4 + j))
  }

  lemma ByteStepAt(register: nat, value: nat, i: nat)
    requires register < 0x10000
    ensures BitAt(ByteStep(register, value), i) ==
            (i < 16 && ((i >= 8 && BitAt(register, i - 8)) !=
             (Mixed(register, value, i) != (Mixed(register, value, i - 5) != Mixed(register, value, i - 12)))))
  {
    hide BitAt, SwapHalves, XorByte, XorHighNibble, XorTop, XorMiddle;
    forall k: nat {
      LowHalfAt(register, value, k);
    }
    var c3 := XorHighNibble(XorByte(SwapHalves(register), value));
    XorMiddleAt(XorTop(c3), i);
    XorTopAt(c3, i);
    if i >= 5 {
      XorTopAt(c3, i - 5);
    }
  }

  lemma LowHalfAt(register: nat, value: nat, k: nat)
    requires register < 0x10000
    ensures BitAt(XorHighNibble(XorByte(SwapHalves(register), value)), k) ==
            if k < 8 then Mixed(register, value, k) else k < 16 && BitAt(register, k - 8)
  {
    hide BitAt, SwapHalves, XorByte, XorHighNibble;
    var c2 := XorByte(SwapHalves(register), value);
    XorHighNibbleAt(c2, k);
    XorByteAt(SwapHalves(register), value, k);
    XorByteAt(SwapHalves(register), value, k + 4);
    SwapAt(register, k);
    SwapAt(register, k + 4);
  }

  /** What falls out during the last four steps of a byte. */
  lemma FallsLow(register: nat, value: nat, j: int)
    ensures Falls(FourBits(register, value, 4), value, 0, j) == (j < 4 && Mixed(register, value, j))
  {
    hide BitAt, FourBits;
    if 0 <= j < 4 {
      FourBitsAt(register, value, 4, 12 + j);
    }
  }

  lemma DivideByteAt(register: nat, value: nat, i: nat)
    requires i < 16
    ensures BitAt(DivideByte(register, value), i) ==
            ((i >= 8 && BitAt(register, i - 8)) !=
             (Mixed(register, value, i) != (Mixed(register, value, i - 5) != Mixed(register, value, i - 12))))
  {
    hide BitAt, FourBits;
    var half := FourBits(register, value, 4);
    FourBitsAt(half, value, 0, i);
    FallsLow(register, value, i);
    FallsLow(register, value, i - 5);
    FallsLow(register, value, i - 12);
    if i >= 4 {
      FourBitsAt(register, value, 4, i - 4);
    }
  }

  lemma DivideByteBound(register: nat, value: nat)
    ensures DivideByte(register, value) < 0x10000
  {
    var r := FourBits(register, value, 4);
    var r1 := BitStep(BitStep(BitStep(r, BitAt(value, 3)), BitAt(value, 2)), BitAt(value, 1));
    forall i: nat | i >= 16
      ensures !BitAt(BitStep(r1, BitAt(value, 0)), i)
    {
      var shifted := And(Shl(r1, 1), 0xffff);
      XorAt(shifted, 0x1021, i);
      AndAt(Shl(r1, 1), 0xffff, i);
      SixteenOnes(i);
      assert Pow2(8) == 256 && Pow2(16) == 65536;
      HighBitsZero(0x1021, 16, i);
    }
    assert Pow2(8) == 256 && Pow2(16) == 65536;
    BitsBound(DivideByte(register, value), 16);
  }

  /** The shifts and xors carry out the eight division steps of the byte, for
      every register and every byte, and the register stays in sixteen bits. */
  lemma ByteStepDivides(register: nat, value: nat)
    requires register < 0x10000
    ensures ByteStep(register, value) == DivideByte(register, value) < 0x10000
  {
    var stepped, divided := ByteStep(register, value), DivideByte(register, value);
    DivideByteBound(register, value);
    forall i: nat
      ensures i < 16 ==> BitAt(stepped, i) == BitAt(divided, i)
      ensures i >= 16 ==> !BitAt(stepped, i)
    {
      ByteStepAt(register, value, i);
      if i < 16 {
        DivideByteAt(register, value, i);
      }
    }
    SameSixteen(stepped, divided);
  }

  lemma SameSixteen(x: nat, y: nat)
    requires y < 0x10000
    requires forall i: nat :: i < 16 ==> BitAt(x, i) == BitAt(y, i)
    requires forall i: nat :: i >= 16 ==> !BitAt(x, i)
    ensures x == y
  {
    assert Pow2(8) == 256 && Pow2(16) == 65536;
    BitsBound(x, 16);
    SameBits(x, y, 16);
  }

  // ---- What the register means: the remainder of the message ----

  /** The register after a string of message bits. */
  function Remainder(register: nat, bits: seq<bool>): nat {
    if bits == [] then register
    else BitStep(Remainder(register, bits[..|bits| - 1]), bits[|bits| - 1])
  }

  lemma RemainderSnoc(register: nat, bits: seq<bool>, bit: bool)
    ensures Remainder(register, bits + [bit]) == BitStep(Remainder(register, bits), bit)
  {
    assert (bits + [bit])[..|bits|] == bits;
  }

  lemma {:induction false} RemainderConcat(register: nat, a: seq<bool>, b: seq<bool>)
    ensures Remainder(register, a + b) == Remainder(Remainder(register, a), b)
  {
    hide BitStep;
    if b == [] {
      assert a + b == a;
    } else {
      var n := |b| - 1;
      RemainderConcat(register, a, b[..n]);
      RemainderSnoc(register, a + b[..n], b[n]);
      assert a + b == a + b[..n] + [b[n]];
    }
  }

  lemma {:induction false} ToBitsAt(v: nat, n: nat, i: nat)
    requires i < n
    ensures ToBits(v, n)[n - 1 - i] == BitAt(v, i)
  {
    if i > 0 {
      ToBitsAt(v / 2, n - 1, i - 1);
    }
  }

  function Four(value: nat, low: nat): (bits: seq<bool>)
    ensures |bits| == 4
  {
    [BitAt(value, low + 3), BitAt(value, low + 2), BitAt(value, low + 1), BitAt(value, low)]
  }

  lemma FourIsRemainder(register: nat, value: nat, low: nat)
    ensures FourBits(register, value, low) == Remainder(register, Four(value, low))
  {
    hide BitAt, BitStep;
    var bits := Four(value, low);
    RemainderSnoc(register, bits[..3], bits[3]);
    RemainderSnoc(register, bits[..2], bits[2]);
    RemainderSnoc(register, bits[..1], bits[1]);
    RemainderSnoc(register, [], bits[0]);
    assert bits == bits[..3] + [bits[3]] && bits[..3] == bits[..2] + [bits[2]];
    assert bits[..2] == bits[..1] + [bits[1]] && bits[..1] == [] + [bits[0]];
  }

  lemma DivideByteIsRemainder(register: nat, value: nat)
    ensures DivideByte(register, value) == Remainder(register, ToBits(value, 8))
  {
    forall i: nat | i < 8 {
      ToBitsAt(value, 8, i);
    }
    assert ToBits(value, 8) == Four(value, 4) + Four(value, 0);
    FourIsRemainder(register, value, 4);
    FourIsRemainder(FourBits(register, value, 4), value, 0);
    RemainderConcat(register, Four(value, 4), Four(value, 0));
  }

  // ---- Polynomials over two elements, as numbers ----

  const GENERATOR: nat := 0x11021

  /** q times the generator, without carries. */
  function Multiple(q: nat): nat {
    if q == 0 then 0 else Xor(2 * Multiple(q / 2), if q % 2 == 1 then GENERATOR else 0)
  }

  /** The message shifted up by sixteen, with the start register laid over its
      first sixteen bits. */
  function Dividend(start: nat, bits: seq<bool>): nat {
    if bits == [] then start
    else
      var n := |bits| - 1;
      Xor(2 * Dividend(start, bits[..n]), if bits[n] then 0x10000 else 0)
  }

  lemma DoubleAt(x: nat, i: nat)
    ensures BitAt(2 * x, i) == (i > 0 && BitAt(x, i - 1))
  {
  }

  lemma OneBitAt(n: nat, i: nat)
    ensures BitAt(Pow2(n), i) == (i == n)
  {
    ShlAt(1, n, i);
    if i > n {
      ZeroAt(i - n - 1);
    }
  }

  lemma GeneratorAtTop(i: nat)
    ensures BitAt(GENERATOR, i) == (i == 16 || i == 12 || i == 5 || i == 0)
  {
    assert Pow2(8) == 256 && Pow2(16) == 65536;
    OneBitAt(16, i);
    assert GENERATOR == Pow2(16) * 1 + 0x1021;
    OrShifted(1, 16, 0x1021);
    OrAt(Shl(1, 16), 0x1021, i);
    if i < 16 {
      GeneratorAt(i);
    } else {
      HighBitsZero(0x1021, 16, i);
    }
  }

  /** One step of the register: double, add the message bit at x^16, and take
      the generator away when a bit stands at x^16. */
  lemma StepSubtracts(register: nat, bit: bool)
    requires register < 0x10000
    ensures
      var raised := Xor(2 * register, if bit then 0x10000 else 0);
      var falls := BitAt(register, 15) != bit;
      BitStep(register, bit) == Xor(raised, if falls then GENERATOR else 0) < 0x10000
  {
    var raised := Xor(2 * register, if bit then 0x10000 else 0);
    var falls := BitAt(register, 15) != bit;
    var reduced := Xor(raised, if falls then GENERATOR else 0);
    assert Pow2(8) == 256 && Pow2(16) == 65536;
    forall i: nat
      ensures i < 16 ==> BitAt(BitStep(register, bit), i) == BitAt(reduced, i)
      ensures i >= 16 ==> !BitAt(reduced, i) && !BitAt(BitStep(register, bit), i)
    {
      XorAt(raised, if falls then GENERATOR else 0, i);
      XorAt(2 * register, if bit then 0x10000 else 0, i);
      DoubleAt(register, i);
      GeneratorAtTop(i);
      OneBitAt(16, i);
      ZeroAt(i);
      if i < 16 {
        BitStepAt(register, bit, i);
      } else {
        HighBitsZero(register, 16, i);
        if i > 16 {
          HighBitsZero(register, 16, i - 1);
        }
        BitStepHigh(register, bit, i);
      }
    }
    BitsBound(BitStep(register, bit), 16);
    BitsBound(reduced, 16);
    SameBits(BitStep(register, bit), reduced, 16);
  }

  lemma BitStepHigh(register: nat, bit: bool, i: nat)
    requires i >= 16
    ensures !BitAt(BitStep(register, bit), i)
  {
    var shifted := And(Shl(register, 1), 0xffff);
    XorAt(shifted, 0x1021, i);
    AndAt(Shl(register, 1), 0xffff, i);
    SixteenOnes(i);
    assert Pow2(8) == 256 && Pow2(16) == 65536;
    HighBitsZero(0x1021, 16, i);
  }

  lemma {:induction false} SameNumber(x: nat, y: nat)
    requires forall i: nat :: BitAt(x, i) == BitAt(y, i)
    ensures x == y
    decreases x + y
  {
    assert BitAt(x, 0) == BitAt(y, 0);
    if x != 0 || y != 0 {
      forall i: nat
        ensures BitAt(x / 2, i) == BitAt(y / 2, i)
      {
        assert BitAt(x, i + 1) == BitAt(y, i + 1);
      }
      SameNumber(x / 2, y / 2);
    }
  }

  lemma XorDouble(a: nat, b: nat)
    ensures 2 * Xor(a, b) == Xor(2 * a, 2 * b)
  {
  }

  /** The register is the remainder: the dividend differs from it by a multiple
      of the generator, and its degree is below the generator's. */
  lemma {:induction false} RemainderOfDivision(start: nat, bits: seq<bool>) returns (q: nat)
    requires start < 0x10000
    ensures Dividend(start, bits) == Xor(Multiple(q), Remainder(start, bits))
    ensures Remainder(start, bits) < 0x10000
  {
    if bits == [] {
      q := 0;
      OrZero(start);
      XorZero(start);
    } else {
      var n := |bits| - 1;
      var q0 := RemainderOfDivision(start, bits[..n]);
      var register := Remainder(start, bits[..n]);
      var falls := BitAt(register, 15) != bits[n];
      StepSubtracts(register, bits[n]);
      q := 2 * q0 + if falls then 1 else 0;
      var g := if falls then GENERATOR else 0;
      var m := if bits[n] then 0x10000 else 0;
      XorDouble(Multiple(q0), register);
      CancelTwice(2 * Multiple(q0), 2 * register, m, g);
      if q == 0 {
        XorZero(0);
      }
      assert Multiple(q) == Xor(2 * Multiple(q0), g);
    }
  }

  lemma RemainderBound(start: nat, bits: seq<bool>)
    requires start < 0x10000
    ensures Remainder(start, bits) < 0x10000
  {
    var _ := RemainderOfDivision(start, bits);
  }

  lemma XorZero(x: nat)
    ensures Xor(0, x) == x && Xor(x, 0) == x
  {
    forall i: nat
      ensures BitAt(Xor(0, x), i) == BitAt(x, i) == BitAt(Xor(x, 0), i)
    {
      XorAt(0, x, i);
      XorAt(x, 0, i);
      ZeroAt(i);
    }
    SameNumber(Xor(0, x), x);
    SameNumber(Xor(x, 0), x);
  }

  lemma CancelTwice(a: nat, b: nat, m: nat, g: nat)
    ensures Xor(Xor(a, b), m) == Xor(Xor(a, g), Xor(Xor(b, m), g))
  {
    forall i: nat
      ensures BitAt(Xor(Xor(a, b), m), i) == BitAt(Xor(Xor(a, g), Xor(Xor(b, m), g)), i)
    {
      XorAt(Xor(a, b), m, i);
      XorAt(a, b, i);
      XorAt(Xor(a, g), Xor(Xor(b, m), g), i);
      XorAt(a, g, i);
      XorAt(Xor(b, m), g, i);
      XorAt(b, m, i);
    }
    SameNumber(Xor(Xor(a, b), m), Xor(Xor(a, g), Xor(Xor(b, m), g)));
  }
}
