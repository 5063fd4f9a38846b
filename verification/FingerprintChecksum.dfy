/** The checksum characters of the fingerprint. */
module FingerprintChecksum {
  import opened BitStrings
  import opened CrcArithmetic
  import opened FingerprintPacking

  predicate Ascii(text: string) {
    forall i :: 0 <= i < |text| ==> text[i] as nat < 128
  }

  /** The message: the bytes of the text, the highest bit first. */
  function MessageBits(text: string): seq<bool> {
    if text == [] then []
    else MessageBits(text[..|text| - 1]) + ToBits(text[|text| - 1] as nat, 8)
  }

  /** The remainder of the message, for a register that starts with all ones. */
  function Checksum(text: string): (c: nat)
    ensures c < 0x10000
  {
    RemainderBound(0xffff, MessageBits(text));
    Remainder(0xffff, MessageBits(text))
  }

  method ComputeChecksum(text: string) returns (checksum: nat)
    requires Ascii(text)
    ensures checksum == Checksum(text)
  {
    hide ByteStep, Remainder;
    checksum := 65535;
    assert text[..0] == [];
    EmptyMessage();
    for i := 0 to |text|
      invariant checksum == Checksum(text[..i])
    {
      var value := text[i] as nat;
      ghost var before := checksum;
      checksum := And(Or(Shr(checksum, 8), Shl(checksum, 8)), 0xffff);
      checksum := Xor(checksum, And(value, 0xff));
      checksum := Xor(checksum, Shr(And(checksum, 0xff), 4));
      checksum := Xor(checksum, And(Shl(checksum, 12), 0xffff));
      checksum := Xor(checksum, And(Shl(And(checksum, 0xff), 5), 0xffff));
      ByteOfMessage(text[..i], text[i], before, checksum);
      assert text[..i + 1] == text[..i] + [text[i]];
    }
    assert text[..|text|] == text;
  }

  lemma EmptyMessage()
    ensures Checksum([]) == 0xffff
  {
  }

  lemma ByteOfMessage(front: string, c: char, before: nat, after: nat)
    requires before == Checksum(front) < 0x10000
    requires after == XorMiddle(XorTop(XorHighNibble(XorByte(SwapHalves(before), c as nat))))
    ensures after == Checksum(front + [c]) < 0x10000
  {
    ByteStepDivides(before, c as nat);
    DivideByteIsRemainder(before, c as nat);
    RemainderConcat(0xffff, MessageBits(front), ToBits(c as nat, 8));
    assert (front + [c])[..|front|] == front;
  }

  /** Three characters of the alphabet: four bits, six bits, six bits. */
  function ChecksumText(checksum: nat): (text: string)
    ensures |text| == 3
  {
    ChecksumIndices(checksum);
    [ALPHABET[And(Shr(checksum, 12), 63)], ALPHABET[And(Shr(checksum, 6), 63)], ALPHABET[And(checksum, 63)]]
  }

  lemma ChecksumIndices(checksum: nat)
    ensures And(Shr(checksum, 12), 63) == checksum / 4096 % 64 < 64 == |ALPHABET|
    ensures And(Shr(checksum, 6), 63) == checksum / 64 % 64 < 64
    ensures And(checksum, 63) == checksum % 64 < 64
  {
    assert Pow2(6) == 64 && Pow2(12) == 4096;
    AlphabetValue(0);
    AndMask(Shr(checksum, 12), 6);
    AndMask(Shr(checksum, 6), 6);
    AndMask(checksum, 6);
  }

  /** The three characters spell the register, its high bits first. */
  lemma ChecksumTextSpells(checksum: nat)
    requires checksum < 0x10000
    ensures var text := ChecksumText(checksum);
            && SixBitValue(text[0]).Some? && SixBitValue(text[1]).Some? && SixBitValue(text[2]).Some?
            && checksum == (SixBitValue(text[0]).value * 64 + SixBitValue(text[1]).value) * 64 + SixBitValue(text[2]).value
  {
    hide SixBitValue;
    ChecksumIndices(checksum);
    AlphabetValue(checksum / 4096 % 64);
    AlphabetValue(checksum / 64 % 64);
    AlphabetValue(checksum % 64);
    SixBitDigits(checksum);
  }

  /** The three characters determine the register. */
  lemma ChecksumTextInjective(a: nat, b: nat)
    requires a < 0x10000 && b < 0x10000 && ChecksumText(a) == ChecksumText(b)
    ensures a == b
  {
    var ta, tb := ChecksumText(a), ChecksumText(b);
    ChecksumIndices(a);
    ChecksumIndices(b);
    assert ta[0] == tb[0] && ta[1] == tb[1] && ta[2] == tb[2];
    AlphabetInjective(a / 4096 % 64, b / 4096 % 64);
    AlphabetInjective(a / 64 % 64, b / 64 % 64);
    AlphabetInjective(a % 64, b % 64);
    SixBitDigits(a);
    SixBitDigits(b);
  }

  lemma SixBitDigits(a: nat)
    requires a < 0x10000
    ensures a == (a / 4096 % 64) * 4096 + (a / 64 % 64) * 64 + a % 64
  {
    assert a / 64 / 64 == a / 4096;
  }

  lemma AlphabetInjective(i: nat, j: nat)
    requires i < 64 && j < 64 && ALPHABET[i] == ALPHABET[j]
    ensures i == j
  {
    hide SixBitValue;
    AlphabetValue(i);
    AlphabetValue(j);
  }
}
