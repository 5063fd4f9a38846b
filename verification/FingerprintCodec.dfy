/** The encoder of the fingerprint text and a decoder for it: a header that
    carries the length, one code word a symbol, an end symbol and zero bits up
    to a whole character. */
module FingerprintCodec {
  import opened Wrappers
  import opened BitStrings
  import opened FingerprintTable
  import opened FingerprintPacking

  predicate Encodable(text: string) {
    forall i :: 0 <= i < |text| ==> CodeOf(text[i] as int).Some?
  }

  function CodeBits(sym: int): seq<bool>
    requires CodeOf(sym).Some?
  {
    ToBits(CodeOf(sym).value.value, CodeOf(sym).value.width)
  }

  function TextBits(text: string): seq<bool>
    requires Encodable(text)
  {
    if text == [] then [] else CodeBits(text[0] as int) + TextBits(text[1..])
  }

  /** The end symbol. */
  function EndBits(): seq<bool> {
    CodeBits(0)
  }

  /** The length modulo 64, three bits at a time, low bits first. */
  function Header(length: nat): (bits: seq<bool>)
    ensures |bits| == 12
  {
    ToBits(length % 8 * 8, 6) + ToBits(length / 8 % 8 * 8 + 1, 6)
  }

  function EncodedBits(text: string): seq<bool>
    requires Encodable(text)
  {
    Header(|text|) + TextBits(text) + EndBits()
  }

  /** Fails exactly on a character that has no code; otherwise the result is the
      one text whose bits are the padded encoding. */
  method Huffman(value: string) returns (encoded: string, ok: bool)
    ensures ok <==> Encodable(value)
    ensures ok ==> Unpack(encoded) == Some(Padded(EncodedBits(value)))
    ensures !ok ==> encoded == ""
  {
    hide CodeOf, Pow2, ToBits, TextBits, Unpack, And, Or, Header;
    var packer := new BitPacker();
    HeaderBits(|value|);
    packer.Push(6, Shl(And(|value|, 7), 3));
    packer.Push(6, Or(And(|value|, 56), 1));
    assert value[..0] == [];
    var i := 0;
    while i < |value|
      invariant 0 <= i <= |value| && packer.Valid() && fresh(packer)
      invariant Encodable(value[..i])
      invariant packer.Bits() == Header(|value|) + TextBits(value[..i])
    {
      var code := CodeOf(value[i] as int);
      if code == None {
        return "", false;
      }
      CodeFits(value[i] as int);
      TextBitsSnoc(value[..i], value[i]);
      assert value[..i + 1] == value[..i] + [value[i]];
      packer.Push(code.value.width, code.value.value);
      i := i + 1;
    }
    assert value[..i] == value;
    PushEnd(packer);
    packer.Flush();
    encoded, ok := packer.text, true;
  }

  method PushEnd(packer: BitPacker)
    requires packer.Valid()
    modifies packer
    ensures packer.Valid() && packer.Bits() == old(packer.Bits()) + EndBits()
  {
    CodeFits(0);
    var code := CodeOf(0).value;
    packer.Push(code.width, code.value);
  }

  lemma HeaderBits(n: nat)
    ensures Shl(And(n, 7), 3) < Pow2(6) && Or(And(n, 56), 1) < Pow2(6)
    ensures ToBits(Shl(And(n, 7), 3), 6) + ToBits(Or(And(n, 56), 1), 6) == Header(n)
    ensures TextBits([]) == []
  {
    assert Pow2(3) == 8 && Pow2(6) == 64;
    LowHeaderChar(n);
    HighHeaderChar(n);
  }

  lemma LowHeaderChar(n: nat)
    ensures Shl(And(n, 7), 3) == n % 8 * 8
  {
    assert Pow2(3) == 8;
    AndMask(n, 3);
  }

  lemma HighHeaderChar(n: nat)
    ensures Or(And(n, 56), 1) == n / 8 % 8 * 8 + 1
  {
    assert Pow2(3) == 8 && Pow2(1) == 2;
    var high := n / 8 % 8;
    assert And(n, 56) == high * 8 by {
      AndEven(n, 28);
      AndEven(n / 2, 14);
      AndEven(n / 4, 7);
      AndMask(n / 8, 3);
    }
    assert high * 8 == Shl(4 * high, 1);
    OrShifted(4 * high, 1, 1);
  }

  lemma AndEven(n: nat, mask: nat)
    ensures And(n, 2 * mask) == 2 * And(n / 2, mask)
  {
  }

  lemma {:induction false} TextBitsSnoc(text: string, c: char)
    requires Encodable(text) && CodeOf(c as int).Some?
    ensures Encodable(text + [c]) && TextBits(text + [c]) == TextBits(text) + CodeBits(c as int)
  {
    hide CodeOf;
    var longer := text + [c];
    assert Encodable(longer);
    if text != [] {
      TextBitsSnoc(text[1..], c);
      assert longer[1..] == text[1..] + [c];
    }
  }

  // ---- Decoding ----

  /** Reads bits below a node until they spell a code word. */
  function ReadSymbol(width: nat, value: nat, bits: seq<bool>): (r: Option<(int, seq<bool>)>)
    ensures r.Some? ==> |r.value.1| <= |bits|
    ensures r.Some? && NodeAt(width, value).Branch? ==> |r.value.1| < |bits|
    decreases |bits|
  {
    match NodeAt(width, value)
    case Symbol(sym) => Some((sym, bits))
    case Outside => None
    case Branch =>
      if bits == [] then None
      else ReadSymbol(width + 1, 2 * value + (if bits[0] then 1 else 0), bits[1..])
  }

  /** The symbols up to the end symbol. */
  function ReadText(bits: seq<bool>): Option<string>
    decreases |bits|
  {
    var r := ReadSymbol(0, 0, bits);
    if r.None? then None
    else if r.value.0 == 0 then Some([])
    else if 0 < r.value.0 < 128 then
      var tail := ReadText(r.value.1);
      if tail.Some? then Some([r.value.0 as char] + tail.value) else None
    else None
  }

  function Decode(encoded: string): Option<string> {
    var bits := Unpack(encoded);
    if bits.Some? && |bits.value| >= 12 then ReadText(bits.value[12..]) else None
  }

  /** Reading the bits of a node from the root arrives at the node. */
  lemma {:induction false} ReadDown(width: nat, value: nat, rest: seq<bool>)
    requires NodeAt(width, value) != Outside
    ensures ReadSymbol(0, 0, ToBits(value, width) + rest) == ReadSymbol(width, value, rest)
  {
    hide NodeAt;
    if width == 0 {
      RootOnly(value);
      assert [] + rest == rest;
    } else {
      var bit := [value % 2 == 1];
      ParentIsBranch(width, value);
      ReadDown(width - 1, value / 2, bit + rest);
      assert ToBits(value / 2, width - 1) + (bit + rest) == ToBits(value, width) + rest;
      assert (bit + rest)[1..] == rest;
    }
  }

  lemma ReadCode(sym: int, rest: seq<bool>)
    requires CodeOf(sym).Some?
    ensures ReadSymbol(0, 0, CodeBits(sym) + rest) == Some((sym, rest))
  {
    var code := CodeOf(sym).value;
    CodeWordIsNode(sym);
    ReadDown(code.width, code.value, rest);
  }

  lemma ReadEnd(rest: seq<bool>)
    ensures ReadSymbol(0, 0, EndBits() + rest) == Some((0, rest))
  {
    ReadCode(0, rest);
  }

  /** No code word is a prefix of another one's. */
  lemma PrefixFree(a: int, b: int)
    requires CodeOf(a).Some? && CodeOf(b).Some? && CodeBits(a) <= CodeBits(b)
    ensures a == b
  {
    hide CodeOf, NodeAt;
    var rest := CodeBits(b)[|CodeBits(a)|..];
    assert CodeBits(a) + rest == CodeBits(b) == CodeBits(b) + [];
    ReadCode(a, rest);
    ReadCode(b, []);
  }

  /** Any sixteen bits start with a code word of the table. */
  lemma Complete(bits: seq<bool>)
    requires |bits| >= 16
    ensures ReadSymbol(0, 0, bits).Some?
  {
    CompleteBelow(0, 0, bits);
  }

  lemma {:induction false} CompleteBelow(width: nat, value: nat, bits: seq<bool>)
    requires NodeAt(width, value) != Outside && width + |bits| >= 16
    ensures ReadSymbol(width, value, bits).Some?
    decreases |bits|
  {
    if NodeAt(width, value) == Branch {
      BranchIsFull(width, value, 0);
      var bit := if bits[0] then 1 else 0;
      BranchIsFull(width, value, bit);
      CompleteBelow(width + 1, 2 * value + bit, bits[1..]);
    }
  }

  lemma {:induction false} ReadTextBits(text: string, rest: seq<bool>)
    requires Encodable(text) && '\0' !in text
    ensures ReadText(TextBits(text) + EndBits() + rest) == Some(text)
  {
    hide CodeOf, NodeAt, ToBits, Pow2, ReadSymbol;
    if text == [] {
      assert TextBits(text) + EndBits() + rest == EndBits() + rest;
      ReadEnd(rest);
    } else {
      var sym := text[0] as int;
      var tail := TextBits(text[1..]) + EndBits() + rest;
      assert TextBits(text) + EndBits() + rest == CodeBits(sym) + tail;
      ReadCode(sym, tail);
      ReadTextBits(text[1..], rest);
      CodedIsAscii(sym);
      assert text == [text[0]] + text[1..];
    }
  }

  lemma CodedIsAscii(sym: int)
    requires CodeOf(sym).Some?
    ensures 0 <= sym < 128
  {
  }

  /** The round trip of the prefix code: a text without the end symbol comes
      back from any text that carries its padded encoding. */
  lemma DecodeEncoded(text: string, encoded: string)
    requires Encodable(text) && '\0' !in text
    requires Unpack(encoded) == Some(Padded(EncodedBits(text)))
    ensures Decode(encoded) == Some(text)
    ensures HeaderLength(encoded) == |text| % 64
    ensures var bits := Unpack(encoded).value;
            FromBits(bits[..6]) == |text| % 8 * 8 && FromBits(bits[6..12]) == |text| / 8 % 8 * 8 + 1
  {
    hide CodeOf, Pow2, ToBits, TextBits, EndBits, Encodable, Unpack, ReadText, Header, Padded, FromBits, EncodedBits;
    var bits := Padded(EncodedBits(text));
    var pad := PaddedParts(text);
    ReadTextBits(text, pad);
    assert Decode(encoded) == ReadText(bits[12..]);
    HeaderRead(|text|);
    OctalDigits(|text|);
  }

  lemma OctalDigits(n: nat)
    ensures n % 8 + n / 8 % 8 * 8 == n % 64
  {
  }

  /** The header, and behind it the code words and some padding. */
  lemma PaddedParts(text: string) returns (pad: seq<bool>)
    requires Encodable(text)
    ensures var bits := Padded(EncodedBits(text));
            && |bits| >= 12 && bits[..6] == Header(|text|)[..6] && bits[6..12] == Header(|text|)[6..]
            && bits[12..] == TextBits(text) + EndBits() + pad
  {
    hide CodeOf, Pow2, ToBits, TextBits, EndBits, Encodable, Header;
    var body := TextBits(text) + EndBits();
    var bits := Padded(EncodedBits(text));
    pad := bits[|EncodedBits(text)|..];
    assert bits == Header(|text|) + (body + pad);
  }

  /** What a reader of the two header characters learns. */
  function HeaderLength(encoded: string): nat
    requires Unpack(encoded).Some? && |encoded| >= 2
  {
    var bits := Unpack(encoded).value;
    FromBits(bits[..6]) / 8 + FromBits(bits[6..12]) / 8 * 8
  }

  lemma HeaderRead(length: nat)
    ensures FromBits(Header(length)[..6]) == length % 8 * 8
    ensures FromBits(Header(length)[6..]) == length / 8 % 8 * 8 + 1
  {
    assert Pow2(6) == 64;
    FromToBits(length % 8 * 8, 6);
    FromToBits(length / 8 % 8 * 8 + 1, 6);
    assert Header(length)[..6] == ToBits(length % 8 * 8, 6);
    assert Header(length)[6..] == ToBits(length / 8 % 8 * 8 + 1, 6);
  }
}
