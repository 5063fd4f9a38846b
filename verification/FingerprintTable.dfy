/** The prefix code of the fingerprint, in two readings: from a symbol to its
    code word, as the encoder looks it up, and from a code word to its symbol,
    as a decoder meets it bit by bit. */
module FingerprintTable {
  import opened Wrappers
  import opened BitStrings

  datatype Code = Code(width: nat, value: nat)

  /** The code word of a symbol. Symbol 0 ends the text, 1 to 31 stand for
      dictionary tokens, the others are character codes. */
  function CodeOf(sym: int): Option<Code> {
    if sym < 32 then TokenCode(sym)
    else if sym < 64 then DigitCode(sym)
    else if sym < 96 then UpperCode(sym)
    else LowerCode(sym)
  }

  function TokenCode(sym: int): Option<Code> {
    match sym
    case 0 => Some(Code(16, 44928)) case 1 => Some(Code(4, 15)) case 2 => Some(Code(5, 3))
    case 3 => Some(Code(6, 4)) case 4 => Some(Code(7, 110)) case 5 => Some(Code(7, 107))
    case 6 => Some(Code(7, 104)) case 7 => Some(Code(7, 97)) case 8 => Some(Code(7, 72))
    case 9 => Some(Code(7, 71)) case 10 => Some(Code(7, 63)) case 11 => Some(Code(8, 181))
    case 12 => Some(Code(8, 170)) case 13 => Some(Code(8, 117)) case 14 => Some(Code(6, 24))
    case 15 => Some(Code(7, 91)) case 16 => Some(Code(7, 88)) case 17 => Some(Code(7, 73))
    case 18 => Some(Code(7, 69)) case 19 => Some(Code(7, 57)) case 20 => Some(Code(7, 16))
    case 21 => Some(Code(7, 31)) case 22 => Some(Code(7, 33)) case 23 => Some(Code(7, 18))
    case 24 => Some(Code(7, 45)) case 25 => Some(Code(8, 232)) case 26 => Some(Code(8, 210))
    case 27 => Some(Code(8, 179)) case 28 => Some(Code(8, 178)) case 29 => Some(Code(8, 174))
    case 30 => Some(Code(8, 172)) case 31 => Some(Code(8, 158))
    case _ => None
  }

  function DigitCode(sym: int): Option<Code> {
    match sym
    case 37 => Some(Code(7, 44)) case 42 => Some(Code(15, 22465)) case 43 => Some(Code(9, 45))
    case 45 => Some(Code(7, 96)) case 46 => Some(Code(6, 51)) case 47 => Some(Code(6, 14))
    case 48 => Some(Code(6, 33)) case 49 => Some(Code(5, 5)) case 50 => Some(Code(5, 10))
    case 51 => Some(Code(5, 9)) case 52 => Some(Code(5, 1)) case 53 => Some(Code(5, 6))
    case 54 => Some(Code(5, 0)) case 55 => Some(Code(6, 37)) case 56 => Some(Code(7, 117))
    case 57 => Some(Code(7, 118)) case 59 => Some(Code(5, 23))
    case _ => None
  }

  function UpperCode(sym: int): Option<Code> {
    match sym
    case 64 => Some(Code(16, 44929)) case 65 => Some(Code(7, 68)) case 66 => Some(Code(8, 64))
    case 67 => Some(Code(7, 56)) case 68 => Some(Code(9, 318)) case 69 => Some(Code(7, 60))
    case 70 => Some(Code(7, 10)) case 71 => Some(Code(8, 233)) case 72 => Some(Code(8, 180))
    case 73 => Some(Code(8, 23)) case 74 => Some(Code(8, 238)) case 75 => Some(Code(7, 17))
    case 76 => Some(Code(7, 46)) case 77 => Some(Code(7, 70)) case 78 => Some(Code(8, 124))
    case 79 => Some(Code(8, 116)) case 80 => Some(Code(7, 61)) case 81 => Some(Code(9, 350))
    case 82 => Some(Code(9, 422)) case 83 => Some(Code(6, 26)) case 84 => Some(Code(6, 38))
    case 85 => Some(Code(8, 38)) case 86 => Some(Code(8, 39)) case 87 => Some(Code(9, 44))
    case 88 => Some(Code(10, 703)) case 89 => Some(Code(12, 2809)) case 90 => Some(Code(14, 11233))
    case 95 => Some(Code(8, 94))
    case _ => None
  }

  function LowerCode(sym: int): Option<Code> {
    match sym
    case 97 => Some(Code(6, 50)) case 98 => Some(Code(8, 171)) case 99 => Some(Code(7, 84))
    case 100 => Some(Code(7, 78)) case 101 => Some(Code(5, 28)) case 102 => Some(Code(9, 319))
    case 103 => Some(Code(9, 423)) case 104 => Some(Code(7, 111)) case 105 => Some(Code(6, 54))
    case 106 => Some(Code(7, 30)) case 107 => Some(Code(13, 5617)) case 108 => Some(Code(6, 17))
    case 109 => Some(Code(7, 106)) case 110 => Some(Code(8, 239)) case 111 => Some(Code(6, 49))
    case 112 => Some(Code(6, 40)) case 113 => Some(Code(11, 1405)) case 114 => Some(Code(6, 27))
    case 115 => Some(Code(6, 25)) case 116 => Some(Code(6, 32)) case 117 => Some(Code(6, 41))
    case 118 => Some(Code(8, 173)) case 119 => Some(Code(7, 59)) case 120 => Some(Code(8, 65))
    case 121 => Some(Code(8, 125)) case 122 => Some(Code(8, 95))
    case _ => None
  }

  /** What a decoder has read after `width` bits of value `value`: a proper
      prefix of code words, a whole code word, or neither. */
  datatype Node = Branch | Symbol(sym: int) | Outside

  function NodeAt(width: nat, value: nat): Node {
    match width
    case 0 => if value < 1 then Branch else Outside
    case 1 => if value < 2 then Branch else Outside
    case 2 => if value < 4 then Branch else Outside
    case 3 => if value < 8 then Branch else Outside
    case 4 => if value < 15 then Branch else if value == 15 then Symbol(1) else Outside
    case 5 => Node5(value)
    case 6 => Node6(value)
    case 7 => Node7(value)
    case 8 => Node8(value)
    case _ => NodeBelow(width, value)
  }

  function Node5(value: nat): Node {
    match value
    case 0 => Symbol(54) case 1 => Symbol(52) case 2 => Branch case 3 => Symbol(2) case 4 => Branch
    case 5 => Symbol(49) case 6 => Symbol(53) case 7 => Branch case 8 => Branch case 9 => Symbol(51)
    case 10 => Symbol(50) case 11 => Branch case 12 => Branch case 13 => Branch case 14 => Branch
    case 15 => Branch case 16 => Branch case 17 => Branch case 18 => Branch case 19 => Branch
    case 20 => Branch case 21 => Branch case 22 => Branch case 23 => Symbol(59) case 24 => Branch
    case 25 => Branch case 26 => Branch case 27 => Branch case 28 => Symbol(101) case 29 => Branch
    case _ => Outside
  }

  function Node6(value: nat): Node {
    match value
    case 4 => Symbol(3) case 5 => Branch case 8 => Branch case 9 => Branch case 14 => Symbol(47)
    case 15 => Branch case 16 => Branch case 17 => Symbol(108) case 22 => Branch case 23 => Branch
    case 24 => Symbol(14) case 25 => Symbol(115) case 26 => Symbol(83) case 27 => Symbol(114) case 28 => Branch
    case 29 => Branch case 30 => Branch case 31 => Branch case 32 => Symbol(116) case 33 => Symbol(48)
    case 34 => Branch case 35 => Branch case 36 => Branch case 37 => Symbol(55) case 38 => Symbol(84)
    case 39 => Branch case 40 => Symbol(112) case 41 => Symbol(117) case 42 => Branch case 43 => Branch
    case 44 => Branch case 45 => Branch case 48 => Branch case 49 => Symbol(111) case 50 => Symbol(97)
    case 51 => Symbol(46) case 52 => Branch case 53 => Branch case 54 => Symbol(105) case 55 => Branch
    case 58 => Branch case 59 => Branch
    case _ => Outside
  }

  function Node7(value: nat): Node {
    match value
    case 10 => Symbol(70) case 11 => Branch case 16 => Symbol(20) case 17 => Symbol(75) case 18 => Symbol(23)
    case 19 => Branch case 30 => Symbol(106) case 31 => Symbol(21) case 32 => Branch case 33 => Symbol(22)
    case 44 => Symbol(37) case 45 => Symbol(24) case 46 => Symbol(76) case 47 => Branch case 56 => Symbol(67)
    case 57 => Symbol(19) case 58 => Branch case 59 => Symbol(119) case 60 => Symbol(69) case 61 => Symbol(80)
    case 62 => Branch case 63 => Symbol(10) case 68 => Symbol(65) case 69 => Symbol(18) case 70 => Symbol(77)
    case 71 => Symbol(9) case 72 => Symbol(8) case 73 => Symbol(17) case 78 => Symbol(100) case 79 => Branch
    case 84 => Symbol(99) case 85 => Branch case 86 => Branch case 87 => Branch case 88 => Symbol(16)
    case 89 => Branch case 90 => Branch case 91 => Symbol(15) case 96 => Symbol(45) case 97 => Symbol(7)
    case 104 => Symbol(6) case 105 => Branch case 106 => Symbol(109) case 107 => Symbol(5) case 110 => Symbol(4)
    case 111 => Symbol(104) case 116 => Branch case 117 => Symbol(56) case 118 => Symbol(57) case 119 => Branch
    case _ => Outside
  }

  function Node8(value: nat): Node {
    match value
    case 22 => Branch case 23 => Symbol(73) case 38 => Symbol(85) case 39 => Symbol(86) case 64 => Symbol(66)
    case 65 => Symbol(120) case 94 => Symbol(95) case 95 => Symbol(122) case 116 => Symbol(79) case 117 => Symbol(13)
    case 124 => Symbol(78) case 125 => Symbol(121) case 158 => Symbol(31) case 159 => Branch case 170 => Symbol(12)
    case 171 => Symbol(98) case 172 => Symbol(30) case 173 => Symbol(118) case 174 => Symbol(29) case 175 => Branch
    case 178 => Symbol(28) case 179 => Symbol(27) case 180 => Symbol(72) case 181 => Symbol(11) case 210 => Symbol(26)
    case 211 => Branch case 232 => Symbol(25) case 233 => Symbol(71) case 238 => Symbol(74) case 239 => Symbol(110)
    case _ => Outside
  }

  function NodeBelow(width: nat, value: nat): Node {
    match (width, value)
    case (9, 44) => Symbol(87) case (9, 45) => Symbol(43) case (9, 318) => Symbol(68)
    case (9, 319) => Symbol(102) case (9, 350) => Symbol(81) case (9, 351) => Branch
    case (9, 422) => Symbol(82) case (9, 423) => Symbol(103) case (10, 702) => Branch
    case (10, 703) => Symbol(88) case (11, 1404) => Branch case (11, 1405) => Symbol(113)
    case (12, 2808) => Branch case (12, 2809) => Symbol(89) case (13, 5616) => Branch
    case (13, 5617) => Symbol(107) case (14, 11232) => Branch case (14, 11233) => Symbol(90)
    case (15, 22464) => Branch case (15, 22465) => Symbol(42) case (16, 44928) => Symbol(0)
    case (16, 44929) => Symbol(64)
    case _ => Outside
  }

  /** The two readings agree on every symbol of the table. */
  lemma CodeWordIsNode(sym: int)
    requires CodeOf(sym).Some?
    ensures var c := CodeOf(sym).value; NodeAt(c.width, c.value) == Symbol(sym)
  {
    if sym < 32 {
      TokenNode(sym);
    } else if sym < 64 {
      DigitNode(sym);
    } else if sym < 96 {
      UpperNode(sym);
    } else {
      LowerNode(sym);
    }
  }

  lemma TokenNode(sym: int)
    requires TokenCode(sym).Some?
    ensures var c := TokenCode(sym).value; NodeAt(c.width, c.value) == Symbol(sym)
  {
    if sym < 16 {
      LowTokenNode(sym);
    } else {
      HighTokenNode(sym);
    }
  }

  lemma LowTokenNode(sym: int)
    requires TokenCode(sym).Some? && sym < 16
    ensures var c := TokenCode(sym).value; NodeAt(c.width, c.value) == Symbol(sym)
  {
  }

  lemma HighTokenNode(sym: int)
    requires TokenCode(sym).Some? && sym >= 16
    ensures var c := TokenCode(sym).value; NodeAt(c.width, c.value) == Symbol(sym)
  {
  }

  lemma DigitNode(sym: int)
    requires DigitCode(sym).Some?
    ensures var c := DigitCode(sym).value; NodeAt(c.width, c.value) == Symbol(sym)
  {
  }

  lemma UpperNode(sym: int)
    requires UpperCode(sym).Some?
    ensures var c := UpperCode(sym).value; NodeAt(c.width, c.value) == Symbol(sym)
  {
  }

  lemma LowerNode(sym: int)
    requires LowerCode(sym).Some?
    ensures var c := LowerCode(sym).value; NodeAt(c.width, c.value) == Symbol(sym)
  {
  }

  /** Every node but the root hangs below a branch, so no code word is a
      proper prefix of another. */
  lemma ParentIsBranch(width: nat, value: nat)
    requires width > 0 && NodeAt(width, value) != Outside
    ensures NodeAt(width - 1, value / 2) == Branch
  {
    match width
    case 5 => Parent5(value);
    case 6 => Parent6(value);
    case 7 => Parent7(value);
    case 8 => Parent8(value);
    case _ => if width > 8 { ParentBelow(width, value); }
  }

  lemma Parent5(value: nat)
    requires Node5(value) != Outside
    ensures NodeAt(4, value / 2) == Branch
  {
  }

  lemma Parent6(value: nat)
    requires Node6(value) != Outside
    ensures NodeAt(5, value / 2) == Branch
  {
  }

  lemma Parent7(value: nat)
    requires Node7(value) != Outside
    ensures NodeAt(6, value / 2) == Branch
  {
  }

  lemma Parent8(value: nat)
    requires Node8(value) != Outside
    ensures NodeAt(7, value / 2) == Branch
  {
  }

  lemma ParentBelow(width: nat, value: nat)
    requires width > 8 && NodeBelow(width, value) != Outside
    ensures NodeAt(width - 1, value / 2) == Branch
  {
  }

  /** Every branch has both children: the code is complete. */
  lemma BranchIsFull(width: nat, value: nat, bit: nat)
    requires NodeAt(width, value) == Branch && bit < 2
    ensures width < 16 && NodeAt(width + 1, 2 * value + bit) != Outside
  {
    match width
    case 4 => Children4(value, bit);
    case 5 => Children5(value, bit);
    case 6 => Children6(value, bit);
    case 7 => Children7(value, bit);
    case _ => if width > 7 { ChildrenBelow(width, value, bit); }
  }

  lemma Children4(value: nat, bit: nat)
    requires NodeAt(4, value) == Branch && bit < 2
    ensures Node5(2 * value + bit) != Outside
  {
  }

  lemma Children5(value: nat, bit: nat)
    requires Node5(value) == Branch && bit < 2
    ensures Node6(2 * value + bit) != Outside
  {
  }

  lemma Children6(value: nat, bit: nat)
    requires Node6(value) == Branch && bit < 2
    ensures Node7(2 * value + bit) != Outside
  {
  }

  lemma Children7(value: nat, bit: nat)
    requires Node7(value) == Branch && bit < 2
    ensures Node8(2 * value + bit) != Outside
  {
  }

  lemma ChildrenBelow(width: nat, value: nat, bit: nat)
    requires width > 7 && NodeAt(width, value) == Branch && bit < 2
    ensures width < 16 && NodeAt(width + 1, 2 * value + bit) != Outside
  {
  }

  lemma RootOnly(value: nat)
    requires NodeAt(0, value) != Outside
    ensures value == 0
  {
  }

  /** Code words fit their width. */
  lemma CodeFits(sym: int)
    requires CodeOf(sym).Some?
    ensures var c := CodeOf(sym).value; 4 <= c.width <= 16 && c.value < Pow2(c.width)
  {
    PowersOfTwo();
  }

  lemma PowersOfTwo()
    ensures Pow2(4) == 16 && Pow2(5) == 32 && Pow2(6) == 64 && Pow2(7) == 128 && Pow2(8) == 256
    ensures Pow2(9) == 512 && Pow2(10) == 1024 && Pow2(11) == 2048 && Pow2(12) == 4096
    ensures Pow2(13) == 8192 && Pow2(14) == 16384 && Pow2(15) == 32768 && Pow2(16) == 65536
  {
  }
}
