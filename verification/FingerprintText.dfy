/** The fingerprint text: escaped fields, dictionary tokens and the whole
    compressed form with its checksum characters. */
module FingerprintText {
  import opened Wrappers
  import BitStrings
  import opened FingerprintTable
  import opened FingerprintPacking
  import opened FingerprintCodec
  import opened FingerprintChecksum

  // ---- Escaped fields ----

  const HEX := "0123456789ABCDEF"

  /** The characters that the escape leaves alone. */
  predicate Unreserved(c: char) {
    'A' <= c <= 'Z' || 'a' <= c <= 'z' || '0' <= c <= '9' || c in "@*_+-./"
  }

  /** What an escaped payload is made of. */
  predicate PayloadChar(c: char) {
    Unreserved(c) || c == '%' || c == ';'
  }

  predicate PayloadText(text: string) {
    forall i :: 0 <= i < |text| ==> PayloadChar(text[i])
  }

  function HexDigit(v: nat): (c: char)
    ensures '0' <= c <= '9' || 'A' <= c <= 'F'
  {
    var digit := v % 16;
    if digit < 10 then ('0' as nat + digit) as char else ('A' as nat + digit - 10) as char
  }

  lemma HexDigitIsTable(v: nat)
    ensures |HEX| == 16 && HexDigit(v) == HEX[v % 16]
  {
  }

  function EscapeChar(c: char): string {
    var v := c as nat;
    if Unreserved(c) then [c]
    else if v <= 0xff then ['%', HexDigit(v / 16), HexDigit(v)]
    else "%u" + [HexDigit(v / 4096), HexDigit(v / 256), HexDigit(v / 16), HexDigit(v)]
  }

  function Escape(field: string): (escaped: string)
    ensures PayloadText(escaped)
  {
    if field == [] then [] else EscapeChar(field[0]) + Escape(field[1..])
  }

  /** Field by field, each one escaped and closed with a semicolon. */
  function Payload(fields: seq<string>): (text: string)
    ensures PayloadText(text)
  {
    if fields == [] then [] else Escape(fields[0]) + ";" + Payload(fields[1..])
  }

  method UrlEscape(value: string) returns (escaped: string)
    ensures escaped == Escape(value)
  {
    hide EscapeChar;
    escaped := "";
    for i := 0 to |value|
      invariant escaped + Escape(value[i..]) == Escape(value)
    {
      ghost var before := escaped;
      escaped := AppendEscaped(escaped, value[i]);
      assert value[i..][1..] == value[i + 1..];
      assert before + (EscapeChar(value[i]) + Escape(value[i + 1..])) == escaped + Escape(value[i + 1..]);
    }
  }

  method AppendEscaped(builder: string, c: char) returns (longer: string)
    ensures longer == builder + EscapeChar(c)
  {
    hide Unreserved, HexDigit;
    HexDigitIsTable(c as nat / 4096);
    HexDigitIsTable(c as nat / 256);
    HexDigitIsTable(c as nat / 16);
    HexDigitIsTable(c as nat);
    if Unreserved(c) {
      longer := builder + [c];
    } else if c as nat <= 0xff {
      longer := builder + ['%'];
      longer := longer + [HEX[c as nat / 16 % 16]];
      longer := longer + [HEX[c as nat % 16]];
    } else {
      longer := builder + "%u";
      longer := longer + [HEX[c as nat / 4096 % 16]];
      longer := longer + [HEX[c as nat / 256 % 16]];
      longer := longer + [HEX[c as nat / 16 % 16]];
      longer := longer + [HEX[c as nat % 16]];
    }
  }

  method BuildPayload(fields: seq<string>) returns (payload: string)
    ensures payload == Payload(fields)
  {
    hide Escape;
    payload := "";
    for i := 0 to |fields|
      invariant payload + Payload(fields[i..]) == Payload(fields)
    {
      var escaped := UrlEscape(fields[i]);
      assert fields[i..][1..] == fields[i + 1..];
      payload := payload + escaped;
      payload := payload + ";";
    }
  }

  /** Letters, digits and seven signs stay; other characters up to 0xFF become a
      percent sign with two digits, the rest one with the letter u and four. */
  lemma EscapeCharExactly(c: char)
    ensures Escape([c]) == EscapeChar(c)
    ensures EscapeChar(c) == [c] <==>
            'A' <= c <= 'Z' || 'a' <= c <= 'z' || '0' <= c <= '9'
            || c == '@' || c == '*' || c == '_' || c == '+' || c == '-' || c == '.' || c == '/'
    ensures EscapeChar(c) != [c] ==>
            && EscapeChar(c)[0] == '%' && |EscapeChar(c)| == (if c as nat <= 0xff then 3 else 6)
            && (c as nat > 0xff ==> EscapeChar(c)[1] == 'u')
  {
    assert [c][1..] == [];
    assert "@*_+-./" == ['@', '*', '_', '+', '-', '.', '/'];
  }

  // ---- Reading the payload back ----

  function HexValue(c: char): Option<nat> {
    if '0' <= c <= '9' then Some(c as nat - '0' as nat)
    else if 'A' <= c <= 'F' then Some(c as nat - 'A' as nat + 10)
    else None
  }

  lemma HexRoundTrip(v: nat)
    ensures HexValue(HexDigit(v)) == Some(v % 16)
  {
  }

  function HexNumber(digits: string): Option<nat> {
    if digits == [] then Some(0)
    else
      var front, last := HexNumber(digits[..|digits| - 1]), HexValue(digits[|digits| - 1]);
      if front.Some? && last.Some? then Some(front.value * 16 + last.value) else None
  }

  /** The code of the character at the front, and how many characters spell it. */
  function FirstUnit(text: string): (unit: (nat, nat))
    requires text != []
    ensures 0 < unit.1 <= |text|
  {
    if text[0] == '%' && |text| >= 6 && text[1] == 'u' && HexNumber(text[2..6]).Some? then
      (HexNumber(text[2..6]).value, 6)
    else if text[0] == '%' && |text| >= 3 && HexNumber(text[1..3]).Some? then
      (HexNumber(text[1..3]).value, 3)
    else
      (text[0] as nat, 1)
  }

  /** The character codes of an escaped field. */
  function Unescape(text: string): seq<nat> {
    if text == [] then []
    else
      var unit := FirstUnit(text);
      [unit.0] + Unescape(text[unit.1..])
  }

  /** The fields of a payload, still escaped. */
  function SplitFields(text: string, current: string): seq<string> {
    if text == [] then []
    else if text[0] == ';' then [current] + SplitFields(text[1..], [])
    else SplitFields(text[1..], current + [text[0]])
  }

  function Codes(field: string): seq<nat> {
    seq(|field|, i requires 0 <= i < |field| => field[i] as nat)
  }

  /** The codes that survive escaping: sixteen bits of each. */
  function Units(field: string): seq<nat> {
    seq(|field|, i requires 0 <= i < |field| => field[i] as nat % 0x10000)
  }

  lemma HexPair(a: nat, b: nat)
    ensures HexNumber([HexDigit(a), HexDigit(b)]) == Some(a % 16 * 16 + b % 16)
  {
    HexRoundTrip(a);
    HexRoundTrip(b);
    var digits := [HexDigit(a), HexDigit(b)];
    assert digits[..1] == [HexDigit(a)] && digits[..1][..0] == [];
    assert HexNumber(digits[..1]) == Some(a % 16);
  }

  lemma HexFour(a: nat, b: nat, c: nat, d: nat)
    ensures HexNumber([HexDigit(a), HexDigit(b), HexDigit(c), HexDigit(d)])
            == Some(((a % 16 * 16 + b % 16) * 16 + c % 16) * 16 + d % 16)
  {
    hide HexDigit, HexValue;
    HexPair(a, b);
    HexRoundTrip(c);
    HexRoundTrip(d);
    var two := [HexDigit(a), HexDigit(b)];
    var three := two + [HexDigit(c)];
    var four := three + [HexDigit(d)];
    assert three[..2] == two && four[..3] == three;
    assert four == [HexDigit(a), HexDigit(b), HexDigit(c), HexDigit(d)];
  }

  lemma FirstUnitOfEscaped(c: char, rest: string)
    ensures FirstUnit(EscapeChar(c) + rest) == (c as nat % 0x10000, |EscapeChar(c)|)
  {
    hide HexNumber, HexDigit;
    var v := c as nat;
    var text := EscapeChar(c) + rest;
    if Unreserved(c) {
      assert text[0] == c != '%';
    } else if v <= 0xff {
      TwoDigitUnit(v / 16, v, rest);
      DivModParts(v);
    } else {
      FourDigitUnit(v / 4096, v / 256, v / 16, v, rest);
      SixteenBits(v);
    }
  }

  lemma DivModParts(v: nat)
    requires v <= 0xff
    ensures v / 16 % 16 * 16 + v % 16 == v == v % 0x10000
  {
  }

  lemma TwoDigitUnit(a: nat, b: nat, rest: string)
    ensures FirstUnit(['%', HexDigit(a), HexDigit(b)] + rest) == (a % 16 * 16 + b % 16, 3)
  {
    hide HexNumber;
    var text := ['%', HexDigit(a), HexDigit(b)] + rest;
    HexPair(a, b);
    assert text[1..3] == [HexDigit(a), HexDigit(b)];
    assert text[1] != 'u';
  }

  lemma FourDigitUnit(a: nat, b: nat, c: nat, d: nat, rest: string)
    ensures FirstUnit("%u" + [HexDigit(a), HexDigit(b), HexDigit(c), HexDigit(d)] + rest)
            == (((a % 16 * 16 + b % 16) * 16 + c % 16) * 16 + d % 16, 6)
  {
    hide HexNumber, HexDigit;
    var text := "%u" + [HexDigit(a), HexDigit(b), HexDigit(c), HexDigit(d)] + rest;
    HexFour(a, b, c, d);
    assert text[2..6] == [HexDigit(a), HexDigit(b), HexDigit(c), HexDigit(d)];
  }

  lemma SixteenBits(v: nat)
    ensures ((v / 4096 % 16 * 16 + v / 256 % 16) * 16 + v / 16 % 16) * 16 + v % 16 == v % 0x10000
  {
    var q1 := v / 16;
    var q2 := q1 / 16;
    var q3 := q2 / 16;
    var d0, d1, d2, d3 := v % 16, q1 % 16, q2 % 16, q3 % 16;
    BitStrings.DivModUnique(v, 256, q2, d1 * 16 + d0);
    BitStrings.DivModUnique(v, 4096, q3, (d2 * 16 + d1) * 16 + d0);
    BitStrings.DivModUnique(v, 0x10000, q3 / 16, ((d3 * 16 + d2) * 16 + d1) * 16 + d0);
  }

  /** Unescaping gives back the low sixteen bits of every character. */
  lemma {:induction false} UnescapeEscaped(field: string)
    ensures Unescape(Escape(field)) == Units(field)
  {
    hide FirstUnit, EscapeChar;
    if field != [] {
      var rest := Escape(field[1..]);
      FirstUnitOfEscaped(field[0], rest);
      EscapeCharNotEmpty(field[0]);
      UnescapeEscaped(field[1..]);
      assert (EscapeChar(field[0]) + rest)[|EscapeChar(field[0])|..] == rest;
    }
  }

  lemma EscapeCharNotEmpty(c: char)
    ensures EscapeChar(c) != [] && ';' !in EscapeChar(c)
  {
  }

  /** A field comes back unchanged exactly when none of its characters needs
      more than sixteen bits. */
  lemma EscapeRoundTrip(field: string)
    ensures Unescape(Escape(field)) == Codes(field) <==> forall i :: 0 <= i < |field| ==> field[i] as nat <= 0xffff
  {
    hide Unescape, Escape;
    UnescapeEscaped(field);
    var codes, units := Codes(field), Units(field);
    if i :| 0 <= i < |field| && field[i] as nat > 0xffff {
      assert codes[i] != units[i];
    } else {
      assert codes == units;
    }
  }

  /** A character outside the basic plane is cut; no field that the code builds has
      one. */
  lemma EscapeCuts()
    ensures Unescape(Escape("\U{1F600}")) != Codes("\U{1F600}")
  {
    hide Unescape, Escape, Codes;
    EscapeRoundTrip("\U{1F600}");
    assert "\U{1F600}"[0] as nat > 0xffff;
  }

  lemma {:induction false} EscapedHasNoSeparator(field: string)
    ensures ';' !in Escape(field)
  {
    if field != [] {
      EscapeCharNotEmpty(field[0]);
      EscapedHasNoSeparator(field[1..]);
    }
  }

  lemma {:induction false} SplitFirst(field: string, rest: string, current: string)
    requires ';' !in field
    ensures SplitFields(field + ";" + rest, current) == [current + field] + SplitFields(rest, [])
  {
    var text := field + ";" + rest;
    if field == [] {
      assert text[1..] == rest && current + field == current;
    } else {
      SplitFirst(field[1..], rest, current + [field[0]]);
      assert text[1..] == field[1..] + ";" + rest;
      assert current + [field[0]] + field[1..] == current + field;
    }
  }

  /** The separator never occurs inside a field, so a payload splits back into
      its escaped fields. */
  lemma {:induction false} PayloadSplits(fields: seq<string>)
    ensures |SplitFields(Payload(fields), [])| == |fields|
    ensures forall i :: 0 <= i < |fields| ==> SplitFields(Payload(fields), [])[i] == Escape(fields[i])
  {
    hide Escape;
    if fields != [] {
      EscapedHasNoSeparator(fields[0]);
      SplitFirst(Escape(fields[0]), Payload(fields[1..]), []);
      assert [] + Escape(fields[0]) == Escape(fields[0]);
      PayloadSplits(fields[1..]);
    }
  }

  // ---- Dictionary ----

  const DICTIONARY: seq<string> := [
    "%20", ";;;", "%3B", "%2C", "und", "fin", "ed;", "%28", "%29", "%3A", "/53",
    "ike", "Web", "0;", ".0", "e;", "on", "il", "ck", "01", "in", "Mo",
    "fa", "00", "32", "la", ".1", "ri", "it", "%u", "le"]

  /** The character that stands for a dictionary token. */
  function TokenChar(index: nat): char
    requires index < |DICTIONARY|
  {
    (index + 1) as char
  }

  /** Every non-overlapping occurrence of a token, from the left. */
  function ReplaceAll(text: string, token: string, sub: char): string
    requires token != []
  {
    if |text| < |token| then text
    else if text[..|token|] == token then [sub] + ReplaceAll(text[|token|..], token, sub)
    else [text[0]] + ReplaceAll(text[1..], token, sub)
  }

  function ExpandChar(c: char): string {
    if 1 <= c as nat <= |DICTIONARY| then DICTIONARY[c as nat - 1] else [c]
  }

  /** Token characters turned back into their tokens. */
  function Expand(text: string): string {
    if text == [] then [] else ExpandChar(text[0]) + Expand(text[1..])
  }

  lemma {:induction false} ExpandConcat(a: string, b: string)
    ensures Expand(a + b) == Expand(a) + Expand(b)
  {
    hide ExpandChar;
    if a == [] {
      assert a + b == b;
    } else {
      ExpandConcat(a[1..], b);
      hide Expand;
      assert a + b == [a[0]] + (a[1..] + b) && a == [a[0]] + a[1..];
      ExpandFirst(a[0], a[1..] + b);
      ExpandFirst(a[0], a[1..]);
      Associative(ExpandChar(a[0]), Expand(a[1..]), Expand(b));
    }
  }

  lemma Associative(a: string, b: string, c: string)
    ensures (a + b) + c == a + (b + c)
  {
  }

  lemma ExpandFirst(c: char, rest: string)
    ensures Expand([c] + rest) == ExpandChar(c) + Expand(rest)
  {
    assert ([c] + rest)[1..] == rest;
  }

  lemma {:induction false} ExpandPlain(text: string)
    requires forall i :: 0 <= i < |text| ==> text[i] as nat >= 32
    ensures Expand(text) == text
  {
    if text != [] {
      ExpandPlain(text[1..]);
      assert text == [text[0]] + text[1..];
    }
  }

  predicate PlainToken(token: string) {
    1 < |token| <= 3 && forall i :: 0 <= i < |token| ==> token[i] as nat >= 32
  }

  lemma TokensArePlain(index: nat)
    requires index < |DICTIONARY|
    ensures |DICTIONARY| == 31 && PlainToken(DICTIONARY[index])
  {
  }

  /** Whatever the text, expanding after a replacement gives what expanding
      before it gives. */
  lemma ExpandReplaced(text: string, index: nat)
    requires index < |DICTIONARY| && DICTIONARY[index] != []
    ensures Expand(ReplaceAll(text, DICTIONARY[index], TokenChar(index))) == Expand(text)
  {
    hide Expand, ReplaceAll;
    TokensArePlain(index);
    ExpandSubstituted(text, DICTIONARY[index], TokenChar(index));
  }

  lemma {:induction false} ExpandSubstituted(text: string, token: string, sub: char)
    requires PlainToken(token) && ExpandChar(sub) == token
    ensures Expand(ReplaceAll(text, token, sub)) == Expand(text)
    decreases |text|
  {
    hide ExpandChar;
    if |text| >= |token| {
      hide Expand;
      if text[..|token|] == token {
        var tail := text[|token|..];
        ExpandSubstituted(tail, token, sub);
        ExpandPlain(token);
        ExpandConcat(token, tail);
        assert token + tail == text;
        ExpandFirst(sub, ReplaceAll(tail, token, sub));
      } else {
        ExpandSubstituted(text[1..], token, sub);
        assert text == [text[0]] + text[1..];
        ExpandFirst(text[0], text[1..]);
        ExpandFirst(text[0], ReplaceAll(text[1..], token, sub));
      }
    }
  }

  // ---- What a replacement is ----

  predicate OccursAt(text: string, token: string, i: int) {
    0 <= i && i + |token| <= |text| && text[i..i + |token|] == token
  }

  ghost predicate FreeOf(text: string, token: string) {
    forall i :: !OccursAt(text, token, i)
  }

  ghost predicate FirstAt(text: string, token: string, i: int) {
    OccursAt(text, token, i) && forall j :: 0 <= j < i ==> !OccursAt(text, token, j)
  }

  /** Every occurrence of the token, taken from the left, became the character, and
      nothing else changed. */
  ghost predicate IsReplacement(text: string, token: string, sub: char, result: string)
    requires token != []
    decreases |text|, 1
  {
    if FreeOf(text, token) then result == text
    else exists i :: ReplacedAt(text, token, sub, result, i)
  }

  ghost predicate ReplacedAt(text: string, token: string, sub: char, result: string, i: int)
    requires token != []
    decreases |text|, 0
  {
    && FirstAt(text, token, i) && i < |result| && result[..i] == text[..i] && result[i] == sub
    && IsReplacement(text[i + |token|..], token, sub, result[i + 1..])
  }

  lemma {:induction false} ReplaceAllReplaces(text: string, token: string, sub: char)
    requires token != []
    ensures IsReplacement(text, token, sub, ReplaceAll(text, token, sub))
    decreases |text|
  {
    if |text| >= |token| {
      var result := ReplaceAll(text, token, sub);
      if text[..|token|] == token {
        assert FirstAt(text, token, 0) && result[1..] == ReplaceAll(text[|token|..], token, sub);
        ReplaceAllReplaces(text[|token|..], token, sub);
        assert ReplacedAt(text, token, sub, result, 0);
      } else {
        ReplaceAllReplaces(text[1..], token, sub);
        assert result[1..] == ReplaceAll(text[1..], token, sub);
        ReplacedBehind(text, token, sub, result);
      }
    }
  }

  /** A character in front, at which the token does not start, stays. */
  lemma ReplacedBehind(text: string, token: string, sub: char, result: string)
    requires |text| >= |token| > 0 && text[..|token|] != token
    requires result != [] && result[0] == text[0] && IsReplacement(text[1..], token, sub, result[1..])
    ensures IsReplacement(text, token, sub, result)
  {
    hide OccursAt, FirstAt, ReplacedAt;
    var tail, rest := text[1..], result[1..];
    OccursLater(text, token);
    if FreeOf(tail, token) {
      assert result == [result[0]] + rest && text == [text[0]] + tail;
    } else {
      var i :| ReplacedAt(tail, token, sub, rest, i);
      ReplacedLater(text, token, sub, result, i);
      FirstOccurs(text, token, sub, result, i + 1);
    }
  }

  lemma FirstOccurs(text: string, token: string, sub: char, result: string, i: int)
    requires token != [] && ReplacedAt(text, token, sub, result, i)
    ensures !FreeOf(text, token)
  {
  }

  lemma ReplacedLater(text: string, token: string, sub: char, result: string, i: int)
    requires |text| >= |token| > 0 && text[..|token|] != token && result != [] && result[0] == text[0]
    requires ReplacedAt(text[1..], token, sub, result[1..], i)
    ensures ReplacedAt(text, token, sub, result, i + 1)
  {
    hide IsReplacement;
    SameBehind(text, i + |token|);
    SameBehind(result, i + 1);
    SameBefore(text, result, i);
    hide OccursAt;
    OccursLater(text, token);
  }

  lemma SameBehind(s: string, n: nat)
    requires n < |s|
    ensures s[1..][n..] == s[1 + n..] == s[n + 1..]
  {
  }

  lemma SameBefore(s: string, t: string, n: nat)
    requires n < |s| && n < |t| && s[0] == t[0] && s[1..][..n] == t[1..][..n]
    ensures s[..n + 1] == t[..n + 1]
  {
    assert s[..n + 1] == [s[0]] + s[1..][..n] && t[..n + 1] == [t[0]] + t[1..][..n];
  }

  lemma OccursLater(text: string, token: string)
    requires |text| >= |token| > 0 && text[..|token|] != token
    ensures forall i :: OccursAt(text, token, i) ==> i >= 1
    ensures forall i :: OccursAt(text, token, i) <==> OccursAt(text[1..], token, i - 1)
    ensures forall i :: OccursAt(text[1..], token, i) ==> i >= 0 && OccursAt(text, token, i + 1)
  {
    hide OccursAt;
    forall i
      ensures OccursAt(text, token, i) ==> i >= 1
      ensures OccursAt(text, token, i) <==> OccursAt(text[1..], token, i - 1)
    {
      NotAtStart(text, token, i);
      OccursShifted(text, 1, token, i - 1);
    }
    forall i
      ensures OccursAt(text[1..], token, i) ==> i >= 0 && OccursAt(text, token, i + 1)
    {
      OccursShifted(text, 1, token, i);
    }
  }

  lemma NotAtStart(text: string, token: string, i: int)
    requires |text| >= |token| > 0 && text[..|token|] != token
    ensures OccursAt(text, token, i) ==> i >= 1
    ensures OccursAt(text[1..], token, i - 1) ==> i >= 1
  {
  }

  lemma OccursShifted(text: string, n: nat, token: string, i: int)
    requires n <= |text|
    ensures OccursAt(text[n..], token, i) <==> i >= 0 && OccursAt(text, token, n + i)
  {
    if i >= 0 && n + i + |token| <= |text| {
      assert text[n..][i..i + |token|] == text[n + i..n + i + |token|];
    }
  }

  /** A replacement brings nothing into the text that contains no token character. */
  lemma {:induction false} PrefixOfReplaced(text: string, token: string, sub: char, prefix: string)
    requires token != [] && sub !in prefix && prefix <= ReplaceAll(text, token, sub)
    ensures prefix <= text
    decreases |text|
  {
    if |text| >= |token| && prefix != [] {
      var replaced := ReplaceAll(text, token, sub);
      assert prefix[0] == replaced[0] && prefix[0] in prefix;
      assert text[..|token|] != token;
      assert prefix[1..] <= ReplaceAll(text[1..], token, sub);
      PrefixOfReplaced(text[1..], token, sub, prefix[1..]);
      assert prefix == [prefix[0]] + prefix[1..] && text == [text[0]] + text[1..];
    }
  }

  /** After a replacement its token does not occur, nor does any other that did
      not occur before. */
  lemma {:induction false} ReplacedFree(text: string, token: string, sub: char, other: string)
    requires token != [] && other != [] && sub !in other
    requires other == token || FreeOf(text, other)
    ensures FreeOf(ReplaceAll(text, token, sub), other)
    decreases |text|
  {
    hide OccursAt;
    if |text| < |token| {
      TooShort(text, token);
    } else {
      var tail := if text[..|token|] == token then text[|token|..] else text[1..];
      if other != token {
        TailFree(text, |text| - |tail|, other);
      }
      ReplacedFree(tail, token, sub, other);
      var replaced := ReplaceAll(text, token, sub);
      assert replaced[1..] == ReplaceAll(tail, token, sub);
      NotInFront(text, token, sub, other);
      FreeBehind(replaced, other);
    }
  }

  lemma TooShort(text: string, token: string)
    requires |text| < |token|
    ensures FreeOf(text, token)
  {
  }

  lemma NotInFront(text: string, token: string, sub: char, other: string)
    requires |text| >= |token| > 0 && other != [] && sub !in other
    requires other == token || FreeOf(text, other)
    ensures !(other <= ReplaceAll(text, token, sub))
  {
    hide FreeOf;
    var replaced := ReplaceAll(text, token, sub);
    if other <= replaced {
      assert other[0] == replaced[0] && other[0] in other;
      PrefixOfReplaced(text, token, sub, other);
      if other != token {
        FreeInFront(text, other);
      }
      assert false;
    }
  }

  lemma FreeInFront(text: string, other: string)
    requires FreeOf(text, other)
    ensures !(other <= text)
  {
    if other <= text {
      assert OccursAt(text, other, 0);
      assert false;
    }
  }

  lemma FreeBehind(text: string, other: string)
    requires text != [] && other != [] && !(other <= text) && FreeOf(text[1..], other)
    ensures FreeOf(text, other)
  {
    forall i
      ensures !OccursAt(text, other, i)
    {
      OccursShifted(text, 1, other, i - 1);
    }
  }

  lemma TailFree(text: string, n: nat, other: string)
    requires n <= |text| && FreeOf(text, other)
    ensures FreeOf(text[n..], other)
  {
    hide OccursAt;
    forall i
      ensures !OccursAt(text[n..], other, i)
    {
      OccursShifted(text, n, other, i);
    }
  }

  /** The first n dictionary tokens replaced in their order. */
  ghost predicate SubstitutedFrom(raw: string, replaced: string, n: nat)
    requires n <= |DICTIONARY|
  {
    exists stages :: AreStages(stages, raw, n) && stages[n] == replaced
  }

  ghost predicate AreStages(stages: seq<string>, raw: string, n: nat)
    requires n <= |DICTIONARY|
  {
    && |stages| == n + 1 && stages[0] == raw
    && forall i :: 0 <= i < n ==> DICTIONARY[i] != [] && IsReplacement(stages[i], DICTIONARY[i], TokenChar(i), stages[i + 1])
  }

  /** None of the first n tokens is left anywhere. */
  ghost predicate TokenFree(text: string, n: nat)
    requires n <= |DICTIONARY|
  {
    forall index :: 0 <= index < n ==> FreeOf(text, DICTIONARY[index])
  }

  lemma OneMoreToken(raw: string, before: string, index: nat)
    requires index < |DICTIONARY| && DICTIONARY[index] != []
    requires SubstitutedFrom(raw, before, index) && TokenFree(before, index)
    ensures var after := ReplaceAll(before, DICTIONARY[index], TokenChar(index));
            SubstitutedFrom(raw, after, index + 1) && TokenFree(after, index + 1)
  {
    hide ReplaceAll, FreeOf, IsReplacement;
    var token, sub := DICTIONARY[index], TokenChar(index);
    var after := ReplaceAll(before, token, sub);
    ReplaceAllReplaces(before, token, sub);
    var stages :| AreStages(stages, raw, index) && stages[index] == before;
    assert AreStages(stages + [after], raw, index + 1);
    forall i | 0 <= i < index + 1
      ensures FreeOf(after, DICTIONARY[i])
    {
      TokensArePlain(i);
      ReplacedFree(before, token, sub, DICTIONARY[i]);
    }
  }

  /** Payload characters and token characters: what the encoder is given. */
  predicate Substituted(text: string) {
    forall i :: 0 <= i < |text| ==> PayloadChar(text[i]) || 1 <= text[i] as nat <= 31
  }

  lemma {:induction false} ReplaceKeepsSubstituted(text: string, token: string, sub: char)
    requires token != [] && Substituted(text) && 1 <= sub as nat <= 31
    ensures Substituted(ReplaceAll(text, token, sub))
    decreases |text|
  {
    if |text| >= |token| {
      if text[..|token|] == token {
        ReplaceKeepsSubstituted(text[|token|..], token, sub);
      } else {
        ReplaceKeepsSubstituted(text[1..], token, sub);
      }
    }
  }

  lemma SubstitutedEncodable(text: string)
    requires Substituted(text)
    ensures Encodable(text) && '\0' !in text
  {
    forall i | 0 <= i < |text|
      ensures CodeOf(text[i] as int).Some? && text[i] != '\0'
    {
      PayloadCharCoded(text[i]);
    }
  }

  lemma PayloadCharCoded(c: char)
    requires PayloadChar(c) || 1 <= c as nat <= 31
    ensures CodeOf(c as int).Some? && c != '\0'
  {
  }

  // ---- The fingerprint ----

  /** Decodes a fingerprint without its three checksum characters. */
  function Restore(encoded: string): Option<string> {
    var text := Decode(encoded);
    if text.None? then None else Some(Expand(text.value))
  }

  /** Replaces the tokens one after the other, in the order of the dictionary. */
  method Substitute(raw: string) returns (replaced: string)
    requires PayloadText(raw)
    ensures Substituted(replaced) && Expand(replaced) == raw
    ensures SubstitutedFrom(raw, replaced, |DICTIONARY|) && TokenFree(replaced, |DICTIONARY|)
  {
    hide PayloadChar, ReplaceAll, ExpandChar, SubstitutedFrom, TokenFree;
    NothingReplaced(raw);
    ExpandPayload(raw);
    replaced := raw;
    for index := 0 to |DICTIONARY|
      invariant Substituted(replaced)
      invariant Expand(replaced) == raw
      invariant SubstitutedFrom(raw, replaced, index) && TokenFree(replaced, index)
    {
      TokensArePlain(index);
      ExpandReplaced(replaced, index);
      ReplaceKeepsSubstituted(replaced, DICTIONARY[index], TokenChar(index));
      OneMoreToken(raw, replaced, index);
      replaced := ReplaceAll(replaced, DICTIONARY[index], TokenChar(index));
    }
  }

  lemma NothingReplaced(raw: string)
    ensures SubstitutedFrom(raw, raw, 0) && TokenFree(raw, 0)
  {
    assert AreStages([raw], raw, 0);
  }

  lemma ExpandPayload(raw: string)
    requires PayloadText(raw)
    ensures Substituted(raw) && Expand(raw) == raw && Ascii(raw)
  {
    forall i | 0 <= i < |raw|
      ensures 32 <= raw[i] as nat < 128
    {
      assert PayloadChar(raw[i]);
    }
    ExpandPlain(raw);
  }

  /** Always encodes a payload, and the payload comes back. */
  method CompressedFingerprint(raw: string) returns (fingerprint: string)
    requires PayloadText(raw)
    ensures |fingerprint| >= 3
    ensures Restore(fingerprint[..|fingerprint| - 3]) == Some(raw)
    ensures var text := Decode(fingerprint[..|fingerprint| - 3]);
            text.Some? && SubstitutedFrom(raw, text.value, |DICTIONARY|) && TokenFree(text.value, |DICTIONARY|)
    ensures fingerprint[|fingerprint| - 3..] == ChecksumText(Checksum(raw))
  {
    hide PayloadChar, Expand, CodeOf, Decode, Checksum, SubstitutedFrom, TokenFree;
    var replaced := Substitute(raw);
    var encoded, ok := Huffman(replaced);
    SubstitutedEncodable(replaced);
    if !ok {
      return raw;
    }
    DecodeEncoded(replaced, encoded);
    ExpandPayload(raw);
    var checksum := ComputeChecksum(raw);
    var tail := ChecksumText(checksum);
    fingerprint := encoded + tail;
    assert fingerprint[..|fingerprint| - 3] == encoded;
    assert fingerprint[|fingerprint| - 3..] == tail;
  }
}
