/** Keys of hidden messages: generation, alias and UID in one string. */
module MailKeys {
  import opened Wrappers

  const UID_LIMIT: nat := 0x1_0000_0000

  function DigitChar(d: nat): (c: char)
    requires d < 10
    ensures c != ':'
  {
    ('0' as nat + d) as char
  }

  /** Decimal digits without leading zeros. */
  function Decimal(n: nat): (s: string)
    ensures s != [] && ':' !in s
  {
    if n < 10 then [DigitChar(n)] else Decimal(n / 10) + [DigitChar(n % 10)]
  }

  function DigitValue(c: char): Option<nat> {
    if '0' <= c <= '9' then Some(c as nat - '0' as nat) else None
  }

  function Digits(s: string): Option<nat> {
    if s == [] then Some(0)
    else
      var front, last := Digits(s[..|s| - 1]), DigitValue(s[|s| - 1]);
      if front.Some? && last.Some? then Some(front.value * 10 + last.value) else None
  }

  /** strconv.ParseUint of 32 bits in base ten. */
  function ParseUid(s: string): Option<nat> {
    var n := Digits(s);
    if s == [] || n.None? || n.value >= UID_LIMIT then None else n
  }

  lemma {:induction false} DigitsOfDecimal(n: nat)
    ensures Digits(Decimal(n)) == Some(n)
  {
    if n >= 10 {
      DigitsOfDecimal(n / 10);
      assert Decimal(n)[..|Decimal(n)| - 1] == Decimal(n / 10);
    } else {
      assert Decimal(n)[..0] == [];
    }
  }

  function Key(generation: string, alias: string, uid: nat): string {
    generation + ":" + alias + ":" + Decimal(uid)
  }

  /** The position of the last colon, or -1. */
  function LastColon(s: string): (i: int)
    ensures -1 <= i < |s|
    ensures i >= 0 ==> s[i] == ':' && ':' !in s[i + 1..]
    ensures i < 0 ==> ':' !in s
  {
    if s == [] then -1
    else if s[|s| - 1] == ':' then |s| - 1
    else
      var i := LastColon(s[..|s| - 1]);
      assert i >= 0 ==> s[i + 1..] == s[..|s| - 1][i + 1..] + [s[|s| - 1]];
      assert s == s[..|s| - 1] + [s[|s| - 1]];
      i
  }

  /** The alias and UID of a key of this generation. The alias may itself hold
      colons: the last one separates. */
  function ParseKey(generation: string, key: string): Option<(string, nat)> {
    var prefix := generation + ":";
    if !(prefix <= key) then None
    else
      var remainder := key[|prefix|..];
      var index := LastColon(remainder);
      if index < 1 then None
      else
        var uid := ParseUid(remainder[index + 1..]);
        var alias := remainder[..index];
        if uid.None? || alias == "" then None else Some((alias, uid.value))
  }

  lemma ParseOfKey(generation: string, alias: string, uid: nat)
    requires alias != "" && uid < UID_LIMIT
    ensures ParseKey(generation, Key(generation, alias, uid)) == Some((alias, uid))
  {
    hide Decimal, Digits, LastColon;
    var prefix, digits := generation + ":", Decimal(uid);
    var key := Key(generation, alias, uid);
    var remainder := alias + ":" + digits;
    assert key == prefix + remainder;
    assert key[|prefix|..] == remainder;
    LastColonOf(alias, digits);
    assert remainder[|alias| + 1..] == digits && remainder[..|alias|] == alias;
    DigitsOfDecimal(uid);
  }

  lemma {:induction false} LastColonOf(alias: string, digits: string)
    requires ':' !in digits
    ensures LastColon(alias + ":" + digits) == |alias|
  {
    var s := alias + ":" + digits;
    if digits != [] {
      var n := |digits| - 1;
      LastColonOf(alias, digits[..n]);
      assert s[..|s| - 1] == alias + ":" + digits[..n];
      assert s[|s| - 1] == digits[n];
    }
  }

  /** Within a generation a key names one alias and one UID. */
  lemma KeyInjective(generation: string, alias: string, uid: nat, alias': string, uid': nat)
    requires alias != "" && alias' != "" && uid < UID_LIMIT && uid' < UID_LIMIT
    requires Key(generation, alias, uid) == Key(generation, alias', uid')
    ensures alias == alias' && uid == uid'
  {
    ParseOfKey(generation, alias, uid);
    ParseOfKey(generation, alias', uid');
  }

  /** Lexicographic order of keys. */
  predicate Before(a: string, b: string) {
    a == [] || (b != [] && (a[0] < b[0] || (a[0] == b[0] && Before(a[1..], b[1..]))))
  }

  ghost predicate NoRepeats(keys: seq<string>) {
    forall i, j :: 0 <= i < j < |keys| ==> keys[i] != keys[j]
  }

  function InsertKey(k: string, s: seq<string>): (r: seq<string>)
    ensures forall x :: x in r <==> x == k || x in s
    ensures NoRepeats(s) && k !in s ==> NoRepeats(r)
  {
    if s == [] || Before(k, s[0]) then [k] + s
    else
      var tail := InsertKey(k, s[1..]);
      assert forall j :: 0 <= j < |tail| ==> tail[j] in tail;
      [s[0]] + tail
  }

  function SortKeys(s: seq<string>): (r: seq<string>)
    ensures forall x :: x in r <==> x in s
    ensures NoRepeats(s) ==> NoRepeats(r)
  {
    if s == [] then [] else InsertKey(s[0], SortKeys(s[1..]))
  }
}
