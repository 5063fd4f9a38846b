/** The cookies of an Apple session. They sit in a growing array that is edited in
    place, so two holders of the array see each other's edits. */
module CookieJar {

  datatype Cookie = Cookie(name: string, value: string, domain: string, path: string, expires: int)

  /** A cookie as a response sets it. */
  datatype SetCookie = SetCookie(name: string, value: string, domain: string, path: string, expires: int)

  // ---- Which cookie replaces which ----

  function LowerChar(c: char): char {
    if 'A' <= c <= 'Z' then (c as int - 'A' as int + 'a' as int) as char else c
  }

  function Lower(s: string): string {
    if s == [] then [] else [LowerChar(s[0])] + Lower(s[1..])
  }

  function WithoutDot(domain: string): string {
    if domain != [] && domain[0] == '.' then domain[1..] else domain
  }

  datatype Key = Key(name: string, domain: string, path: string)

  /** Same name, same path, and the same domain apart from case and one leading dot. */
  function KeyOf(cookie: Cookie): Key {
    Key(cookie.name, Lower(WithoutDot(cookie.domain)), cookie.path)
  }

  function Received(item: SetCookie, host: string): Cookie {
    Cookie(item.name, item.value, if item.domain == "" then host else item.domain,
           if item.path == "" then "/" else item.path, item.expires)
  }

  /** The same text apart from the case of letters. */
  ghost predicate Caseless(s: string, t: string) {
    && |s| == |t|
    && forall i :: 0 <= i < |s| ==>
         s[i] == t[i] || ('A' <= s[i] <= 'Z' && t[i] as int == s[i] as int + 32) || ('A' <= t[i] <= 'Z' && s[i] as int == t[i] as int + 32)
  }

  lemma {:induction false} LowerCaseless(s: string, t: string)
    ensures Lower(s) == Lower(t) <==> Caseless(s, t)
  {
    if s != [] && t != [] {
      LowerCaseless(s[1..], t[1..]);
      var ls, lt := Lower(s), Lower(t);
      assert ls == [LowerChar(s[0])] + Lower(s[1..]) && lt == [LowerChar(t[0])] + Lower(t[1..]);
      assert ls[1..] == Lower(s[1..]) && lt[1..] == Lower(t[1..]);
      assert Caseless(s, t) <==> Caseless([s[0]], [t[0]]) && Caseless(s[1..], t[1..]) by {
        assert s == [s[0]] + s[1..] && t == [t[0]] + t[1..];
      }
    }
  }

  /** Which cookies count as the same, and what is stored for a received one. */
  lemma SameKey(a: Cookie, b: Cookie, rest: string)
    ensures KeyOf(a) == KeyOf(b) <==> a.name == b.name && a.path == b.path && Caseless(WithoutDot(a.domain), WithoutDot(b.domain))
    ensures WithoutDot(['.'] + rest) == rest
    ensures rest == [] || rest[0] != '.' ==> WithoutDot(rest) == rest
  {
    LowerCaseless(WithoutDot(a.domain), WithoutDot(b.domain));
  }

  lemma ReceivedCookie(name: string, value: string, domain: string, path: string, expires: int, host: string)
    ensures domain != "" && path != "" ==>
              Received(SetCookie(name, value, domain, path, expires), host) == Cookie(name, value, domain, path, expires)
    ensures Received(SetCookie(name, value, "", "", expires), host) == Cookie(name, value, host, "/", expires)
    ensures path != "" ==> Received(SetCookie(name, value, "", path, expires), host) == Cookie(name, value, host, path, expires)
    ensures domain != "" ==> Received(SetCookie(name, value, domain, "", expires), host) == Cookie(name, value, domain, "/", expires)
  {
  }

  ghost predicate OnePerKey(jar: seq<Cookie>) {
    forall i, j :: 0 <= i < j < |jar| ==> KeyOf(jar[i]) != KeyOf(jar[j])
  }

  // ---- The jar after a response ----

  /** The position of the first cookie with a key, or the length. */
  function Position(jar: seq<Cookie>, key: Key): (i: nat)
    ensures i <= |jar|
    ensures i < |jar| ==> KeyOf(jar[i]) == key
    ensures forall j :: 0 <= j < i ==> KeyOf(jar[j]) != key
  {
    if jar == [] || KeyOf(jar[0]) == key then 0 else 1 + Position(jar[1..], key)
  }

  /** An empty value deletes; a new key is appended. */
  function Stored(jar: seq<Cookie>, next: Cookie): seq<Cookie> {
    var i := Position(jar, KeyOf(next));
    if i < |jar| then
      if next.value == "" then jar[..i] + jar[i + 1..] else jar[i := next]
    else if next.value == "" then jar else jar + [next]
  }

  function Merged(jar: seq<Cookie>, host: string, items: seq<SetCookie>): seq<Cookie> {
    if items == [] then jar
    else Stored(Merged(jar, host, items[..|items| - 1]), Received(items[|items| - 1], host))
  }

  /** The cookie of a key that a response leaves: its last word on that key, or
      else what the jar held. */
  ghost predicate Leaves(jar: seq<Cookie>, host: string, items: seq<SetCookie>, cookie: Cookie) {
    if exists i :: 0 <= i < |items| && KeyOf(Received(items[i], host)) == KeyOf(cookie) then
      cookie.value != "" && exists i :: IsLastWord(items, host, i, cookie)
    else cookie in jar
  }

  ghost predicate IsLastWord(items: seq<SetCookie>, host: string, i: nat, cookie: Cookie) {
    && i < |items| && Received(items[i], host) == cookie
    && forall j :: i < j < |items| ==> KeyOf(Received(items[j], host)) != KeyOf(cookie)
  }

  lemma StoredKeepsKeys(jar: seq<Cookie>, next: Cookie)
    requires OnePerKey(jar)
    ensures OnePerKey(Stored(jar, next))
    ensures forall c :: c in Stored(jar, next) <==>
              if KeyOf(c) == KeyOf(next) then c == next && c.value != "" else c in jar
  {
    hide Lower, WithoutDot, KeyOf;
    var i := Position(jar, KeyOf(next));
    if i < |jar| {
      forall c
        ensures c in Stored(jar, next) <==> if KeyOf(c) == KeyOf(next) then c == next && c.value != "" else c in jar
      {
        if c in jar && KeyOf(c) != KeyOf(next) {
          var j :| 0 <= j < |jar| && jar[j] == c;
          assert j != i;
          if next.value == "" {
            assert j < i ==> c in jar[..i];
            assert j > i ==> jar[i + 1..][j - i - 1] == c;
          } else {
            assert jar[i := next][j] == c;
          }
        }
        if next.value != "" {
          assert jar[i := next][i] == next;
        }
      }
    }
  }

  /** A merge keeps one cookie a key, and says exactly which. */
  lemma {:induction false} MergedExactly(jar: seq<Cookie>, host: string, items: seq<SetCookie>, cookie: Cookie)
    requires OnePerKey(jar)
    ensures OnePerKey(Merged(jar, host, items))
    ensures cookie in Merged(jar, host, items) <==> Leaves(jar, host, items, cookie)
  {
    hide Lower, WithoutDot, KeyOf, Stored, Received;
    if items != [] {
      var n := |items| - 1;
      var front := items[..n];
      MergedExactly(jar, host, front, cookie);
      StoredKeepsKeys(Merged(jar, host, front), Received(items[n], host));
      LeavesSnoc(jar, host, front, items[n], cookie);
      assert items == front + [items[n]];
    }
  }

  lemma LeavesSnoc(jar: seq<Cookie>, host: string, front: seq<SetCookie>, last: SetCookie, cookie: Cookie)
    ensures Leaves(jar, host, front + [last], cookie) <==>
            if KeyOf(cookie) == KeyOf(Received(last, host)) then cookie == Received(last, host) && cookie.value != ""
            else Leaves(jar, host, front, cookie)
  {
    hide Lower, WithoutDot, KeyOf, Received;
    var items := front + [last];
    var n := |front|;
    assert items[n] == last;
    if KeyOf(cookie) == KeyOf(Received(last, host)) {
      assert IsLastWord(items, host, n, Received(last, host));
      if exists i :: IsLastWord(items, host, i, cookie) {
        var i :| IsLastWord(items, host, i, cookie);
        assert i == n;
      }
    } else {
      if exists i :: 0 <= i < n && KeyOf(Received(front[i], host)) == KeyOf(cookie) {
        var i :| 0 <= i < n && KeyOf(Received(front[i], host)) == KeyOf(cookie);
        assert KeyOf(Received(items[i], host)) == KeyOf(cookie);
      }
      forall i: nat
        ensures IsLastWord(items, host, i, cookie) <==> IsLastWord(front, host, i, cookie)
      {
        if IsLastWord(front, host, i, cookie) {
          assert items[i] == front[i];
        }
        if i < n && IsLastWord(items, host, i, cookie) {
          forall j | i < j < n
            ensures KeyOf(Received(front[j], host)) != KeyOf(cookie)
          {
            assert items[j] == front[j];
          }
        }
      }
    }
  }

  // ---- The array ----

  /** A view of the first elements of an array; appending may fill the rest. */
  datatype Slice = Slice(data: array<Cookie>, len: nat)

  ghost predicate ValidSlice(slice: Slice) {
    slice.len <= slice.data.Length
  }

  function Contents(slice: Slice): seq<Cookie>
    requires ValidSlice(slice)
    reads slice.data
  {
    slice.data[..slice.len]
  }

  const NO_COOKIE := Cookie("", "", "", "", 0)

  /** A copy in an array of its own. */
  method Clone(slice: Slice) returns (copy: Slice)
    requires ValidSlice(slice)
    ensures ValidSlice(copy) && fresh(copy.data) && Contents(copy) == Contents(slice)
  {
    var data := new Cookie[slice.len](_ => NO_COOKIE);
    for i := 0 to slice.len
      invariant data[..i] == slice.data[..i]
    {
      data[i] := slice.data[i];
    }
    copy := Slice(data, slice.len);
  }

  /** Writes behind the last element while there is room, and moves otherwise. */
  method Append(slice: Slice, cookie: Cookie) returns (longer: Slice)
    requires ValidSlice(slice)
    modifies slice.data
    ensures ValidSlice(longer) && Contents(longer) == old(Contents(slice)) + [cookie]
    ensures longer.data == slice.data || fresh(longer.data)
  {
    if slice.len < slice.data.Length {
      slice.data[slice.len] := cookie;
      return Slice(slice.data, slice.len + 1);
    }
    var data := new Cookie[2 * slice.len + 1](_ => NO_COOKIE);
    for i := 0 to slice.len
      invariant slice.data[..] == old(slice.data[..])
      invariant data[..i] == slice.data[..i]
    {
      data[i] := slice.data[i];
    }
    data[slice.len] := cookie;
    longer := Slice(data, slice.len + 1);
  }

  /** Moves the elements behind a position down by one, in place. */
  method RemoveAt(slice: Slice, index: nat) returns (shorter: Slice)
    requires ValidSlice(slice) && index < slice.len
    modifies slice.data
    ensures shorter == Slice(slice.data, slice.len - 1)
    ensures Contents(shorter) == old(Contents(slice))[..index] + old(Contents(slice))[index + 1..]
  {
    var i := index;
    while i < slice.len - 1
      invariant index <= i < slice.len
      invariant slice.data[..i] == old(slice.data[..])[..index] + old(slice.data[..])[index + 1..i + 1]
      invariant slice.data[i + 1..] == old(slice.data[..])[i + 1..]
    {
      assert slice.data[i + 1] == slice.data[i + 1..][0];
      slice.data[i] := slice.data[i + 1];
      i := i + 1;
    }
    shorter := Slice(slice.data, slice.len - 1);
  }

  /** Merges the cookies of a response into the jar, editing its array in place. */
  method MergeCookies(target: Slice, host: string, items: seq<SetCookie>) returns (merged: Slice)
    requires ValidSlice(target)
    modifies target.data
    ensures ValidSlice(merged) && Contents(merged) == Merged(old(Contents(target)), host, items)
    ensures merged.data == target.data || fresh(merged.data)
  {
    hide Lower, WithoutDot, KeyOf, Received;
    merged := target;
    for n := 0 to |items|
      invariant ValidSlice(merged) && Contents(merged) == Merged(old(Contents(target)), host, items[..n])
      invariant merged.data == target.data || fresh(merged.data)
    {
      var next := Received(items[n], host);
      ghost var before := Contents(merged);
      assert items[..n + 1][..n] == items[..n];
      var replaced := false;
      var index := 0;
      while index < merged.len && !replaced
        invariant 0 <= index <= merged.len && !replaced
        invariant Contents(merged) == before
        invariant forall j :: 0 <= j < index ==> KeyOf(before[j]) != KeyOf(next)
        decreases merged.len - index
      {
        if KeyOf(merged.data[index]) == KeyOf(next) {
          replaced := true;
          break;
        }
        index := index + 1;
      }
      PositionIs(before, KeyOf(next), index);
      if replaced {
        if next.value == "" {
          merged := RemoveAt(merged, index);
        } else {
          merged.data[index] := next;
        }
      } else if next.value != "" {
        merged := Append(merged, next);
      }
    }
    assert items[..|items|] == items;
  }

  lemma {:induction false} PositionIs(jar: seq<Cookie>, key: Key, index: nat)
    requires index <= |jar| && (index < |jar| ==> KeyOf(jar[index]) == key)
    requires forall j :: 0 <= j < index ==> KeyOf(jar[j]) != key
    ensures Position(jar, key) == index
  {
    hide Lower, WithoutDot, KeyOf;
  }
}
