/** Cached mail messages, their order, and the aliases that a cache keeps on
    them. Aliases are lower-cased and trimmed where they come from. */
module MailMessages {

  /** A list of codes. The code tells an absent list from an empty one. */
  datatype TextList = Absent | Present(items: seq<string>)

  /** `content` stands for sender, subject and text. */
  datatype Message = Message(uid: nat, aliases: seq<string>, date: int, content: string,
                             codes: TextList, partnerCodes: TextList)

  const ALIAS_MAXIMUM: nat := 100

  // ---- Order ----

  predicate Newer(a: Message, b: Message) {
    a.date > b.date || (a.date == b.date && a.uid > b.uid)
  }

  ghost predicate Descending(s: seq<Message>) {
    forall i, j :: 0 <= i < j < |s| ==> Newer(s[i], s[j])
  }

  ghost predicate DistinctUids(s: seq<Message>) {
    forall i, j :: 0 <= i < j < |s| ==> s[i].uid != s[j].uid
  }

  function Insert(m: Message, s: seq<Message>): (r: seq<Message>)
    ensures |r| == |s| + 1
    ensures forall x :: x in r <==> x == m || x in s
  {
    if s == [] || Newer(m, s[0]) then [m] + s else [s[0]] + Insert(m, s[1..])
  }

  /** Newest first; the order of the input does not matter. */
  function SortNewest(s: seq<Message>): (r: seq<Message>)
    ensures |r| == |s|
    ensures forall x :: x in r <==> x in s
  {
    if s == [] then [] else Insert(s[0], SortNewest(s[1..]))
  }

  lemma {:induction false} InsertDescending(m: Message, s: seq<Message>)
    requires Descending(s) && forall x :: x in s ==> x.uid != m.uid
    ensures Descending(Insert(m, s))
  {
    if s != [] && !Newer(m, s[0]) {
      InsertDescending(m, s[1..]);
      var tail := Insert(m, s[1..]);
      forall j | 0 <= j < |tail|
        ensures Newer(s[0], tail[j])
      {
        assert tail[j] in tail;
        assert tail[j] == m || tail[j] in s[1..];
      }
    }
  }

  lemma {:induction false} SortDescending(s: seq<Message>)
    requires DistinctUids(s)
    ensures Descending(SortNewest(s))
  {
    if s != [] {
      SortDescending(s[1..]);
      InsertDescending(s[0], SortNewest(s[1..]));
    }
  }

  lemma HasElement<T(!new)>(s: seq<T>)
    requires s != []
    ensures exists x :: x in s
  {
    assert s[0] in s;
  }

  lemma NoElement<T(!new)>(s: seq<T>)
    requires forall x :: x !in s
    ensures s == []
  {
    if s != [] {
      HasElement(s);
      assert false;
    }
  }

  lemma {:induction false} SortDistinct(s: seq<Message>)
    requires DistinctUids(s)
    ensures DistinctUids(SortNewest(s))
  {
    if s != [] {
      SortDistinct(s[1..]);
      InsertDistinct(s[0], SortNewest(s[1..]));
    }
  }

  lemma {:induction false} InsertDistinct(m: Message, s: seq<Message>)
    requires DistinctUids(s) && forall x :: x in s ==> x.uid != m.uid
    ensures DistinctUids(Insert(m, s))
  {
    if s != [] && !Newer(m, s[0]) {
      InsertDistinct(m, s[1..]);
      var tail := Insert(m, s[1..]);
      forall j | 0 <= j < |tail|
        ensures s[0].uid != tail[j].uid
      {
        assert tail[j] in tail;
        assert tail[j] == m || tail[j] in s[1..];
      }
    }
  }

  /** A descending sequence is determined by its elements. */
  lemma {:induction false} DescendingUnique(a: seq<Message>, b: seq<Message>)
    requires Descending(a) && Descending(b)
    requires forall x :: x in a <==> x in b
    ensures a == b
  {
    if a == [] {
      NoElement(b);
    } else {
      assert a[0] in b;
      assert b != [] && b[0] in a;
      assert a[0] == b[0];
      forall x
        ensures x in a[1..] <==> x in b[1..]
      {
        assert x in a[1..] <==> x in a && x != a[0];
        assert x in b[1..] <==> x in b && x != b[0];
      }
      DescendingUnique(a[1..], b[1..]);
    }
  }

  // ---- Copies of messages ----

  /** Appending a list to nothing loses that it was there when it is empty. */
  function CopiedList(list: TextList): TextList {
    if list == Present([]) then Absent else list
  }

  function Copied(m: Message): Message {
    m.(codes := CopiedList(m.codes), partnerCodes := CopiedList(m.partnerCodes))
  }

  function Copies(s: seq<Message>): (r: seq<Message>)
    ensures |r| == |s| && forall i :: 0 <= i < |s| ==> r[i] == Copied(s[i])
  {
    seq(|s|, i requires 0 <= i < |s| => Copied(s[i]))
  }

  predicate HasEmptyList(m: Message) {
    m.codes == Present([]) || m.partnerCodes == Present([])
  }

  /** A copy equals the original exactly when no message has an empty list. */
  lemma CopiesEqual(s: seq<Message>)
    ensures Copies(s) == s <==> forall m :: m in s ==> !HasEmptyList(m)
  {
    if forall m :: m in s ==> !HasEmptyList(m) {
      forall i | 0 <= i < |s|
        ensures Copies(s)[i] == s[i]
      {
        assert s[i] in s;
      }
    } else {
      var m :| m in s && HasEmptyList(m);
      var i :| 0 <= i < |s| && s[i] == m;
      assert Copies(s)[i] != s[i];
    }
  }

  function DisplayedList(list: TextList): TextList {
    if list == Absent then Present([]) else list
  }

  /** A message as a reader gets it: no list is absent. */
  function Displayed(m: Message): Message {
    m.(codes := DisplayedList(m.codes), partnerCodes := DisplayedList(m.partnerCodes))
  }

  function DisplayedAll(s: seq<Message>): (r: seq<Message>)
    ensures |r| == |s| && forall i :: 0 <= i < |s| ==> r[i] == Displayed(s[i])
  {
    seq(|s|, i requires 0 <= i < |s| => Displayed(s[i]))
  }

  // ---- Aliases that a message keeps ----

  /** How many messages of a sequence carry an alias. */
  function Carriers(s: seq<Message>, a: string): nat {
    if s == [] then 0
    else Carriers(s[..|s| - 1], a) + if a in s[|s| - 1].aliases then 1 else 0
  }

  lemma CarriersSnoc(s: seq<Message>, m: Message, a: string)
    ensures Carriers(s + [m], a) == Carriers(s, a) + if a in m.aliases then 1 else 0
  {
    assert (s + [m])[..|s|] == s;
  }

  /** An alias stays on a message while fewer than the maximum of the earlier
      messages carry it; repetitions are dropped. */
  function Kept(earlier: seq<Message>, aliases: seq<string>, seen: set<string>): (kept: seq<string>)
    ensures forall a :: a in kept <==> a in aliases && a != "" && a !in seen && Carriers(earlier, a) < ALIAS_MAXIMUM
  {
    if aliases == [] then []
    else
      var a := aliases[0];
      if a == "" || a in seen || Carriers(earlier, a) >= ALIAS_MAXIMUM then Kept(earlier, aliases[1..], seen)
      else [a] + Kept(earlier, aliases[1..], seen + {a})
  }

  function KeptOn(earlier: seq<Message>, m: Message): Message {
    m.(aliases := Kept(earlier, m.aliases, {}))
  }

  /** The messages of a newest-first sequence that keep an alias. */
  function Retained(earlier: seq<Message>, s: seq<Message>): (r: seq<Message>)
    ensures |r| <= |s|
    decreases s
  {
    if s == [] then []
    else
      var kept := KeptOn(earlier, s[0]);
      var rest := Retained(earlier + [s[0]], s[1..]);
      if kept.aliases == [] then rest else [kept] + rest
  }

  lemma {:induction false} RetainedSnoc(earlier: seq<Message>, s: seq<Message>, m: Message)
    ensures var kept := KeptOn(earlier + s, m);
            Retained(earlier, s + [m]) == Retained(earlier, s) + if kept.aliases == [] then [] else [kept]
    decreases s
  {
    hide Kept;
    if s == [] {
      assert earlier + s == earlier;
      assert (s + [m])[1..] == [];
    } else {
      RetainedSnoc(earlier + [s[0]], s[1..], m);
      assert earlier + [s[0]] + s[1..] == earlier + s;
      assert (s + [m])[1..] == s[1..] + [m];
    }
  }

  /** Message i stays in the cache, as r: with exactly the aliases that fewer
      than the maximum of the messages before it carry, and at least one. */
  predicate StaysAs(s: seq<Message>, i: nat, r: Message)
    requires i < |s|
  {
    r == KeptOn(s[..i], s[i]) && r.aliases != []
  }

  lemma {:induction false} RetainedExactly(s: seq<Message>, r: Message)
    ensures r in Retained([], s) <==> exists i :: 0 <= i < |s| && StaysAs(s, i, r)
  {
    hide Kept;
    if s != [] {
      var n := |s| - 1;
      var front := s[..n];
      RetainedExactly(front, r);
      RetainedSnoc([], front, s[n]);
      assert [] + front == front && front + [s[n]] == s;
      forall i | 0 <= i < n
        ensures StaysAs(front, i, r) == StaysAs(s, i, r)
      {
        assert front[..i] == s[..i];
      }
      assert StaysAs(s, n, r) <==> r == KeptOn(front, s[n]) && r.aliases != [];
    }
  }

  lemma {:induction false} RetainedDescending(earlier: seq<Message>, s: seq<Message>)
    requires Descending(s)
    ensures Descending(Retained(earlier, s))
    ensures forall r :: r in Retained(earlier, s) ==> exists m :: m in s && m.uid == r.uid && m.date == r.date
    decreases s
  {
    if s != [] {
      RetainedDescending(earlier + [s[0]], s[1..]);
    }
  }

  lemma {:induction false} RetainedDistinct(earlier: seq<Message>, s: seq<Message>)
    requires DistinctUids(s)
    ensures DistinctUids(Retained(earlier, s))
    ensures forall r :: r in Retained(earlier, s) ==> exists m :: m in s && m.uid == r.uid
    decreases s
  {
    hide Kept, Retained;
    RetainedFirst(earlier, s);
    if s != [] {
      RetainedDistinct(earlier + [s[0]], s[1..]);
      DistinctAfter(KeptOn(earlier, s[0]), Retained(earlier + [s[0]], s[1..]), s);
    }
  }

  lemma RetainedFirst(earlier: seq<Message>, s: seq<Message>)
    ensures Retained(earlier, s) ==
            if s == [] then []
            else var kept := KeptOn(earlier, s[0]);
                 (if kept.aliases == [] then [] else [kept]) + Retained(earlier + [s[0]], s[1..])
  {
    hide Kept;
  }

  /** A message in front of others whose UIDs come from the rest. */
  lemma DistinctAfter(first: Message, rest: seq<Message>, s: seq<Message>)
    requires s != [] && DistinctUids(s) && first.uid == s[0].uid && DistinctUids(rest)
    requires forall r :: r in rest ==> exists m :: m in s[1..] && m.uid == r.uid
    ensures DistinctUids([first] + rest)
  {
    forall j | 0 <= j < |rest|
      ensures rest[j].uid != first.uid
    {
      assert rest[j] in rest;
      var m :| m in s[1..] && m.uid == rest[j].uid;
      var k :| 0 <= k < |s| - 1 && s[1..][k] == m;
      assert s[0].uid != s[k + 1].uid;
    }
  }
}
