/** Merging fetched messages into the cache. */
module MailMerge {
  import opened MailMessages

  /** The aliases that a cache is kept for. */
  function Allowed(aliases: seq<string>): set<string> {
    set a | a in aliases && a != ""
  }

  function FilterAliases(aliases: seq<string>, allowed: set<string>): (r: seq<string>)
    ensures forall a :: a in r <==> a in aliases && a in allowed
  {
    if aliases == [] then []
    else (if aliases[0] in allowed then [aliases[0]] else []) + FilterAliases(aliases[1..], allowed)
  }

  function Restrict(m: Message, allowed: set<string>): Message {
    m.(aliases := FilterAliases(m.aliases, allowed))
  }

  function WithoutUid(s: seq<Message>, uid: nat): (r: seq<Message>)
    ensures forall x :: x in r <==> x in s && x.uid != uid
    ensures DistinctUids(s) ==> DistinctUids(r)
  {
    if s == [] then []
    else (if s[0].uid == uid then [] else [s[0]]) + WithoutUid(s[1..], uid)
  }

  /** One message a UID, the last one delivered, with its allowed aliases; a
      last delivery without any removes the UID. */
  function Listed(s: seq<Message>, allowed: set<string>): (r: seq<Message>)
    ensures DistinctUids(r)
  {
    if s == [] then []
    else
      var m := Restrict(s[|s| - 1], allowed);
      var front := WithoutUid(Listed(s[..|s| - 1], allowed), m.uid);
      if m.aliases == [] then front else front + [m]
  }

  function Cut(s: seq<Message>, maximum: int): seq<Message> {
    if maximum > 0 && |s| > maximum then s[..maximum] else s
  }

  /** The cache before the size limit. */
  function Ranked(delivered: seq<Message>, allowed: set<string>): seq<Message> {
    Retained([], SortNewest(Listed(delivered, allowed)))
  }

  function Merge(existing: seq<Message>, incoming: seq<Message>, aliases: seq<string>, maximum: int): seq<Message> {
    Cut(Ranked(existing + incoming, Allowed(aliases)), maximum)
  }

  // ---- What is listed ----

  lemma {:induction false} ListedMembers(s: seq<Message>, allowed: set<string>, x: Message)
    ensures x in Listed(s, allowed) ==> x.aliases != [] && exists m :: m in s && x == Restrict(m, allowed)
  {
    if s != [] {
      var n := |s| - 1;
      ListedMembers(s[..n], allowed, x);
    }
  }

  predicate HasUid(s: seq<Message>, uid: nat) {
    exists i :: 0 <= i < |s| && s[i].uid == uid
  }

  lemma ListedSnoc(s: seq<Message>, m: Message, allowed: set<string>, x: Message)
    ensures x in Listed(s + [m], allowed) <==>
            (x == Restrict(m, allowed) && x.aliases != []) || (x in Listed(s, allowed) && x.uid != m.uid)
    ensures HasUid(s + [m], x.uid) <==> HasUid(s, x.uid) || m.uid == x.uid
  {
    assert (s + [m])[..|s|] == s;
    if HasUid(s, x.uid) {
      var i :| 0 <= i < |s| && s[i].uid == x.uid;
      assert (s + [m])[i].uid == x.uid;
    }
    if m.uid == x.uid {
      assert (s + [m])[|s|].uid == x.uid;
    }
  }

  /** Later deliveries replace or remove earlier ones of the same UID. */
  lemma {:induction false} ListedConcat(a: seq<Message>, b: seq<Message>, allowed: set<string>, x: Message)
    ensures x in Listed(a + b, allowed) <==>
            x in Listed(b, allowed) || (x in Listed(a, allowed) && !HasUid(b, x.uid))
  {
    hide Listed, HasUid, Restrict;
    if b == [] {
      assert a + b == a;
      EmptyListed(allowed, x);
    } else {
      var n := |b| - 1;
      ListedConcat(a, b[..n], allowed, x);
      ListedSnoc(b[..n], b[n], allowed, x);
      ListedSnoc(a + b[..n], b[n], allowed, x);
      assert b == b[..n] + [b[n]] && a + b == a + b[..n] + [b[n]];
    }
  }

  lemma EmptyListed(allowed: set<string>, x: Message)
    ensures x !in Listed([], allowed) && !HasUid([], x.uid)
  {
  }

  lemma RankedShape(delivered: seq<Message>, allowed: set<string>)
    ensures Descending(Ranked(delivered, allowed)) && DistinctUids(Ranked(delivered, allowed))
  {
    var listed := Listed(delivered, allowed);
    SortDescending(listed);
    SortDistinct(listed);
    RetainedDescending([], SortNewest(listed));
    RetainedDistinct([], SortNewest(listed));
  }
}
