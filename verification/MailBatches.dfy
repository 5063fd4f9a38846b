/** What the cache holds does not depend on how the mail arrived: merging
    batch after batch gives what one merge of everything gives, even when
    messages are delivered again. */
module MailBatches {
  import opened MailMessages
  import opened MailMerge

  /** A UID names one message: what a server promises within one UIDVALIDITY. */
  ghost predicate OneMessagePerUid(s: seq<Message>) {
    forall x, y :: x in s && y in s && x.uid == y.uid ==> x == y
  }

  ghost predicate Offered(s: seq<Message>, allowed: set<string>, x: Message) {
    x.aliases != [] && exists m :: m in s && x == Restrict(m, allowed)
  }

  lemma {:induction false} ListedOffered(s: seq<Message>, allowed: set<string>, x: Message)
    requires OneMessagePerUid(s)
    ensures x in Listed(s, allowed) <==> Offered(s, allowed, x)
  {
    if s != [] {
      hide Listed, FilterAliases;
      var n := |s| - 1;
      assert s == s[..n] + [s[n]];
      forall m | m in s[..n]
        ensures m in s
      {
      }
      ListedOffered(s[..n], allowed, x);
      ListedSnoc(s[..n], s[n], allowed, x);
      OfferedSnoc(s[..n], s[n], allowed, x);
    }
  }

  lemma OfferedSnoc(s: seq<Message>, last: Message, allowed: set<string>, x: Message)
    ensures Offered(s + [last], allowed, x) <==> Offered(s, allowed, x) || (x.aliases != [] && x == Restrict(last, allowed))
  {
    hide Restrict;
    if x.aliases != [] && x == Restrict(last, allowed) {
      assert last in s + [last];
    }
  }

  /** The two runs count alike up to the maximum. */
  ghost predicate SameBelowMaximum(p: seq<Message>, q: seq<Message>) {
    forall a :: a != "" ==>
      Carriers(p, a) == Carriers(q, a) || (Carriers(p, a) >= ALIAS_MAXIMUM && Carriers(q, a) >= ALIAS_MAXIMUM)
  }

  ghost predicate CarriesNoMore(p: seq<Message>, q: seq<Message>) {
    forall a :: Carriers(p, a) <= Carriers(q, a)
  }

  lemma {:induction false} KeptSame(p: seq<Message>, q: seq<Message>, aliases: seq<string>, seen: set<string>)
    requires SameBelowMaximum(p, q)
    ensures Kept(p, aliases, seen) == Kept(q, aliases, seen)
  {
    hide Carriers;
    if aliases != [] {
      var a := aliases[0];
      if a == "" || a in seen || Carriers(p, a) >= ALIAS_MAXIMUM {
        KeptSame(p, q, aliases[1..], seen);
      } else {
        KeptSame(p, q, aliases[1..], seen + {a});
      }
    }
  }

  const NONE: set<string> := {}

  /** Keeping what an earlier run kept is keeping from the original, as long as
      the earlier run counted no more. `extra` are aliases that only the earlier
      run has marked as seen. */
  lemma {:induction false} KeptTwice(s: seq<Message>, p: seq<Message>, q: seq<Message>, aliases: seq<string>,
                                     seen: set<string>, extra: set<string>)
    requires CarriesNoMore(s, q) && SameBelowMaximum(p, q)
    requires forall a :: a in extra ==> Carriers(q, a) >= ALIAS_MAXIMUM
    ensures Kept(p, Kept(s, aliases, seen + extra), seen) == Kept(q, aliases, seen)
  {
    hide Carriers;
    if aliases != [] {
      var a, rest := aliases[0], aliases[1..];
      if a == "" || a in seen + extra {
        KeptTwice(s, p, q, rest, seen, extra);
      } else if Carriers(s, a) >= ALIAS_MAXIMUM {
        assert Carriers(s, a) <= Carriers(q, a);
        KeptTwice(s, p, q, rest, seen, extra);
      } else {
        var kept := Kept(s, aliases, seen + extra);
        assert kept[1..] == Kept(s, rest, seen + extra + {a});
        if Carriers(q, a) >= ALIAS_MAXIMUM {
          assert seen + extra + {a} == seen + (extra + {a});
          KeptTwice(s, p, q, rest, seen, extra + {a});
        } else {
          assert seen + extra + {a} == (seen + {a}) + extra;
          KeptTwice(s, p, q, rest, seen + {a}, extra);
        }
      }
    }
  }

  /** The second merge's input, read off the sorted union: messages delivered
      again come as they are, the others as the first merge trimmed them. */
  function Staged(earlier: seq<Message>, w: seq<Message>, first: set<Message>, again: set<nat>): (r: seq<Message>)
    decreases w
  {
    if w == [] then []
    else
      var m := w[0];
      var next := if m in first then earlier + [m] else earlier;
      var rest := Staged(next, w[1..], first, again);
      var kept := KeptOn(earlier, m);
      if m.uid in again then [m] + rest
      else if kept.aliases == [] then rest
      else [kept] + rest
  }

  /** Both runs side by side over the sorted union. */
  lemma {:induction false} Lockstep(full: seq<Message>, second: seq<Message>, earlier: seq<Message>, w: seq<Message>,
                                    first: set<Message>, again: set<nat>)
    requires SameBelowMaximum(second, full) && CarriesNoMore(earlier, full)
    requires forall m :: m in w ==> "" !in m.aliases && (m in first || m.uid in again)
    ensures Retained(second, Staged(earlier, w, first, again)) == Retained(full, w)
    decreases w
  {
    if w != [] {
      var m := w[0];
      var next := if m in first then earlier + [m] else earlier;
      var kept := KeptOn(earlier, m);
      var rest := Staged(next, w[1..], first, again);
      StepCounts(full, second, earlier, m, kept, first);
      if m.uid in again {
        KeptSame(second, full, m.aliases, {});
        Lockstep(full + [m], second + [m], next, w[1..], first, again);
        assert ([m] + rest)[1..] == rest;
      } else {
        KeptTwice(earlier, second, full, m.aliases, NONE, NONE);
        assert NONE + NONE == NONE;
        if kept.aliases == [] {
          Lockstep(full + [m], second, next, w[1..], first, again);
        } else {
          Lockstep(full + [m], second + [kept], next, w[1..], first, again);
          assert ([kept] + rest)[1..] == rest;
        }
      }
    }
  }

  lemma StepCounts(full: seq<Message>, second: seq<Message>, earlier: seq<Message>, m: Message, kept: Message,
                   first: set<Message>)
    requires SameBelowMaximum(second, full) && CarriesNoMore(earlier, full)
    requires "" !in m.aliases && kept == KeptOn(earlier, m)
    ensures SameBelowMaximum(second + [m], full + [m])
    ensures SameBelowMaximum(second + [kept], full + [m])
    ensures kept.aliases == [] ==> SameBelowMaximum(second, full + [m])
    ensures CarriesNoMore(earlier + [m], full + [m]) && CarriesNoMore(earlier, full + [m])
  {
    forall a: string
      ensures Carriers(full + [m], a) == Carriers(full, a) + if a in m.aliases then 1 else 0
      ensures Carriers(second + [m], a) == Carriers(second, a) + if a in m.aliases then 1 else 0
      ensures Carriers(second + [kept], a) == Carriers(second, a) + if a in kept.aliases then 1 else 0
      ensures Carriers(earlier + [m], a) == Carriers(earlier, a) + if a in m.aliases then 1 else 0
    {
      CarriersSnoc(full, m, a);
      CarriersSnoc(second, m, a);
      CarriersSnoc(second, kept, a);
      CarriersSnoc(earlier, m, a);
    }
  }

  function Only(w: seq<Message>, first: set<Message>): (r: seq<Message>)
    ensures forall x :: x in r <==> x in w && x in first
  {
    if w == [] then []
    else (if w[0] in first then [w[0]] else []) + Only(w[1..], first)
  }

  lemma {:induction false} OnlyDescending(w: seq<Message>, first: set<Message>)
    requires Descending(w)
    ensures Descending(Only(w, first))
  {
    if w != [] {
      OnlyDescending(w[1..], first);
      var tail := Only(w[1..], first);
      forall j | 0 <= j < |tail|
        ensures Newer(w[0], tail[j])
      {
        assert tail[j] in w[1..];
      }
    }
  }

  lemma {:induction false} StagedDescending(earlier: seq<Message>, w: seq<Message>, first: set<Message>, again: set<nat>)
    requires Descending(w)
    ensures Descending(Staged(earlier, w, first, again))
    ensures forall r :: r in Staged(earlier, w, first, again) ==> exists m :: m in w && m.uid == r.uid && m.date == r.date
    decreases w
  {
    hide Kept;
    if w != [] {
      var m := w[0];
      var next := if m in first then earlier + [m] else earlier;
      StagedDescending(next, w[1..], first, again);
      assert forall x :: x in w[1..] ==> x in w && Newer(m, x);
    }
  }

  lemma {:induction false} StagedMembers(earlier: seq<Message>, w: seq<Message>, first: set<Message>, again: set<nat>, x: Message)
    requires forall m :: m in w ==> m in first || m.uid in again
    ensures x in Staged(earlier, w, first, again) <==>
            if x.uid in again then x in w else x in Retained(earlier, Only(w, first))
    decreases w
  {
    hide Kept;
    if w != [] {
      var m := w[0];
      var next := if m in first then earlier + [m] else earlier;
      StagedMembers(next, w[1..], first, again, x);
      if m in first {
        assert Only(w, first)[1..] == Only(w[1..], first);
      } else {
        assert Only(w, first) == Only(w[1..], first);
      }
    }
  }

  /** Merging into an already merged cache, or merging everything at once. */
  lemma BatchIndependent(before: seq<Message>, batch: seq<Message>, allowed: set<string>)
    requires OneMessagePerUid(before + batch) && "" !in allowed
    ensures Ranked(Ranked(before, allowed) + batch, allowed) == Ranked(before + batch, allowed)
  {
    hide Kept, Listed, SortNewest, Descending, Retained, Staged, Restrict;
    var union := Listed(before + batch, allowed);
    var w := SortNewest(union);
    var first := set m | m in Listed(before, allowed);
    var again := set m | m in batch :: m.uid;
    SortDescending(union);
    forall m | m in w
      ensures "" !in m.aliases && (m in first || m.uid in again)
    {
      UnionMember(before, batch, allowed, m);
    }
    Lockstep([], [], [], w, first, again);
    var second := Listed(Ranked(before, allowed) + batch, allowed);
    StagedIsSecondInput(before, batch, allowed);
  }

  lemma UnionMember(before: seq<Message>, batch: seq<Message>, allowed: set<string>, m: Message)
    requires OneMessagePerUid(before + batch) && "" !in allowed
    requires m in Listed(before + batch, allowed)
    ensures "" !in m.aliases
    ensures m in Listed(before, allowed) || m.uid in (set x | x in batch :: x.uid)
  {
    ListedOffered(before + batch, allowed, m);
    ListedOffered(before, allowed, m);
    var x :| x in before + batch && m == Restrict(x, allowed);
  }

  lemma StagedIsSecondInput(before: seq<Message>, batch: seq<Message>, allowed: set<string>)
    requires OneMessagePerUid(before + batch) && "" !in allowed
    ensures Staged([], SortNewest(Listed(before + batch, allowed)),
                   set m | m in Listed(before, allowed), set m | m in batch :: m.uid)
            == SortNewest(Listed(Ranked(before, allowed) + batch, allowed))
  {
    var w := SortNewest(Listed(before + batch, allowed));
    var first := set m | m in Listed(before, allowed);
    var again := set m | m in batch :: m.uid;
    var input := Listed(Ranked(before, allowed) + batch, allowed);
    SortDescending(Listed(before + batch, allowed));
    SortDescending(input);
    StagedDescending([], w, first, again);
    forall x
      ensures x in Staged([], w, first, again) <==> x in input
    {
      StagedMember(before, batch, allowed, x);
    }
    DescendingUnique(Staged([], w, first, again), SortNewest(input));
  }

  lemma StagedMember(before: seq<Message>, batch: seq<Message>, allowed: set<string>, x: Message)
    requires OneMessagePerUid(before + batch) && "" !in allowed
    ensures x in Staged([], SortNewest(Listed(before + batch, allowed)),
                        set m | m in Listed(before, allowed), set m | m in batch :: m.uid)
            <==> x in Listed(Ranked(before, allowed) + batch, allowed)
  {
    hide Kept, Listed, SortNewest, Retained, Staged, Restrict;
    var w := SortNewest(Listed(before + batch, allowed));
    var first := set m | m in Listed(before, allowed);
    var again := set m | m in batch :: m.uid;
    forall m | m in w
      ensures m in first || m.uid in again
    {
      UnionMember(before, batch, allowed, m);
    }
    StagedMembers([], w, first, again, x);
    OnlyFirst(before, batch, allowed);
    ListedConcat(Ranked(before, allowed), batch, allowed, x);
    RankedIsListed(before, allowed, x);
    assert HasUid(batch, x.uid) <==> x.uid in again;
    AgainMember(before, batch, allowed, x);
  }

  lemma AgainMember(before: seq<Message>, batch: seq<Message>, allowed: set<string>, x: Message)
    requires OneMessagePerUid(before + batch)
    ensures x in Listed(batch, allowed) <==> x in Listed(before + batch, allowed) && HasUid(batch, x.uid)
  {
    ListedConcat(before, batch, allowed, x);
    ListedOffered(batch, allowed, x);
    if x in Listed(batch, allowed) {
      var m :| m in batch && x == Restrict(m, allowed);
      var i :| 0 <= i < |batch| && batch[i] == m;
      assert batch[i].uid == x.uid;
    }
  }

  lemma OnlyFirst(before: seq<Message>, batch: seq<Message>, allowed: set<string>)
    requires OneMessagePerUid(before + batch)
    ensures Only(SortNewest(Listed(before + batch, allowed)), set m | m in Listed(before, allowed))
            == SortNewest(Listed(before, allowed))
  {
    hide Kept, Listed, SortNewest, Restrict;
    var union := Listed(before + batch, allowed);
    var first := set m | m in Listed(before, allowed);
    SortDescending(union);
    SortDescending(Listed(before, allowed));
    OnlyDescending(SortNewest(union), first);
    forall x | x in first
      ensures x in union
    {
      ListedOffered(before, allowed, x);
      ListedOffered(before + batch, allowed, x);
    }
    DescendingUnique(Only(SortNewest(union), first), SortNewest(Listed(before, allowed)));
  }

  /** A merged cache lists as itself. */
  lemma RankedIsListed(before: seq<Message>, allowed: set<string>, x: Message)
    ensures x in Listed(Ranked(before, allowed), allowed) <==> x in Ranked(before, allowed)
  {
    var s := SortNewest(Listed(before, allowed));
    var ranked := Ranked(before, allowed);
    RankedShape(before, allowed);
    forall r | r in ranked
      ensures r.aliases != [] && Restrict(r, allowed) == r
    {
      RetainedExactly(s, r);
      var i :| 0 <= i < |s| && StaysAs(s, i, r);
      ListedMembers(before, allowed, s[i]);
      FilterNothing(r.aliases, allowed);
    }
    ListedOffered(ranked, allowed, x);
  }

  lemma {:induction false} FilterNothing(aliases: seq<string>, allowed: set<string>)
    requires forall a :: a in aliases ==> a in allowed
    ensures FilterAliases(aliases, allowed) == aliases
  {
    if aliases != [] {
      FilterNothing(aliases[1..], allowed);
    }
  }
}
