/** The messages that a reachable cache holds, and what merging does to them. */
module MailCache {
  import opened MailMessages
  import opened MailMerge
  import opened MailBatches
  import opened MailKeys

  ghost predicate CleanAliases(m: Message, allowed: set<string>) {
    m.aliases != [] && NoRepeats(m.aliases) && forall a :: a in m.aliases ==> a in allowed && a != ""
  }

  /** Newest first, one message a UID, clean aliases, at most the maximum of
      messages for an alias, and no more than the size limit. */
  ghost predicate ValidMessages(s: seq<Message>, allowed: set<string>, maximum: int) {
    && Descending(s) && DistinctUids(s)
    && (forall m :: m in s ==> CleanAliases(m, allowed))
    && (forall a :: Carriers(s, a) <= ALIAS_MAXIMUM)
    && (maximum > 0 ==> |s| <= maximum)
  }

  /** Whether lists are absent or empty does not matter. */
  lemma CopiesValid(s: seq<Message>, allowed: set<string>, maximum: int)
    ensures ValidMessages(Copies(s), allowed, maximum) <==> ValidMessages(s, allowed, maximum)
  {
    hide Carriers, NoRepeats;
    forall a
      ensures Carriers(Copies(s), a) == Carriers(s, a)
    {
      CopiesCarry(s, a);
    }
    SameShape(s, Copies(s), allowed);
    SameShape(Copies(s), s, allowed);
  }

  lemma SameShape(s: seq<Message>, t: seq<Message>, allowed: set<string>)
    requires |s| == |t|
    requires forall i :: 0 <= i < |s| ==> s[i].uid == t[i].uid && s[i].date == t[i].date && s[i].aliases == t[i].aliases
    ensures Descending(s) ==> Descending(t)
    ensures DistinctUids(s) ==> DistinctUids(t)
    ensures (forall m :: m in s ==> CleanAliases(m, allowed)) ==> forall m :: m in t ==> CleanAliases(m, allowed)
  {
    hide NoRepeats;
    if forall m :: m in s ==> CleanAliases(m, allowed) {
      forall m | m in t
        ensures CleanAliases(m, allowed)
      {
        var i :| 0 <= i < |t| && t[i] == m;
        assert s[i] in s;
      }
    }
  }

  lemma {:induction false} CopiesCarry(s: seq<Message>, a: string)
    ensures Carriers(Copies(s), a) == Carriers(s, a)
  {
    if s != [] {
      var n := |s| - 1;
      CopiesCarry(s[..n], a);
      assert Copies(s)[..n] == Copies(s[..n]);
    }
  }

  // ---- Counting ----

  lemma {:induction false} KeptNoRepeats(earlier: seq<Message>, aliases: seq<string>, seen: set<string>)
    ensures NoRepeats(Kept(earlier, aliases, seen))
  {
    hide Carriers;
    if aliases != [] {
      var a := aliases[0];
      if a == "" || a in seen || Carriers(earlier, a) >= ALIAS_MAXIMUM {
        KeptNoRepeats(earlier, aliases[1..], seen);
      } else {
        KeptNoRepeats(earlier, aliases[1..], seen + {a});
        var tail := Kept(earlier, aliases[1..], seen + {a});
        forall j | 0 <= j < |tail|
          ensures tail[j] != a
        {
          assert tail[j] in tail;
        }
      }
    }
  }

  /** Every alias keeps its newest messages, up to the maximum. */
  lemma {:induction false} RetainedCounts(s: seq<Message>, a: string)
    requires a != ""
    ensures Carriers(Retained([], s), a) == UpToMaximum(Carriers(s, a))
  {
    if s != [] {
      var n := |s| - 1;
      RetainedCounts(s[..n], a);
      assert s == s[..n] + [s[n]];
      RetainedCountsSnoc(s[..n], s[n], a);
    }
  }

  function UpToMaximum(n: nat): nat {
    if n < ALIAS_MAXIMUM then n else ALIAS_MAXIMUM
  }

  lemma RetainedCountsSnoc(front: seq<Message>, m: Message, a: string)
    requires a != "" && Carriers(Retained([], front), a) == UpToMaximum(Carriers(front, a))
    ensures Carriers(Retained([], front + [m]), a) == UpToMaximum(Carriers(front + [m], a))
  {
    hide Kept, Retained, Carriers;
    var kept := KeptOn(front, m);
    var before := Retained([], front);
    assert [] + front == front;
    RetainedSnoc([], front, m);
    CarriersSnoc(front, m, a);
    CarriersSnoc(before, kept, a);
    assert before + [] == before;
  }

  lemma {:induction false} RetainedClean(s: seq<Message>, allowed: set<string>)
    requires forall m :: m in s ==> forall a :: a in m.aliases ==> a in allowed
    ensures forall r :: r in Retained([], s) ==> CleanAliases(r, allowed)
  {
    forall r | r in Retained([], s)
      ensures CleanAliases(r, allowed)
    {
      RetainedExactly(s, r);
      var i :| 0 <= i < |s| && StaysAs(s, i, r);
      assert s[i] in s;
      KeptNoRepeats(s[..i], s[i].aliases, {});
    }
  }

  lemma {:induction false} CarriersPrefix(s: seq<Message>, n: nat, a: string)
    requires n <= |s|
    ensures Carriers(s[..n], a) <= Carriers(s, a)
    decreases |s|
  {
    if n < |s| {
      CarriersPrefix(s[..|s| - 1], n, a);
      assert s[..|s| - 1][..n] == s[..n];
    } else {
      assert s[..n] == s;
    }
  }

  lemma {:induction false} NoCarriers(s: seq<Message>, a: string)
    requires forall m :: m in s ==> a !in m.aliases
    ensures Carriers(s, a) == 0
  {
    if s != [] {
      NoCarriers(s[..|s| - 1], a);
    }
  }

  // ---- Merging keeps the cache valid ----

  lemma RankedValid(delivered: seq<Message>, allowed: set<string>)
    requires "" !in allowed
    ensures ValidMessages(Ranked(delivered, allowed), allowed, 0)
  {
    var listed := Listed(delivered, allowed);
    var s := SortNewest(listed);
    var ranked := Ranked(delivered, allowed);
    RankedShape(delivered, allowed);
    forall m | m in s
      ensures forall a :: a in m.aliases ==> a in allowed
    {
      ListedMembers(delivered, allowed, m);
    }
    RetainedClean(s, allowed);
    forall a
      ensures Carriers(ranked, a) <= ALIAS_MAXIMUM
    {
      if a == "" {
        NoCarriers(ranked, a);
      } else {
        RetainedCounts(s, a);
      }
    }
  }

  /** Whatever is merged, the result is a valid cache. */
  lemma MergeValid(existing: seq<Message>, incoming: seq<Message>, aliases: seq<string>, maximum: int)
    ensures ValidMessages(Merge(existing, incoming, aliases, maximum), Allowed(aliases), maximum)
  {
    var ranked := Ranked(existing + incoming, Allowed(aliases));
    var merged := Cut(ranked, maximum);
    RankedValid(existing + incoming, Allowed(aliases));
    forall a
      ensures Carriers(merged, a) <= ALIAS_MAXIMUM
    {
      CarriersPrefix(ranked, |merged|, a);
      assert ranked[..|merged|] == merged;
    }
  }

  // ---- Merging nothing ----

  lemma {:induction false} KeptAll(earlier: seq<Message>, aliases: seq<string>, seen: set<string>)
    requires NoRepeats(aliases)
    requires forall a :: a in aliases ==> a != "" && a !in seen && Carriers(earlier, a) < ALIAS_MAXIMUM
    ensures Kept(earlier, aliases, seen) == aliases
  {
    hide Carriers;
    if aliases != [] {
      assert forall a :: a in aliases[1..] ==> a in aliases && a != aliases[0];
      KeptAll(earlier, aliases[1..], seen + {aliases[0]});
    }
  }

  lemma {:induction false} RetainedAll(s: seq<Message>, allowed: set<string>)
    requires forall m :: m in s ==> CleanAliases(m, allowed)
    requires forall a :: Carriers(s, a) <= ALIAS_MAXIMUM
    ensures Retained([], s) == s
  {
    if s != [] {
      var n := |s| - 1;
      var front, m := s[..n], s[n];
      assert s == front + [m] && [] + front == front;
      forall a
        ensures Carriers(front, a) + (if a in m.aliases then 1 else 0) <= ALIAS_MAXIMUM
      {
        CarriersSnoc(front, m, a);
        assert Carriers(s, a) <= ALIAS_MAXIMUM;
      }
      RetainedAll(front, allowed);
      RetainedSnoc([], front, m);
      assert CleanAliases(m, allowed);
      KeptAll(front, m.aliases, {});
    }
  }

  lemma ListedSelf(s: seq<Message>, allowed: set<string>, x: Message)
    requires DistinctUids(s) && forall m :: m in s ==> CleanAliases(m, allowed)
    ensures x in Listed(s, allowed) <==> x in s
  {
    assert OneMessagePerUid(s);
    ListedOffered(s, allowed, x);
    forall m | m in s
      ensures Restrict(m, allowed) == m
    {
      assert CleanAliases(m, allowed);
      FilterNothing(m.aliases, allowed);
    }
  }

  /** Merging nothing into a valid cache changes it exactly when it is above the
      size limit, and then cuts its oldest messages. */
  lemma MergeNothing(s: seq<Message>, aliases: seq<string>, before: int, maximum: int)
    requires ValidMessages(s, Allowed(aliases), before)
    ensures Merge(s, [], aliases, maximum) == Cut(s, maximum)
    ensures Merge(s, [], aliases, maximum) == s <==> maximum <= 0 || |s| <= maximum
  {
    var allowed := Allowed(aliases);
    assert s + [] == s;
    forall x
      ensures x in Listed(s, allowed) <==> x in s
    {
      ListedSelf(s, allowed, x);
    }
    SortDescending(Listed(s, allowed));
    DescendingUnique(SortNewest(Listed(s, allowed)), s);
    RetainedAll(s, allowed);
  }

  // ---- Whole runs ----

  /** The cache after a series of merges. */
  function MergeRun(batches: seq<seq<Message>>, aliases: seq<string>, maximum: int): seq<Message> {
    if batches == [] then []
    else Merge(MergeRun(batches[..|batches| - 1], aliases, maximum), batches[|batches| - 1], aliases, maximum)
  }

  function Flatten(batches: seq<seq<Message>>): seq<Message> {
    if batches == [] then [] else Flatten(batches[..|batches| - 1]) + batches[|batches| - 1]
  }

  /** The size limit never cut anything off. */
  ghost predicate NeverCut(batches: seq<seq<Message>>, aliases: seq<string>, maximum: int) {
    maximum > 0 ==> forall n :: 0 <= n <= |batches| ==> |Ranked(Flatten(batches[..n]), Allowed(aliases))| <= maximum
  }

  /** The cache depends on what was delivered and not on how it was split into
      batches or how often it was delivered. */
  lemma {:induction false} RunIsOneMerge(batches: seq<seq<Message>>, aliases: seq<string>, maximum: int)
    requires OneMessagePerUid(Flatten(batches)) && NeverCut(batches, aliases, maximum)
    ensures MergeRun(batches, aliases, maximum) == Merge([], Flatten(batches), aliases, maximum)
    ensures MergeRun(batches, aliases, maximum) == Ranked(Flatten(batches), Allowed(aliases))
  {
    hide Ranked, NeverCut, OneMessagePerUid;
    NotCut(batches, aliases, maximum);
    assert [] + Flatten(batches) == Flatten(batches);
    if batches == [] {
      NothingRanked(Allowed(aliases));
    } else {
      var n := |batches| - 1;
      FrontNeverCut(batches, aliases, maximum);
      RunIsOneMerge(batches[..n], aliases, maximum);
      BatchIndependent(Flatten(batches[..n]), batches[n], Allowed(aliases));
    }
  }

  lemma NothingRanked(allowed: set<string>)
    ensures Ranked([], allowed) == []
  {
  }

  lemma NotCut(batches: seq<seq<Message>>, aliases: seq<string>, maximum: int)
    requires NeverCut(batches, aliases, maximum)
    ensures maximum > 0 ==> |Ranked(Flatten(batches), Allowed(aliases))| <= maximum
  {
    hide Ranked;
    assert batches[..|batches|] == batches;
  }

  lemma FrontNeverCut(batches: seq<seq<Message>>, aliases: seq<string>, maximum: int)
    requires batches != [] && OneMessagePerUid(Flatten(batches)) && NeverCut(batches, aliases, maximum)
    ensures OneMessagePerUid(Flatten(batches[..|batches| - 1]))
    ensures NeverCut(batches[..|batches| - 1], aliases, maximum)
  {
    hide Ranked, OneMessagePerUid;
    var front := batches[..|batches| - 1];
    assert Flatten(batches) == Flatten(front) + batches[|batches| - 1];
    forall k | 0 <= k <= |front|
      ensures front[..k] == batches[..k]
    {
    }
    FrontOneMessage(Flatten(front), batches[|batches| - 1]);
  }

  lemma FrontOneMessage(a: seq<Message>, b: seq<Message>)
    requires OneMessagePerUid(a + b)
    ensures OneMessagePerUid(a)
  {
    assert forall x :: x in a ==> x in a + b;
  }
}
