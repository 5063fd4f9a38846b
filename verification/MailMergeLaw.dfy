/** What a merge leaves, said without the steps of the merge: of each UID the last
    delivery, on it the aliases that are allowed and on fewer than a hundred newer
    messages, and of all those the newest up to the size. */
module MailMergeLaw {
  import opened MailMessages
  import opened MailMerge
  import opened MailCache

  /** The last delivery of its UID. */
  ghost predicate Latest(s: seq<Message>, m: Message) {
    exists i :: 0 <= i < |s| && s[i] == m && forall j :: i < j < |s| ==> s[j].uid != m.uid
  }

  /** The UIDs of newer mail for an alias. */
  ghost function NewerFor(s: seq<Message>, m: Message, a: string): set<nat> {
    set d | d in s && Latest(s, d) && Newer(d, m) && a in d.aliases :: d.uid
  }

  ghost predicate Stays(s: seq<Message>, aliases: seq<string>, m: Message, a: string) {
    a in m.aliases && a in aliases && a != "" && |NewerFor(s, m, a)| < 100
  }

  /** The message with exactly the aliases that stay on it. */
  ghost predicate KeptAs(s: seq<Message>, aliases: seq<string>, m: Message, x: Message) {
    && x == m.(aliases := x.aliases) && (forall a :: a in x.aliases <==> Stays(s, aliases, m, a))
    && forall i, j :: 0 <= i < j < |x.aliases| ==> x.aliases[i] != x.aliases[j]
  }

  ghost predicate IsMerge(s: seq<Message>, aliases: seq<string>, maximum: int, result: seq<Message>) {
    && Descending(result) && DistinctUids(result) && (maximum > 0 ==> |result| <= maximum)
    && (forall x :: x in result ==> x.aliases != [] && exists m :: Latest(s, m) && KeptAs(s, aliases, m, x))
    && (forall m, a :: Latest(s, m) && Stays(s, aliases, m, a) ==>
          (exists x :: x in result && KeptAs(s, aliases, m, x))
          || (maximum > 0 && |result| == maximum && forall x :: x in result ==> Newer(x, m)))
  }

  // ---- The merge ----

  lemma LatestSnoc(s: seq<Message>, last: Message, m: Message)
    ensures Latest(s + [last], m) <==> m == last || (Latest(s, m) && m.uid != last.uid)
  {
    var t := s + [last];
    if m == last {
      assert t[|s|] == m;
    }
    if Latest(s, m) && m.uid != last.uid {
      var i :| 0 <= i < |s| && s[i] == m && forall j :: i < j < |s| ==> s[j].uid != m.uid;
      assert t[i] == m && forall j :: i < j < |t| ==> t[j].uid != m.uid;
    }
    if Latest(t, m) && m != last {
      var i :| 0 <= i < |t| && t[i] == m && forall j :: i < j < |t| ==> t[j].uid != m.uid;
      assert t[|s|] == last && s[i] == m && forall j :: i < j < |s| ==> s[j].uid == t[j].uid;
    }
  }

  lemma {:induction false} ListedLatest(s: seq<Message>, allowed: set<string>, x: Message)
    ensures x in Listed(s, allowed) <==> x.aliases != [] && exists m :: Latest(s, m) && x == Restrict(m, allowed)
  {
    hide FilterAliases;
    if s != [] {
      hide Listed, Latest;
      var n := |s| - 1;
      assert s == s[..n] + [s[n]];
      ListedLatest(s[..n], allowed, x);
      ListedSnoc(s[..n], s[n], allowed, x);
      forall m {
        LatestSnoc(s[..n], s[n], m);
      }
    } else {
      EmptyListed(allowed, x);
    }
  }

  lemma {:induction false} CarriersCount(w: seq<Message>, a: string)
    requires DistinctUids(w)
    ensures Carriers(w, a) == |CarrierUids(w, a)|
  {
    if w != [] {
      var n := |w| - 1;
      CarriersCount(w[..n], a);
      var front := CarrierUids(w[..n], a);
      if a in w[n].aliases {
        assert w[n].uid !in front;
        assert CarrierUids(w, a) == front + {w[n].uid};
      } else {
        assert CarrierUids(w, a) == front;
      }
    }
  }

  ghost function CarrierUids(w: seq<Message>, a: string): set<nat> {
    set d | d in w && a in d.aliases :: d.uid
  }

  /** The messages before one in the ranking are the newer ones. */
  lemma CarriersBefore(s: seq<Message>, aliases: seq<string>, m: Message, i: nat, a: string)
    requires var w := SortNewest(Listed(s, Allowed(aliases)));
             i < |w| && Latest(s, m) && w[i] == Restrict(m, Allowed(aliases))
    requires a in aliases && a != ""
    ensures var w := SortNewest(Listed(s, Allowed(aliases))); Carriers(w[..i], a) == |NewerFor(s, m, a)|
  {
    hide Listed, SortNewest, Latest, FilterAliases, Carriers;
    var allowed := Allowed(aliases);
    var w := SortNewest(Listed(s, allowed));
    SortDescending(Listed(s, allowed));
    SortDistinct(Listed(s, allowed));
    CarriersCount(w[..i], a);
    forall u
      ensures u in CarrierUids(w[..i], a) <==> u in NewerFor(s, m, a)
    {
      if u in CarrierUids(w[..i], a) {
        var d :| d in w[..i] && a in d.aliases && d.uid == u;
        var j :| 0 <= j < i && w[j] == d;
        assert w[j] in w && Newer(w[j], w[i]);
        ListedLatest(s, allowed, d);
        var e :| Latest(s, e) && d == Restrict(e, allowed);
        LatestIn(s, e);
      }
      if u in NewerFor(s, m, a) {
        var e :| e in s && Latest(s, e) && Newer(e, m) && a in e.aliases && e.uid == u;
        var d := Restrict(e, allowed);
        assert a in d.aliases;
        ListedLatest(s, allowed, d);
        assert d in w;
        var j :| 0 <= j < |w| && w[j] == d;
        assert j < i;
        assert w[..i][j] == d;
      }
    }
    assert CarrierUids(w[..i], a) == NewerFor(s, m, a);
  }

  lemma LatestIn(s: seq<Message>, m: Message)
    requires Latest(s, m)
    ensures m in s
  {
  }

  /** What a message of the ranking keeps. */
  lemma KeptInRanking(s: seq<Message>, aliases: seq<string>, m: Message, i: nat)
    requires var w := SortNewest(Listed(s, Allowed(aliases)));
             i < |w| && Latest(s, m) && w[i] == Restrict(m, Allowed(aliases))
    ensures var w := SortNewest(Listed(s, Allowed(aliases))); KeptAs(s, aliases, m, KeptOn(w[..i], w[i]))
  {
    hide Listed, SortNewest, Latest, FilterAliases, Carriers, Kept;
    var allowed := Allowed(aliases);
    var w := SortNewest(Listed(s, allowed));
    var x := KeptOn(w[..i], w[i]);
    forall a
      ensures a in x.aliases <==> Stays(s, aliases, m, a)
    {
      if a in aliases && a != "" {
        CarriersBefore(s, aliases, m, i, a);
      }
    }
    KeptNoRepeats(w[..i], w[i].aliases, {});
  }

  /** Every message of a merge is the last delivery of its UID with what stays on it. */
  lemma RankedIsKept(s: seq<Message>, aliases: seq<string>, x: Message)
    requires x in Ranked(s, Allowed(aliases))
    ensures x.aliases != [] && exists m :: Latest(s, m) && KeptAs(s, aliases, m, x)
  {
    hide Listed, SortNewest, Retained, Latest, KeptAs, Kept, FilterAliases;
    var allowed := Allowed(aliases);
    var w := SortNewest(Listed(s, allowed));
    RetainedExactly(w, x);
    var i :| 0 <= i < |w| && StaysAs(w, i, x);
    assert w[i] in w;
    ListedLatest(s, allowed, w[i]);
    var m :| Latest(s, m) && w[i] == Restrict(m, allowed);
    KeptInRanking(s, aliases, m, i);
  }

  /** And every last delivery on which an alias stays is ranked. */
  lemma KeptIsRanked(s: seq<Message>, aliases: seq<string>, m: Message, a: string)
    requires Latest(s, m) && Stays(s, aliases, m, a)
    ensures exists x :: x in Ranked(s, Allowed(aliases)) && KeptAs(s, aliases, m, x)
  {
    hide Listed, SortNewest, Retained, Latest, FilterAliases, Kept;
    var allowed := Allowed(aliases);
    var w := SortNewest(Listed(s, allowed));
    var d := Restrict(m, allowed);
    assert a in d.aliases;
    ListedLatest(s, allowed, d);
    assert d in w;
    var i :| 0 <= i < |w| && w[i] == d;
    KeptInRanking(s, aliases, m, i);
    var x := KeptOn(w[..i], w[i]);
    assert a in x.aliases;
    assert StaysAs(w, i, x);
    RetainedExactly(w, x);
  }

  lemma MergeIsMerge(existing: seq<Message>, incoming: seq<Message>, aliases: seq<string>, maximum: int)
    ensures IsMerge(existing + incoming, aliases, maximum, Merge(existing, incoming, aliases, maximum))
  {
    hide Ranked, Latest, KeptAs, Stays;
    var s := existing + incoming;
    var ranked := Ranked(s, Allowed(aliases));
    var result := Merge(existing, incoming, aliases, maximum);
    RankedShape(s, Allowed(aliases));
    forall x | x in result
      ensures x.aliases != [] && exists m :: Latest(s, m) && KeptAs(s, aliases, m, x)
    {
      assert x in ranked;
      RankedIsKept(s, aliases, x);
    }
    forall m, a | Latest(s, m) && Stays(s, aliases, m, a)
      ensures (exists x :: x in result && KeptAs(s, aliases, m, x))
              || (maximum > 0 && |result| == maximum && forall x :: x in result ==> Newer(x, m))
    {
      KeptIsRanked(s, aliases, m, a);
      var x :| x in ranked && KeptAs(s, aliases, m, x);
      if x !in result {
        CutIsOlder(ranked, maximum, x);
        SameDate(s, aliases, m, x);
      }
    }
  }

  lemma SameDate(s: seq<Message>, aliases: seq<string>, m: Message, x: Message)
    requires KeptAs(s, aliases, m, x)
    ensures x.date == m.date && x.uid == m.uid
  {
  }

  lemma CutIsOlder(ranked: seq<Message>, maximum: int, x: Message)
    requires Descending(ranked) && x in ranked && x !in Cut(ranked, maximum)
    ensures maximum > 0 && |Cut(ranked, maximum)| == maximum && forall y :: y in Cut(ranked, maximum) ==> Newer(y, x)
  {
    var i :| 0 <= i < |ranked| && ranked[i] == x;
    var cut := Cut(ranked, maximum);
    assert forall j :: 0 <= j < |cut| ==> cut[j] == ranked[j] && cut[j] in cut;
  }
}
