/** The merge as the service runs it: a map by UID, an iteration of that map in
    any order, a sort and a counting pass. */
module MailMergeLoop {
  import opened MailMessages
  import opened MailMerge

  function Count(counts: map<string, nat>, a: string): nat {
    if a in counts then counts[a] else 0
  }

  /** The counting pass over a newest-first list. */
  method RetainNewest(messages: seq<Message>) returns (retained: seq<Message>)
    ensures retained == Retained([], messages)
  {
    hide Carriers, Kept, Retained, CountsCarriers;
    var counts: map<string, nat> := map[];
    retained := [];
    NothingCounted();
    for i := 0 to |messages|
      invariant retained == Retained([], messages[..i])
      invariant CountsCarriers(counts, messages[..i])
    {
      var message := messages[i];
      var aliases;
      ghost var before := counts;
      aliases, counts := KeepAliases(messages[..i], message.aliases, counts);
      RetainedSnoc([], messages[..i], message);
      assert messages[..i + 1] == messages[..i] + [message];
      assert [] + messages[..i] == messages[..i];
      CountsNext(before, counts, messages[..i], message);
      if aliases != [] {
        retained := retained + [message.(aliases := aliases)];
      }
    }
    assert messages[..|messages|] == messages;
  }

  /** The counter of an alias stops at the maximum. */
  ghost predicate CountsCarriers(counts: map<string, nat>, earlier: seq<Message>) {
    forall a :: a != "" ==> Count(counts, a) == if Carriers(earlier, a) < ALIAS_MAXIMUM then Carriers(earlier, a) else ALIAS_MAXIMUM
  }

  /** The inner loop: an alias is kept and counted once, below the maximum. */
  method KeepAliases(ghost earlier: seq<Message>, all: seq<string>, before: map<string, nat>)
    returns (aliases: seq<string>, counts: map<string, nat>)
    requires CountsCarriers(before, earlier)
    ensures aliases == Kept(earlier, all, {})
    ensures forall a :: a != "" ==> Count(counts, a) == Count(before, a) + if a in aliases then 1 else 0
  {
    hide Carriers, Kept, CountsCarriers;
    counts := before;
    aliases := [];
    NothingKept(earlier);
    var seen: set<string> := {};
    for k := 0 to |all|
      invariant aliases + Kept(earlier, all[k..], seen) == Kept(earlier, all, {})
      invariant forall a :: a in seen <==> a in aliases
      invariant forall a :: a != "" ==> Count(counts, a) == Count(before, a) + if a in seen then 1 else 0
    {
      var alias := all[k];
      assert all[k..][1..] == all[k + 1..];
      KeptFirst(earlier, all[k..], seen);
      CountTells(before, earlier, alias);
      if alias == "" || alias in seen || Count(counts, alias) >= ALIAS_MAXIMUM {
        continue;
      }
      seen := seen + {alias};
      counts := counts[alias := Count(counts, alias) + 1];
      aliases := aliases + [alias];
    }
  }

  lemma NothingCounted()
    ensures CountsCarriers(map[], []) && Retained([], []) == []
  {
  }

  lemma NothingKept(earlier: seq<Message>)
    ensures forall seen :: Kept(earlier, [], seen) == []
  {
  }

  lemma KeptFirst(earlier: seq<Message>, aliases: seq<string>, seen: set<string>)
    requires aliases != []
    ensures var a := aliases[0];
            Kept(earlier, aliases, seen)
            == if a == "" || a in seen || Carriers(earlier, a) >= ALIAS_MAXIMUM then Kept(earlier, aliases[1..], seen)
               else [a] + Kept(earlier, aliases[1..], seen + {a})
  {
  }

  lemma CountTells(counts: map<string, nat>, earlier: seq<Message>, a: string)
    requires CountsCarriers(counts, earlier)
    ensures a != "" ==> (Count(counts, a) >= ALIAS_MAXIMUM <==> Carriers(earlier, a) >= ALIAS_MAXIMUM)
  {
  }

  lemma CountsNext(before: map<string, nat>, after: map<string, nat>, earlier: seq<Message>, m: Message)
    requires CountsCarriers(before, earlier)
    requires forall a :: a != "" ==> Count(after, a) == Count(before, a) + if a in Kept(earlier, m.aliases, {}) then 1 else 0
    ensures CountsCarriers(after, earlier + [m])
  {
    CountsStep(after, earlier, m);
  }

  lemma CountsStep(counts: map<string, nat>, earlier: seq<Message>, m: Message)
    requires forall a :: a != "" ==>
      var c := Carriers(earlier, a);
      Count(counts, a) == (if c < ALIAS_MAXIMUM then c else ALIAS_MAXIMUM) + if a in Kept(earlier, m.aliases, {}) then 1 else 0
    ensures CountsCarriers(counts, earlier + [m])
  {
    forall a: string
      ensures Carriers(earlier + [m], a) == Carriers(earlier, a) + if a in m.aliases then 1 else 0
    {
      CarriersSnoc(earlier, m, a);
    }
  }

  ghost predicate MapIsListed(byUid: map<nat, Message>, delivered: seq<Message>, allowed: set<string>) {
    forall x: Message :: (x.uid in byUid && byUid[x.uid] == x) <==> x in Listed(delivered, allowed)
  }

  method MergeMessages(existing: seq<Message>, incoming: seq<Message>, aliases: seq<string>, maximum: int)
    returns (merged: seq<Message>)
    ensures merged == Merge(existing, incoming, aliases, maximum)
  {
    hide Listed, FilterAliases, SortNewest, Retained, MapIsListed;
    var allowed := Allowed(aliases);
    var delivered := existing + incoming;
    var byUid: map<nat, Message> := map[];
    EmptyMap(allowed);
    assert delivered[..0] == [];
    for i := 0 to |delivered|
      invariant MapIsListed(byUid, delivered[..i], allowed)
      invariant forall uid :: uid in byUid ==> byUid[uid].uid == uid
    {
      var message := delivered[i];
      var filtered := FilterLoop(message.aliases, allowed);
      ghost var before := byUid;
      if filtered == [] {
        byUid := byUid - {message.uid};
      } else {
        byUid := byUid[message.uid := message.(aliases := filtered)];
      }
      assert delivered[..i + 1] == delivered[..i] + [message];
      MapStep(before, byUid, delivered[..i], message, allowed);
    }
    assert delivered[..|delivered|] == delivered;
    var out := Values(byUid, delivered, allowed);
    var sorted := SortNewest(out);
    SortSame(out, Listed(delivered, allowed));
    var retained := RetainNewest(sorted);
    merged := retained;
    if maximum > 0 && |retained| > maximum {
      merged := retained[..maximum];
    }
  }

  method FilterLoop(aliases: seq<string>, allowed: set<string>) returns (filtered: seq<string>)
    ensures filtered == FilterAliases(aliases, allowed)
  {
    hide FilterAliases;
    filtered := [];
    assert FilterAliases([], allowed) == [] by {
      FilterFirst([], allowed);
    }
    for k := 0 to |aliases|
      invariant filtered + FilterAliases(aliases[k..], allowed) == FilterAliases(aliases, allowed)
    {
      assert aliases[k..][1..] == aliases[k + 1..];
      FilterFirst(aliases[k..], allowed);
      if aliases[k] in allowed {
        filtered := filtered + [aliases[k]];
      }
    }
  }

  /** Goes over the map in an arbitrary order. */
  lemma FilterFirst(aliases: seq<string>, allowed: set<string>)
    ensures FilterAliases(aliases, allowed)
            == if aliases == [] then []
               else (if aliases[0] in allowed then [aliases[0]] else []) + FilterAliases(aliases[1..], allowed)
  {
  }

  method Values(byUid: map<nat, Message>, ghost delivered: seq<Message>, ghost allowed: set<string>)
    returns (out: seq<Message>)
    requires MapIsListed(byUid, delivered, allowed)
    requires forall uid :: uid in byUid ==> byUid[uid].uid == uid
    ensures DistinctUids(out)
    ensures forall x :: x in out <==> x in Listed(delivered, allowed)
  {
    hide Listed;
    out := [];
    var remaining := byUid.Keys;
    while remaining != {}
      invariant remaining <= byUid.Keys
      invariant DistinctUids(out)
      invariant forall x :: x in out <==> x.uid in byUid && x.uid !in remaining && byUid[x.uid] == x
      decreases remaining
    {
      var uid :| uid in remaining;
      remaining := remaining - {uid};
      assert forall i :: 0 <= i < |out| ==> out[i] in out;
      out := out + [byUid[uid]];
    }
  }

  lemma EmptyMap(allowed: set<string>)
    ensures MapIsListed(map[], [], allowed)
  {
  }

  lemma MapStep(before: map<nat, Message>, after: map<nat, Message>, s: seq<Message>, m: Message, allowed: set<string>)
    requires MapIsListed(before, s, allowed)
    requires var r := Restrict(m, allowed);
             after == if r.aliases == [] then before - {m.uid} else before[m.uid := r]
    ensures MapIsListed(after, s + [m], allowed)
  {
    hide Listed;
    forall x: Message
      ensures (x.uid in after && after[x.uid] == x) <==> x in Listed(s + [m], allowed)
    {
      ListedSnoc(s, m, allowed, x);
    }
  }

  lemma SortSame(a: seq<Message>, b: seq<Message>)
    requires DistinctUids(a) && DistinctUids(b)
    requires forall x :: x in a <==> x in b
    ensures SortNewest(a) == SortNewest(b)
  {
    SortDescending(a);
    SortDescending(b);
    DescendingUnique(SortNewest(a), SortNewest(b));
  }
}
