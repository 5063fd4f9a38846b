/** What readers of a mailbox repository get, and the repository that keeps the
    whole cache as one JSON document. */
module MailAnswers {
  import opened Wrappers
  import opened MailMessages
  import opened MailKeys
  import opened MailboxSync

  // ---- Filters over newest-first messages ----

  function Filter(s: seq<Message>, where: Message -> bool): (r: seq<Message>)
    ensures forall m :: m in r <==> m in s && where(m)
  {
    if s == [] then [] else (if where(s[0]) then [s[0]] else []) + Filter(s[1..], where)
  }

  function Take(s: seq<Message>, limit: nat): seq<Message> {
    if |s| <= limit then s else s[..limit]
  }

  lemma {:induction false} FilterConcat(a: seq<Message>, b: seq<Message>, where: Message -> bool)
    ensures Filter(a + b, where) == Filter(a, where) + Filter(b, where)
  {
    hide Filter;
    if a == [] {
      assert a + b == b;
      NothingFiltered(where);
    } else {
      FilterConcat(a[1..], b, where);
      FilterFirst(a, where);
      FilterFirst(a + b, where);
      assert (a + b)[1..] == a[1..] + b;
    }
  }

  lemma FilterFirst(s: seq<Message>, where: Message -> bool)
    requires s != []
    ensures Filter(s, where) == (if where(s[0]) then [s[0]] else []) + Filter(s[1..], where)
  {
  }

  lemma {:induction false} FilterDescending(s: seq<Message>, where: Message -> bool)
    requires Descending(s)
    ensures Descending(Filter(s, where))
  {
    if s != [] {
      FilterDescending(s[1..], where);
      var rest := Filter(s[1..], where);
      forall j | 0 <= j < |rest|
        ensures Newer(s[0], rest[j])
      {
        assert rest[j] in rest;
      }
    }
  }

  // ---- Answers ----

  const ALIAS_DEFAULT: nat := 10
  const ALIAS_LIMIT: nat := 100
  const RECENT_DEFAULT: nat := 200
  const RECENT_LIMIT: nat := 500

  function Bounded(limit: int, fallback: nat, maximum: nat): nat {
    if limit < 1 then fallback else if limit < maximum then limit else maximum
  }

  predicate Shows(m: Message, generation: string, hidden: seq<string>, alias: string) {
    alias in m.aliases && Key(generation, alias, m.uid) !in hidden
  }

  predicate ShowsAny(m: Message, generation: string, hidden: seq<string>) {
    exists a :: a in m.aliases && Key(generation, a, m.uid) !in hidden
  }

  /** The newest visible messages of an alias. */
  function AliasAnswer(cache: Cache, generation: string, alias: string, limit: int): seq<Message> {
    if generation == "" || alias == "" || cache.status.generation != generation then []
    else Take(View(cache, alias), Bounded(limit, ALIAS_DEFAULT, ALIAS_LIMIT))
  }

  /** The newest messages since a cutoff that any alias still shows. */
  function RecentAnswer(cache: Cache, generation: string, cutoff: int, limit: int): seq<Message> {
    if generation == "" || cache.status.generation != generation then []
    else DisplayedAll(Take(Filter(cache.messages, (m: Message) => m.date >= cutoff && ShowsAny(m, generation, cache.hidden)),
                           Bounded(limit, RECENT_DEFAULT, RECENT_LIMIT)))
  }

  // ---- What the answers are ----

  /** The newest messages that match, up to a number, as a reader gets them. */
  ghost predicate NewestOf(messages: seq<Message>, matches: Message -> bool, most: nat, answer: seq<Message>) {
    && |answer| <= most && Descending(answer)
    && (forall x :: x in answer ==> exists m :: m in messages && matches(m) && x == Displayed(m))
    && (forall m :: m in messages && matches(m) ==>
          Displayed(m) in answer || (|answer| == most && forall x :: x in answer ==> Newer(x, m)))
  }

  lemma NewestLaw(messages: seq<Message>, matches: Message -> bool, most: nat)
    requires Descending(messages)
    ensures NewestOf(messages, matches, most, DisplayedAll(Take(Filter(messages, matches), most)))
  {
    hide Filter, DisplayedAll;
    var all := Filter(messages, matches);
    var answer := DisplayedAll(Take(all, most));
    FilterDescending(messages, matches);
    forall x | x in answer
      ensures exists m :: m in messages && matches(m) && x == Displayed(m)
    {
      var i :| 0 <= i < |answer| && answer[i] == x;
      assert all[i] in all;
    }
    forall m | m in messages && matches(m) && Displayed(m) !in answer
      ensures |answer| == most && forall x :: x in answer ==> Newer(x, m)
    {
      assert m in all;
      NotTaken(all, most, m);
    }
  }

  lemma NotTaken(all: seq<Message>, most: nat, m: Message)
    requires Descending(all) && m in all && Displayed(m) !in DisplayedAll(Take(all, most))
    ensures |DisplayedAll(Take(all, most))| == most
    ensures forall x :: x in DisplayedAll(Take(all, most)) ==> Newer(x, m)
  {
    var answer := DisplayedAll(Take(all, most));
    var i :| 0 <= i < |all| && all[i] == m;
    assert forall j :: 0 <= j < |answer| ==> answer[j] == Displayed(all[j]) && answer[j] in answer;
    forall x | x in answer
      ensures Newer(x, m)
    {
      var j :| 0 <= j < |answer| && answer[j] == x;
      assert Newer(all[j], all[i]);
    }
  }

  /** A list query answers with the newest messages whose key for the alias is not
      hidden: 10 of them, or as many as asked for up to 100. */
  lemma AliasAnswerLaw(cache: Cache, generation: string, alias: string, limit: int)
    requires Descending(cache.messages)
    ensures generation == "" || alias == "" || cache.status.generation != generation ==> AliasAnswer(cache, generation, alias, limit) == []
    ensures generation != "" && alias != "" && cache.status.generation == generation ==>
              NewestOf(cache.messages, (m: Message) => alias in m.aliases && generation + ":" + alias + ":" + Decimal(m.uid) !in cache.hidden,
                       if limit < 1 then 10 else if limit < 100 then limit else 100, AliasAnswer(cache, generation, alias, limit))
  {
    hide Filter, Decimal;
    VisibleIsFilter(cache.messages, generation, cache.hidden, alias);
    var where := (m: Message) => Shows(m, generation, cache.hidden, alias);
    var most := Bounded(limit, ALIAS_DEFAULT, ALIAS_LIMIT);
    NewestLaw(cache.messages, where, most);
    DisplayedTaken(Filter(cache.messages, where), most);
  }

  lemma DisplayedTaken(s: seq<Message>, most: nat)
    ensures Take(DisplayedAll(s), most) == DisplayedAll(Take(s, most))
  {
  }

  /** A query for recent mail answers with the newest messages since the cutoff that
      some alias still shows: 200 of them, or as many as asked for up to 500. */
  lemma RecentAnswerLaw(cache: Cache, generation: string, cutoff: int, limit: int)
    requires Descending(cache.messages)
    ensures generation == "" || cache.status.generation != generation ==> RecentAnswer(cache, generation, cutoff, limit) == []
    ensures generation != "" && cache.status.generation == generation ==>
              NewestOf(cache.messages,
                       (m: Message) => m.date >= cutoff && exists a :: a in m.aliases && generation + ":" + a + ":" + Decimal(m.uid) !in cache.hidden,
                       if limit < 1 then 200 else if limit < 500 then limit else 500, RecentAnswer(cache, generation, cutoff, limit))
  {
    hide Filter, Decimal;
    NewestLaw(cache.messages, (m: Message) => m.date >= cutoff && ShowsAny(m, generation, cache.hidden), Bounded(limit, RECENT_DEFAULT, RECENT_LIMIT));
  }

  /** One visible message of an alias by its UID. */
  ghost predicate IsAnswer(cache: Cache, generation: string, alias: string, uid: nat, answer: Option<Message>) {
    if answer.Some? then
      && generation != "" && generation == cache.status.generation && alias != "" && uid != 0
      && exists m :: m in cache.messages && m.uid == uid && Shows(m, generation, cache.hidden, alias) && answer.value == Displayed(m)
    else
      generation == "" || generation != cache.status.generation || alias == "" || uid == 0
      || forall m :: m in cache.messages && m.uid == uid ==> !Shows(m, generation, cache.hidden, alias)
  }

  lemma {:induction false} VisibleIsFilter(messages: seq<Message>, generation: string, hidden: seq<string>, alias: string)
    ensures Visible(messages, generation, hidden, alias) == DisplayedAll(Filter(messages, m => Shows(m, generation, hidden, alias)))
  {
    hide Filter;
    var where := (m: Message) => Shows(m, generation, hidden, alias);
    if messages == [] {
      NothingFiltered(where);
    } else {
      VisibleIsFilter(messages[1..], generation, hidden, alias);
      FilterFirst(messages, where);
    }
  }

  /** Newest first, one message a UID, non-empty aliases, hidden keys that parse. */
  ghost predicate Orderly(cache: Cache) {
    && Descending(cache.messages) && DistinctUids(cache.messages)
    && (forall m :: m in cache.messages ==> m.uid < UID_LIMIT && "" !in m.aliases)
    && NoRepeats(cache.hidden)
    && (forall k :: k in cache.hidden ==> NamesMessage(cache.status.generation, k))
  }

  /** An orderly cache without a generation is empty. */
  ghost predicate Storable(cache: Cache) {
    Orderly(cache) && (cache.status.generation == "" ==> cache.messages == [] && cache.hidden == [])
  }

  /** The key of some alias and UID. */
  ghost predicate NamesMessage(generation: string, key: string) {
    exists a, u :: IsKeyOf(generation, key, a, u)
  }

  ghost predicate IsKeyOf(generation: string, key: string, alias: string, uid: nat) {
    alias != "" && uid < UID_LIMIT && key == Key(generation, alias, uid)
  }

  /** Every cache that the mailbox service reaches can be stored. */
  lemma ReachableIsStorable(cache: Cache)
    requires ValidCache(cache)
    ensures Storable(cache)
  {
    forall k | k in cache.hidden
      ensures NamesMessage(cache.status.generation, k)
    {
      var m, a :| m in cache.messages && a in m.aliases && k == Key(cache.status.generation, a, m.uid);
      assert IsKeyOf(cache.status.generation, k, a, m.uid);
    }
  }

  // ---- The JSON repository ----

  class JsonRepository {
    /** The document; absent until the first write. */
    var document: Option<Cache>

    ghost function Contents(): Cache
      reads this
    {
      if document.Some? then document.value else EMPTY_CACHE
    }

    method Load() returns (cache: Cache, exists': bool)
      ensures cache == Contents() && exists' == document.Some?
    {
      if document.None? {
        return EMPTY_CACHE, false;
      }
      return document.value, true;
    }

    method Save(cache: Cache)
      modifies this
      ensures document == Some(cache)
    {
      document := Some(cache);
    }

    method SaveState(state: Cache)
      modifies this
      ensures document == Some(WithState(old(Contents()), state))
    {
      var cache, _ := Load();
      Save(WithState(cache, state));
    }

    method Clear()
      modifies this
      ensures document == Some(EMPTY_CACHE)
    {
      document := Some(EMPTY_CACHE);
    }

    method ListAliasMessages(generation: string, alias: string, limit: int) returns (selected: seq<Message>)
      requires Storable(Contents())
      ensures selected == AliasAnswer(Contents(), generation, alias, limit)
      ensures |selected| <= if limit < 1 then 10 else if limit < 100 then limit else 100
    {
      var cache, _ := Load();
      if generation == "" || cache.status.generation != generation || alias == "" {
        return [];
      }
      VisibleIsFilter(cache.messages, generation, cache.hidden, alias);
      selected := Select(cache, m => Shows(m, generation, cache.hidden, alias), Bounded(limit, ALIAS_DEFAULT, ALIAS_LIMIT));
    }

    method ListRecentMessages(generation: string, cutoff: int, limit: int) returns (selected: seq<Message>)
      requires Storable(Contents())
      ensures selected == RecentAnswer(Contents(), generation, cutoff, limit)
      ensures |selected| <= if limit < 1 then 200 else if limit < 500 then limit else 500
    {
      var cache, _ := Load();
      if generation == "" || cache.status.generation != generation {
        return [];
      }
      var where := (m: Message) => m.date >= cutoff && ShowsAny(m, generation, cache.hidden);
      selected := Select(cache, where, Bounded(limit, RECENT_DEFAULT, RECENT_LIMIT));
    }

    /** Orders the messages and takes matching ones up to the limit, with their
        absent lists made empty. */
    method Select(cache: Cache, where: Message -> bool, limit: nat) returns (selected: seq<Message>)
      requires Storable(cache) && limit > 0
      ensures selected == DisplayedAll(Take(Filter(cache.messages, where), limit))
    {
      hide SortNewest, Filter, DisplayedAll;
      var ordered := SortNewest(cache.messages);
      SortDescending(cache.messages);
      DescendingUnique(ordered, cache.messages);
      selected := [];
      NothingFiltered(where);
      assert ordered[..0] == [] && DisplayedAll([]) == [];
      for i := 0 to |ordered|
        invariant selected == DisplayedAll(Filter(ordered[..i], where)) && |selected| < limit
      {
        OneMoreFiltered(ordered, i, where);
        assert ordered == ordered[..i + 1] + ordered[i + 1..];
        if where(ordered[i]) {
          selected := selected + [Displayed(ordered[i])];
          if |selected| == limit {
            FilterConcat(ordered[..i + 1], ordered[i + 1..], where);
            return;
          }
        }
      }
      assert ordered[..|ordered|] == ordered;
    }

    method GetMessage(generation: string, alias: string, uid: nat) returns (answer: Option<Message>)
      ensures IsAnswer(Contents(), generation, alias, uid, answer)
    {
      var cache, _ := Load();
      if generation == "" || cache.status.generation != generation || alias == "" || uid == 0
         || Key(generation, alias, uid) in cache.hidden {
        return None;
      }
      for i := 0 to |cache.messages|
        invariant forall m :: m in cache.messages[..i] && m.uid == uid ==> !Shows(m, generation, cache.hidden, alias)
      {
        var m := cache.messages[i];
        if m.uid == uid && alias in m.aliases {
          return Some(Displayed(m));
        }
        assert cache.messages[..i + 1] == cache.messages[..i] + [m];
      }
      assert cache.messages[..|cache.messages|] == cache.messages;
      answer := None;
    }
  }

  lemma NothingFiltered(where: Message -> bool)
    ensures Filter([], where) == []
  {
  }

  lemma OneMoreFiltered(s: seq<Message>, i: nat, where: Message -> bool)
    requires i < |s|
    ensures Filter(s[..i + 1], where) == Filter(s[..i], where) + if where(s[i]) then [s[i]] else []
  {
    assert s[..i + 1] == s[..i] + [s[i]];
    FilterConcat(s[..i], [s[i]], where);
    assert [s[i]][1..] == [];
  }
}
