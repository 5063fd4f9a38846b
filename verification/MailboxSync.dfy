/** What one sync does to the cached mailbox: the full path, the state-only fast
    path, hiding, and what a reader of an alias can see. */
module MailboxSync {
  import opened Wrappers
  import opened MailMessages
  import opened MailMerge
  import opened MailBatches
  import opened MailCache
  import opened MailMergeLaw
  import opened MailKeys

  datatype Status = Status(revision: int, uidValidity: nat, generation: string, lastError: string, lastSyncAt: Option<int>)

  datatype Cache = Cache(status: Status, messages: seq<Message>, hidden: seq<string>, highestUid: nat, allowedAliases: seq<string>)

  const EMPTY_CACHE := Cache(Status(0, 0, "", "", None), [], [], 0, [])

  /** The cache without messages and hidden keys, as the state row holds it. */
  function StateOf(cache: Cache): Cache {
    cache.(messages := [], hidden := [])
  }

  function WithState(cache: Cache, state: Cache): Cache {
    state.(messages := cache.messages, hidden := cache.hidden)
  }

  // ---- Aliases ----

  function Distinct(aliases: seq<string>): (r: seq<string>)
    ensures forall a :: a in r <==> a in aliases && a != ""
    ensures NoRepeats(r)
  {
    if aliases == [] then []
    else
      var front, last := Distinct(aliases[..|aliases| - 1]), aliases[|aliases| - 1];
      if last == "" || last in front then front else front + [last]
  }

  /** Sorted, without repetitions and without the empty string. */
  function NormalizeAliases(aliases: seq<string>): (r: seq<string>)
    ensures forall a :: a in r <==> a in aliases && a != ""
    ensures NoRepeats(r)
    ensures Allowed(r) == Allowed(aliases)
  {
    SortKeys(Distinct(aliases))
  }

  /** An empty list is stored as an absent one, which never equals a list: with
      no aliases every sync takes the full path. */
  function AliasesChanged(stored: seq<string>, normalized: seq<string>): bool {
    normalized == [] || stored != normalized
  }

  // ---- Hidden keys ----

  /** The keys of the cached messages, an alias at a time. */
  predicate IsMessageKey(key: string, generation: string, messages: seq<Message>) {
    exists m, a :: m in messages && a in m.aliases && key == Key(generation, a, m.uid)
  }

  ghost predicate IsPruning(pruned: seq<string>, hidden: seq<string>, generation: string, messages: seq<Message>) {
    && (forall k :: k in pruned <==> k in hidden && IsMessageKey(k, generation, messages))
  }

  function MessageKeys(generation: string, messages: seq<Message>): (keys: set<string>)
    ensures forall k :: k in keys <==> IsMessageKey(k, generation, messages)
  {
    set m, a | m in messages && a in m.aliases :: Key(generation, a, m.uid)
  }

  /** Keys that still name a cached message, once each and sorted. */
  function Pruned(hidden: seq<string>, generation: string, messages: seq<Message>): (pruned: seq<string>)
    ensures IsPruning(pruned, hidden, generation, messages)
    ensures NoRepeats(pruned)
  {
    SortKeys(ValidKeys(hidden, MessageKeys(generation, messages), {}))
  }

  function ValidKeys(hidden: seq<string>, valid: set<string>, seen: set<string>): (r: seq<string>)
    ensures forall k :: k in r <==> k in hidden && k in valid && k !in seen
    ensures NoRepeats(r)
  {
    if hidden == [] then []
    else if hidden[0] !in valid || hidden[0] in seen then ValidKeys(hidden[1..], valid, seen)
    else [hidden[0]] + ValidKeys(hidden[1..], valid, seen + {hidden[0]})
  }

  // ---- The two paths of a sync ----

  /** What the mail server answered. */
  datatype Fetched = Fetched(messages: seq<Message>, uidValidity: nat, highestUid: nat)

  function Stamped(status: Status, fetched: Fetched, generation: string, now: int): Status {
    status.(uidValidity := fetched.uidValidity, generation := generation, lastError := "", lastSyncAt := Some(now))
  }

  /** The state that the fast path writes; messages and hidden keys stay. */
  function FastState(cache: Cache, fetched: Fetched, normalized: seq<string>, generation: string, now: int): Cache {
    StateOf(cache).(status := Stamped(cache.status, fetched, generation, now),
                    highestUid := fetched.highestUid, allowedAliases := normalized)
  }

  predicate GenerationChanged(cache: Cache, generation: string) {
    cache.status.generation != "" && cache.status.generation != generation
  }

  /** The merged cache of the full path, before the revision is raised. */
  function MergedCache(cache: Cache, fetched: Fetched, aliases: seq<string>, generation: string, maximum: int, now: int): Cache {
    var base := if GenerationChanged(cache, generation) then cache.(messages := [], hidden := []) else cache;
    var messages := Merge(base.messages, fetched.messages, aliases, maximum);
    Cache(Stamped(cache.status, fetched, generation, now), messages, Pruned(base.hidden, generation, messages),
          fetched.highestUid, NormalizeAliases(aliases))
  }

  /** The merged messages are compared with a copy of the old ones, so a message
      with an empty list counts as changed even when nothing happened to it. */
  predicate SyncChanged(cache: Cache, fetched: Fetched, aliases: seq<string>, generation: string, maximum: int) {
    GenerationChanged(cache, generation)
    || Copies(cache.messages) != Merge(cache.messages, fetched.messages, aliases, maximum)
  }

  /** A change raises the revision; without one, and with the same hidden keys,
      only the state is written. */
  function SlowCache(cache: Cache, fetched: Fetched, aliases: seq<string>, generation: string, maximum: int, now: int): Cache {
    var merged := MergedCache(cache, fetched, aliases, generation, maximum, now);
    if SyncChanged(cache, fetched, aliases, generation, maximum) then
      merged.(status := merged.status.(revision := merged.status.revision + 1))
    else if cache.hidden != merged.hidden then merged
    else WithState(cache, merged)
  }

  predicate TakesFastPath(cache: Cache, fetched: Fetched, normalized: seq<string>, generation: string) {
    fetched.messages == [] && !AliasesChanged(cache.allowedAliases, normalized) && !GenerationChanged(cache, generation)
  }

  // ---- Reachable caches ----

  ghost predicate ValidCache(cache: Cache) {
    && ValidMessages(cache.messages, Allowed(cache.allowedAliases), 0)
    && (cache.status.generation == "" ==> cache.messages == [] && cache.hidden == [])
    && (forall k :: k in cache.hidden ==> IsMessageKey(k, cache.status.generation, cache.messages))
    && NoRepeats(cache.hidden)
    && (forall m :: m in cache.messages ==> m.uid < UID_LIMIT)
  }

  /** The full path reaches a valid cache from any cache. */
  lemma SlowIsValid(cache: Cache, fetched: Fetched, aliases: seq<string>, generation: string, maximum: int, now: int)
    requires generation != ""
    requires forall m :: m in cache.messages + fetched.messages ==> m.uid < UID_LIMIT
    ensures ValidCache(SlowCache(cache, fetched, aliases, generation, maximum, now))
  {
    hide ValidMessages, IsMessageKey;
    var base := if GenerationChanged(cache, generation) then [] else cache.messages;
    var merged := Merge(base, fetched.messages, aliases, maximum);
    MergeValid(base, fetched.messages, aliases, maximum);
    MergedUids(base, fetched.messages, aliases, maximum);
    NoSizeLimit(merged, Allowed(aliases), maximum);
    if !SyncChanged(cache, fetched, aliases, generation, maximum) {
      CopiesValid(cache.messages, Allowed(aliases), 0);
      forall k
        ensures IsMessageKey(k, generation, merged) ==> IsMessageKey(k, generation, cache.messages)
      {
        KeysOfCopies(k, generation, cache.messages);
      }
    }
  }

  lemma NoSizeLimit(s: seq<Message>, allowed: set<string>, maximum: int)
    requires ValidMessages(s, allowed, maximum)
    ensures ValidMessages(s, allowed, 0)
  {
  }

  lemma KeysOfCopies(key: string, generation: string, s: seq<Message>)
    ensures IsMessageKey(key, generation, Copies(s)) <==> IsMessageKey(key, generation, s)
  {
    if IsMessageKey(key, generation, s) {
      var m, a :| m in s && a in m.aliases && key == Key(generation, a, m.uid);
      var i :| 0 <= i < |s| && s[i] == m;
      assert Copies(s)[i] in Copies(s);
    }
    if IsMessageKey(key, generation, Copies(s)) {
      var m, a :| m in Copies(s) && a in m.aliases && key == Key(generation, a, m.uid);
      var i :| 0 <= i < |s| && Copies(s)[i] == m;
      assert s[i] in s;
    }
  }

  lemma MergedUids(existing: seq<Message>, incoming: seq<Message>, aliases: seq<string>, maximum: int)
    requires forall m :: m in existing + incoming ==> m.uid < UID_LIMIT
    ensures forall r :: r in Merge(existing, incoming, aliases, maximum) ==> r.uid < UID_LIMIT
  {
    hide Listed, Retained, SortNewest;
    var allowed := Allowed(aliases);
    var listed := Listed(existing + incoming, allowed);
    var ranked := Ranked(existing + incoming, allowed);
    forall r | r in Merge(existing, incoming, aliases, maximum)
      ensures r.uid < UID_LIMIT
    {
      assert r in ranked;
      RetainedExactly(SortNewest(listed), r);
      var i :| 0 <= i < |SortNewest(listed)| && StaysAs(SortNewest(listed), i, r);
      ListedMembers(existing + incoming, allowed, SortNewest(listed)[i]);
    }
  }

  lemma FastIsValid(cache: Cache, fetched: Fetched, normalized: seq<string>, generation: string, now: int)
    requires ValidCache(cache) && generation != ""
    requires TakesFastPath(cache, fetched, normalized, generation)
    ensures ValidCache(WithState(cache, FastState(cache, fetched, normalized, generation, now)))
  {
  }

  predicate WithinSize(cache: Cache, maximum: int) {
    maximum <= 0 || |cache.messages| <= maximum
  }

  /** Everything that the two paths should agree on, apart from the revision. */
  ghost predicate SameButRevision(a: Cache, b: Cache) {
    && a.messages == b.messages && (forall k :: k in a.hidden <==> k in b.hidden)
    && StateOf(a) == StateOf(b.(status := b.status.(revision := a.status.revision)))
  }

  /** When nothing arrives the fast path writes what the full path would (the same
      messages, hidden keys, cursor, aliases and status) exactly when the cache is
      within the size limit, and the same revision exactly when moreover no cached
      message has an empty list. */
  lemma FastEqualsSlow(cache: Cache, fetched: Fetched, aliases: seq<string>, generation: string, maximum: int, now: int)
    requires ValidCache(cache)
    requires TakesFastPath(cache, fetched, NormalizeAliases(aliases), generation)
    ensures
      var fast := WithState(cache, FastState(cache, fetched, NormalizeAliases(aliases), generation, now));
      var slow := SlowCache(cache, fetched, aliases, generation, maximum, now);
      && (SameButRevision(fast, slow) <==> WithinSize(cache, maximum))
      && (SameButRevision(fast, slow) && fast.status.revision == slow.status.revision
          <==> WithinSize(cache, maximum) && forall m :: m in cache.messages ==> !HasEmptyList(m))
  {
    hide Merge, Pruned, ValidMessages;
    assert Allowed(aliases) == Allowed(cache.allowedAliases);
    MergeNothing(cache.messages, aliases, 0, maximum);
    CopiesEqual(cache.messages);
    if cache.status.generation == "" {
      assert cache.messages == [] && cache.hidden == [];
    }
    if WithinSize(cache, maximum) {
      assert Merge(cache.messages, fetched.messages, aliases, maximum) == cache.messages;
    } else {
      assert |Copies(cache.messages)| != |Merge(cache.messages, fetched.messages, aliases, maximum)|;
    }
  }

  const FIRST := Message(1, ["a"], 10, "", Present(["1234"]), Absent)
  const SECOND := Message(2, ["a"], 20, "", Present(["5678"]), Absent)

  /** A limit lowered by settings leaves a reachable cache above it: the full path
      would drop its older message, the fast path keeps it. */
  lemma LoweredLimit(now: int)
    ensures var cache := SlowCache(EMPTY_CACHE, Fetched([FIRST, SECOND], 1, 2), ["a"], "g", 2, now);
            var nothing := Fetched([], 1, 2);
            && ValidCache(cache) && cache.messages == [SECOND, FIRST] && WithinSize(cache, 2)
            && TakesFastPath(cache, nothing, NormalizeAliases(["a"]), "g")
            && WithState(cache, FastState(cache, nothing, NormalizeAliases(["a"]), "g", now)).messages == [SECOND, FIRST]
            && SlowCache(cache, nothing, ["a"], "g", 1, now).messages == [SECOND]
  {
    hide Merge, Pruned, ValidMessages;
    MergeOfTwo();
    SlowIsValid(EMPTY_CACHE, Fetched([FIRST, SECOND], 1, 2), ["a"], "g", 2, now);
    var cache := SlowCache(EMPTY_CACHE, Fetched([FIRST, SECOND], 1, 2), ["a"], "g", 2, now);
    assert "a" in ["a"];
    assert "a" in NormalizeAliases(["a"]);
    MergeNothing(cache.messages, ["a"], 0, 1);
  }

  lemma MergeOfTwo()
    ensures Merge([], [FIRST, SECOND], ["a"], 2) == [SECOND, FIRST]
  {
    hide Listed, Retained, SortNewest;
    ListedTwo();
    RetainedTwo();
    assert [] + [FIRST, SECOND] == [FIRST, SECOND];
    SortDescending([FIRST, SECOND]);
    DescendingUnique(SortNewest([FIRST, SECOND]), [SECOND, FIRST]);
  }

  lemma ListedTwo()
    ensures Listed([FIRST, SECOND], Allowed(["a"])) == [FIRST, SECOND]
  {
    var allowed := Allowed(["a"]);
    RestrictSame();
    WithoutSecond();
    ListedNext([], FIRST, allowed);
    ListedNext([FIRST], SECOND, allowed);
    hide Listed, FilterAliases, WithoutUid;
    assert [] + [FIRST] == [FIRST] && [FIRST] + [SECOND] == [FIRST, SECOND];
  }

  lemma ListedNext(s: seq<Message>, m: Message, allowed: set<string>)
    requires FilterAliases(m.aliases, allowed) == m.aliases != []
    ensures Listed(s + [m], allowed) == WithoutUid(Listed(s, allowed), m.uid) + [m]
    ensures Listed([], allowed) == []
  {
    hide FilterAliases, WithoutUid;
    assert (s + [m])[..|s|] == s;
  }

  lemma RestrictSame()
    ensures FilterAliases(["a"], Allowed(["a"])) == ["a"]
    ensures WithoutUid([], FIRST.uid) == []
  {
    assert ["a"][0] in Allowed(["a"]);
  }

  lemma WithoutSecond()
    ensures WithoutUid([FIRST], SECOND.uid) == [FIRST]
  {
    assert WithoutUid([FIRST], SECOND.uid) == [FIRST] + WithoutUid([], SECOND.uid);
  }

  lemma RetainedTwo()
    ensures Retained([], [SECOND, FIRST]) == [SECOND, FIRST]
  {
    KeptAll([], ["a"], {});
    assert Carriers([SECOND], "a") <= 1;
    KeptAll([SECOND], ["a"], {});
    assert Retained([SECOND], [FIRST]) == [FIRST];
  }

  // ---- What a full sync leaves ----

  /** The messages that a full sync merges: none of an earlier generation. */
  function Deliveries(before: Cache, fetched: Fetched, generation: string): seq<Message> {
    (if before.status.generation != "" && before.status.generation != generation then [] else before.messages) + fetched.messages
  }

  /** One for another generation or other messages than copies of the cached ones. */
  function RevisionStep(before: Cache, generation: string, messages: seq<Message>): int {
    if (before.status.generation != "" && before.status.generation != generation) || Copies(before.messages) != messages then 1 else 0
  }

  /** A sync that brings nothing for the same aliases and generation writes the
      state; any other is a full one. */
  ghost predicate IsSync(before: Cache, fetched: Fetched, aliases: seq<string>, generation: string, maximum: int, now: int, after: Cache) {
    if fetched.messages == [] && NormalizeAliases(aliases) != [] && before.allowedAliases == NormalizeAliases(aliases)
       && (before.status.generation == "" || before.status.generation == generation)
    then after == before.(status := Status(before.status.revision, fetched.uidValidity, generation, "", Some(now)),
                          highestUid := fetched.highestUid)
    else IsFullSync(before, fetched, aliases, generation, maximum, now, after)
  }

  /** Said of the caches before and after alone, up to lists that count as absent:
      the messages are the merge of what was fetched into what was cached under
      the same generation; of the hidden keys of that generation those stay that
      still name a message; and the state is the fetched one. */
  ghost predicate IsFullSync(before: Cache, fetched: Fetched, aliases: seq<string>, generation: string, maximum: int, now: int, after: Cache) {
    && (exists messages :: IsMerge(Deliveries(before, fetched, generation), aliases, maximum, messages)
                           && Copies(messages) == Copies(after.messages)
                           && after.status.revision == before.status.revision + RevisionStep(before, generation, messages))
    && (forall k :: k in after.hidden <==>
          && k in before.hidden && (before.status.generation == "" || before.status.generation == generation)
          && IsMessageKey(k, generation, after.messages))
    && after.status == Status(after.status.revision, fetched.uidValidity, generation, "", Some(now))
    && after.highestUid == fetched.highestUid
    && (forall a :: a in after.allowedAliases <==> a in aliases && a != "") && NoRepeats(after.allowedAliases)
  }

  lemma SlowIsFullSync(before: Cache, fetched: Fetched, aliases: seq<string>, generation: string, maximum: int, now: int)
    requires ValidCache(before)
    ensures IsFullSync(before, fetched, aliases, generation, maximum, now, SlowCache(before, fetched, aliases, generation, maximum, now))
  {
    hide Merge, Pruned, ValidMessages, IsMessageKey, NormalizeAliases, IsMerge;
    var changed := GenerationChanged(before, generation);
    var base := if changed then [] else before.messages;
    var messages := Merge(base, fetched.messages, aliases, maximum);
    MergeIsMerge(base, fetched.messages, aliases, maximum);
    var slow := SlowCache(before, fetched, aliases, generation, maximum, now);
    CopiesOfCopies(before.messages);
    if !SyncChanged(before, fetched, aliases, generation, maximum) {
      forall k {
        KeysOfCopies(k, generation, before.messages);
      }
    }
  }

  lemma CopiesOfCopies(s: seq<Message>)
    ensures Copies(Copies(s)) == Copies(s)
  {
  }

  /** Lists that a store reads back as absent make no difference. */
  lemma FullSyncReread(before: Cache, fetched: Fetched, aliases: seq<string>, generation: string, maximum: int, now: int, after: Cache)
    requires IsFullSync(before, fetched, aliases, generation, maximum, now, after)
    ensures IsFullSync(before, fetched, aliases, generation, maximum, now, after.(messages := Copies(after.messages)))
  {
    hide IsMerge, IsMessageKey;
    CopiesOfCopies(after.messages);
    forall k {
      KeysOfCopies(k, generation, after.messages);
    }
  }

  /** After a change of generation no message and no hidden key of the old one is left. */
  lemma NewGenerationStartsEmpty(before: Cache, fetched: Fetched, aliases: seq<string>, generation: string, maximum: int, now: int, after: Cache)
    requires IsFullSync(before, fetched, aliases, generation, maximum, now, after)
    requires before.status.generation != "" && before.status.generation != generation
    ensures after.hidden == []
    ensures forall x :: x in after.messages ==> exists m :: m in fetched.messages && m.uid == x.uid && m.date == x.date
  {
    NoElement(after.hidden);
    assert Deliveries(before, fetched, generation) == fetched.messages;
    var messages :| IsMerge(fetched.messages, aliases, maximum, messages) && Copies(messages) == Copies(after.messages);
    forall x | x in after.messages
      ensures exists m :: m in fetched.messages && m.uid == x.uid && m.date == x.date
    {
      var i :| 0 <= i < |after.messages| && after.messages[i] == x;
      assert |messages| == |Copies(messages)| && Copied(messages[i]) == Copied(x) && messages[i] in messages;
      var m :| Latest(fetched.messages, m) && KeptAs(fetched.messages, aliases, m, messages[i]);
      LatestIn(fetched.messages, m);
    }
  }

  /** A sync within the size limit leaves the cache within it, whichever path it
      takes, and the full path brings any cache back into it. */
  lemma SlowWithinSize(cache: Cache, fetched: Fetched, aliases: seq<string>, generation: string, maximum: int, now: int)
    ensures WithinSize(SlowCache(cache, fetched, aliases, generation, maximum, now), maximum)
  {
    hide Merge, Pruned, ValidMessages;
    var base := if GenerationChanged(cache, generation) then [] else cache.messages;
    MergeValid(base, fetched.messages, aliases, maximum);
    MergedSize(base, fetched.messages, aliases, maximum);
  }

  lemma MergedSize(existing: seq<Message>, incoming: seq<Message>, aliases: seq<string>, maximum: int)
    ensures maximum > 0 ==> |Merge(existing, incoming, aliases, maximum)| <= maximum
  {
    hide Ranked;
  }

  // ---- What a reader sees ----

  /** The visible messages of an alias. */
  function View(cache: Cache, alias: string): seq<Message> {
    if cache.status.generation == "" then []
    else Visible(cache.messages, cache.status.generation, cache.hidden, alias)
  }

  function Visible(messages: seq<Message>, generation: string, hidden: seq<string>, alias: string): seq<Message> {
    if messages == [] then []
    else
      var m := messages[0];
      (if alias in m.aliases && Key(generation, alias, m.uid) !in hidden then [Displayed(m)] else [])
      + Visible(messages[1..], generation, hidden, alias)
  }

  lemma {:induction false} VisibleSame(messages: seq<Message>, generation: string, hidden: seq<string>, hidden': seq<string>, alias: string)
    requires forall m :: m in messages && alias in m.aliases ==>
               (Key(generation, alias, m.uid) in hidden <==> Key(generation, alias, m.uid) in hidden')
    ensures Visible(messages, generation, hidden, alias) == Visible(messages, generation, hidden', alias)
  {
    if messages != [] {
      VisibleSame(messages[1..], generation, hidden, hidden', alias);
    }
  }

  /** A full sync that changes what an alias shows raises the revision. */
  lemma SlowViewChange(cache: Cache, fetched: Fetched, aliases: seq<string>, generation: string, maximum: int, now: int, alias: string)
    requires ValidCache(cache)
    ensures var slow := SlowCache(cache, fetched, aliases, generation, maximum, now);
            View(slow, alias) != View(cache, alias) ==> slow.status.revision == cache.status.revision + 1
  {
    hide Merge, Pruned;
    var slow := SlowCache(cache, fetched, aliases, generation, maximum, now);
    if !SyncChanged(cache, fetched, aliases, generation, maximum) {
      var merged := Merge(cache.messages, fetched.messages, aliases, maximum);
      assert Copies(cache.messages) == merged;
      if cache.status.generation != "" {
        forall m | m in cache.messages && alias in m.aliases
          ensures Key(generation, alias, m.uid) in cache.hidden <==> Key(generation, alias, m.uid) in slow.hidden
        {
          assert IsMessageKey(Key(generation, alias, m.uid), generation, cache.messages);
          KeysOfCopies(Key(generation, alias, m.uid), generation, cache.messages);
        }
        VisibleSame(cache.messages, generation, cache.hidden, slow.hidden, alias);
        VisibleCopies(cache.messages, generation, slow.hidden, alias);
      } else {
        assert cache.messages == [] && merged == [];
      }
    }
  }

  lemma {:induction false} VisibleCopies(messages: seq<Message>, generation: string, hidden: seq<string>, alias: string)
    ensures Visible(Copies(messages), generation, hidden, alias) == Visible(messages, generation, hidden, alias)
  {
    if messages != [] {
      VisibleCopies(messages[1..], generation, hidden, alias);
      assert Copies(messages)[1..] == Copies(messages[1..]);
    }
  }

  /** The fast path never changes what an alias shows. */
  lemma FastViewSame(cache: Cache, fetched: Fetched, normalized: seq<string>, generation: string, now: int, alias: string)
    requires ValidCache(cache) && TakesFastPath(cache, fetched, normalized, generation)
    ensures View(WithState(cache, FastState(cache, fetched, normalized, generation, now)), alias) == View(cache, alias)
  {
  }
}
