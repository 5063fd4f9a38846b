/** The mailbox service of one process: the stored cache, the copy it keeps in
    memory, and the revision event that readers wait on. */
module MailboxService {
  import opened Wrappers
  import opened MailMessages
  import opened MailMerge
  import opened MailMergeLoop
  import opened MailCache
  import opened MailKeys
  import opened MailFirstScan
  import opened MailCursor
  import opened MailboxSync

  /** Which storage operations of a call succeed. */
  datatype Storage = Storage(load: bool, reload: bool, fullLoad: bool, save: bool)

  datatype SyncPlan =
    | StorageError
    | NotConfigured
    | Planned(previousUidValidity: nat, afterUid: nat, aliasesChanged: bool)

  function HighestOf(messages: seq<Message>, start: nat): (h: nat)
    ensures h >= start && forall m :: m in messages ==> m.uid <= h
  {
    if messages == [] then start
    else HighestOf(messages[1..], if messages[0].uid > start then messages[0].uid else start)
  }

  lemma {:induction false} HighestIsCached(messages: seq<Message>, start: nat)
    ensures HighestOf(messages, start) == start || exists m :: m in messages && m.uid == HighestOf(messages, start)
  {
    if messages != [] {
      HighestIsCached(messages[1..], if messages[0].uid > start then messages[0].uid else start);
      assert messages[0] in messages;
    }
  }

  /** Where the next fetch starts: from scratch after a change of aliases, and
      from the cached messages when an old cache has no cursor. */
  function PlannedStart(cache: Cache, normalized: seq<string>): nat {
    if AliasesChanged(cache.allowedAliases, normalized) then 0
    else if cache.highestUid == 0 && cache.status.generation != "" then HighestOf(cache.messages, 0)
    else cache.highestUid
  }

  function FailedState(cache: Cache, error: string, now: int): Cache {
    cache.(status := cache.status.(lastError := error, lastSyncAt := Some(now)))
  }

  /** The stored cache after the second half of a sync. */
  function Synced(cache: Cache, aliases: seq<string>, fetched: Option<Fetched>, error: string,
                  generation: string, maximum: int, now: int): Cache {
    if fetched.None? then FailedState(cache, error, now)
    else if TakesFastPath(cache, fetched.value, NormalizeAliases(aliases), generation) then
      WithState(cache, FastState(cache, fetched.value, NormalizeAliases(aliases), generation, now))
    else SlowCache(cache, fetched.value, aliases, generation, maximum, now)
  }

  datatype HideRequest = HideRequest(alias: string, uid: nat, uidValidity: nat, generation: string)

  /** Nothing but hidden keys was added, and the revision counts that. */
  ghost predicate OnlyHidden(before: Cache, after: Cache) {
    && after == before.(hidden := after.hidden, status := before.status.(revision := after.status.revision))
    && after.status.revision >= before.status.revision
    && (forall k :: k in before.hidden ==> k in after.hidden)
  }

  /** The key hides a message that one of the requests names. */
  ghost predicate Asked(before: Cache, hides: seq<HideRequest>, key: string) {
    exists h, m :: h in hides && m in before.messages && Names(h, m) && h.generation == before.status.generation
                   && key in KeysOf(h.generation, m)
  }

  predicate Names(request: HideRequest, m: Message) {
    m.uid == request.uid && request.alias in m.aliases
  }

  /** Only keys that the requests name were added. */
  ghost predicate HidBy(before: Cache, after: Cache, hides: seq<HideRequest>) {
    OnlyHidden(before, after) && forall key :: key in after.hidden && key !in before.hidden ==> Asked(before, hides, key)
  }

  lemma HidMore(before: Cache, middle: Cache, after: Cache, hides: seq<HideRequest>, request: HideRequest, m: Message)
    requires HidBy(before, middle, hides) && m in middle.messages && Names(request, m)
    requires Hid(middle, after, KeysOf(request.generation, m)) && request.generation == middle.status.generation
    ensures HidBy(before, after, hides + [request])
  {
    forall key | key in after.hidden && key !in before.hidden
      ensures Asked(before, hides + [request], key)
    {
      if key in middle.hidden {
        var h, n :| h in hides && n in before.messages && Names(h, n) && h.generation == before.status.generation
                    && key in KeysOf(h.generation, n);
        assert h in hides + [request];
      } else {
        assert request in hides + [request];
      }
    }
  }

  lemma HidLess(before: Cache, after: Cache, hides: seq<HideRequest>, request: HideRequest)
    requires HidBy(before, after, hides)
    ensures HidBy(before, after, hides + [request])
  {
    forall key | key in after.hidden && key !in before.hidden
      ensures Asked(before, hides + [request], key)
    {
      var h, m :| h in hides && m in before.messages && Names(h, m) && h.generation == before.status.generation
                  && key in KeysOf(h.generation, m);
      assert h in hides + [request];
    }
  }

  ghost predicate Succeed(storage: Storage, fails: Failures) {
    && storage.load && storage.reload && storage.fullLoad && storage.save
    && !fails.select && !fails.search && forall k :: !fails.headers(k) && !fails.bodies(k)
  }

  /** The keys that hide a message from every one of its aliases. */
  function KeysOf(generation: string, m: Message): set<string> {
    set a | a in m.aliases :: Key(generation, a, m.uid)
  }

  /** Same cache, more hidden keys, and a raised revision when there are any. */
  ghost predicate Hid(before: Cache, after: Cache, keys: set<string>) {
    && (forall k :: k in after.hidden <==> k in before.hidden || k in keys)
    && (NoRepeats(before.hidden) ==> NoRepeats(after.hidden))
    && (if exists k :: k in keys && k !in before.hidden
        then after == before.(hidden := after.hidden, status := before.status.(revision := before.status.revision + 1))
        else after == before)
  }

  /** A change of what any alias shows raises the revision, and nothing lowers it. */
  ghost predicate RaisesRevision(before: Cache, after: Cache) {
    && after.status.revision >= before.status.revision
    && forall alias :: View(after, alias) != View(before, alias) ==> after.status.revision > before.status.revision
  }

  lemma HidView(before: Cache, after: Cache, keys: set<string>, alias: string)
    requires Hid(before, after, keys)
    ensures View(after, alias) != View(before, alias) ==> after.status.revision == before.status.revision + 1
  {
  }

  lemma {:induction false} VisibleMembers(messages: seq<Message>, generation: string, hidden: seq<string>, alias: string, x: Message)
    ensures x in Visible(messages, generation, hidden, alias) <==>
            exists m :: m in messages && alias in m.aliases && Key(generation, alias, m.uid) !in hidden && x == Displayed(m)
  {
    hide Key;
    if messages != [] {
      VisibleMembers(messages[1..], generation, hidden, alias, x);
    }
  }

  /** Hiding a message takes it out of the view of each of its aliases, and nothing
      else out of any view. */
  lemma HiddenIsGone(before: Cache, after: Cache, m: Message, alias: string, x: Message)
    requires ValidCache(before) && m in before.messages && before.status.generation != ""
    requires Hid(before, after, KeysOf(before.status.generation, m))
    ensures x in View(after, alias) <==> x in View(before, alias) && !(x.uid == m.uid && alias in m.aliases)
  {
    hide Key, Visible, ValidMessages, Decimal;
    var g := before.status.generation;
    VisibleMembers(before.messages, g, before.hidden, alias, x);
    VisibleMembers(before.messages, g, after.hidden, alias, x);
    ValidAliases(before);
    forall y | y in before.messages && alias in y.aliases
      ensures Key(g, alias, y.uid) in KeysOf(g, m) <==> y.uid == m.uid && alias in m.aliases
    {
      if Key(g, alias, y.uid) in KeysOf(g, m) {
        var a :| a in m.aliases && Key(g, alias, y.uid) == Key(g, a, m.uid);
        KeyInjective(g, alias, y.uid, a, m.uid);
      }
    }
  }

  lemma ValidAliases(cache: Cache)
    requires ValidCache(cache)
    ensures forall m :: m in cache.messages ==> m.uid < UID_LIMIT && forall a :: a in m.aliases ==> a != ""
  {
  }

  datatype Call =
    | Sync(server: Server, aliases: seq<string>, hides: seq<HideRequest>, fails: Failures, error: string, now: int, storage: Storage)
    | HideOne(alias: string, uid: nat, uidValidity: nat, generation: string, storage: Storage)
    | HideMany(items: seq<(string, nat)>, uidValidity: nat, generation: string, storage: Storage)
    | Settings(target: string, cacheMax: int, storage: Storage)

  predicate Lowers(maximum: int, call: Call) {
    call.Settings? && call.cacheMax > 0 && (maximum <= 0 || call.cacheMax < maximum)
  }

  function MaximumAfter(maximum: int, call: Call): int {
    if call.Settings? then call.cacheMax else maximum
  }

  function MaximumAfterAll(maximum: int, calls: seq<Call>): int {
    if calls == [] then maximum
    else MaximumAfter(MaximumAfterAll(maximum, calls[..|calls| - 1]), calls[|calls| - 1])
  }

  predicate NeverLowers(maximum: int, calls: seq<Call>) {
    calls == []
    || (NeverLowers(maximum, calls[..|calls| - 1])
        && !Lowers(MaximumAfterAll(maximum, calls[..|calls| - 1]), calls[|calls| - 1]))
  }

  lemma {:induction false} NeverLowersPrefix(maximum: int, calls: seq<Call>, n: nat)
    requires n <= |calls|
    ensures NeverLowers(maximum, calls) ==> NeverLowers(maximum, calls[..n])
    decreases |calls|
  {
    if n < |calls| {
      NeverLowersPrefix(maximum, calls[..|calls| - 1], n);
      assert calls[..|calls| - 1][..n] == calls[..n];
    } else {
      assert calls[..n] == calls;
    }
  }

  ghost predicate ValidCall(call: Call) {
    call.Sync? ==> ValidServer(call.server) && NamesAllowed(call.server.recipients, NormalizeAliases(call.aliases))
  }

  /** The stored revision and the event that is open. */
  datatype Moment = Moment(revision: int, event: nat)

  /** A step that changes the revision closes the event, and no step reopens one. */
  ghost predicate WakesReaders(before: Moment, after: Moment) {
    after.event >= before.event && (after.revision != before.revision ==> after.event > before.event)
  }

  /** Over any run of such steps, an event that is still open proves that the
      revision is the one it was captured with: no change is slept through. */
  lemma {:induction false} NoLostWakeUp(run: seq<Moment>, captured: nat)
    requires captured < |run|
    requires forall i :: 0 <= i < |run| - 1 ==> WakesReaders(run[i], run[i + 1])
    ensures run[|run| - 1].event >= run[captured].event
    ensures run[|run| - 1].event == run[captured].event ==> run[|run| - 1].revision == run[captured].revision
  {
    if captured < |run| - 1 {
      NoLostWakeUp(run[..|run| - 1], captured);
      assert WakesReaders(run[|run| - 2], run[|run| - 2 + 1]);
    }
  }

  /** A cache that was saved and loaded again, by a repository that may lose empty lists. */
  function Reread(cache: Cache, losesEmptyLists: bool): Cache {
    if losesEmptyLists then cache.(messages := Copies(cache.messages)) else cache
  }

  class MailboxService {
    /** The hash that names a mailbox generation. */
    const generationOf: (string, nat) -> string
    /** Whether the repository reads empty lists back as absent ones, as the SQL
        tables do and the JSON document does not. */
    const losesEmptyLists: bool
    var target: string
    var configured: bool
    var cacheMax: int
    var store: Cache
    var lastCache: Cache
    var cacheLoaded: bool
    var loadFailed: bool
    /** Number of the open revision event; closing one opens the next. */
    var revisionEvent: nat

    ghost predicate Valid()
      reads this
    {
      && ValidCache(store) && ReadBack(store) == store
      && (forall t, v :: generationOf(t, v) != "")
    }

    /** The copy in memory is the stored cache, apart from empty lists that the
        store lost: true until another instance writes the store. */
    ghost predicate Mirrors()
      reads this
    {
      cacheLoaded ==> ReadBack(lastCache) == store
    }

    /** What a load returns after a cache was saved. */
    function ReadBack(cache: Cache): Cache {
      Reread(cache, losesEmptyLists)
    }

    ghost function Now(): Moment
      reads this
    {
      Moment(store.status.revision, revisionEvent)
    }

    constructor (generationOf: (string, nat) -> string, losesEmptyLists: bool, target: string, cacheMax: int)
      requires forall t, v :: generationOf(t, v) != ""
      ensures Valid() && Mirrors() && store == EMPTY_CACHE
      ensures this.generationOf == generationOf && this.losesEmptyLists == losesEmptyLists
      ensures this.target == target && this.cacheMax == cacheMax
    {
      this.generationOf, this.losesEmptyLists := generationOf, losesEmptyLists;
      this.target, this.cacheMax := target, cacheMax;
      configured, cacheLoaded, loadFailed := false, false, false;
      store, lastCache := EMPTY_CACHE, EMPTY_CACHE;
      revisionEvent := 0;
    }

    // ---- Storage ----

    /** Another instance of the service writes the shared store. */
    method WrittenElsewhere(cache: Cache)
      requires Valid() && ValidCache(cache)
      modifies this`store
      ensures Valid() && store == ReadBack(cache)
    {
      ReadBackValid(cache);
      store := ReadBack(cache);
    }

    lemma ReadBackValid(cache: Cache)
      ensures ValidCache(ReadBack(cache)) <==> ValidCache(cache)
      ensures ReadBack(ReadBack(cache)) == ReadBack(cache)
    {
      CopiedCacheValid(cache);
    }

    method LoadState(succeeds: bool) returns (state: Cache)
      requires Valid()
      modifies this`lastCache, this`cacheLoaded, this`loadFailed
      ensures Valid() && loadFailed == !succeeds && (old(Mirrors()) ==> Mirrors())
      ensures succeeds ==> state == StateOf(store) && (cacheLoaded ==> StateOf(lastCache) == state)
      ensures succeeds ==>
        (cacheLoaded <==> old(cacheLoaded) && old(lastCache).status.generation == store.status.generation)
      ensures cacheLoaded ==> lastCache.messages == old(lastCache).messages && lastCache.hidden == old(lastCache).hidden
    {
      if !succeeds {
        loadFailed := true;
        if cacheLoaded {
          return StateOf(lastCache);
        }
        return EMPTY_CACHE.(status := EMPTY_CACHE.status.(lastError := "storage"));
      }
      loadFailed := false;
      state := StateOf(store);
      if cacheLoaded {
        if lastCache.status.generation != state.status.generation {
          lastCache := state;
          cacheLoaded := false;
        } else {
          lastCache := WithState(lastCache, state);
        }
      }
    }

    method Load(succeeds: bool) returns (cache: Cache)
      requires Valid()
      modifies this`lastCache, this`cacheLoaded, this`loadFailed
      ensures Valid() && loadFailed == !succeeds && (old(Mirrors()) ==> Mirrors())
      ensures succeeds ==> cache == store && cacheLoaded && Mirrors()
    {
      if !succeeds {
        loadFailed := true;
        if cacheLoaded {
          return lastCache;
        }
        return EMPTY_CACHE.(status := EMPTY_CACHE.status.(lastError := "storage"));
      }
      lastCache := store;
      cacheLoaded := true;
      loadFailed := false;
      cache := store;
    }

    method Save(cache: Cache, succeeds: bool) returns (saved: bool)
      requires Valid() && ValidCache(cache)
      modifies this`store, this`lastCache, this`cacheLoaded
      ensures Valid() && saved == succeeds && (old(Mirrors()) || saved ==> Mirrors())
      ensures store == if saved then ReadBack(cache) else old(store)
    {
      ReadBackValid(cache);
      if !succeeds {
        return false;
      }
      store := ReadBack(cache);
      lastCache := cache;
      cacheLoaded := true;
      saved := true;
    }

    method SaveState(state: Cache, succeeds: bool) returns (saved: bool)
      requires Valid() && ValidCache(WithState(store, state))
      modifies this`store, this`lastCache
      ensures Valid() && saved == succeeds && (old(Mirrors()) ==> Mirrors())
      ensures store == if saved then WithState(old(store), state) else old(store)
    {
      if !succeeds {
        return false;
      }
      store := WithState(store, state);
      if cacheLoaded {
        lastCache := WithState(lastCache, state);
      }
      saved := true;
    }

    method NotifyRevision()
      modifies this`revisionEvent
      ensures revisionEvent == old(revisionEvent) + 1
    {
      revisionEvent := revisionEvent + 1;
    }

    // ---- Sync ----

    lemma SyncLaw(before: Cache, got: Fetched, aliases: seq<string>, generation: string, maximum: int, now: int)
      requires ValidCache(before)
      ensures IsFullSync(before, got, aliases, generation, maximum, now, ReadBack(SlowCache(before, got, aliases, generation, maximum, now)))
    {
      hide IsFullSync, SlowCache, ValidCache;
      SlowIsFullSync(before, got, aliases, generation, maximum, now);
      FullSyncReread(before, got, aliases, generation, maximum, now, SlowCache(before, got, aliases, generation, maximum, now));
    }

    /** First half, under the lock: decides where the fetch starts. */
    method PlanSync(aliases: seq<string>, storage: Storage) returns (plan: SyncPlan)
      requires Valid()
      modifies this`lastCache, this`cacheLoaded, this`loadFailed
      ensures Valid() && (old(Mirrors()) ==> Mirrors())
      ensures plan.Planned? ==> plan.aliasesChanged == AliasesChanged(store.allowedAliases, NormalizeAliases(aliases))
      ensures plan.Planned? && old(Mirrors()) ==>
        plan == Planned(store.status.uidValidity, PlannedStart(store, NormalizeAliases(aliases)),
                        AliasesChanged(store.allowedAliases, NormalizeAliases(aliases)))
      ensures plan.Planned? && old(Mirrors()) ==>
        && (AliasesChanged(store.allowedAliases, NormalizeAliases(aliases)) ==> plan.afterUid == 0)
        && (!AliasesChanged(store.allowedAliases, NormalizeAliases(aliases)) && (store.highestUid > 0 || store.status.generation == "") ==>
              plan.afterUid == store.highestUid)
        && (!AliasesChanged(store.allowedAliases, NormalizeAliases(aliases)) && store.highestUid == 0 && store.status.generation != "" ==>
              && (forall m :: m in store.messages ==> m.uid <= plan.afterUid)
              && (plan.afterUid == 0 || exists m :: m in store.messages && m.uid == plan.afterUid))
      ensures storage.load && storage.fullLoad && configured ==> plan.Planned?
    {
      var cache := LoadState(storage.load);
      if loadFailed {
        return StorageError;
      }
      if !configured {
        return NotConfigured;
      }
      var previousUidValidity := cache.status.uidValidity;
      var afterUid := cache.highestUid;
      var normalized := NormalizeAliases(aliases);
      var aliasesChanged := AliasesChanged(cache.allowedAliases, normalized);
      if aliasesChanged {
        afterUid := 0;
      } else if afterUid == 0 && cache.status.generation != "" {
        var legacy := lastCache;
        if !cacheLoaded {
          legacy := Load(storage.fullLoad);
          if loadFailed {
            return StorageError;
          }
        }
        RereadHighest(legacy, losesEmptyLists);
        HighestIsCached(store.messages, 0);
        previousUidValidity := legacy.status.uidValidity;
        afterUid := HighestUid(legacy.messages);
      }
      plan := Planned(previousUidValidity, afterUid, aliasesChanged);
    }

    /** The cursor of a cache from before cursors were stored. */
    method HighestUid(messages: seq<Message>) returns (highest: nat)
      ensures highest == HighestOf(messages, 0)
    {
      highest := 0;
      for i := 0 to |messages|
        invariant HighestOf(messages[i..], highest) == HighestOf(messages, 0)
      {
        assert messages[i..][1..] == messages[i + 1..];
        if messages[i].uid > highest {
          highest := messages[i].uid;
        }
      }
      assert messages[|messages|..] == [];
    }

    /** Second half, under the lock again: stores what was fetched. Messages may
        have been hidden in between. A call that fails to load or to save leaves
        the stored cache alone; otherwise the stored cache is what the sync
        makes of it, and a changed view of any alias raises the revision. */
    method FinishSync(aliases: seq<string>, aliasesChanged: bool, fetched: Option<Fetched>, error: string,
                      now: int, storage: Storage) returns (ok: bool)
      requires Valid()
      requires aliasesChanged == AliasesChanged(store.allowedAliases, NormalizeAliases(aliases))
      requires fetched.Some? ==> forall m :: m in fetched.value.messages ==> m.uid < UID_LIMIT
      modifies this`store, this`lastCache, this`cacheLoaded, this`loadFailed, this`revisionEvent
      ensures Valid() && (old(Mirrors()) ==> Mirrors())
      ensures ok ==> fetched.Some? && store == ReadBack(
        Synced(old(store), aliases, fetched, error, generationOf(target, fetched.value.uidValidity), cacheMax, now))
      ensures ok ==> IsSync(old(store), fetched.value, aliases, generationOf(target, fetched.value.uidValidity), cacheMax, now, store)
      ensures !ok && store != old(store) ==>
        fetched.None? && store == old(store).(status := old(store).status.(lastError := error, lastSyncAt := Some(now)))
      ensures old(WithinSize(store, cacheMax)) ==> WithinSize(store, cacheMax)
      ensures storage.reload && storage.fullLoad && storage.save ==>
              var validity := if fetched.Some? then fetched.value.uidValidity else 0;
              store == ReadBack(Synced(old(store), aliases, fetched, error, generationOf(target, validity), cacheMax, now))
              && (ok <==> fetched.Some?)
      ensures RaisesRevision(old(store), store)
      ensures WakesReaders(old(Now()), Now())
    {
      hide ValidCache, View, Merge, Pruned, NormalizeAliases, IsFullSync;
      var state := LoadState(storage.reload);
      if loadFailed {
        return false;
      }
      if fetched.None? {
        state := FailedState(state, error, now);
        FailedIsValid(store, error, now);
        var saved := SaveState(state, storage.save);
        return false;
      }
      var got := fetched.value;
      var generation := generationOf(target, got.uidValidity);
      var normalized := NormalizeAliases(aliases);
      if got.messages == [] && !aliasesChanged && !GenerationChanged(state, generation) {
        state := FastState(state, got, normalized, generation, now);
        FastIsValid(store, got, normalized, generation, now);
        forall alias {
          FastViewSame(store, got, normalized, generation, now, alias);
        }
        ok := SaveState(state, storage.save);
        return;
      }
      ok := FullSync(aliases, got, generation, now, storage);
    }

    /** The full path: load everything, merge, prune and save. */
    method FullSync(aliases: seq<string>, got: Fetched, generation: string, now: int, storage: Storage) returns (ok: bool)
      requires Valid() && generation != ""
      requires forall m :: m in got.messages ==> m.uid < UID_LIMIT
      modifies this`store, this`lastCache, this`cacheLoaded, this`loadFailed, this`revisionEvent
      ensures Valid() && (old(Mirrors()) ==> Mirrors())
      ensures store == if ok then ReadBack(SlowCache(old(store), got, aliases, generation, cacheMax, now)) else old(store)
      ensures ok ==> IsFullSync(old(store), got, aliases, generation, cacheMax, now, store)
      ensures ok || old(WithinSize(store, cacheMax)) ==> WithinSize(store, cacheMax)
      ensures storage.fullLoad && storage.save ==> ok
      ensures RaisesRevision(old(store), store)
      ensures WakesReaders(old(Now()), Now())
    {
      hide ValidMessages, View, Merge, Pruned, NormalizeAliases, IsFullSync;
      var cache := Load(storage.fullLoad);
      if loadFailed {
        return false;
      }
      ghost var before := store;
      SyncLaw(before, got, aliases, generation, cacheMax, now);
      SlowFromValid(before, got, aliases, generation, cacheMax, now);
      SlowRaises(before, got, aliases, generation, cacheMax, now);
      ReadBackRaises(before, SlowCache(before, got, aliases, generation, cacheMax, now));
      SlowWithinSize(before, got, aliases, generation, cacheMax, now);
      var generationChanged := GenerationChanged(cache, generation);
      if generationChanged {
        cache := cache.(messages := [], hidden := []);
      }
      var beforeMessages, beforeHidden := Copies(cache.messages), cache.hidden;
      var merged := MergeMessages(cache.messages, got.messages, aliases, cacheMax);
      var hidden := PruneHidden(cache.hidden, generation, merged);
      cache := Cache(Stamped(cache.status, got, generation, now), merged, hidden, got.highestUid, NormalizeAliases(aliases));
      var changed := generationChanged || beforeMessages != merged;
      var cacheChanged := changed || beforeHidden != hidden;
      if changed {
        cache := cache.(status := cache.status.(revision := cache.status.revision + 1));
      }
      ghost var slow := SlowCache(before, got, aliases, generation, cacheMax, now);
      assert slow == if cacheChanged then cache else WithState(before, cache);
      var saved;
      if cacheChanged {
        saved := Save(cache, storage.save);
      } else {
        saved := SaveState(cache, storage.save);
      }
      if !saved {
        return false;
      }
      if changed {
        NotifyRevision();
      }
      ok := true;
    }

    /** One whole sync. Other callers may hide messages while the mail server
        is asked; nothing else runs between the two halves. */
    method RunSync(server: Server, aliases: seq<string>, hides: seq<HideRequest>, fails: Failures, error: string,
                   now: int, storage: Storage)
      returns (ok: bool, ghost between: Cache)
      requires Valid() && Mirrors()
      requires ValidServer(server) && NamesAllowed(server.recipients, NormalizeAliases(aliases))
      modifies this`store, this`lastCache, this`cacheLoaded, this`loadFailed, this`revisionEvent
      ensures Valid() && Mirrors()
      ensures HidBy(old(store), between, hides)
      ensures var start := PlannedStart(old(store), NormalizeAliases(aliases));
              var fetched := FetchedFrom(server, old(store).status.uidValidity, start, cacheMax);
              var synced := Synced(between, aliases, Some(fetched), error, generationOf(target, server.uidValidity), cacheMax, now);
              && (if ok then store == ReadBack(synced) else store == between || store == FailedState(between, error, now))
              && (ok ==> IsSync(between, fetched, aliases, generationOf(target, server.uidValidity), cacheMax, now, store))
              && (Succeed(storage, fails) && configured ==> ok)
      ensures old(WithinSize(store, cacheMax)) ==> WithinSize(store, cacheMax)
      ensures WakesReaders(old(Now()), Now()) && RaisesRevision(old(store), store)
    {
      hide ValidCache, View, NormalizeAliases, FetchedFrom, Synced, PlannedStart, ValidServer, NamesAllowed, IsSync;
      between := store;
      var plan := PlanSync(aliases, storage);
      if !plan.Planned? {
        return false, store;
      }
      var fetched := FetchImap(server, aliases, cacheMax, plan.previousUidValidity, plan.afterUid, fails);
      ghost var start := PlannedStart(old(store), NormalizeAliases(aliases));
      FetchedUids(server, old(store).status.uidValidity, start, cacheMax);
      for i := 0 to |hides|
        invariant Valid() && Mirrors() && HidBy(old(store), store, hides[..i])
        invariant WakesReaders(old(Now()), Now()) && RaisesRevision(old(store), store)
      {
        ghost var before := store;
        var hidden := Hide(hides[i].alias, hides[i].uid, hides[i].uidValidity, hides[i].generation, storage);
        assert hides[..i + 1] == hides[..i] + [hides[i]];
        if hidden.Some? {
          ghost var m :| m in before.messages && Names(hides[i], m) && Hid(before, store, KeysOf(hides[i].generation, m))
                         && hides[i].generation == before.status.generation;
          HidMore(old(store), before, store, hides[..i], hides[i], m);
        } else {
          HidLess(old(store), store, hides[..i], hides[i]);
        }
      }
      assert hides[..|hides|] == hides;
      between := store;
      NothingFetched(between, aliases, error, generationOf(target, 0), cacheMax, now);
      ok := FinishSync(aliases, plan.aliasesChanged, fetched, error, now, storage);
    }

    // ---- Hiding ----

    /** Hides one message from all its aliases. Refused when the caller looks at
        another generation, or when the message or the alias is not there. */
    method Hide(alias: string, uid: nat, uidValidity: nat, generation: string, storage: Storage)
      returns (newlyHidden: Option<nat>)
      requires Valid()
      modifies this`store, this`lastCache, this`cacheLoaded, this`loadFailed, this`revisionEvent
      ensures Valid() && (old(Mirrors()) ==> Mirrors())
      ensures newlyHidden.Some? ==>
        exists m :: m in old(store).messages && m.uid == uid && alias in m.aliases
          && Hid(old(store), store, KeysOf(generation, m)) && generation == old(store).status.generation
          && uidValidity == old(store).status.uidValidity && generation != ""
          && (newlyHidden.value > 0 <==> store != old(store))
      ensures newlyHidden.None? ==> store == old(store) && revisionEvent == old(revisionEvent)
      ensures uidValidity == old(store).status.uidValidity && generation != "" && generation == old(store).status.generation
        && storage.fullLoad && storage.save
        && (exists m :: m in old(store).messages && m.uid == uid && alias in m.aliases)
        ==> newlyHidden.Some?
      ensures WakesReaders(old(Now()), Now())
      ensures RaisesRevision(old(store), store)
    {
      hide View, ValidMessages;
      var cache := Load(storage.fullLoad);
      if loadFailed {
        return None;
      }
      if !SameMailbox(cache, uidValidity, generation) {
        return None;
      }
      var target := FindMessage(cache.messages, alias, uid);
      if target.None? {
        return None;
      }
      var hidden, count := AppendKeys(cache.hidden, generation, target.value);
      var after := cache.(hidden := hidden);
      ghost var before := store;
      if count > 0 {
        after := after.(status := after.status.(revision := after.status.revision + 1));
        KeysAreValid(before, after, generation, target.value);
        var saved := Save(after, storage.save);
        if !saved {
          return None;
        }
        NotifyRevision();
      }
      assert Hid(before, after, KeysOf(generation, target.value));
      forall a {
        HidView(before, after, KeysOf(generation, target.value), a);
      }
      newlyHidden := Some(count);
    }

    method FindMessage(messages: seq<Message>, alias: string, uid: nat) returns (target: Option<Message>)
      ensures target.Some? ==> target.value in messages && target.value.uid == uid && alias in target.value.aliases
      ensures target.None? ==> forall m :: m in messages ==> m.uid != uid || alias !in m.aliases
    {
      target := None;
      for i := 0 to |messages|
        invariant target.Some? ==> target.value in messages && target.value.uid == uid && alias in target.value.aliases
        invariant target.None? ==> forall m :: m in messages[..i] ==> m.uid != uid || alias !in m.aliases
      {
        assert messages[..i + 1] == messages[..i] + [messages[i]];
        if messages[i].uid == uid && alias in messages[i].aliases {
          target := Some(messages[i]);
        }
      }
      assert messages[..|messages|] == messages;
    }

    method AppendKeys(before: seq<string>, generation: string, m: Message) returns (hidden: seq<string>, count: nat)
      ensures forall k :: k in hidden <==> k in before || k in KeysOf(generation, m)
      ensures count > 0 <==> exists k :: k in KeysOf(generation, m) && k !in before
      ensures count == 0 ==> hidden == before
      ensures NoRepeats(before) ==> NoRepeats(hidden)
    {
      hidden, count := before, 0;
      for i := 0 to |m.aliases|
        invariant forall k :: k in hidden <==> k in before || exists j :: 0 <= j < i && k == Key(generation, m.aliases[j], m.uid)
        invariant count == 0 ==> hidden == before
        invariant count > 0 ==> exists k :: k in KeysOf(generation, m) && k !in before
        invariant NoRepeats(before) ==> NoRepeats(hidden)
      {
        var key := Key(generation, m.aliases[i], m.uid);
        if key !in hidden {
          hidden := hidden + [key];
          count := count + 1;
          assert key in KeysOf(generation, m) && key !in before;
        }
      }
    }

    /** Hides up to 200 messages at once, each one named by UID and alias; all
        of them must be there. The messages are taken in an arbitrary order. */
    method HideBatch(items: seq<(string, nat)>, uidValidity: nat, generation: string, storage: Storage)
      returns (done: bool)
      requires Valid()
      modifies this`store, this`lastCache, this`cacheLoaded, this`loadFailed, this`revisionEvent
      ensures Valid() && (old(Mirrors()) ==> Mirrors())
      ensures done ==>
        && uidValidity == old(store).status.uidValidity && generation != "" && generation == old(store).status.generation
        && 0 < |items| <= 200 && AllCached(old(store).messages, items)
        && Hid(old(store), store, BatchKeys(generation, old(store).messages, items))
      ensures !done ==> store == old(store) && revisionEvent == old(revisionEvent)
      ensures uidValidity == old(store).status.uidValidity && generation != "" && generation == old(store).status.generation
        && storage.fullLoad && storage.save
        && 0 < |items| <= 200 && AllCached(old(store).messages, items)
        ==> done
      ensures WakesReaders(old(Now()), Now())
      ensures RaisesRevision(old(store), store)
    {
      hide View, ValidMessages;
      var cache := Load(storage.fullLoad);
      if loadFailed {
        return false;
      }
      if !SameMailbox(cache, uidValidity, generation) {
        return false;
      }
      if |items| == 0 || |items| > 200 {
        return false;
      }
      for i := 0 to |items|
        modifies {}
        invariant forall j :: 0 <= j < i ==> IsCached(cache.messages, items[j])
      {
        var found := FindMessage(cache.messages, items[i].0, items[i].1);
        if found.None? || items[i].0 == "" {
          return false;
        }
        assert IsCached(cache.messages, items[i]);
      }
      var hidden, newUids := CollectKeys(cache, generation, items);
      ghost var before := store;
      ghost var keys := BatchKeys(generation, cache.messages, items);
      var after := cache.(hidden := hidden);
      if newUids > 0 {
        after := after.(status := after.status.(revision := after.status.revision + 1));
        BatchKeysAreValid(before, after, keys);
        var saved := Save(after, storage.save);
        if !saved {
          return false;
        }
        NotifyRevision();
      }
      assert Hid(before, after, keys);
      forall a {
        HidView(before, after, keys, a);
      }
      done := true;
    }

    method CollectKeys(cache: Cache, generation: string, items: seq<(string, nat)>)
      returns (hidden: seq<string>, newUids: nat)
      requires ValidCache(cache) && AllCached(cache.messages, items)
      ensures var keys := BatchKeys(generation, cache.messages, items);
              && (forall k :: k in hidden <==> k in cache.hidden || k in keys)
              && (newUids > 0 <==> exists k :: k in keys && k !in cache.hidden)
              && (newUids == 0 ==> hidden == cache.hidden)
              && NoRepeats(hidden)
    {
      hide ValidMessages;
      var remaining := set i | i in items :: i.1;
      ghost var all := remaining;
      hidden, newUids := cache.hidden, 0;
      while remaining != {}
        invariant remaining <= all
        invariant forall k :: k in hidden <==> k in cache.hidden || k in KeysOfUids(generation, cache.messages, all - remaining)
        invariant newUids == 0 ==> hidden == cache.hidden
        invariant NoRepeats(hidden)
        invariant newUids > 0 ==> exists k :: k in KeysOfUids(generation, cache.messages, all) && k !in cache.hidden
        decreases remaining
      {
        var uid :| uid in remaining;
        ghost var past := all - remaining;
        remaining := remaining - {uid};
        var m := MessageOf(cache.messages, items, uid);
        OneMoreUid(generation, cache, past, uid, m);
        assert all - remaining == past + {uid};
        var count;
        ghost var soFar := hidden;
        hidden, count := AppendKeys(hidden, generation, m);
        if count > 0 {
          newUids := newUids + 1;
          ghost var k :| k in KeysOf(generation, m) && k !in soFar;
          assert k in KeysOfUids(generation, cache.messages, all) && k !in cache.hidden;
        }
      }
      assert all - remaining == all;
    }

    /** The message of a UID that an item names. */
    method MessageOf(messages: seq<Message>, items: seq<(string, nat)>, uid: nat) returns (m: Message)
      requires exists i :: i in items && i.1 == uid
      requires forall j :: 0 <= j < |items| ==> IsCached(messages, items[j])
      ensures m in messages && m.uid == uid
    {
      ghost var named :| named in items && named.1 == uid;
      assert IsCached(messages, named);
      var i := 0;
      while messages[i].uid != uid
        invariant i < |messages| && exists j :: i <= j < |messages| && messages[j].uid == uid
        decreases |messages| - i
      {
        i := i + 1;
      }
      m := messages[i];
    }

    // ---- Settings, clearing and waiting ----

    /** A new mail server, user or folder starts an empty cache with a raised
        revision; other settings leave the cache alone. */
    method UpdateSettings(newTarget: string, newCacheMax: int, storage: Storage) returns (ok: bool)
      requires Valid()
      modifies this
      ensures Valid() && (old(Mirrors()) ==> Mirrors()) && target == newTarget && cacheMax == newCacheMax
      ensures ok && newTarget != old(target) ==>
        store == EMPTY_CACHE.(status := EMPTY_CACHE.status.(revision := old(store).status.revision + 1))
      ensures !ok || newTarget == old(target) ==> store == old(store) && revisionEvent == old(revisionEvent)
      ensures WithinSize(old(store), newCacheMax) ==> WithinSize(store, newCacheMax)
      ensures WakesReaders(old(Now()), Now())
      ensures RaisesRevision(old(store), store)
    {
      var changed := target != newTarget;
      target, cacheMax := newTarget, newCacheMax;
      var cache := Load(storage.fullLoad);
      if loadFailed {
        return false;
      }
      if changed {
        var cleared := EMPTY_CACHE.(status := EMPTY_CACHE.status.(revision := cache.status.revision + 1));
        var saved := Save(cleared, storage.save);
        if !saved {
          return false;
        }
        NotifyRevision();
      }
      ok := true;
    }

    /** Empties the cache. The revision starts again at zero, so readers are
        told even though it may not rise. */
    method Clear(storage: Storage) returns (ok: bool)
      requires Valid()
      modifies this
      ensures Valid() && (old(Mirrors()) || ok ==> Mirrors()) && ok == storage.save
      ensures ok ==> store == EMPTY_CACHE && revisionEvent == old(revisionEvent) + 1
      ensures WakesReaders(old(Now()), Now())
      ensures !ok ==> store == old(store) && revisionEvent == old(revisionEvent)
    {
      if !storage.save {
        return false;
      }
      store, lastCache := EMPTY_CACHE, EMPTY_CACHE;
      cacheLoaded, loadFailed := true, false;
      NotifyRevision();
      ok := true;
    }

    // ---- Whole runs ----

    method Perform(call: Call)
      requires Valid() && Mirrors() && ValidCall(call)
      modifies this
      ensures Valid() && Mirrors()
      ensures WakesReaders(old(Now()), Now()) && RaisesRevision(old(store), store)
      ensures cacheMax == MaximumAfter(old(cacheMax), call)
      ensures old(WithinSize(store, cacheMax)) && !Lowers(old(cacheMax), call) ==> WithinSize(store, cacheMax)
    {
      hide ValidCache, View, ValidServer, NamesAllowed;
      match call {
        case Sync(server, aliases, hides, fails, error, now, storage) =>
          var _, _ := RunSync(server, aliases, hides, fails, error, now, storage);
        case HideOne(alias, uid, uidValidity, generation, storage) =>
          var _ := Hide(alias, uid, uidValidity, generation, storage);
        case HideMany(items, uidValidity, generation, storage) =>
          var _ := HideBatch(items, uidValidity, generation, storage);
        case Settings(newTarget, newCacheMax, storage) =>
          var _ := UpdateSettings(newTarget, newCacheMax, storage);
      }
    }

    /** Over any run of syncs, hiding and settings changes: a cache that shows
        something else to some alias has a higher revision than at the start, and
        whoever captured the event then was woken; and a cache within its size
        stays within it until settings lower the limit. */
    method Serve(calls: seq<Call>)
      requires Valid() && Mirrors() && forall call :: call in calls ==> ValidCall(call)
      modifies this
      ensures Valid() && Mirrors() && RaisesRevision(old(store), store)
      ensures revisionEvent == old(revisionEvent) ==>
                store.status.revision == old(store).status.revision
                && forall alias :: View(store, alias) == View(old(store), alias)
      ensures old(WithinSize(store, cacheMax)) && NeverLowers(old(cacheMax), calls) ==> WithinSize(store, cacheMax)
    {
      hide ValidCache, View, ValidCall;
      for i := 0 to |calls|
        invariant Valid() && Mirrors()
        invariant WakesReaders(old(Now()), Now()) && RaisesRevision(old(store), store)
        invariant cacheMax == MaximumAfterAll(old(cacheMax), calls[..i])
        invariant old(WithinSize(store, cacheMax)) && NeverLowers(old(cacheMax), calls[..i]) ==> WithinSize(store, cacheMax)
        invariant NeverLowers(old(cacheMax), calls) ==> NeverLowers(old(cacheMax), calls[..i])
      {
        assert calls[..i + 1][..i] == calls[..i];
        NeverLowersPrefix(old(cacheMax), calls, i + 1);
        Perform(calls[i]);
      }
      assert calls[..|calls|] == calls;
    }

    /** What a waiting reader takes along: nothing when the revision has already
        moved on, or else the event to wait for. */
    method CaptureRevision(revision: int, storage: Storage) returns (event: Option<nat>)
      requires Valid()
      modifies this`lastCache, this`cacheLoaded, this`loadFailed
      ensures Valid() && (old(Mirrors()) ==> Mirrors())
      ensures storage.load ==> event == if store.status.revision == revision then Some(revisionEvent) else None
    {
      var cache := LoadState(storage.load);
      if cache.status.revision != revision {
        return None;
      }
      event := Some(revisionEvent);
    }

    /** Drops keys without a message and repetitions, then sorts. */
    method PruneHidden(hidden: seq<string>, generation: string, messages: seq<Message>) returns (pruned: seq<string>)
      ensures pruned == Pruned(hidden, generation, messages)
    {
      hide SortKeys, Key;
      var valid: set<string> := {};
      for i := 0 to |messages|
        invariant valid == MessageKeys(generation, messages[..i])
      {
        var m := messages[i];
        var more := set a | a in m.aliases :: Key(generation, a, m.uid);
        MoreKeys(generation, messages[..i], m);
        assert messages[..i + 1] == messages[..i] + [m];
        valid := valid + more;
      }
      assert messages[..|messages|] == messages;
      var kept: seq<string> := [];
      var seen: set<string> := {};
      for i := 0 to |hidden|
        invariant kept + ValidKeys(hidden[i..], valid, seen) == ValidKeys(hidden, valid, {})
      {
        assert hidden[i..][1..] == hidden[i + 1..];
        if hidden[i] !in valid || hidden[i] in seen {
          continue;
        }
        seen := seen + {hidden[i]};
        kept := kept + [hidden[i]];
      }
      assert hidden[|hidden|..] == [] && kept + [] == kept;
      pruned := SortKeys(kept);
    }
  }

  /** The caller looks at the mailbox generation that is cached. */
  predicate SameMailbox(cache: Cache, uidValidity: nat, generation: string) {
    uidValidity == cache.status.uidValidity && generation != "" && generation == cache.status.generation
  }

  ghost predicate IsCached(messages: seq<Message>, item: (string, nat)) {
    item.0 != "" && exists m :: m in messages && m.uid == item.1 && item.0 in m.aliases
  }

  ghost predicate AllCached(messages: seq<Message>, items: seq<(string, nat)>) {
    forall j :: 0 <= j < |items| ==> IsCached(messages, items[j])
  }

  ghost function KeysOfUids(generation: string, messages: seq<Message>, uids: set<nat>): set<string> {
    set m, a | m in messages && m.uid in uids && a in m.aliases :: Key(generation, a, m.uid)
  }

  ghost function BatchKeys(generation: string, messages: seq<Message>, items: seq<(string, nat)>): set<string> {
    KeysOfUids(generation, messages, set i | i in items :: i.1)
  }

  lemma CopiedCacheValid(cache: Cache)
    ensures ValidCache(cache.(messages := Copies(cache.messages))) <==> ValidCache(cache)
  {
    hide ValidMessages, IsMessageKey;
    CopiesValid(cache.messages, Allowed(cache.allowedAliases), 0);
    forall k
      ensures IsMessageKey(k, cache.status.generation, Copies(cache.messages)) <==> IsMessageKey(k, cache.status.generation, cache.messages)
    {
      KeysOfCopies(k, cache.status.generation, cache.messages);
    }
    CopiedUids(cache.messages);
  }

  lemma CopiedUids(s: seq<Message>)
    ensures (forall m :: m in Copies(s) ==> m.uid < UID_LIMIT) <==> forall m :: m in s ==> m.uid < UID_LIMIT
  {
    if forall m :: m in Copies(s) ==> m.uid < UID_LIMIT {
      forall m | m in s
        ensures m.uid < UID_LIMIT
      {
        var i :| 0 <= i < |s| && s[i] == m;
        assert Copies(s)[i] in Copies(s);
      }
    }
  }

  lemma RereadHighest(cache: Cache, losesEmptyLists: bool)
    ensures HighestOf(Reread(cache, losesEmptyLists).messages, 0) == HighestOf(cache.messages, 0)
    ensures Reread(cache, losesEmptyLists).status == cache.status
  {
    HighestCopies(cache.messages, 0);
  }

  lemma {:induction false} HighestCopies(s: seq<Message>, start: nat)
    ensures HighestOf(Copies(s), start) == HighestOf(s, start)
  {
    if s != [] {
      HighestCopies(s[1..], if s[0].uid > start then s[0].uid else start);
      assert Copies(s)[1..] == Copies(s[1..]);
    }
  }

  lemma SlowRaises(cache: Cache, fetched: Fetched, aliases: seq<string>, generation: string, maximum: int, now: int)
    requires ValidCache(cache)
    ensures RaisesRevision(cache, SlowCache(cache, fetched, aliases, generation, maximum, now))
  {
    hide ValidCache, View, Merge, Pruned;
    forall alias {
      SlowViewChange(cache, fetched, aliases, generation, maximum, now, alias);
    }
  }

  /** Empty lists that the store loses are not seen by any reader. */
  lemma ReadBackRaises(before: Cache, after: Cache)
    requires RaisesRevision(before, after)
    ensures RaisesRevision(before, after.(messages := Copies(after.messages)))
  {
    forall alias
      ensures View(after.(messages := Copies(after.messages)), alias) == View(after, alias)
    {
      VisibleCopies(after.messages, after.status.generation, after.hidden, alias);
    }
  }

  lemma MoreKeys(generation: string, messages: seq<Message>, m: Message)
    ensures MessageKeys(generation, messages + [m])
            == MessageKeys(generation, messages) + set a | a in m.aliases :: Key(generation, a, m.uid)
  {
    hide Key;
  }

  lemma OneMoreUid(generation: string, cache: Cache, uids: set<nat>, uid: nat, m: Message)
    requires ValidCache(cache) && m in cache.messages && m.uid == uid
    ensures KeysOfUids(generation, cache.messages, uids + {uid}) == KeysOfUids(generation, cache.messages, uids) + KeysOf(generation, m)
  {
    assert DistinctUids(cache.messages);
    forall x | x in cache.messages && x.uid == uid
      ensures x == m
    {
    }
  }

  lemma KeysAreValid(before: Cache, after: Cache, generation: string, m: Message)
    requires ValidCache(before) && generation == before.status.generation && generation != "" && m in before.messages
    requires Hid(before, after, KeysOf(generation, m))
    ensures ValidCache(after)
  {
    hide ValidMessages;
    forall k | k in after.hidden
      ensures IsMessageKey(k, generation, before.messages)
    {
    }
  }

  lemma BatchKeysAreValid(before: Cache, after: Cache, keys: set<string>)
    requires ValidCache(before) && before.status.generation != ""
    requires forall k :: k in keys ==> IsMessageKey(k, before.status.generation, before.messages)
    requires Hid(before, after, keys)
    ensures ValidCache(after)
  {
    hide ValidMessages;
  }

  lemma FailedIsValid(cache: Cache, error: string, now: int)
    requires ValidCache(cache)
    ensures ValidCache(FailedState(cache, error, now))
    ensures WithState(cache, FailedState(StateOf(cache), error, now)) == FailedState(cache, error, now)
    ensures forall alias :: View(FailedState(cache, error, now), alias) == View(cache, alias)
  {
  }

  lemma NothingFetched(cache: Cache, aliases: seq<string>, error: string, generation: string, maximum: int, now: int)
    ensures Synced(cache, aliases, None, error, generation, maximum, now) == FailedState(cache, error, now)
  {
  }

  /** Whatever a fetch returns was in the mailbox. */
  lemma FetchedUids(server: Server, previousUidValidity: nat, afterUid: nat, cacheMax: int)
    requires ValidServer(server)
    ensures forall m :: m in FetchedFrom(server, previousUidValidity, afterUid, cacheMax).messages ==> m.uid in server.uids && m.uid < UID_LIMIT
    ensures FetchedFrom(server, previousUidValidity, afterUid, cacheMax).uidValidity == server.uidValidity
  {
    hide SortUp, ReadAll, SortNewest, Retained, HeadersDown;
    var all := SortUp(SearchUids(server, previousUidValidity, afterUid));
    var plan := FetchPlan(server, previousUidValidity, afterUid);
    SortUpAscending(SearchUids(server, previousUidValidity, afterUid));
    var uids := if Incremental(server, previousUidValidity, afterUid) then plan.0 else FirstScanUids(server, plan.0, cacheMax);
    SearchedUids(server, previousUidValidity, afterUid);
    assert forall u :: u in plan.0 ==> u in all;
    forall u | u in FirstScanUids(server, plan.0, cacheMax)
      ensures u in all
    {
      var headers := HeadersDown(plan.0, server.recipients);
      HeadersDescending(plan.0, server.recipients);
      RetainedDescending([], headers);
      var kept := Retained([], headers);
      var i :| 0 <= i < |kept| && kept[i].uid == u;
      assert kept[i] in kept;
    }
    forall m | m in ReadAll(server, uids)
      ensures m.uid in server.uids && m.uid < UID_LIMIT
    {
      ReadAllMembers(server, uids, m);
    }
  }

  lemma SearchedUids(server: Server, previousUidValidity: nat, afterUid: nat)
    requires ValidServer(server)
    ensures SearchUids(server, previousUidValidity, afterUid) <= server.uids
  {
  }

  lemma SlowFromValid(cache: Cache, fetched: Fetched, aliases: seq<string>, generation: string, maximum: int, now: int)
    requires ValidCache(cache) && generation != ""
    requires forall m :: m in fetched.messages ==> m.uid < UID_LIMIT
    ensures ValidCache(SlowCache(cache, fetched, aliases, generation, maximum, now))
  {
    SlowIsValid(cache, fetched, aliases, generation, maximum, now);
  }
}
