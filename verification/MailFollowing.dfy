/** One mailbox followed over many syncs: what the stored cache goes through, and
    that no message is skipped. */
module MailFollowing {
  import opened Wrappers
  import opened MailMessages
  import opened MailMerge
  import opened MailMergeLoop
  import opened MailCache
  import opened MailKeys
  import opened MailFirstScan
  import opened MailCursor
  import opened MailboxSync
  import opened MailboxService

  datatype Poll = Poll(server: Server, hides: seq<HideRequest>, fails: Failures, error: string, now: int, storage: Storage)

  /** What stays the same while a mailbox is followed. */
  datatype Setup = Setup(aliases: seq<string>, uidValidity: nat, generation: string, cacheMax: int, losesEmptyLists: bool, configured: bool)

  // ---- One sync ----

  /** The stored cache became what was cached, without what was hidden meanwhile,
      merged with what the plan for it fetched. */
  ghost predicate Merges(setup: Setup, poll: Poll, before: Cache, after: Cache) {
    exists between :: HidBy(before, between, poll.hides) && after == Reread(SyncedBy(setup, poll, before, between), setup.losesEmptyLists)
  }

  function SyncedBy(setup: Setup, poll: Poll, before: Cache, between: Cache): Cache {
    var start := PlannedStart(before, NormalizeAliases(setup.aliases));
    var fetched := FetchedFrom(poll.server, before.status.uidValidity, start, setup.cacheMax);
    Synced(between, setup.aliases, Some(fetched), poll.error, setup.generation, setup.cacheMax, poll.now)
  }

  /** Nothing but hidden keys and the status of an error. */
  ghost predicate Leaves(poll: Poll, before: Cache, after: Cache) {
    exists between :: HidBy(before, between, poll.hides) && (after == between || after == FailedState(between, poll.error, poll.now))
  }

  ghost predicate PollFits(setup: Setup, poll: Poll, before: Cache, after: Cache) {
    && (Merges(setup, poll, before, after) || Leaves(poll, before, after))
    && (Succeed(poll.storage, poll.fails) && setup.configured ==> Merges(setup, poll, before, after))
  }

  /** The stored cache before the first poll and after each. */
  ghost predicate Followed(setup: Setup, polls: seq<Poll>, caches: seq<Cache>) {
    |caches| == |polls| + 1 && forall i :: 0 <= i < |polls| ==> PollFits(setup, polls[i], caches[i], caches[i + 1])
  }

  ghost predicate ValidPoll(setup: Setup, poll: Poll) {
    && ValidServer(poll.server) && NamesAllowed(poll.server.recipients, NormalizeAliases(setup.aliases))
    && poll.server.uidValidity == setup.uidValidity
  }

  /** Polls one mailbox again and again, with any hiding and failures. */
  method FollowMailbox(service: MailboxService, polls: seq<Poll>, setup: Setup, ghost uidNexts: seq<nat>) returns (ghost caches: seq<Cache>)
    requires service.Valid() && service.Mirrors() && forall poll :: poll in polls ==> ValidPoll(setup, poll)
    requires setup == Setup(setup.aliases, setup.uidValidity, service.generationOf(service.target, setup.uidValidity),
                            service.cacheMax, service.losesEmptyLists, service.configured)
    modifies service`store, service`lastCache, service`cacheLoaded, service`loadFailed, service`revisionEvent
    ensures service.Valid() && service.Mirrors()
    ensures Followed(setup, polls, caches) && caches[0] == old(service.store) && caches[|polls|] == service.store
    ensures Grows(setup, polls, caches[0], uidNexts) ==>
      && (forall i, j :: 0 <= i <= j <= |polls| ==> caches[i].highestUid <= caches[j].highestUid)
      && (forall i, u :: 0 <= i < |polls| && u in polls[i].server.uids && caches[0].highestUid < u <= caches[i + 1].highestUid ==>
            FetchedBefore(setup, polls, caches, u, i + 1))
  {
    hide PollFits, Merges, Leaves, Grows, FetchedBefore, ValidCache, View, NamesAllowed, ValidServer;
    caches := [service.store];
    for i := 0 to |polls|
      invariant service.Valid() && service.Mirrors()
      invariant Followed(setup, polls[..i], caches) && caches[0] == old(service.store) && caches[i] == service.store
    {
      assert ValidPoll(setup, polls[i]);
      FollowOnce(service, polls[i], setup);
      assert polls[..i + 1] == polls[..i] + [polls[i]];
      caches := caches + [service.store];
    }
    assert polls[..|polls|] == polls;
    if Grows(setup, polls, caches[0], uidNexts) {
      NeverSkips(setup, polls, caches, uidNexts);
    }
  }

  method FollowOnce(service: MailboxService, poll: Poll, setup: Setup)
    requires service.Valid() && service.Mirrors() && ValidPoll(setup, poll)
    requires setup.generation == service.generationOf(service.target, setup.uidValidity) && setup.cacheMax == service.cacheMax
    requires setup.losesEmptyLists == service.losesEmptyLists && setup.configured == service.configured
    modifies service`store, service`lastCache, service`cacheLoaded, service`loadFailed, service`revisionEvent
    ensures service.Valid() && service.Mirrors()
    ensures PollFits(setup, poll, old(service.store), service.store)
  {
    hide HidBy, Synced, FetchedFrom, PlannedStart, NormalizeAliases, ValidCache, View, NamesAllowed, ValidServer, Succeed, Reread;
    ghost var before := service.store;
    var ok, between := service.RunSync(poll.server, setup.aliases, poll.hides, poll.fails, poll.error, poll.now, poll.storage);
    if ok {
      assert service.store == service.ReadBack(SyncedBy(setup, poll, before, between));
      assert Merges(setup, poll, before, service.store);
    } else {
      assert Leaves(poll, before, service.store);
    }
  }

  // ---- No message is skipped ----

  /** One mailbox at successive moments, followed for one list of aliases: UIDs of new messages
      lie above all that were assigned before (section 2.3.1.1 of RFC 3501). */
  ghost predicate Grows(setup: Setup, polls: seq<Poll>, first: Cache, uidNexts: seq<nat>) {
    && |uidNexts| == |polls| + 1 && 0 < first.highestUid < uidNexts[0] && first.status.uidValidity == setup.uidValidity
    && !AliasesChanged(first.allowedAliases, NormalizeAliases(setup.aliases))
    && (forall i :: 0 <= i < |polls| ==> IsMoment(polls[i].server, setup.uidValidity, uidNexts[i]))
    && (forall i :: 0 <= i < |polls| ==> uidNexts[i] <= uidNexts[i + 1])
    && (forall i, u :: 0 < i < |polls| && u in polls[i].server.uids ==>
          u in polls[i - 1].server.uids || u >= uidNexts[i - 1])
  }

  ghost predicate IsMoment(server: Server, uidValidity: nat, uidNext: nat) {
    server.uidValidity == uidValidity && uidNext < UID_LIMIT && forall u :: u in server.uids ==> u < uidNext
  }

  /** A sync that reached the store had the message in its plan. */
  ghost predicate Fetches(setup: Setup, poll: Poll, before: Cache, after: Cache, u: nat) {
    Merges(setup, poll, before, after) && u in FetchPlan(poll.server, before.status.uidValidity, before.highestUid).0
  }

  ghost predicate FetchedBefore(setup: Setup, polls: seq<Poll>, caches: seq<Cache>, u: nat, n: nat)
    requires n <= |polls| && |caches| == |polls| + 1
  {
    exists k :: 0 <= k < n && Fetches(setup, polls[k], caches[k], caches[k + 1], u)
  }

  ghost predicate Covered(setup: Setup, polls: seq<Poll>, caches: seq<Cache>, uids: set<nat>, cursor: nat, n: nat)
    requires n <= |polls| && |caches| == |polls| + 1
  {
    forall u :: u in uids && caches[0].highestUid < u <= cursor ==> FetchedBefore(setup, polls, caches, u, n)
  }

  /** The cursor, the aliases and the UIDVALIDITY that the next poll finds. */
  ghost predicate Ready(setup: Setup, cache: Cache, uidNext: nat) {
    && 0 < cache.highestUid < uidNext && cache.status.uidValidity == setup.uidValidity
    && !AliasesChanged(cache.allowedAliases, NormalizeAliases(setup.aliases))
  }

  /** The cursor never goes back, and every message that is there at a poll and
      that the cursor has passed by its end was in the plan of a sync that
      reached the store. */
  lemma NeverSkips(setup: Setup, polls: seq<Poll>, caches: seq<Cache>, uidNexts: seq<nat>)
    requires Followed(setup, polls, caches) && Grows(setup, polls, caches[0], uidNexts)
    ensures forall i, j :: 0 <= i <= j <= |polls| ==> caches[i].highestUid <= caches[j].highestUid
    ensures forall i, u :: 0 <= i < |polls| && u in polls[i].server.uids && caches[0].highestUid < u <= caches[i + 1].highestUid ==>
              FetchedBefore(setup, polls, caches, u, i + 1)
  {
    hide PollFits, Grows, FetchedBefore;
    forall i, j | 0 <= i <= j <= |polls|
      ensures caches[i].highestUid <= caches[j].highestUid
    {
      CoveredAt(setup, polls, caches, uidNexts, j);
    }
    forall i, u | 0 <= i < |polls| && u in polls[i].server.uids && caches[0].highestUid < u <= caches[i + 1].highestUid
      ensures FetchedBefore(setup, polls, caches, u, i + 1)
    {
      CoveredAt(setup, polls, caches, uidNexts, i + 1);
    }
  }

  lemma {:induction false} CoveredAt(setup: Setup, polls: seq<Poll>, caches: seq<Cache>, uidNexts: seq<nat>, n: nat)
    requires Followed(setup, polls, caches) && Grows(setup, polls, caches[0], uidNexts) && n <= |polls|
    ensures Ready(setup, caches[n], if n == 0 then uidNexts[0] else uidNexts[n - 1])
    ensures forall i :: 0 <= i <= n ==> caches[i].highestUid <= caches[n].highestUid
    ensures n > 0 ==> Covered(setup, polls, caches, polls[n - 1].server.uids, caches[n].highestUid, n)
  {
    hide PollFits, Fetches, NormalizeAliases, AliasesChanged;
    if n > 0 {
      var m := n - 1;
      CoveredAt(setup, polls, caches, uidNexts, m);
      assert PollFits(setup, polls[m], caches[m], caches[m + 1]);
      assert IsMoment(polls[m].server, setup.uidValidity, uidNexts[m]);
      assert m > 0 ==> uidNexts[m - 1] <= uidNexts[m - 1 + 1];
      PollKeeps(setup, polls[m], caches[m], caches[m + 1], uidNexts[m]);
      forall u | u in polls[m].server.uids && caches[0].highestUid < u <= caches[n].highestUid
        ensures FetchedBefore(setup, polls, caches, u, n)
      {
        if u <= caches[m].highestUid {
          assert m > 0 && u in polls[m - 1].server.uids;
          var k :| 0 <= k < m && Fetches(setup, polls[k], caches[k], caches[k + 1], u);
        } else {
          assert Fetches(setup, polls[m], caches[m], caches[m + 1], u);
        }
      }
    }
  }

  /** One poll moves the cursor forward or leaves it, and fetches all that it passes. */
  lemma PollKeeps(setup: Setup, poll: Poll, before: Cache, after: Cache, uidNext: nat)
    requires PollFits(setup, poll, before, after) && Ready(setup, before, uidNext)
    requires IsMoment(poll.server, setup.uidValidity, uidNext)
    ensures Ready(setup, after, uidNext) && after.highestUid >= before.highestUid
    ensures forall u :: u in poll.server.uids && before.highestUid < u <= after.highestUid ==> Fetches(setup, poll, before, after, u)
  {
    hide NormalizeAliases, FetchPlan, Succeed;
    if Merges(setup, poll, before, after) {
      var between :| HidBy(before, between, poll.hides) && after == Reread(SyncedBy(setup, poll, before, between), setup.losesEmptyLists);
      CursorAfter(setup, poll, before, between);
      PlanComplete(poll.server, before.highestUid);
    }
  }

  lemma CursorAfter(setup: Setup, poll: Poll, before: Cache, between: Cache)
    requires HidBy(before, between, poll.hides) && before.highestUid > 0
    requires !AliasesChanged(before.allowedAliases, NormalizeAliases(setup.aliases))
    ensures var synced := SyncedBy(setup, poll, before, between);
            && synced.highestUid == FetchPlan(poll.server, before.status.uidValidity, before.highestUid).1
            && synced.status.uidValidity == poll.server.uidValidity
            && synced.allowedAliases == NormalizeAliases(setup.aliases)
  {
    hide NormalizeAliases, FetchPlan, Merge, Pruned, ReadAll, SortNewest, FirstScanUids, View;
  }
}
