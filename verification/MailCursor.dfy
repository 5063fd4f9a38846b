/** Fetching from the mail server and the UID cursor that it moves. */
module MailCursor {
  import opened Wrappers
  import opened MailMessages
  import opened MailKeys
  import opened MailMerge
  import opened MailMergeLoop
  import opened MailFirstScan
  import opened MailboxSync

  /** A mailbox at the moment of a search. `recent` are the messages within the
      lookback; `read` parses one message, with its allowed recipients. */
  datatype Server = Server(uidValidity: nat, uids: set<nat>, recent: set<nat>,
                           recipients: Recipients, read: nat -> Option<Message>)

  ghost predicate ValidServer(server: Server) {
    && (forall u :: u in server.uids ==> 0 < u < UID_LIMIT)
    && server.recent <= server.uids
    && (forall u :: server.read(u).Some? ==> server.read(u).value.uid == u)
  }

  // ---- Sorted UIDs ----

  ghost predicate IsMinimum(m: nat, s: set<nat>) {
    m in s && forall x :: x in s ==> m <= x
  }

  lemma {:induction false} Minimum(s: set<nat>) returns (m: nat)
    requires s != {}
    ensures IsMinimum(m, s)
  {
    m :| m in s;
    var first := m;
    var rest := s - {first};
    assert forall x :: x in s ==> x == first || x in rest;
    if rest != {} {
      var least := Minimum(rest);
      if least < first {
        m := least;
      }
    }
  }

  lemma HasMinimum(s: set<nat>)
    requires s != {}
    ensures exists m :: IsMinimum(m, s)
  {
    var m := Minimum(s);
  }

  function Least(s: set<nat>): (m: nat)
    requires s != {}
    ensures IsMinimum(m, s)
  {
    HasMinimum(s);
    var m :| m in s && forall x :: x in s ==> m <= x;
    m
  }

  function SortUp(s: set<nat>): (r: seq<nat>)
    ensures forall x :: x in r <==> x in s
    ensures |r| == |s|
  {
    if s == {} then [] else [Least(s)] + SortUp(s - {Least(s)})
  }

  lemma {:induction false} SortUpAscending(s: set<nat>)
    ensures Ascending(SortUp(s))
  {
    hide Least;
    if s != {} {
      var rest := SortUp(s - {Least(s)});
      SortUpAscending(s - {Least(s)});
      forall j | 0 <= j < |rest|
        ensures Least(s) < rest[j]
      {
        assert rest[j] in rest;
      }
    }
  }

  function Last(uids: seq<nat>): nat
    requires uids != []
  {
    uids[|uids| - 1]
  }

  // ---- The search ----

  predicate Incremental(server: Server, previousUidValidity: nat, afterUid: nat) {
    previousUidValidity == server.uidValidity && afterUid > 0 && afterUid < UID_LIMIT - 1
  }

  /** UID n:*, which a server always answers with its last message at least
      (section 6.4.8 of RFC 3501), or the lookback search. */
  function SearchUids(server: Server, previousUidValidity: nat, afterUid: nat): set<nat> {
    if Incremental(server, previousUidValidity, afterUid) then
      (set u | u in server.uids && (u > afterUid || u == Last(SortUp(server.uids))))
    else
      server.recent
  }

  /** The UIDs whose messages are fetched, and where the cursor goes. */
  function FetchPlan(server: Server, previousUidValidity: nat, afterUid: nat): (plan: (seq<nat>, nat)) {
    var uids := SortUp(SearchUids(server, previousUidValidity, afterUid));
    var start := if Incremental(server, previousUidValidity, afterUid) then afterUid else 0;
    var highest := if uids != [] && Last(uids) > start then Last(uids) else start;
    if start > 0 && |uids| > BATCH then (uids[..BATCH], uids[BATCH - 1]) else (uids, highest)
  }

  /** The messages of some UIDs that parse and have a recipient of interest. */
  function ReadAll(server: Server, uids: seq<nat>): seq<Message> {
    if uids == [] then []
    else
      var first := server.read(uids[0]);
      (if first.Some? && first.value.aliases != [] then [first.value] else []) + ReadAll(server, uids[1..])
  }

  /** Select, search, header fetches and body fetches may each fail. */
  datatype Failures = Failures(select: bool, search: bool, headers: nat -> bool, bodies: nat -> bool)

  method FetchBodies(server: Server, uids: seq<nat>) returns (messages: seq<Message>)
    ensures messages == SortNewest(ReadAll(server, uids))
  {
    hide ReadAll, SortNewest;
    var out: seq<Message> := [];
    NothingRead(server, 0);
    for i := 0 to |uids|
      invariant out + ReadAll(server, uids[i..]) == ReadAll(server, uids)
    {
      assert uids[i..][1..] == uids[i + 1..];
      ReadFirst(server, uids[i..]);
      var parsed := server.read(uids[i]);
      if parsed.Some? && parsed.value.aliases != [] {
        out := out + [parsed.value];
      }
    }
    assert uids[|uids|..] == [];
    assert out == out + [];
    messages := SortNewest(out);
  }

  lemma {:induction false} ReadAllConcat(server: Server, a: seq<nat>, b: seq<nat>)
    ensures ReadAll(server, a + b) == ReadAll(server, a) + ReadAll(server, b)
  {
    hide ReadAll;
    if a == [] {
      assert a + b == b;
      assert ReadAll(server, []) == [] by {
        NothingRead(server, 0);
      }
    } else {
      ReadAllConcat(server, a[1..], b);
      ReadFirst(server, a);
      ReadFirst(server, a + b);
      assert (a + b)[1..] == a[1..] + b;
    }
  }

  lemma ReadFirst(server: Server, uids: seq<nat>)
    requires uids != []
    ensures var first := server.read(uids[0]);
            ReadAll(server, uids)
            == (if first.Some? && first.value.aliases != [] then [first.value] else []) + ReadAll(server, uids[1..])
  {
  }

  lemma {:induction false} ReadAllMembers(server: Server, uids: seq<nat>, x: Message)
    ensures x in ReadAll(server, uids) <==> exists u :: u in uids && server.read(u) == Some(x) && x.aliases != []
  {
    if uids != [] {
      ReadAllMembers(server, uids[1..], x);
    }
  }

  lemma {:induction false} ReadAllDistinct(server: Server, uids: seq<nat>)
    requires ValidServer(server) && forall i, j :: 0 <= i < j < |uids| ==> uids[i] != uids[j]
    ensures DistinctUids(ReadAll(server, uids))
  {
    if uids != [] {
      ReadAllDistinct(server, uids[1..]);
      var rest := ReadAll(server, uids[1..]);
      forall j | 0 <= j < |rest|
        ensures rest[j].uid != uids[0]
      {
        ReadAllMembers(server, uids[1..], rest[j]);
        assert rest[j] in rest;
        var u :| u in uids[1..] && server.read(u) == Some(rest[j]);
        var k :| 0 <= k < |uids| - 1 && uids[1..][k] == u;
      }
    }
  }

  /** The UIDs whose bodies a first scan reads. */
  function FirstScanUids(server: Server, uids: seq<nat>, cacheMax: int): seq<nat> {
    Greedy(HeadersDown(uids, server.recipients), ScanMaximum(cacheMax))
  }

  /** What a successful fetch hands to the merge. */
  function FetchedFrom(server: Server, previousUidValidity: nat, afterUid: nat, cacheMax: int): Fetched {
    var plan := FetchPlan(server, previousUidValidity, afterUid);
    var uids := if Incremental(server, previousUidValidity, afterUid) then plan.0 else FirstScanUids(server, plan.0, cacheMax);
    Fetched(SortNewest(ReadAll(server, uids)), server.uidValidity, plan.1)
  }

  method FetchImap(server: Server, aliases: seq<string>, cacheMax: int, previousUidValidity: nat, afterUid: nat, fails: Failures)
    returns (fetched: Option<Fetched>)
    requires ValidServer(server) && NamesAllowed(server.recipients, NormalizeAliases(aliases))
    ensures fetched.Some? ==> fetched.value == FetchedFrom(server, previousUidValidity, afterUid, cacheMax)
    ensures !fails.select && !fails.search && (forall k :: !fails.headers(k) && !fails.bodies(k)) ==> fetched.Some?
  {
    hide SortUp, HeadersDown, Greedy, ReadAll, SortNewest, NormalizeAliases;
    if fails.select {
      return None;
    }
    var incremental := Incremental(server, previousUidValidity, afterUid);
    var start := if incremental then afterUid else 0;
    if fails.search {
      return None;
    }
    var uids := SortUp(SearchUids(server, previousUidValidity, afterUid));
    SortUpAscending(SearchUids(server, previousUidValidity, afterUid));
    var highest := start;
    for i := 0 to |uids|
      invariant highest >= start && (i > 0 ==> highest >= uids[i - 1])
      invariant highest == start || (i > 0 && highest == uids[i - 1])
    {
      if uids[i] > highest {
        highest := uids[i];
      }
    }
    if uids == [] {
      NothingRead(server, cacheMax);
      return Some(Fetched([], server.uidValidity, highest));
    }
    if start == 0 {
      var messages := FetchInitial(server, NormalizeAliases(aliases), cacheMax, uids, fails);
      if messages.None? {
        return None;
      }
      return Some(Fetched(messages.value, server.uidValidity, highest));
    }
    if |uids| > BATCH {
      uids := uids[..BATCH];
      highest := uids[|uids| - 1];
    }
    if fails.bodies(0) {
      return None;
    }
    var messages := FetchBodies(server, uids);
    fetched := Some(Fetched(messages, server.uidValidity, highest));
  }

  lemma NothingRead(server: Server, cacheMax: int)
    ensures ReadAll(server, []) == [] && SortNewest([]) == []
    ensures FirstScanUids(server, [], cacheMax) == []
  {
  }

  /** Headers first, then the bodies of the selected messages, 200 at a time. */
  method FetchInitial(server: Server, normalized: seq<string>, cacheMax: int, uids: seq<nat>, fails: Failures)
    returns (messages: Option<seq<Message>>)
    requires ValidServer(server) && Ascending(uids) && NamesAllowed(server.recipients, normalized)
    ensures messages.Some? ==> messages.value == SortNewest(ReadAll(server, FirstScanUids(server, uids, cacheMax)))
    ensures (forall k :: !fails.headers(k) && !fails.bodies(k)) ==> messages.Some?
  {
    hide HeadersDown, Greedy, ReadAll, SortNewest;
    var selected := SelectInitial(uids, server.recipients, normalized, cacheMax, fails.headers);
    if selected.None? {
      return None;
    }
    var chosen := selected.value;
    GreedyDistinct(uids, server.recipients, ScanMaximum(cacheMax));
    var out: seq<Message> := [];
    var start := 0;
    NothingRead(server, cacheMax);
    while start < |chosen|
      invariant start <= |chosen|
      invariant forall x :: x in out <==> x in ReadAll(server, chosen[..start])
      invariant DistinctUids(out)
    {
      var end := if start + BATCH < |chosen| then start + BATCH else |chosen|;
      if fails.bodies(start) {
        return None;
      }
      var batch := FetchBodies(server, chosen[start..end]);
      NextBodies(server, chosen, start, end, out, batch);
      out := out + batch;
      start := end;
    }
    assert chosen[..|chosen|] == chosen;
    ReadAllDistinct(server, chosen);
    SortSame(out, ReadAll(server, chosen));
    messages := Some(SortNewest(out));
  }

  lemma NextBodies(server: Server, chosen: seq<nat>, start: nat, end: nat, out: seq<Message>, batch: seq<Message>)
    requires ValidServer(server) && start <= end <= |chosen|
    requires forall i, j :: 0 <= i < j < |chosen| ==> chosen[i] != chosen[j]
    requires forall x :: x in out <==> x in ReadAll(server, chosen[..start])
    requires DistinctUids(out) && batch == SortNewest(ReadAll(server, chosen[start..end]))
    ensures forall x :: x in out + batch <==> x in ReadAll(server, chosen[..end])
    ensures DistinctUids(out + batch)
  {
    hide ReadAll, SortNewest;
    assert chosen[..end] == chosen[..start] + chosen[start..end];
    ReadAllConcat(server, chosen[..start], chosen[start..end]);
    ReadAllDistinct(server, chosen[start..end]);
    SortDistinct(ReadAll(server, chosen[start..end]));
    forall i, j | 0 <= i < |out| && 0 <= j < |batch|
      ensures out[i].uid != batch[j].uid
    {
      assert out[i] in out && batch[j] in batch;
      ReadAllMembers(server, chosen[..start], out[i]);
      ReadAllMembers(server, chosen[start..end], batch[j]);
      var u :| u in chosen[..start] && server.read(u) == Some(out[i]);
      var v :| v in chosen[start..end] && server.read(v) == Some(batch[j]);
      var k :| 0 <= k < start && chosen[..start][k] == u;
      var l :| 0 <= l < end - start && chosen[start..end][l] == v;
      assert chosen[k] != chosen[start + l];
    }
  }

  lemma GreedyDistinct(uids: seq<nat>, recipients: Recipients, maximum: nat)
    requires Ascending(uids)
    ensures var g := Greedy(HeadersDown(uids, recipients), maximum); forall i, j :: 0 <= i < j < |g| ==> g[i] != g[j]
  {
    hide Retained, HeadersDown;
    HeadersDescending(uids, recipients);
    RetainedDistinct([], HeadersDown(uids, recipients));
  }

  // ---- Cursor safety over whole runs of incremental syncs ----

  /** A mailbox with one UIDVALIDITY, the cursor, and every UID fetched so far
      (whatever the fetched message holds). */
  datatype World = World(uids: set<nat>, uidNext: nat, highest: nat, fetched: set<nat>)

  datatype Event =
    | Deliver(uid: nat)
    | Expunge(uid: nat)
    | SyncDone
    | SyncFailed

  function ServerOf(world: World, uidValidity: nat): Server {
    Server(uidValidity, world.uids, {}, _ => [], _ => None)
  }

  /** New messages get higher UIDs than any before (section 2.3.1.1 of
      RFC 3501); a failed fetch moves nothing. */
  ghost predicate CanHappen(world: World, event: Event) {
    event.Deliver? ==> event.uid >= world.uidNext && event.uid < UID_LIMIT - 1
  }

  function After(world: World, event: Event, uidValidity: nat): World {
    match event
    case Deliver(uid) => world.(uids := world.uids + {uid}, uidNext := uid + 1)
    case Expunge(uid) => world.(uids := world.uids - {uid})
    case SyncDone =>
      var plan := FetchPlan(ServerOf(world, uidValidity), uidValidity, world.highest);
      world.(highest := plan.1, fetched := world.fetched + set u | u in plan.0)
    case SyncFailed => world
  }

  /** Nothing between the first cursor and the present one was skipped. */
  ghost predicate NothingSkipped(world: World, first: nat) {
    && 0 < first <= world.highest < world.uidNext < UID_LIMIT
    && (forall u :: u in world.uids ==> u < world.uidNext)
    && (forall u :: u in world.uids && first < u <= world.highest ==> u in world.fetched)
  }

  /** The plan of an incremental sync: never backwards, and complete up to the
      new cursor. */
  lemma PlanComplete(server: Server, afterUid: nat)
    requires Incremental(server, server.uidValidity, afterUid)
    ensures var plan := FetchPlan(server, server.uidValidity, afterUid);
            && plan.1 >= afterUid
            && (plan.1 == afterUid || plan.1 in server.uids)
            && |plan.0| <= BATCH
            && (forall u :: u in server.uids && afterUid < u <= plan.1 ==> u in plan.0)
  {
    hide SortUp;
    var search := SearchUids(server, server.uidValidity, afterUid);
    var uids := SortUp(search);
    SortUpAscending(search);
    assert uids != [] ==> Last(uids) in uids;
    if |uids| > BATCH {
      FirstIsAbove(server, afterUid);
      assert uids[BATCH - 1] in uids;
      forall u | u in server.uids && afterUid < u <= uids[BATCH - 1]
        ensures u in uids[..BATCH]
      {
        assert u in uids;
        var i :| 0 <= i < |uids| && uids[i] == u;
        assert i < BATCH;
        assert uids[..BATCH][i] == u;
      }
    }
  }

  /** With more than one answer, all of them lie above the cursor: the extra
      last message does not displace a new one. */
  lemma FirstIsAbove(server: Server, afterUid: nat)
    requires Incremental(server, server.uidValidity, afterUid)
    requires |SortUp(SearchUids(server, server.uidValidity, afterUid))| > 1
    ensures forall u :: u in SearchUids(server, server.uidValidity, afterUid) ==> u > afterUid
  {
    hide SortUp;
    var search := SearchUids(server, server.uidValidity, afterUid);
    var all := SortUp(server.uids);
    SortUpAscending(server.uids);
    SortUpAscending(search);
    var uids := SortUp(search);
    assert uids[0] in search && uids[1] in search;
    assert all != [] by {
      assert uids[0] in all;
    }
    assert uids[0] <= Last(all) && uids[1] <= Last(all);
    assert uids[0] != Last(all);
    assert Last(all) > afterUid;
  }

  lemma StepSafe(world: World, event: Event, first: nat, uidValidity: nat)
    requires NothingSkipped(world, first) && CanHappen(world, event)
    ensures NothingSkipped(After(world, event, uidValidity), first)
    ensures After(world, event, uidValidity).highest >= world.highest
    ensures !event.SyncDone? ==> After(world, event, uidValidity).highest == world.highest
    ensures world.fetched <= After(world, event, uidValidity).fetched
  {
    if event.SyncDone? {
      PlanComplete(ServerOf(world, uidValidity), world.highest);
    }
  }

  ghost predicate CanRun(world: World, events: seq<Event>, uidValidity: nat)
    decreases events
  {
    events == [] || (CanHappen(world, events[0]) && CanRun(After(world, events[0], uidValidity), events[1..], uidValidity))
  }

  function AfterAll(world: World, events: seq<Event>, uidValidity: nat): World
    decreases events
  {
    if events == [] then world else AfterAll(After(world, events[0], uidValidity), events[1..], uidValidity)
  }

  /** Over any run of deliveries, expunges, syncs and failed syncs the cursor
      never goes back, and every message it has passed was fetched. */
  lemma {:induction false} CursorSafe(world: World, events: seq<Event>, first: nat, uidValidity: nat)
    requires NothingSkipped(world, first) && CanRun(world, events, uidValidity)
    ensures NothingSkipped(AfterAll(world, events, uidValidity), first)
    ensures AfterAll(world, events, uidValidity).highest >= world.highest
    decreases events
  {
    hide NothingSkipped, After;
    if events != [] {
      StepSafe(world, events[0], first, uidValidity);
      CursorSafe(After(world, events[0], uidValidity), events[1..], first, uidValidity);
    }
  }

  // ---- How many syncs a backlog takes ----

  function Pending(world: World): set<nat> {
    set u | u in world.uids && u > world.highest
  }

  function Syncs(n: nat): seq<Event> {
    seq(n, _ => SyncDone)
  }

  lemma SyncTakesBatch(world: World, first: nat, uidValidity: nat)
    requires NothingSkipped(world, first)
    ensures |Pending(After(world, SyncDone, uidValidity))|
            == if |Pending(world)| > BATCH then |Pending(world)| - BATCH else 0
  {
    hide SortUp, Last;
    var search := SearchUids(ServerOf(world, uidValidity), uidValidity, world.highest);
    assert Pending(world) <= search;
    SubsetSize(Pending(world), search);
    if |search| > BATCH {
      FullBatch(world, first, uidValidity);
    } else {
      LastBatch(world, first, uidValidity);
    }
  }

  lemma FullBatch(world: World, first: nat, uidValidity: nat)
    requires NothingSkipped(world, first)
    requires |SearchUids(ServerOf(world, uidValidity), uidValidity, world.highest)| > BATCH
    ensures |Pending(world)| > BATCH
    ensures |Pending(After(world, SyncDone, uidValidity))| == |Pending(world)| - BATCH
  {
    hide SortUp;
    var search := SearchUids(ServerOf(world, uidValidity), uidValidity, world.highest);
    var uids := SortUp(search);
    var after := After(world, SyncDone, uidValidity);
    FirstIsAbove(ServerOf(world, uidValidity), world.highest);
    assert search == Pending(world);
    assert after.highest == uids[BATCH - 1];
    SortUpAscending(search);
    SomeOf(uids, BATCH);
    var taken := set i | 0 <= i < BATCH :: uids[i];
    assert uids[BATCH - 1] in uids;
    forall u
      ensures u in Pending(after) <==> u in Pending(world) && u !in taken
    {
      if u in Pending(world) {
        assert u in uids;
        var i :| 0 <= i < |uids| && uids[i] == u;
        assert i < BATCH <==> u <= uids[BATCH - 1];
      }
    }
    assert Pending(after) == Pending(world) - taken;
    assert forall i :: 0 <= i < BATCH ==> uids[i] in uids;
    assert taken <= Pending(world);
  }

  lemma LastBatch(world: World, first: nat, uidValidity: nat)
    requires NothingSkipped(world, first)
    requires |SearchUids(ServerOf(world, uidValidity), uidValidity, world.highest)| <= BATCH
    ensures Pending(After(world, SyncDone, uidValidity)) == {}
  {
    hide SortUp;
    var search := SearchUids(ServerOf(world, uidValidity), uidValidity, world.highest);
    var uids := SortUp(search);
    SortUpAscending(search);
    forall u | u in world.uids
      ensures u <= After(world, SyncDone, uidValidity).highest
    {
      assert u > world.highest ==> u in uids && u <= Last(uids);
    }
  }

  lemma {:induction false} SomeOf(uids: seq<nat>, n: nat)
    requires Ascending(uids) && n <= |uids|
    ensures |set i | 0 <= i < n :: uids[i]| == n
  {
    if n > 0 {
      SomeOf(uids, n - 1);
      assert (set i | 0 <= i < n :: uids[i]) == (set i | 0 <= i < n - 1 :: uids[i]) + {uids[n - 1]};
    }
  }

  /** A backlog of k messages is worked off in k/200 syncs, rounded up, and not
      in fewer. */
  lemma {:induction false} BacklogEnds(world: World, n: nat, first: nat, uidValidity: nat)
    requires NothingSkipped(world, first)
    ensures Pending(AfterAll(world, Syncs(n), uidValidity)) == {}
            <==> n >= (|Pending(world)| + BATCH - 1) / BATCH
    decreases n
  {
    hide NothingSkipped, After;
    if n == 0 {
      assert Pending(world) == {} <==> |Pending(world)| == 0;
    } else {
      SyncTakesBatch(world, first, uidValidity);
      StepSafe(world, SyncDone, first, uidValidity);
      BacklogEnds(After(world, SyncDone, uidValidity), n - 1, first, uidValidity);
      assert Syncs(n)[1..] == Syncs(n - 1);
    }
  }
}
