/** What a fetch brings, said without its steps. */
module MailFetchLaw {
  import opened MailMessages
  import opened MailMerge
  import opened MailMergeLaw
  import opened MailFirstScan
  import opened MailKeys
  import opened MailboxSync
  import opened MailCursor

  // ---- The first scan ----

  /** The higher UIDs whose header names an alias. */
  ghost function HigherFor(uids: seq<nat>, recipients: Recipients, u: nat, a: string): set<nat> {
    set v | v in uids && v > u && a in recipients(v)
  }

  ghost predicate Wanted(uids: seq<nat>, recipients: Recipients, u: nat) {
    exists a :: a in recipients(u) && a != "" && |HigherFor(uids, recipients, u, a)| < 100
  }

  ghost predicate Downward(uids: seq<nat>) {
    forall i, j :: 0 <= i < j < |uids| ==> uids[i] > uids[j]
  }

  /** The UIDs, downwards, that are among the highest hundred of some alias, and of
      those the highest up to a number. */
  ghost predicate IsScan(uids: seq<nat>, recipients: Recipients, maximum: nat, selected: seq<nat>) {
    && |selected| <= maximum && Downward(selected)
    && (forall u :: u in selected ==> u in uids && Wanted(uids, recipients, u))
    && (forall u :: u in uids && Wanted(uids, recipients, u) ==>
          u in selected || (|selected| == maximum && forall v :: v in selected ==> v > u))
  }

  lemma HeadersBefore(uids: seq<nat>, recipients: Recipients, i: nat, a: string)
    requires Ascending(uids) && i < |HeadersDown(uids, recipients)|
    ensures var headers := HeadersDown(uids, recipients);
            Carriers(headers[..i], a) == |HigherFor(uids, recipients, headers[i].uid, a)|
  {
    hide HeadersDown, Carriers;
    var headers := HeadersDown(uids, recipients);
    HeadersDescending(uids, recipients);
    CarriersCount(headers[..i], a);
    forall v
      ensures v in CarrierUids(headers[..i], a) <==> v in HigherFor(uids, recipients, headers[i].uid, a)
    {
      if v in CarrierUids(headers[..i], a) {
        var d :| d in headers[..i] && a in d.aliases && d.uid == v;
        var j :| 0 <= j < i && headers[j] == d;
        assert headers[j] in headers && headers[i] in headers && Newer(headers[j], headers[i]);
      }
      if v in HigherFor(uids, recipients, headers[i].uid, a) {
        var d := Header(v, recipients);
        assert d in headers && headers[i] in headers;
        var j :| 0 <= j < |headers| && headers[j] == d;
        assert j < i;
        assert headers[..i][j] == d;
      }
    }
    assert CarrierUids(headers[..i], a) == HigherFor(uids, recipients, headers[i].uid, a);
  }

  /** A header is retained exactly if its UID is wanted. */
  lemma RetainedWanted(uids: seq<nat>, recipients: Recipients, u: nat)
    requires Ascending(uids)
    ensures u in UidsOf(Retained([], HeadersDown(uids, recipients))) <==> u in uids && Wanted(uids, recipients, u)
  {
    hide HeadersDown, Retained, Carriers;
    var headers := HeadersDown(uids, recipients);
    HeadersDescending(uids, recipients);
    if u in uids && recipients(u) != [] {
      assert Header(u, recipients) in headers;
      var i :| 0 <= i < |headers| && headers[i] == Header(u, recipients);
      SelectedExactly(headers, i);
      forall a {
        HeadersBefore(uids, recipients, i, a);
      }
    } else {
      RetainedFrom(headers, u);
    }
  }

  lemma RetainedFrom(headers: seq<Message>, u: nat)
    requires DistinctUids(headers)
    ensures u in UidsOf(Retained([], headers)) ==> exists m :: m in headers && m.uid == u
  {
    hide Retained;
    var retained := Retained([], headers);
    RetainedDistinct([], headers);
    if u in UidsOf(retained) {
      var k :| 0 <= k < |retained| && UidsOf(retained)[k] == u;
      assert retained[k] in retained;
    }
  }

  lemma ScanLaw(uids: seq<nat>, recipients: Recipients, maximum: nat)
    requires Ascending(uids)
    ensures IsScan(uids, recipients, maximum, Greedy(HeadersDown(uids, recipients), maximum))
  {
    hide HeadersDown, Retained, Wanted;
    var headers := HeadersDown(uids, recipients);
    var all := UidsOf(Retained([], headers));
    var selected := Greedy(headers, maximum);
    RetainedDown(uids, recipients);
    forall u
      ensures u in all <==> u in uids && Wanted(uids, recipients, u)
    {
      RetainedWanted(uids, recipients, u);
    }
    forall u | u in all && u !in selected
      ensures |selected| == maximum && forall v :: v in selected ==> v > u
    {
      LimitedAre(all, maximum, u);
    }
    assert forall v :: v in selected ==> v in all;
  }

  lemma LimitedAre(all: seq<nat>, maximum: nat, u: nat)
    requires Downward(all)
    requires u in all && u !in Limited(all, maximum)
    ensures |Limited(all, maximum)| == maximum && forall v :: v in Limited(all, maximum) ==> v > u
  {
    var limited := Limited(all, maximum);
    var i :| 0 <= i < |all| && all[i] == u;
    assert forall j :: 0 <= j < |limited| ==> limited[j] == all[j] && limited[j] in limited;
  }

  lemma RetainedDown(uids: seq<nat>, recipients: Recipients)
    requires Ascending(uids)
    ensures Downward(UidsOf(Retained([], HeadersDown(uids, recipients))))
  {
    hide HeadersDown, Retained;
    var headers := HeadersDown(uids, recipients);
    var retained := Retained([], headers);
    HeadersDescending(uids, recipients);
    RetainedDescending([], headers);
    forall i, j | 0 <= i < j < |retained|
      ensures retained[i].uid > retained[j].uid
    {
      assert retained[i] in retained && retained[j] in retained && Newer(retained[i], retained[j]);
    }
  }

  // ---- A fetch ----

  /** The message under a UID, if it parses and has a recipient. */
  ghost predicate IsRead(server: Server, u: nat, m: Message) {
    u in server.uids && server.read(u).Some? && server.read(u).value == m && m.aliases != []
  }

  /** A fetch after a cursor of the same mailbox: every message up to the new
      cursor, which is the highest UID, or the end of 200. */
  ghost predicate IsNextFetch(server: Server, afterUid: nat, fetched: Fetched) {
    && fetched.highestUid >= afterUid && (fetched.highestUid == afterUid || fetched.highestUid in server.uids)
    && (forall m :: m in fetched.messages ==>
          IsRead(server, m.uid, m) && m.uid <= fetched.highestUid && (m.uid > afterUid || forall v :: v in server.uids ==> v <= m.uid))
    && (forall u: nat, m :: IsRead(server, u, m) && afterUid < u <= fetched.highestUid ==> m in fetched.messages)
    && ((forall u :: u in server.uids ==> u <= fetched.highestUid)
        || |set u | u in server.uids && afterUid < u <= fetched.highestUid| == 200)
  }

  /** A first fetch: what the scan of the recent messages selects. */
  ghost predicate IsFirstFetch(server: Server, cacheMax: int, fetched: Fetched) {
    && (forall u :: u in server.recent ==> u <= fetched.highestUid)
    && (fetched.highestUid == 0 || fetched.highestUid in server.recent)
    && exists recent, selected :: Scanned(server, cacheMax, fetched.messages, recent, selected)
  }

  ghost predicate Scanned(server: Server, cacheMax: int, messages: seq<Message>, recent: seq<nat>, selected: seq<nat>) {
    && (forall u :: u in recent <==> u in server.recent)
    && IsScan(recent, server.recipients, if cacheMax < 1 then 5000 else cacheMax, selected)
    && forall m :: m in messages <==> m.uid in selected && IsRead(server, m.uid, m)
  }

  lemma FetchLaw(server: Server, previousUidValidity: nat, afterUid: nat, cacheMax: int)
    requires ValidServer(server)
    ensures var fetched := FetchedFrom(server, previousUidValidity, afterUid, cacheMax);
            && fetched.uidValidity == server.uidValidity && Descending(fetched.messages)
            && if previousUidValidity == server.uidValidity && 0 < afterUid < 0xffff_ffff
               then IsNextFetch(server, afterUid, fetched)
               else IsFirstFetch(server, cacheMax, fetched)
  {
    hide ReadAll, SortUp, SortNewest, IsNextFetch, IsFirstFetch, FirstScanUids;
    SortedFetch(server, previousUidValidity, afterUid, cacheMax);
    if Incremental(server, previousUidValidity, afterUid) {
      NextFetchLaw(server, afterUid, cacheMax);
    } else {
      FirstFetchLaw(server, previousUidValidity, afterUid, cacheMax);
    }
  }

  lemma SortedFetch(server: Server, previousUidValidity: nat, afterUid: nat, cacheMax: int)
    requires ValidServer(server)
    ensures Descending(FetchedFrom(server, previousUidValidity, afterUid, cacheMax).messages)
  {
    hide ReadAll, SortUp, SortNewest, HeadersDown, Retained;
    var plan := FetchPlan(server, previousUidValidity, afterUid);
    SortUpAscending(SearchUids(server, previousUidValidity, afterUid));
    var uids := if Incremental(server, previousUidValidity, afterUid) then plan.0 else FirstScanUids(server, plan.0, cacheMax);
    if Incremental(server, previousUidValidity, afterUid) {
      AscendingApart(plan.0);
      ReadAllDistinct(server, plan.0);
    } else {
      ScanLaw(plan.0, server.recipients, ScanMaximum(cacheMax));
      DownwardApart(FirstScanUids(server, plan.0, cacheMax));
      ReadAllDistinct(server, FirstScanUids(server, plan.0, cacheMax));
    }
    SortDescending(ReadAll(server, uids));
  }

  lemma DownwardApart(uids: seq<nat>)
    requires Downward(uids)
    ensures forall i, j :: 0 <= i < j < |uids| ==> uids[i] != uids[j]
  {
  }

  lemma AscendingApart(uids: seq<nat>)
    requires Ascending(uids)
    ensures forall i, j :: 0 <= i < j < |uids| ==> uids[i] != uids[j]
  {
  }

  lemma NextFetchLaw(server: Server, afterUid: nat, cacheMax: int)
    requires ValidServer(server) && Incremental(server, server.uidValidity, afterUid)
    ensures IsNextFetch(server, afterUid, FetchedFrom(server, server.uidValidity, afterUid, cacheMax))
  {
    hide ReadAll, SortUp, SortNewest;
    var fetched := FetchedFrom(server, server.uidValidity, afterUid, cacheMax);
    var plan := FetchPlan(server, server.uidValidity, afterUid);
    PlanComplete(server, afterUid);
    PlanWithin(server, afterUid);
    forall m {
      ReadAllMembers(server, plan.0, m);
    }
  }

  /** What the plan of an incremental fetch holds. */
  lemma PlanWithin(server: Server, afterUid: nat)
    requires Incremental(server, server.uidValidity, afterUid)
    ensures var plan := FetchPlan(server, server.uidValidity, afterUid);
            && (forall u :: u in plan.0 ==> u in server.uids && u <= plan.1 && (u > afterUid || forall v :: v in server.uids ==> v <= u))
            && ((forall u :: u in server.uids ==> u <= plan.1)
                || |set u | u in server.uids && afterUid < u <= plan.1| == 200)
  {
    hide SortUp;
    var search := SearchUids(server, server.uidValidity, afterUid);
    var uids := SortUp(search);
    var plan := FetchPlan(server, server.uidValidity, afterUid);
    SortUpAscending(search);
    PlanComplete(server, afterUid);
    if plan.0 != [] {
      LastIsHighest(plan.0);
    }
    SearchedAre(server, afterUid);
    hide SearchUids;
    if |uids| > BATCH {
      FirstIsAbove(server, afterUid);
      PlanHolds(server, afterUid);
      PlanIsFull(server.uids, afterUid, plan.0, plan.1);
    } else if uids != [] {
      LastIsHighest(uids);
    }
  }

  /** A plan of 200 holds exactly what lies between the two cursors. */
  lemma PlanHolds(server: Server, afterUid: nat)
    requires Incremental(server, server.uidValidity, afterUid)
    requires |SortUp(SearchUids(server, server.uidValidity, afterUid))| > BATCH
    ensures var plan := FetchPlan(server, server.uidValidity, afterUid);
            Ascending(plan.0) && |plan.0| == 200 && forall u :: u in plan.0 <==> u in server.uids && afterUid < u <= plan.1
  {
    hide SortUp;
    var search := SearchUids(server, server.uidValidity, afterUid);
    var plan := FetchPlan(server, server.uidValidity, afterUid);
    SortUpAscending(search);
    FirstIsAbove(server, afterUid);
    SearchedAre(server, afterUid);
    PlanComplete(server, afterUid);
    LastIsHighest(plan.0);
    hide SearchUids;
    forall u | u in plan.0
      ensures u in server.uids && afterUid < u <= plan.1
    {
      assert u in SortUp(search);
    }
  }

  lemma PlanIsFull(all: set<nat>, afterUid: nat, uids: seq<nat>, highest: nat)
    requires Ascending(uids) && |uids| == 200
    requires forall u :: u in uids <==> u in all && afterUid < u <= highest
    ensures |set u | u in all && afterUid < u <= highest| == 200
  {
    assert (set u | u in all && afterUid < u <= highest) == Elements(uids);
    AscendingSize(uids);
  }

  /** The answer to the search: what is new, and the last message. */
  lemma SearchedAre(server: Server, afterUid: nat)
    requires Incremental(server, server.uidValidity, afterUid)
    ensures var search := SearchUids(server, server.uidValidity, afterUid);
            && (forall u :: u in search ==> u in server.uids && (u > afterUid || forall v :: v in server.uids ==> v <= u))
            && (forall u :: u in server.uids ==> u <= afterUid || u in search)
  {
    hide SortUp;
    if server.uids != {} {
      SortUpAscending(server.uids);
      var u :| u in server.uids;
      assert u in SortUp(server.uids);
      LastIsHighest(SortUp(server.uids));
    }
  }

  lemma LastIsHighest(uids: seq<nat>)
    requires Ascending(uids) && uids != []
    ensures forall u :: u in uids ==> u <= Last(uids)
  {
  }

  function Elements(uids: seq<nat>): (elements: set<nat>)
    ensures forall u :: u in elements <==> u in uids
  {
    if uids == [] then {} else Elements(uids[..|uids| - 1]) + {uids[|uids| - 1]}
  }

  lemma {:induction false} AscendingSize(uids: seq<nat>)
    requires Ascending(uids)
    ensures |Elements(uids)| == |uids|
  {
    if uids != [] {
      var n := |uids| - 1;
      AscendingSize(uids[..n]);
      assert uids[n] !in uids[..n];
    }
  }

  lemma FirstFetchLaw(server: Server, previousUidValidity: nat, afterUid: nat, cacheMax: int)
    requires ValidServer(server) && !Incremental(server, previousUidValidity, afterUid)
    ensures IsFirstFetch(server, cacheMax, FetchedFrom(server, previousUidValidity, afterUid, cacheMax))
  {
    hide ReadAll, SortUp, SortNewest, IsScan, HeadersDown, Greedy;
    var fetched := FetchedFrom(server, previousUidValidity, afterUid, cacheMax);
    var recent := SortUp(server.recent);
    var selected := FirstScanUids(server, recent, cacheMax);
    SortUpAscending(server.recent);
    ScanLaw(recent, server.recipients, ScanMaximum(cacheMax));
    assert recent != [] ==> Last(recent) in recent;
    forall m
      ensures m in fetched.messages <==> m.uid in selected && IsRead(server, m.uid, m)
    {
      ReadAllMembers(server, selected, m);
      ScanIsRecent(recent, server.recipients, ScanMaximum(cacheMax), selected);
    }
    assert Scanned(server, cacheMax, fetched.messages, recent, selected);
  }

  lemma ScanIsRecent(uids: seq<nat>, recipients: Recipients, maximum: nat, selected: seq<nat>)
    requires IsScan(uids, recipients, maximum, selected)
    ensures forall u :: u in selected ==> u in uids
  {
  }
}
