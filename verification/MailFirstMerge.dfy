/** What the first scan leaves out does not matter: merging the messages that it
    selects gives the cache that merging the whole mailbox would. */
module MailFirstMerge {
  import opened Wrappers
  import opened MailMessages
  import opened MailMerge
  import opened MailBatches
  import opened MailKeys
  import opened MailFirstScan
  import opened MailCursor
  import opened MailboxSync

  /** Every message parses, its body names the recipients that its header names,
      and dates follow UIDs. */
  ghost predicate Readable(server: Server, uids: seq<nat>) {
    && (forall u :: u in uids ==> server.read(u).Some? && server.read(u).value.aliases == server.recipients(u))
    && (forall u, v :: u in uids && v in uids && u < v ==> DateOf(server, u) <= DateOf(server, v))
  }

  function DateOf(server: Server, uid: nat): int {
    if server.read(uid).Some? then server.read(uid).value.date else 0
  }

  /** The messages with a recipient of interest, the highest UID first. */
  function BodiesDown(server: Server, uids: seq<nat>): (r: seq<Message>)
    ensures forall x :: x in r <==> exists u :: u in uids && server.read(u) == Some(x) && x.aliases != []
  {
    if uids == [] then []
    else
      var last := server.read(uids[|uids| - 1]);
      (if last.Some? && last.value.aliases != [] then [last.value] else []) + BodiesDown(server, uids[..|uids| - 1])
  }

  lemma {:induction false} BodiesDescending(server: Server, uids: seq<nat>)
    requires ValidServer(server) && Ascending(uids) && Readable(server, uids)
    ensures Descending(BodiesDown(server, uids))
  {
    if uids != [] {
      var n := |uids| - 1;
      BodiesDescending(server, uids[..n]);
      var rest := BodiesDown(server, uids[..n]);
      forall j | 0 <= j < |rest|
        ensures Newer(server.read(uids[n]).value, rest[j])
      {
        assert rest[j] in rest;
        var u :| u in uids[..n] && server.read(u) == Some(rest[j]);
        assert u < uids[n] && u in uids && uids[n] in uids;
        assert DateOf(server, u) <= DateOf(server, uids[n]);
      }
    }
  }

  // ---- Listing what was read ----

  /** Messages read under distinct allowed UIDs are listed as they are. */
  lemma ListedRead(server: Server, uids: seq<nat>, allowed: set<string>, s: seq<Message>)
    requires ValidServer(server)
    requires forall u, a :: u in uids && server.read(u).Some? && a in server.read(u).value.aliases ==> a in allowed
    requires Descending(s) && forall x :: x in s <==> x in ReadAll(server, uids)
    ensures Ranked(ReadAll(server, uids), allowed) == Retained([], s)
  {
    hide ReadAll, Listed, SortNewest, Retained, ValidServer;
    var read := ReadAll(server, uids);
    ReadOneMessage(server, uids);
    forall x
      ensures x in Listed(read, allowed) <==> x in s
    {
      ListedOffered(read, allowed, x);
      forall m | m in read
        ensures Restrict(m, allowed) == m && m.aliases != []
      {
        ReadAllMembers(server, uids, m);
        FilterNothing(m.aliases, allowed);
      }
    }
    SortDescending(Listed(read, allowed));
    DescendingUnique(SortNewest(Listed(read, allowed)), s);
  }

  lemma ReadOneMessage(server: Server, uids: seq<nat>)
    requires ValidServer(server)
    ensures OneMessagePerUid(ReadAll(server, uids))
  {
    forall x, y | x in ReadAll(server, uids) && y in ReadAll(server, uids) && x.uid == y.uid
      ensures x == y
    {
      ReadAllMembers(server, uids, x);
      ReadAllMembers(server, uids, y);
    }
  }

  // ---- Headers and bodies side by side ----

  /** Same UIDs and recipients, position by position. */
  ghost predicate Aligned(headers: seq<Message>, bodies: seq<Message>) {
    |headers| == |bodies|
    && forall i :: 0 <= i < |headers| ==> headers[i].uid == bodies[i].uid && headers[i].aliases == bodies[i].aliases
  }

  lemma AlignedNext(header: Message, body: Message, headers: seq<Message>, bodies: seq<Message>)
    requires Aligned(headers, bodies) && header.uid == body.uid && header.aliases == body.aliases
    ensures Aligned([header] + headers, [body] + bodies)
  {
  }

  lemma {:induction false} HeadersAligned(server: Server, uids: seq<nat>)
    requires ValidServer(server) && Readable(server, uids)
    ensures Aligned(HeadersDown(uids, server.recipients), BodiesDown(server, uids))
  {
    if uids != [] {
      hide Aligned;
      var n := |uids| - 1;
      assert uids[n] in uids;
      HeadersAligned(server, uids[..n]);
      var header, body := Header(uids[n], server.recipients), server.read(uids[n]).value;
      var headers, bodies := HeadersDown(uids[..n], server.recipients), BodiesDown(server, uids[..n]);
      AlignedNext(header, body, headers, bodies);
      if header.aliases == [] {
        assert [] + headers == headers && [] + bodies == bodies;
      }
    }
  }

  lemma {:induction false} AlignedCarry(headers: seq<Message>, bodies: seq<Message>, a: string)
    requires Aligned(headers, bodies)
    ensures Carriers(headers, a) == Carriers(bodies, a)
  {
    if headers != [] {
      var n := |headers| - 1;
      AlignedCarry(headers[..n], bodies[..n], a);
    }
  }

  lemma AlignedKept(before: seq<Message>, before': seq<Message>, header: Message, body: Message)
    requires Aligned(before, before') && header.uid == body.uid && header.aliases == body.aliases
    ensures KeptOn(before, header).aliases == KeptOn(before', body).aliases
    ensures Aligned(before + [header], before' + [body])
  {
    hide Kept, Carriers;
    forall a {
      AlignedCarry(before, before', a);
    }
    KeptSame(before, before', header.aliases, {});
  }

  /** The scan keeps the UIDs of exactly the bodies that the merge would keep. */
  lemma {:induction false} SameSelection(before: seq<Message>, before': seq<Message>, headers: seq<Message>, bodies: seq<Message>)
    requires Aligned(before, before') && Aligned(headers, bodies)
    ensures UidsOf(Retained(before, headers)) == UidsOf(Selected(before', bodies))
    decreases headers
  {
    hide Kept;
    if headers != [] {
      AlignedKept(before, before', headers[0], bodies[0]);
      SameSelection(before + [headers[0]], before' + [bodies[0]], headers[1..], bodies[1..]);
      UidsFirst(KeptOn(before, headers[0]), Retained(before + [headers[0]], headers[1..]));
      UidsFirst(bodies[0], Selected(before' + [bodies[0]], bodies[1..]));
    }
  }

  lemma UidsFirst(m: Message, rest: seq<Message>)
    ensures UidsOf([m] + rest) == [m.uid] + UidsOf(rest)
  {
  }

  lemma {:induction false} SelectedShape(earlier: seq<Message>, s: seq<Message>)
    requires Descending(s)
    ensures Descending(Selected(earlier, s)) && |Selected(earlier, s)| == |Retained(earlier, s)|
    ensures forall x :: x in Selected(earlier, s) ==> x in s
    decreases s
  {
    hide Kept;
    if s != [] {
      SelectedShape(earlier + [s[0]], s[1..]);
      var rest := Selected(earlier + [s[0]], s[1..]);
      forall j | 0 <= j < |rest|
        ensures Newer(s[0], rest[j])
      {
        assert rest[j] in rest;
        var k :| 0 <= k < |s| - 1 && s[1..][k] == rest[j];
        assert Newer(s[0], s[k + 1]);
      }
    }
  }

  // ---- The result ----

  function FirstOf(s: seq<Message>, maximum: nat): seq<Message> {
    if |s| > maximum then s[..maximum] else s
  }

  /** What is read for the selected UIDs is what was selected. */
  lemma SelectedRead(server: Server, uids: seq<nat>, cacheMax: int, x: Message)
    requires ValidServer(server) && Ascending(uids) && Readable(server, uids)
    ensures x in ReadAll(server, FirstScanUids(server, uids, cacheMax))
            <==> x in FirstOf(Selected([], BodiesDown(server, uids)), ScanMaximum(cacheMax))
  {
    hide Retained, HeadersDown, ReadAll, Selected, FirstScanUids;
    var bodies := BodiesDown(server, uids);
    var all := Selected([], bodies);
    var chosen := FirstOf(all, ScanMaximum(cacheMax));
    var scan := FirstScanUids(server, uids, cacheMax);
    ScanIsSelection(server, uids, cacheMax);
    BodiesDescending(server, uids);
    SelectedShape([], bodies);
    ReadAllMembers(server, scan, x);
    if x in chosen {
      var i :| 0 <= i < |chosen| && chosen[i] == x;
      assert scan[i] == x.uid && x in all && x in bodies;
    }
    if exists u :: u in scan && server.read(u) == Some(x) {
      var u :| u in scan && server.read(u) == Some(x);
      var i :| 0 <= i < |chosen| && scan[i] == u;
      assert chosen[i] in all && chosen[i] in bodies;
    }
  }

  lemma ScanIsSelection(server: Server, uids: seq<nat>, cacheMax: int)
    requires ValidServer(server) && Readable(server, uids)
    ensures FirstScanUids(server, uids, cacheMax)
            == UidsOf(FirstOf(Selected([], BodiesDown(server, uids)), ScanMaximum(cacheMax)))
  {
    hide Retained, HeadersDown, Selected, BodiesDown, Readable;
    HeadersAligned(server, uids);
    SameSelection([], [], HeadersDown(uids, server.recipients), BodiesDown(server, uids));
  }

  /** Merging the first messages of the selection leaves the first of the merge. */
  lemma PrefixRetained(s: seq<Message>, maximum: nat)
    requires |Retained([], s)| == |s|
    ensures Retained([], FirstOf(s, maximum)) == if |s| > maximum then Retained([], s)[..maximum] else Retained([], s)
  {
    hide Retained;
    if |s| > maximum {
      assert s == s[..maximum] + s[maximum..] && [] + s[..maximum] == s[..maximum];
      RetainedConcat([], s[..maximum], s[maximum..]);
    }
  }

  /** The first sync of a mailbox whose dates follow its UIDs: merging only what the
      scan selects leaves the cache that merging every message would leave. Without
      a cache size this needs a selection below the limit of the scan. */
  lemma FirstScanSuffices(server: Server, uids: seq<nat>, aliases: seq<string>, cacheMax: int)
    requires ValidServer(server) && Ascending(uids) && Readable(server, uids)
    requires NamesAllowed(server.recipients, aliases)
    requires cacheMax >= 1 || |Retained([], HeadersDown(uids, server.recipients))| <= ScanMaximum(cacheMax)
    ensures Merge([], ReadAll(server, FirstScanUids(server, uids, cacheMax)), aliases, cacheMax)
            == Merge([], ReadAll(server, uids), aliases, cacheMax)
    ensures |Retained([], HeadersDown(uids, server.recipients))| <= ScanMaximum(cacheMax) ==>
              Ranked(ReadAll(server, FirstScanUids(server, uids, cacheMax)), Allowed(aliases))
              == Ranked(ReadAll(server, uids), Allowed(aliases))
  {
    hide Retained, HeadersDown, ReadAll, Ranked, Readable, FirstScanUids, ValidServer, NamesAllowed, BodiesDown, Selected;
    var bodies := BodiesDown(server, uids);
    var all := Selected([], bodies);
    var chosen := FirstOf(all, ScanMaximum(cacheMax));
    var scan := FirstScanUids(server, uids, cacheMax);
    var allowed := Allowed(aliases);
    BodiesDescending(server, uids);
    SelectedShape([], bodies);
    forall x
      ensures x in chosen <==> x in ReadAll(server, scan)
      ensures x in bodies <==> x in ReadAll(server, uids)
    {
      SelectedRead(server, uids, cacheMax, x);
      ReadAllMembers(server, uids, x);
    }
    RecipientsAllowed(server, uids, aliases, cacheMax);
    ListedRead(server, uids, allowed, bodies);
    ListedRead(server, scan, allowed, chosen);
    BodiesNamed(server, uids, aliases);
    SelectionSuffices([], [], bodies);
    PrefixRetained(all, ScanMaximum(cacheMax));
    SameCount(server, uids);
    assert [] + ReadAll(server, scan) == ReadAll(server, scan);
    assert [] + ReadAll(server, uids) == ReadAll(server, uids);
  }

  /** So the first sync of an empty cache stores what a sync of every message within
      the lookback would store. */
  lemma FirstSyncSuffices(server: Server, aliases: seq<string>, cacheMax: int)
    requires ValidServer(server) && Readable(server, SortUp(server.recent)) && NamesAllowed(server.recipients, aliases)
    requires cacheMax >= 1 || |Retained([], HeadersDown(SortUp(server.recent), server.recipients))| <= ScanMaximum(cacheMax)
    ensures Merge([], FetchedFrom(server, 0, 0, cacheMax).messages, aliases, cacheMax)
            == Merge([], ReadAll(server, SortUp(server.recent)), aliases, cacheMax)
  {
    hide Retained, HeadersDown, ReadAll, SortUp, Readable, FirstScanUids, ValidServer, NamesAllowed, Ranked, SortNewest;
    var uids := SortUp(server.recent);
    var scan := FirstScanUids(server, uids, cacheMax);
    SortUpAscending(server.recent);
    FirstScanSuffices(server, uids, aliases, cacheMax);
    ReadOneMessage(server, scan);
    SortedRanked(ReadAll(server, scan), Allowed(aliases));
    assert FetchedFrom(server, 0, 0, cacheMax).messages == SortNewest(ReadAll(server, scan));
    assert [] + ReadAll(server, scan) == ReadAll(server, scan);
    assert [] + SortNewest(ReadAll(server, scan)) == SortNewest(ReadAll(server, scan));
  }

  /** The order of delivery does not matter. */
  lemma SortedRanked(s: seq<Message>, allowed: set<string>)
    requires OneMessagePerUid(s)
    ensures Ranked(SortNewest(s), allowed) == Ranked(s, allowed)
  {
    hide Listed, Retained, SortNewest;
    var sorted := SortNewest(s);
    forall x
      ensures x in Listed(sorted, allowed) <==> x in Listed(s, allowed)
    {
      ListedOffered(s, allowed, x);
      ListedOffered(sorted, allowed, x);
    }
    SortDescending(Listed(s, allowed));
    SortDescending(Listed(sorted, allowed));
    DescendingUnique(SortNewest(Listed(s, allowed)), SortNewest(Listed(sorted, allowed)));
  }

  lemma SameCount(server: Server, uids: seq<nat>)
    requires ValidServer(server) && Ascending(uids) && Readable(server, uids)
    ensures |Retained([], HeadersDown(uids, server.recipients))| == |Selected([], BodiesDown(server, uids))|
  {
    hide Retained, HeadersDown;
    HeadersAligned(server, uids);
    SameSelection([], [], HeadersDown(uids, server.recipients), BodiesDown(server, uids));
    assert |UidsOf(Retained([], HeadersDown(uids, server.recipients)))| == |UidsOf(Selected([], BodiesDown(server, uids)))|;
  }

  lemma BodiesNamed(server: Server, uids: seq<nat>, aliases: seq<string>)
    requires Readable(server, uids) && NamesAllowed(server.recipients, aliases)
    ensures forall m :: m in BodiesDown(server, uids) ==> "" !in m.aliases
  {
    forall m | m in BodiesDown(server, uids)
      ensures "" !in m.aliases
    {
      var u :| u in uids && server.read(u) == Some(m);
      if "" in m.aliases {
        Named(server.recipients, aliases, u, "");
        assert false;
      }
    }
  }

  lemma Named(recipients: Recipients, aliases: seq<string>, u: nat, a: string)
    requires NamesAllowed(recipients, aliases) && a in recipients(u)
    ensures a in aliases && a != ""
  {
    var named := recipients(u);
    assert a in named;
  }

  lemma RecipientsAllowed(server: Server, uids: seq<nat>, aliases: seq<string>, cacheMax: int)
    requires Ascending(uids) && Readable(server, uids) && NamesAllowed(server.recipients, aliases)
    ensures forall u, a :: u in uids && server.read(u).Some? && a in server.read(u).value.aliases ==> a in Allowed(aliases)
    ensures forall u :: u in FirstScanUids(server, uids, cacheMax) ==> u in uids
    ensures forall u, a :: u in FirstScanUids(server, uids, cacheMax) && server.read(u).Some? && a in server.read(u).value.aliases ==>
              a in Allowed(aliases)
  {
    hide Retained, HeadersDown;
    forall u, a | u in uids && server.read(u).Some? && a in server.read(u).value.aliases
      ensures a in Allowed(aliases)
    {
      Named(server.recipients, aliases, u, a);
    }
    forall u | u in FirstScanUids(server, uids, cacheMax)
      ensures u in uids
    {
      var headers := HeadersDown(uids, server.recipients);
      HeadersDescending(uids, server.recipients);
      RetainedDescending([], headers);
      var kept := Retained([], headers);
      var i :| 0 <= i < |kept| && kept[i].uid == u;
      assert kept[i] in kept;
    }
  }
}
