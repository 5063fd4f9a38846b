/** The first scan of a mailbox: recipient headers are read backwards in bounded
    batches until every alias has its messages or the cache is full. */
module MailFirstScan {
  import opened Wrappers
  import opened MailMessages
  import opened MailMerge
  import opened MailBatches
  import opened MailMergeLoop

  const BATCH: nat := 200
  const DEFAULT_MAXIMUM: nat := 5000

  // ---- Batch ranges ----

  /** Ranges that go down from a top without a gap, to the bottom of the last. */
  ghost predicate Contiguous(ranges: seq<(nat, nat)>, top: nat) {
    && (ranges != [] ==> ranges[0].1 == top)
    && (forall i :: 0 <= i < |ranges| ==> ranges[i].0 < ranges[i].1 <= ranges[i].0 + BATCH)
    && (forall i :: 0 < i < |ranges| ==> ranges[i].1 == ranges[i - 1].0)
  }

  /** The ranges cover [0, total) exactly once, the highest first. */
  method BatchRanges(total: int) returns (ranges: seq<(nat, nat)>)
    ensures total <= 0 ==> ranges == []
    ensures total > 0 ==> Contiguous(ranges, total) && ranges != [] && ranges[|ranges| - 1].0 == 0
    ensures total > 0 ==> |ranges| == (total + BATCH - 1) / BATCH
  {
    ranges := [];
    if total <= 0 {
      return;
    }
    var end := total;
    while end > 0
      invariant 0 <= end <= total && Contiguous(ranges, total)
      invariant end == if ranges == [] then total else ranges[|ranges| - 1].0
      invariant (end == 0 && |ranges| == (total + BATCH - 1) / BATCH) || end == total - BATCH * |ranges|
      decreases end
    {
      var start := end - BATCH;
      if start < 0 {
        start := 0;
      }
      ranges := ranges + [(start, end)];
      end := start;
    }
  }

  // ---- Headers ----

  /** The allowed recipients that each UID's header names. */
  type Recipients = nat -> seq<string>

  function Header(uid: nat, recipients: Recipients): Message {
    Message(uid, recipients(uid), 0, "", Absent, Absent)
  }

  /** Headers with a recipient of interest, the highest UID first. */
  function HeadersDown(uids: seq<nat>, recipients: Recipients): (h: seq<Message>)
    ensures forall x :: x in h <==> exists u :: u in uids && x == Header(u, recipients) && x.aliases != []
  {
    if uids == [] then []
    else
      var last := Header(uids[|uids| - 1], recipients);
      (if last.aliases == [] then [] else [last]) + HeadersDown(uids[..|uids| - 1], recipients)
  }

  ghost predicate Ascending(uids: seq<nat>) {
    forall i, j :: 0 <= i < j < |uids| ==> uids[i] < uids[j]
  }

  lemma {:induction false} HeadersDescending(uids: seq<nat>, recipients: Recipients)
    requires Ascending(uids)
    ensures Descending(HeadersDown(uids, recipients))
    ensures DistinctUids(HeadersDown(uids, recipients))
  {
    if uids != [] {
      var n := |uids| - 1;
      HeadersDescending(uids[..n], recipients);
      var rest := HeadersDown(uids[..n], recipients);
      forall j | 0 <= j < |rest|
        ensures rest[j].uid < uids[n] && rest[j].date == 0
      {
        assert rest[j] in rest;
      }
    }
  }

  lemma {:induction false} HeadersSplit(low: seq<nat>, high: seq<nat>, recipients: Recipients)
    ensures HeadersDown(low + high, recipients) == HeadersDown(high, recipients) + HeadersDown(low, recipients)
  {
    hide HeadersDown;
    if high == [] {
      assert low + high == low;
      HeadersEmpty(recipients);
    } else {
      var n := |high| - 1;
      HeadersSplit(low, high[..n], recipients);
      assert low + high == low + high[..n] + [high[n]];
      assert high == high[..n] + [high[n]];
      HeadersSnoc(low + high[..n], high[n], recipients);
      HeadersSnoc(high[..n], high[n], recipients);
    }
  }

  lemma HeadersEmpty(recipients: Recipients)
    ensures HeadersDown([], recipients) == []
  {
  }

  lemma HeadersSnoc(uids: seq<nat>, last: nat, recipients: Recipients)
    ensures var header := Header(last, recipients);
            HeadersDown(uids + [last], recipients)
            == (if header.aliases == [] then [] else [header]) + HeadersDown(uids, recipients)
  {
    assert (uids + [last])[..|uids|] == uids;
  }

  /** One header fetch. The server may answer in any order. */
  method FetchHeaders(uids: seq<nat>, recipients: Recipients) returns (headers: seq<Message>)
    requires Ascending(uids)
    ensures DistinctUids(headers)
    ensures forall x :: x in headers <==> exists u :: u in uids && x == Header(u, recipients) && x.aliases != []
  {
    headers := HeadersDown(uids, recipients);
    HeadersDescending(uids, recipients);
  }

  // ---- Selection ----

  function UidsOf(s: seq<Message>): seq<nat> {
    seq(|s|, i requires 0 <= i < |s| => s[i].uid)
  }

  function Limited(uids: seq<nat>, maximum: nat): seq<nat> {
    if |uids| > maximum then uids[..maximum] else uids
  }

  /** One greedy pass: the UIDs, in the order given, whose header names an alias
      that fewer than the maximum of the headers before it name. */
  function Greedy(headers: seq<Message>, maximum: nat): seq<nat> {
    Limited(UidsOf(Retained([], headers)), maximum)
  }

  lemma {:induction false} RetainedConcat(earlier: seq<Message>, a: seq<Message>, b: seq<Message>)
    ensures Retained(earlier, a + b) == Retained(earlier, a) + Retained(earlier + a, b)
    decreases b
  {
    hide Retained, Kept;
    if b == [] {
      assert a + b == a;
    } else {
      var n := |b| - 1;
      RetainedConcat(earlier, a, b[..n]);
      assert a + b == a + b[..n] + [b[n]] && b == b[..n] + [b[n]];
      assert earlier + (a + b[..n]) == earlier + a + b[..n];
      RetainedSnoc(earlier, a + b[..n], b[n]);
      RetainedSnoc(earlier + a, b[..n], b[n]);
    }
  }

  /** The aliases of a header that still count, without changing the counts. */
  method NeededAliases(ghost earlier: seq<Message>, aliases: seq<string>, counts: map<string, nat>) returns (seen: set<string>)
    requires CountsCarriers(counts, earlier)
    ensures forall a :: a in seen <==> a in Kept(earlier, aliases, {})
  {
    hide Carriers, Kept;
    seen := {};
    for k := 0 to |aliases|
      invariant forall a :: a in seen <==> a in aliases[..k] && a != "" && Count(counts, a) < ALIAS_MAXIMUM
    {
      var alias := aliases[k];
      assert aliases[..k + 1] == aliases[..k] + [alias];
      if alias == "" || Count(counts, alias) >= ALIAS_MAXIMUM || alias in seen {
        continue;
      }
      seen := seen + {alias};
    }
    assert aliases[..|aliases|] == aliases;
  }

  /** Counts each alias of a set once, in any order. */
  method CountAll(seen: set<string>, before: map<string, nat>) returns (counts: map<string, nat>)
    ensures forall a :: Count(counts, a) == Count(before, a) + if a in seen then 1 else 0
  {
    counts := before;
    var rest := seen;
    while rest != {}
      invariant rest <= seen
      invariant forall a :: Count(counts, a) == Count(before, a) + if a in seen && a !in rest then 1 else 0
      decreases rest
    {
      var alias :| alias in rest;
      rest := rest - {alias};
      counts := counts[alias := Count(counts, alias) + 1];
    }
  }

  method AppendCandidates(ghost earlier: seq<Message>, before: seq<nat>, countsBefore: map<string, nat>,
                          headers: seq<Message>, maximum: int)
    returns (selected: seq<nat>, counts: map<string, nat>)
    requires CountsCarriers(countsBefore, earlier)
    ensures maximum < 1 || |before| >= maximum ==> selected == before && counts == countsBefore
    ensures |before| < maximum ==> selected == Limited(before + UidsOf(Retained(earlier, SortNewest(headers))), maximum)
    ensures |selected| < maximum ==> CountsCarriers(counts, earlier + SortNewest(headers))
  {
    hide Kept, Carriers, Retained, SortNewest, CountsCarriers, UidsOf, SelectedSoFar;
    selected, counts := before, countsBefore;
    if maximum < 1 || |selected| >= maximum {
      return;
    }
    var sorted := SortNewest(headers);
    NothingSelected(earlier, before, sorted);
    for i := 0 to |sorted|
      invariant |selected| < maximum
      invariant SelectedSoFar(earlier, before, sorted, i, selected)
      invariant CountsCarriers(counts, earlier + sorted[..i])
    {
      var header := sorted[i];
      ghost var past := earlier + sorted[..i];
      var seen := NeededAliases(past, header.aliases, counts);
      NextSelected(earlier, before, sorted, i, selected, seen);
      assert past + [header] == earlier + sorted[..i + 1];
      if seen == {} {
        CountsNext(counts, counts, past, header);
        continue;
      }
      selected := selected + [header.uid];
      ghost var countsNow := counts;
      counts := CountAll(seen, counts);
      CountsNext(countsNow, counts, past, header);
      if |selected| >= maximum {
        FullEarly(before, earlier, sorted, i, selected, maximum);
        return;
      }
    }
    AllSelected(earlier, before, sorted, selected);
  }

  ghost predicate SelectedSoFar(earlier: seq<Message>, before: seq<nat>, sorted: seq<Message>, i: nat, selected: seq<nat>) {
    i <= |sorted| && selected == before + UidsOf(Retained(earlier, sorted[..i]))
  }

  lemma NothingSelected(earlier: seq<Message>, before: seq<nat>, sorted: seq<Message>)
    ensures SelectedSoFar(earlier, before, sorted, 0, before) && earlier + sorted[..0] == earlier
  {
    assert sorted[..0] == [];
  }

  lemma AllSelected(earlier: seq<Message>, before: seq<nat>, sorted: seq<Message>, selected: seq<nat>)
    requires SelectedSoFar(earlier, before, sorted, |sorted|, selected)
    ensures selected == before + UidsOf(Retained(earlier, sorted)) && sorted[..|sorted|] == sorted
  {
    assert sorted[..|sorted|] == sorted;
  }

  lemma NextSelected(earlier: seq<Message>, before: seq<nat>, sorted: seq<Message>, i: nat, selected: seq<nat>, seen: set<string>)
    requires i < |sorted| && SelectedSoFar(earlier, before, sorted, i, selected)
    requires forall a :: a in seen <==> a in Kept(earlier + sorted[..i], sorted[i].aliases, {})
    ensures if seen == {} then SelectedSoFar(earlier, before, sorted, i + 1, selected)
            else SelectedSoFar(earlier, before, sorted, i + 1, selected + [sorted[i].uid])
  {
    hide Kept, Carriers, Retained;
    var kept := KeptOn(earlier + sorted[..i], sorted[i]);
    assert sorted[..i + 1] == sorted[..i] + [sorted[i]];
    RetainedSnoc(earlier, sorted[..i], sorted[i]);
    if kept.aliases != [] {
      assert kept.aliases[0] in seen;
    }
  }

  /** Once the selection is full the rest of the headers does not matter. */
  lemma FullEarly(before: seq<nat>, earlier: seq<Message>, sorted: seq<Message>, i: nat, selected: seq<nat>, maximum: nat)
    requires i < |sorted| && SelectedSoFar(earlier, before, sorted, i + 1, selected) && |selected| == maximum
    ensures selected == Limited(before + UidsOf(Retained(earlier, sorted)), maximum)
  {
    hide Retained;
    assert sorted == sorted[..i + 1] + sorted[i + 1..];
    RetainedConcat(earlier, sorted[..i + 1], sorted[i + 1..]);
  }

  // ---- The scan ----

  method CountsComplete(counts: map<string, nat>, aliases: seq<string>) returns (complete: bool)
    ensures complete <==> forall a :: a in aliases ==> Count(counts, a) >= ALIAS_MAXIMUM
  {
    for k := 0 to |aliases|
      invariant forall a :: a in aliases[..k] ==> Count(counts, a) >= ALIAS_MAXIMUM
    {
      if Count(counts, aliases[k]) < ALIAS_MAXIMUM {
        return false;
      }
      assert aliases[..k + 1] == aliases[..k] + [aliases[k]];
    }
    assert aliases[..|aliases|] == aliases;
    complete := true;
  }

  /** Headers name allowed recipients only. */
  ghost predicate NamesAllowed(recipients: Recipients, aliases: seq<string>) {
    forall uid, a :: a in recipients(uid) ==> a in aliases && a != ""
  }

  function ScanMaximum(cacheMax: int): (m: nat)
    ensures m > 0
  {
    if cacheMax < 1 then DEFAULT_MAXIMUM else cacheMax
  }

  /** Batches, early exit and all, the scan selects what one greedy pass over
      every header from the highest UID down selects. A failed fetch gives
      nothing. `aliases` holds no empty string. */
  method SelectInitial(uids: seq<nat>, recipients: Recipients, aliases: seq<string>, cacheMax: int, fails: nat -> bool)
    returns (selected: Option<seq<nat>>)
    requires Ascending(uids) && NamesAllowed(recipients, aliases)
    ensures selected.Some? ==> selected.value == Greedy(HeadersDown(uids, recipients), ScanMaximum(cacheMax))
    ensures (forall k :: !fails(k)) ==> selected.Some?
  {
    hide HeadersDown, Greedy, CountsCarriers, NamesAllowed;
    var maximum := ScanMaximum(cacheMax);
    if aliases == [] {
      NoHeaders(uids, recipients, maximum);
      return Some([]);
    }
    var counts: map<string, nat> := map[];
    var chosen: seq<nat> := [];
    var ranges := BatchRanges(|uids|);
    ghost var low := |uids|;
    NothingScanned(uids, recipients, maximum);
    for k := 0 to |ranges|
      invariant low <= |uids| && low == if k == 0 then |uids| else ranges[k - 1].0
      invariant chosen == Greedy(HeadersDown(uids[low..], recipients), maximum)
      invariant |chosen| < maximum && CountsCarriers(counts, HeadersDown(uids[low..], recipients))
    {
      var start, end := ranges[k].0, ranges[k].1;
      assert end == low;
      if fails(k) {
        return None;
      }
      var headers := FetchHeaders(uids[start..end], recipients);
      ghost var before := HeadersDown(uids[low..], recipients);
      ghost var countsBefore, chosenBefore := counts, chosen;
      chosen, counts := AppendCandidates(before, chosen, counts, headers, maximum);
      BatchIsNext(uids, recipients, start, end, headers, maximum);
      low := start;
      var complete := CountsComplete(counts, aliases);
      if |chosen| >= maximum || complete {
        if |chosen| >= maximum {
          FullIsFinal(uids, recipients, low, maximum);
        } else {
          CompleteIsFinal(uids, recipients, aliases, low, counts, maximum);
        }
        return Some(chosen);
      }
    }
    assert low == 0 && uids[0..] == uids;
    selected := Some(chosen);
  }

  const NO_ALIASES: seq<string> := []

  lemma NoHeaders(uids: seq<nat>, recipients: Recipients, maximum: nat)
    requires NamesAllowed(recipients, NO_ALIASES)
    ensures Greedy(HeadersDown(uids, recipients), maximum) == []
  {
    hide HeadersDown;
    forall u
      ensures Header(u, recipients).aliases == []
    {
      forall a
        ensures a !in recipients(u)
      {
        assert a in recipients(u) ==> a in NO_ALIASES;
      }
      NoElement(recipients(u));
    }
    NoElement(HeadersDown(uids, recipients));
  }

  lemma NothingScanned(uids: seq<nat>, recipients: Recipients, maximum: nat)
    ensures Greedy(HeadersDown(uids[|uids|..], recipients), maximum) == []
    ensures CountsCarriers(map[], HeadersDown(uids[|uids|..], recipients))
  {
  }

  /** The next batch of headers, whatever order it came in, continues the pass. */
  lemma BatchIsNext(uids: seq<nat>, recipients: Recipients, start: nat, end: nat, headers: seq<Message>, maximum: nat)
    requires Ascending(uids) && start <= end <= |uids| && DistinctUids(headers)
    requires forall x :: x in headers <==> exists u :: u in uids[start..end] && x == Header(u, recipients) && x.aliases != []
    ensures var before := HeadersDown(uids[end..], recipients);
            var after := HeadersDown(uids[start..], recipients);
            && after == before + SortNewest(headers)
            && (|Greedy(before, maximum)| < maximum ==>
                Greedy(after, maximum) == Limited(Greedy(before, maximum) + UidsOf(Retained(before, SortNewest(headers))), maximum))
  {
    hide HeadersDown, Retained, Greedy, UidsOf, Limited, SortNewest;
    var batch := uids[start..end];
    var before := HeadersDown(uids[end..], recipients);
    HeadersDescending(batch, recipients);
    SortDescending(headers);
    DescendingUnique(SortNewest(headers), HeadersDown(batch, recipients));
    HeadersSplit(batch, uids[end..], recipients);
    assert batch + uids[end..] == uids[start..];
    GreedyConcat(before, SortNewest(headers), maximum);
  }

  lemma GreedyConcat(before: seq<Message>, more: seq<Message>, maximum: nat)
    ensures |Greedy(before, maximum)| < maximum ==>
              Greedy(before + more, maximum) == Limited(Greedy(before, maximum) + UidsOf(Retained(before, more)), maximum)
    ensures |Greedy(before, maximum)| >= maximum ==> Greedy(before + more, maximum) == Greedy(before, maximum)
    ensures Retained(before, more) == [] ==> Greedy(before + more, maximum) == Greedy(before, maximum)
  {
    hide Retained;
    assert [] + before == before;
    RetainedConcat([], before, more);
  }

  lemma FullIsFinal(uids: seq<nat>, recipients: Recipients, low: nat, maximum: nat)
    requires low <= |uids| && |Greedy(HeadersDown(uids[low..], recipients), maximum)| >= maximum
    ensures Greedy(HeadersDown(uids[low..], recipients), maximum) == Greedy(HeadersDown(uids, recipients), maximum)
  {
    hide HeadersDown, Greedy;
    HeadersSplit(uids[..low], uids[low..], recipients);
    assert uids[..low] + uids[low..] == uids;
    GreedyConcat(HeadersDown(uids[low..], recipients), HeadersDown(uids[..low], recipients), maximum);
  }

  /** When every alias has its messages, no further header adds anything. */
  lemma CompleteIsFinal(uids: seq<nat>, recipients: Recipients, aliases: seq<string>, low: nat, counts: map<string, nat>, maximum: nat)
    requires low <= |uids| && NamesAllowed(recipients, aliases)
    requires CountsCarriers(counts, HeadersDown(uids[low..], recipients))
    requires forall a :: a in aliases ==> Count(counts, a) >= ALIAS_MAXIMUM
    ensures Greedy(HeadersDown(uids[low..], recipients), maximum) == Greedy(HeadersDown(uids, recipients), maximum)
  {
    hide Carriers, HeadersDown, Greedy, Retained;
    var scanned, rest := HeadersDown(uids[low..], recipients), HeadersDown(uids[..low], recipients);
    forall h, a | h in rest && a in h.aliases
      ensures Carriers(scanned, a) >= ALIAS_MAXIMUM
    {
      var u :| u in uids[..low] && h == Header(u, recipients) && h.aliases != [];
      assert a in recipients(u);
      assert a in aliases && Count(counts, a) >= ALIAS_MAXIMUM;
    }
    NothingRetained(scanned, rest);
    HeadersSplit(uids[..low], uids[low..], recipients);
    assert uids[..low] + uids[low..] == uids;
    GreedyConcat(scanned, rest, maximum);
  }

  lemma {:induction false} NothingRetained(earlier: seq<Message>, s: seq<Message>)
    requires forall m, a :: m in s && a in m.aliases ==> Carriers(earlier, a) >= ALIAS_MAXIMUM
    ensures Retained(earlier, s) == []
    decreases s
  {
    if s != [] {
      hide Carriers, Kept;
      assert s[0] in s;
      NoElement(Kept(earlier, s[0].aliases, {}));
      forall m, a | m in s[1..] && a in m.aliases
        ensures Carriers(earlier + [s[0]], a) >= ALIAS_MAXIMUM
      {
        CarriersSnoc(earlier, s[0], a);
        assert m in s;
      }
      NothingRetained(earlier + [s[0]], s[1..]);
    }
  }

  // ---- What the selection is worth ----

  /** The full messages of the selected UIDs, in a newest-first list. */
  function Selected(earlier: seq<Message>, s: seq<Message>): (r: seq<Message>)
    decreases s
  {
    if s == [] then []
    else
      var rest := Selected(earlier + [s[0]], s[1..]);
      if KeptOn(earlier, s[0]).aliases == [] then rest else [s[0]] + rest
  }

  /** Retaining among the selected messages only keeps what retaining among all of
      them keeps. */
  lemma {:induction false} SelectionSuffices(earlier: seq<Message>, second: seq<Message>, s: seq<Message>)
    requires SameBelowMaximum(second, earlier)
    requires forall m :: m in s ==> "" !in m.aliases
    ensures Retained(second, Selected(earlier, s)) == Retained(earlier, s)
    decreases s
  {
    if s != [] {
      var m := s[0];
      var rest := Selected(earlier + [m], s[1..]);
      KeptSame(second, earlier, m.aliases, {});
      assert CarriesNoMore(earlier, earlier);
      StepCounts(earlier, second, earlier, m, KeptOn(earlier, m), {});
      if KeptOn(earlier, m).aliases == [] {
        SelectionSuffices(earlier + [m], second, s[1..]);
      } else {
        SelectionSuffices(earlier + [m], second + [m], s[1..]);
        assert ([m] + rest)[1..] == rest;
      }
    }
  }

  /** Every alias of the selection has its newest headers, up to the maximum;
      a header outside them is not selected. */
  lemma SelectedExactly(headers: seq<Message>, i: nat)
    requires i < |headers| && DistinctUids(headers)
    ensures headers[i].uid in UidsOf(Retained([], headers)) <==>
            exists a :: a in headers[i].aliases && a != "" && Carriers(headers[..i], a) < ALIAS_MAXIMUM
  {
    hide Kept, Carriers;
    var h := headers[i];
    var kept := KeptOn(headers[..i], h);
    RetainedExactly(headers, kept);
    if kept.aliases != [] {
      assert StaysAs(headers, i, kept);
      var retained := Retained([], headers);
      var k :| 0 <= k < |retained| && retained[k] == kept;
      assert UidsOf(retained)[k] == h.uid;
      assert kept.aliases[0] in kept.aliases;
    }
    if h.uid in UidsOf(Retained([], headers)) {
      var retained := Retained([], headers);
      var k :| 0 <= k < |retained| && UidsOf(retained)[k] == h.uid;
      RetainedExactly(headers, retained[k]);
      var j :| 0 <= j < |headers| && StaysAs(headers, j, retained[k]);
      assert headers[j].uid == h.uid;
      assert j == i;
      assert kept.aliases[0] in kept.aliases;
    }
  }
}
