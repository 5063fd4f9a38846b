/** Which aliases are known to be registered with an application, from the mails
    that they receive. */
module ApplicationEvidence {
  import opened Wrappers
  import opened MailMessages
  import opened MailKeys
  import opened MailboxSync

  datatype Kind = Registration | Login | Definitive
  datatype Status = Observed | Confirmed

  /** What one message says about one alias. */
  datatype Evidence = Evidence(kind: Kind, alias: string, uid: nat, at: real)

  /** `detected` and `confirmed` are times with the UID of the message. */
  datatype Row = Row(status: Status, detected: Option<(real, nat)>, confirmed: Option<(real, nat)>)

  /** How a message is classified by sender and subject. */
  type Classifier = Message -> Option<Kind>

  /** Dates above 1e12 are milliseconds; a missing date is the present. */
  function EvidenceTime(date: int, now: real): real {
    if date <= 0 then now else if date > 1_000_000_000_000 then date as real / 1000.0 else date as real
  }

  predicate Follows(e: Evidence, detected: Option<(real, nat)>) {
    detected.Some? && (e.at > detected.value.0 || (e.at == detected.value.0 && e.uid > detected.value.1))
  }

  // ---- One alias ----

  function Next(row: Option<Row>, e: Evidence): Option<Row> {
    match row
    case None =>
      (match e.kind
       case Registration => Some(Row(Observed, Some((e.at, e.uid)), None))
       case Login => None
       case Definitive => Some(Row(Confirmed, None, Some((e.at, e.uid)))))
    case Some(r) =>
      if r.status == Confirmed then row
      else
        match e.kind
        case Registration =>
          if r.detected.Some? && e.at >= r.detected.value.0 then row else Some(r.(detected := Some((e.at, e.uid))))
        case Login => if Follows(e, r.detected) then Some(r.(status := Confirmed, confirmed := Some((e.at, e.uid)))) else row
        case Definitive => Some(r.(status := Confirmed, confirmed := Some((e.at, e.uid))))
  }

  function After(row: Option<Row>, evidence: seq<Evidence>): Option<Row> {
    if evidence == [] then row else Next(After(row, evidence[..|evidence| - 1]), evidence[|evidence| - 1])
  }

  lemma {:induction false} AfterConcat(row: Option<Row>, a: seq<Evidence>, b: seq<Evidence>)
    ensures After(row, a + b) == After(After(row, a), b)
  {
    if b == [] {
      assert a + b == a;
    } else {
      AfterConcat(row, a, b[..|b| - 1]);
      assert (a + b)[..|a + b| - 1] == a + b[..|b| - 1];
    }
  }

  /** In any order of evidence: a confirmation is final, a row never disappears,
      and while an alias is only observed its detection never gets later. */
  lemma {:induction false} NeverBack(row: Option<Row>, evidence: seq<Evidence>)
    requires row.Some?
    ensures After(row, evidence).Some?
    ensures row.value.status == Confirmed ==> After(row, evidence) == row
    ensures row.value.detected.Some? ==>
              After(row, evidence).value.detected.Some?
              && After(row, evidence).value.detected.value.0 <= row.value.detected.value.0
  {
    if evidence != [] {
      NeverBack(row, evidence[..|evidence| - 1]);
    }
  }

  // ---- Evidence in order ----

  predicate Earlier(a: Evidence, b: Evidence) {
    a.at < b.at || (a.at == b.at && a.uid < b.uid)
  }

  ghost predicate InOrder(evidence: seq<Evidence>) {
    forall i, j :: 0 <= i < j < |evidence| ==> Earlier(evidence[i], evidence[j])
  }

  ghost predicate Confirming(evidence: seq<Evidence>) {
    || (exists e :: e in evidence && e.kind == Definitive)
    || exists r, l :: r in evidence && l in evidence && r.kind == Registration && l.kind == Login && Earlier(r, l)
  }

  ghost predicate HasRegistration(evidence: seq<Evidence>) {
    exists e :: e in evidence && e.kind == Registration
  }

  ghost predicate IsFirstRegistration(evidence: seq<Evidence>, detected: Option<(real, nat)>) {
    && detected.Some?
    && (exists e :: e in evidence && e.kind == Registration && detected.value == (e.at, e.uid))
    && forall e :: e in evidence && e.kind == Registration ==> (e.at, e.uid) == detected.value || Follows(e, detected)
  }

  /** What evidence in order leaves, starting from nothing. */
  lemma {:induction false} OrderedOutcome(evidence: seq<Evidence>)
    requires InOrder(evidence)
    ensures IsOutcome(evidence, After(None, evidence))
  {
    hide IsOutcome;
    if evidence == [] {
      NoOutcome();
    } else {
      var n := |evidence| - 1;
      var front, last := evidence[..n], evidence[n];
      OrderedOutcome(front);
      assert evidence == front + [last];
      assert forall e :: e in front ==> Earlier(e, last);
      NextOutcome(front, last, After(None, front));
    }
  }

  ghost predicate IsOutcome(evidence: seq<Evidence>, row: Option<Row>) {
    && (row.Some? && row.value.status == Confirmed <==> Confirming(evidence))
    && (row.Some? && row.value.status == Observed <==> HasRegistration(evidence) && !Confirming(evidence))
    && (row.Some? && row.value.status == Observed ==> row.value.confirmed.None? && IsFirstRegistration(evidence, row.value.detected))
    && (row.Some? && row.value.status == Confirmed ==> exists n :: ConfirmedAt(evidence, n, row.value))
  }

  /** Confirmed by evidence n, the first that confirms; detected as before it. */
  ghost predicate ConfirmedAt(evidence: seq<Evidence>, n: nat, row: Row) {
    && n < |evidence| && !Confirming(evidence[..n]) && Confirming(evidence[..n + 1])
    && row.confirmed == Some((evidence[n].at, evidence[n].uid))
    && if HasRegistration(evidence[..n]) then IsFirstRegistration(evidence[..n], row.detected) else row.detected.None?
  }

  lemma NoOutcome()
    ensures IsOutcome([], None)
  {
  }

  lemma NextOutcome(front: seq<Evidence>, last: Evidence, row: Option<Row>)
    requires IsOutcome(front, row) && forall e :: e in front ==> Earlier(e, last)
    ensures IsOutcome(front + [last], Next(row, last))
  {
    hide Confirming, HasRegistration, IsFirstRegistration;
    OneMore(front, last);
    var all := front + [last];
    assert all[..|front|] == front && all[..|front| + 1] == all && all[|front|] == last;
    if row.Some? && row.value.status == Observed {
      StillFirst(front, last, row.value.detected);
    }
    if row.Some? && row.value.status == Confirmed {
      var n: nat :| ConfirmedAt(front, n, row.value);
      assert all[..n] == front[..n] && all[..n + 1] == front[..n + 1];
      assert ConfirmedAt(all, n, row.value);
    } else if Confirming(all) {
      assert ConfirmedAt(all, |front|, Next(row, last).value);
    }
    if row.None? && last.kind == Registration {
      NowFirst(front, last);
    }
  }

  /** Later evidence follows the first registration and does not replace it. */
  lemma StillFirst(front: seq<Evidence>, last: Evidence, detected: Option<(real, nat)>)
    requires IsFirstRegistration(front, detected) && forall e :: e in front ==> Earlier(e, last)
    ensures IsFirstRegistration(front + [last], detected) && Follows(last, detected) && last.at >= detected.value.0
  {
    var first :| first in front && first.kind == Registration && detected.value == (first.at, first.uid);
    assert first in front + [last];
    assert forall e :: e in front + [last] <==> e in front || e == last;
  }

  lemma NowFirst(front: seq<Evidence>, last: Evidence)
    requires last.kind == Registration && !HasRegistration(front)
    ensures IsFirstRegistration(front + [last], Some((last.at, last.uid)))
  {
    assert forall e :: e in front + [last] <==> e in front || e == last;
  }

  lemma OneMore(front: seq<Evidence>, last: Evidence)
    requires forall e :: e in front ==> Earlier(e, last)
    ensures Confirming(front + [last]) <==>
            Confirming(front) || last.kind == Definitive || (last.kind == Login && HasRegistration(front))
    ensures HasRegistration(front + [last]) <==> HasRegistration(front) || last.kind == Registration
  {
    var all := front + [last];
    assert forall e :: e in all <==> e in front || e == last;
  }

  /** Seeing the same evidence again changes nothing. */
  lemma ReplayChangesNothing(evidence: seq<Evidence>)
    requires InOrder(evidence)
    ensures After(After(None, evidence), evidence) == After(None, evidence)
  {
    OrderedOutcome(evidence);
    Unmoved(After(None, evidence), evidence, evidence);
  }

  lemma {:induction false} Unmoved(row: Option<Row>, all: seq<Evidence>, evidence: seq<Evidence>)
    requires forall e :: e in evidence ==> e in all
    requires match row
             case None => !HasRegistration(all) && !Confirming(all)
             case Some(r) => r.status == Confirmed || (IsFirstRegistration(all, r.detected) && !Confirming(all))
    ensures After(row, evidence) == row
  {
    if evidence != [] {
      var last := evidence[|evidence| - 1];
      Unmoved(row, all, evidence[..|evidence| - 1]);
      assert last in all;
      if row.Some? && row.value.status == Observed && last.kind == Login {
        var r :| r in all && r.kind == Registration && row.value.detected.value == (r.at, r.uid);
        assert !Earlier(r, last);
      }
    }
  }

  /** A pass that broke off and is repeated from the start ends where an unbroken
      one does. */
  lemma RetryAfterFailure(evidence: seq<Evidence>, done: nat)
    requires InOrder(evidence) && done <= |evidence|
    ensures After(After(None, evidence[..done]), evidence) == After(None, evidence)
  {
    var first, rest := evidence[..done], evidence[done..];
    assert evidence == first + rest;
    ReplayChangesNothing(first);
    AfterConcat(After(None, first), first, rest);
    AfterConcat(None, first, rest);
  }

  // ---- All aliases ----

  function RowOf(rows: map<string, Row>, alias: string): Option<Row> {
    if alias in rows then Some(rows[alias]) else None
  }

  function Saved(rows: map<string, Row>, alias: string, row: Option<Row>): map<string, Row> {
    match row
    case None => rows
    case Some(r) => rows[alias := r]
  }

  function AllAfter(rows: map<string, Row>, evidence: seq<Evidence>): map<string, Row> {
    if evidence == [] then rows
    else
      var before, e := AllAfter(rows, evidence[..|evidence| - 1]), evidence[|evidence| - 1];
      Saved(before, e.alias, Next(RowOf(before, e.alias), e))
  }

  function About(evidence: seq<Evidence>, alias: string): (r: seq<Evidence>)
    ensures forall e :: e in r <==> e in evidence && e.alias == alias
  {
    if evidence == [] then []
    else About(evidence[..|evidence| - 1], alias)
         + if evidence[|evidence| - 1].alias == alias then [evidence[|evidence| - 1]] else []
  }

  lemma AboutSnoc(evidence: seq<Evidence>, e: Evidence, alias: string)
    ensures About(evidence + [e], alias) == About(evidence, alias) + if e.alias == alias then [e] else []
  {
    assert (evidence + [e])[..|evidence|] == evidence;
  }

  lemma AfterSnoc(row: Option<Row>, evidence: seq<Evidence>, e: Evidence)
    ensures After(row, evidence + [e]) == Next(After(row, evidence), e)
  {
    assert (evidence + [e])[..|evidence|] == evidence;
  }

  /** Aliases do not influence each other. */
  lemma {:induction false} RowIsOwn(rows: map<string, Row>, evidence: seq<Evidence>, alias: string)
    ensures RowOf(AllAfter(rows, evidence), alias) == After(RowOf(rows, alias), About(evidence, alias))
  {
    hide Next, About, After;
    if evidence != [] {
      var n := |evidence| - 1;
      var front, e := evidence[..n], evidence[n];
      RowIsOwn(rows, front, alias);
      AboutSnoc(front, e, alias);
      assert evidence == front + [e];
      if e.alias == alias {
        AfterSnoc(RowOf(rows, alias), About(front, alias), e);
        NextStays(After(RowOf(rows, alias), About(front, alias)), e);
      } else {
        assert About(front, alias) + [] == About(front, alias);
      }
    } else {
      NothingAfter(RowOf(rows, alias), alias);
    }
  }

  lemma NothingAfter(row: Option<Row>, alias: string)
    ensures About([], alias) == [] && After(row, []) == row
  {
  }

  lemma NextStays(row: Option<Row>, e: Evidence)
    ensures row.Some? ==> Next(row, e).Some?
  {
  }

  // ---- Batches of messages ----

  function EvidenceOf(m: Message, aliases: seq<string>, kind: Kind, now: real): (r: seq<Evidence>)
    ensures |r| == |aliases|
    ensures forall i :: 0 <= i < |r| ==> r[i] == Evidence(kind, aliases[i], m.uid, EvidenceTime(m.date, now))
  {
    seq(|aliases|, i requires 0 <= i < |aliases| => Evidence(kind, aliases[i], m.uid, EvidenceTime(m.date, now)))
  }

  function AllEvidence(messages: seq<Message>, classify: Classifier, now: real): seq<Evidence> {
    if messages == [] then []
    else
      var m := messages[|messages| - 1];
      AllEvidence(messages[..|messages| - 1], classify, now)
      + if classify(m).Some? then EvidenceOf(m, NormalizeAliases(m.aliases), classify(m).value, now) else []
  }

  /** The reverse order of the cache: oldest first. */
  function SortOldest(messages: seq<Message>): (r: seq<Message>)
    ensures |r| == |messages| && forall x :: x in r <==> x in messages
  {
    var newest := SortNewest(messages);
    assert forall i :: 0 <= i < |newest| ==> newest[i] in newest;
    var r := seq(|newest|, i requires 0 <= i < |newest| => newest[|newest| - 1 - i]);
    assert forall i :: 0 <= i < |newest| ==> newest[i] == r[|newest| - 1 - i];
    r
  }

  ghost predicate Says(messages: seq<Message>, classify: Classifier, alias: string, kind: Kind, m: Message) {
    m in messages && classify(m) == Some(kind) && alias in m.aliases && alias != ""
  }

  /** What a batch says about an alias: a definitive message, or a login after a
      registration by date and then UID. */
  ghost predicate BatchConfirms(messages: seq<Message>, classify: Classifier, alias: string) {
    || (exists m :: Says(messages, classify, alias, Definitive, m))
    || exists r, l :: Says(messages, classify, alias, Registration, r) && Says(messages, classify, alias, Login, l) && Newer(l, r)
  }

  ghost predicate BatchRegisters(messages: seq<Message>, classify: Classifier, alias: string) {
    exists m :: Says(messages, classify, alias, Registration, m)
  }

  ghost predicate PlainDates(messages: seq<Message>) {
    forall m :: m in messages ==> 0 < m.date <= 1_000_000_000_000
  }

  ghost predicate OldestFirst(messages: seq<Message>) {
    forall i, j :: 0 <= i < j < |messages| ==> Newer(messages[j], messages[i])
  }

  lemma {:induction false} EvidenceMembers(messages: seq<Message>, classify: Classifier, now: real, e: Evidence)
    ensures e in AllEvidence(messages, classify, now) <==>
            exists m :: Says(messages, classify, e.alias, e.kind, m) && e.uid == m.uid && e.at == EvidenceTime(m.date, now)
  {
    hide NormalizeAliases, EvidenceTime;
    if messages != [] {
      var n := |messages| - 1;
      var m := messages[n];
      EvidenceMembers(messages[..n], classify, now, e);
      assert messages == messages[..n] + [m];
      if classify(m).Some? {
        var own := EvidenceOf(m, NormalizeAliases(m.aliases), classify(m).value, now);
        assert e in own <==> Says([m], classify, e.alias, e.kind, m) && e.uid == m.uid && e.at == EvidenceTime(m.date, now) by {
          if Says([m], classify, e.alias, e.kind, m) && e.uid == m.uid && e.at == EvidenceTime(m.date, now) {
            var i :| 0 <= i < |NormalizeAliases(m.aliases)| && NormalizeAliases(m.aliases)[i] == e.alias;
            assert own[i] == e;
          }
        }
      }
      forall x
        ensures Says(messages, classify, e.alias, e.kind, x) <==>
                Says(messages[..n], classify, e.alias, e.kind, x) || (x == m && Says([m], classify, e.alias, e.kind, m))
      {
      }
    }
  }

  lemma {:induction false} EvidenceInOrder(messages: seq<Message>, classify: Classifier, now: real, alias: string)
    requires OldestFirst(messages) && PlainDates(messages)
    ensures InOrder(About(AllEvidence(messages, classify, now), alias))
  {
    hide NormalizeAliases, EvidenceTime, About, InOrder;
    if messages != [] {
      var n := |messages| - 1;
      var m := messages[n];
      var front := AllEvidence(messages[..n], classify, now);
      EvidenceInOrder(messages[..n], classify, now, alias);
      if classify(m).Some? {
        var own := EvidenceOf(m, NormalizeAliases(m.aliases), classify(m).value, now);
        AboutConcat(front, own, alias);
        AtMostOne(own, NormalizeAliases(m.aliases), alias);
        forall e | e in About(front, alias)
          ensures forall x :: x in own ==> Earlier(e, x)
        {
          EvidenceIsEarlier(messages, classify, now, e, own);
        }
        OrderedConcat(About(front, alias), About(own, alias));
      } else {
        assert front + [] == front;
      }
    } else {
      NothingInOrder(alias);
    }
  }

  lemma NothingInOrder(alias: string)
    ensures InOrder(About([], alias))
  {
  }

  lemma EvidenceIsEarlier(messages: seq<Message>, classify: Classifier, now: real, e: Evidence, own: seq<Evidence>)
    requires messages != [] && OldestFirst(messages) && PlainDates(messages)
    requires e in AllEvidence(messages[..|messages| - 1], classify, now)
    requires var m := messages[|messages| - 1];
             forall x :: x in own ==> x.uid == m.uid && x.at == EvidenceTime(m.date, now)
    ensures forall x :: x in own ==> Earlier(e, x)
  {
    hide AllEvidence, NormalizeAliases;
    var n := |messages| - 1;
    EvidenceMembers(messages[..n], classify, now, e);
    var k :| Says(messages[..n], classify, e.alias, e.kind, k) && e.uid == k.uid && e.at == EvidenceTime(k.date, now);
    var i :| 0 <= i < n && messages[i] == k;
    assert Newer(messages[n], messages[i]);
    assert messages[n] in messages && messages[i] in messages;
  }

  lemma OrderedConcat(a: seq<Evidence>, b: seq<Evidence>)
    requires InOrder(a) && |b| <= 1 && forall e :: e in a ==> forall x :: x in b ==> Earlier(e, x)
    ensures InOrder(a + b)
  {
    forall i, j | 0 <= i < j < |a + b|
      ensures Earlier((a + b)[i], (a + b)[j])
    {
      if j >= |a| {
        assert (a + b)[i] == a[i] && a[i] in a && b[0] in b;
      }
    }
  }

  lemma {:induction false} AboutConcat(a: seq<Evidence>, b: seq<Evidence>, alias: string)
    ensures About(a + b, alias) == About(a, alias) + About(b, alias)
  {
    hide About;
    if b == [] {
      assert a + b == a;
      NothingAfter(None, alias);
    } else {
      var n := |b| - 1;
      AboutConcat(a, b[..n], alias);
      AboutSnoc(b[..n], b[n], alias);
      AboutSnoc(a + b[..n], b[n], alias);
      assert b == b[..n] + [b[n]] && a + b == a + b[..n] + [b[n]];
    }
  }

  lemma {:induction false} AtMostOne(evidence: seq<Evidence>, aliases: seq<string>, alias: string)
    requires NoRepeats(aliases) && |evidence| == |aliases|
    requires forall i :: 0 <= i < |evidence| ==> evidence[i].alias == aliases[i]
    ensures |About(evidence, alias)| <= 1
    ensures alias !in aliases ==> About(evidence, alias) == []
  {
    if evidence != [] {
      var n := |evidence| - 1;
      AtMostOne(evidence[..n], aliases[..n], alias);
      if aliases[n] == alias {
        forall i | 0 <= i < n
          ensures aliases[..n][i] != alias
        {
        }
      }
    }
  }

  lemma OldestOrder(messages: seq<Message>)
    requires DistinctUids(messages)
    ensures OldestFirst(SortOldest(messages))
  {
    SortDescending(messages);
  }

  /** A batch in a fresh store leaves an alias confirmed exactly when it confirms
      it, and observed exactly when it only registers it. */
  lemma BatchOutcome(messages: seq<Message>, classify: Classifier, now: real, alias: string)
    requires DistinctUids(messages) && PlainDates(messages)
    ensures var evidence := AllEvidence(SortOldest(messages), classify, now);
            var row := RowOf(AllAfter(map[], evidence), alias);
            && (row.Some? && row.value.status == Confirmed <==> BatchConfirms(messages, classify, alias))
            && (row.Some? && row.value.status == Observed <==>
                BatchRegisters(messages, classify, alias) && !BatchConfirms(messages, classify, alias))
            && IsOutcome(About(evidence, alias), row)
  {
    hide SortOldest, AllEvidence, After, AllAfter;
    var sorted := SortOldest(messages);
    var evidence := AllEvidence(sorted, classify, now);
    OldestOrder(messages);
    EvidenceInOrder(sorted, classify, now, alias);
    RowIsOwn(map[], evidence, alias);
    OrderedOutcome(About(evidence, alias));
    BatchMeaning(messages, classify, now, alias);
  }

  lemma BatchMeaning(messages: seq<Message>, classify: Classifier, now: real, alias: string)
    requires PlainDates(messages)
    ensures var about := About(AllEvidence(SortOldest(messages), classify, now), alias);
            && (Confirming(about) <==> BatchConfirms(messages, classify, alias))
            && (HasRegistration(about) <==> BatchRegisters(messages, classify, alias))
  {
    hide SortOldest, AllEvidence;
    var sorted := SortOldest(messages);
    var about := About(AllEvidence(sorted, classify, now), alias);
    forall e
      ensures e in about ==> e.alias == alias && exists m :: SaysSo(messages, classify, e, m)
    {
      EvidenceMembers(sorted, classify, now, e);
      if e in about {
        var m :| Says(sorted, classify, e.alias, e.kind, m) && e.uid == m.uid && e.at == EvidenceTime(m.date, now);
        assert SaysSo(messages, classify, e, m);
      }
    }
    forall m, kind | Says(messages, classify, alias, kind, m)
      ensures Evidence(kind, alias, m.uid, m.date as real) in about
    {
      EvidenceMembers(sorted, classify, now, Evidence(kind, alias, m.uid, m.date as real));
      assert Says(sorted, classify, alias, kind, m);
    }
    MeaningForward(messages, classify, alias, about);
    MeaningBackward(messages, classify, alias, about);
  }

  /** Looking at a batch again changes nothing, and looking again after a pass that
      broke off anywhere completes it. */
  lemma BatchRetry(messages: seq<Message>, classify: Classifier, now: real, done: nat)
    requires DistinctUids(messages) && PlainDates(messages)
    requires done <= |AllEvidence(SortOldest(messages), classify, now)|
    ensures var evidence := AllEvidence(SortOldest(messages), classify, now);
            AllAfter(AllAfter(map[], evidence[..done]), evidence) == AllAfter(map[], evidence)
  {
    hide SortOldest, AllEvidence, After, AllAfter;
    var evidence := AllEvidence(SortOldest(messages), classify, now);
    var partly := AllAfter(map[], evidence[..done]);
    OldestOrder(messages);
    forall alias
      ensures RowOf(AllAfter(partly, evidence), alias) == RowOf(AllAfter(map[], evidence), alias)
    {
      EvidenceInOrder(SortOldest(messages), classify, now, alias);
      RowIsOwn(map[], evidence, alias);
      RowIsOwn(map[], evidence[..done], alias);
      RowIsOwn(partly, evidence, alias);
      AboutConcat(evidence[..done], evidence[done..], alias);
      assert evidence == evidence[..done] + evidence[done..];
      var about, first := About(evidence, alias), About(evidence[..done], alias);
      assert about[..|first|] == first;
      RetryAfterFailure(about, |first|);
    }
    SameRows(AllAfter(partly, evidence), AllAfter(map[], evidence));
  }

  lemma SameRows(a: map<string, Row>, b: map<string, Row>)
    requires forall alias :: RowOf(a, alias) == RowOf(b, alias)
    ensures a == b
  {
    forall alias
      ensures alias in a <==> alias in b
      ensures alias in a ==> a[alias] == b[alias]
    {
      assert RowOf(a, alias) == RowOf(b, alias);
    }
  }

  ghost predicate SaysSo(messages: seq<Message>, classify: Classifier, e: Evidence, m: Message) {
    Says(messages, classify, e.alias, e.kind, m) && e.uid == m.uid && e.at == m.date as real
  }

  lemma MeaningForward(messages: seq<Message>, classify: Classifier, alias: string, about: seq<Evidence>)
    requires forall e :: e in about ==> e.alias == alias && exists m :: SaysSo(messages, classify, e, m)
    ensures Confirming(about) ==> BatchConfirms(messages, classify, alias)
    ensures HasRegistration(about) ==> BatchRegisters(messages, classify, alias)
  {
    if exists r, l :: r in about && l in about && r.kind == Registration && l.kind == Login && Earlier(r, l) {
      var r, l :| r in about && l in about && r.kind == Registration && l.kind == Login && Earlier(r, l);
      var rm :| SaysSo(messages, classify, r, rm);
      var lm :| SaysSo(messages, classify, l, lm);
      assert Newer(lm, rm);
    }
  }

  lemma MeaningBackward(messages: seq<Message>, classify: Classifier, alias: string, about: seq<Evidence>)
    requires forall m, kind :: Says(messages, classify, alias, kind, m) ==> Evidence(kind, alias, m.uid, m.date as real) in about
    ensures BatchConfirms(messages, classify, alias) ==> Confirming(about)
    ensures BatchRegisters(messages, classify, alias) ==> HasRegistration(about)
  {
    if exists m :: Says(messages, classify, alias, Definitive, m) {
      var m :| Says(messages, classify, alias, Definitive, m);
      assert Evidence(Definitive, alias, m.uid, m.date as real) in about;
    } else if BatchConfirms(messages, classify, alias) {
      var r, l :| Says(messages, classify, alias, Registration, r) && Says(messages, classify, alias, Login, l) && Newer(l, r);
      assert Earlier(Evidence(Registration, alias, r.uid, r.date as real), Evidence(Login, alias, l.uid, l.date as real));
    }
  }

  // ---- The store ----

  class ApplicationStore {
    var rows: map<string, Row>

    constructor ()
      ensures rows == map[]
    {
      rows := map[];
    }

    method ObserveEvidence(e: Evidence)
      modifies this
      ensures rows == AllAfter(old(rows), [e])
    {
      assert [e][..0] == [];
      if e.alias !in rows {
        match e.kind {
          case Registration => rows := rows[e.alias := Row(Observed, Some((e.at, e.uid)), None)];
          case Definitive => rows := rows[e.alias := Row(Confirmed, None, Some((e.at, e.uid)))];
          case Login =>
        }
        return;
      }
      var state := rows[e.alias];
      if state.status == Confirmed {
        assert rows[e.alias := state] == rows;
        return;
      }
      match e.kind {
        case Registration =>
          if state.detected.Some? && e.at >= state.detected.value.0 {
            assert rows[e.alias := state] == rows;
            return;
          }
          state := state.(detected := Some((e.at, e.uid)));
        case Login =>
          if !Follows(e, state.detected) {
            assert rows[e.alias := state] == rows;
            return;
          }
          state := state.(status := Confirmed, confirmed := Some((e.at, e.uid)));
        case Definitive =>
          state := state.(status := Confirmed, confirmed := Some((e.at, e.uid)));
      }
      rows := rows[e.alias := state];
    }

    /** Looks at the messages of a batch, oldest first; a failing write breaks it off. */
    method ObserveMessages(messages: seq<Message>, classify: Classifier, now: real, fails: nat -> bool)
      returns (done: nat, ok: bool)
      modifies this
      ensures var evidence := AllEvidence(SortOldest(messages), classify, now);
              && done <= |evidence| && (ok ==> done == |evidence|)
              && rows == AllAfter(old(rows), evidence[..done])
      ensures (forall n :: !fails(n)) ==> ok
    {
      hide SortOldest, AllEvidence, AllAfter, EvidenceOf, NormalizeAliases;
      var sorted := SortOldest(messages);
      done := 0;
      NothingSeen(old(rows), sorted, classify, now);
      for i := 0 to |sorted|
        invariant done == |AllEvidence(sorted[..i], classify, now)|
        invariant rows == AllAfter(old(rows), AllEvidence(sorted[..i], classify, now))
      {
        OneMoreMessage(sorted, classify, now, i);
        EvidencePrefix(sorted, classify, now, i + 1);
        ghost var before := AllEvidence(sorted[..i], classify, now);
        var kind := classify(sorted[i]);
        if kind.None? {
          assert before + [] == before;
          continue;
        }
        var count;
        count, ok := ObserveAliases(sorted[i], NormalizeAliases(sorted[i].aliases), kind.value, now, done, fails);
        ghost var own := EvidenceOf(sorted[i], NormalizeAliases(sorted[i].aliases), kind.value, now);
        AllAfterConcat(old(rows), before, own[..count]);
        assert before + own[..count] == (before + own)[..done + count];
        done := done + count;
        if !ok {
          assert AllEvidence(sorted, classify, now)[..done] == (before + own)[..done];
          return;
        }
        assert (before + own)[..done] == before + own;
      }
      assert sorted[..|sorted|] == sorted;
      assert AllEvidence(sorted, classify, now)[..done] == AllEvidence(sorted, classify, now);
      ok := true;
    }

    /** The evidence of one message, an alias at a time. */
    method ObserveAliases(m: Message, aliases: seq<string>, kind: Kind, now: real, offset: nat, fails: nat -> bool)
      returns (count: nat, ok: bool)
      modifies this
      ensures var own := EvidenceOf(m, aliases, kind, now);
              && count <= |own| && (ok ==> count == |own|) && rows == AllAfter(old(rows), own[..count])
      ensures (forall n :: !fails(n)) ==> ok
    {
      hide AllAfter, EvidenceTime;
      ghost var own := EvidenceOf(m, aliases, kind, now);
      NothingLearnt(rows);
      for j := 0 to |aliases|
        invariant rows == AllAfter(old(rows), own[..j])
      {
        if fails(offset + j) {
          return j, false;
        }
        ObserveEvidence(Evidence(kind, aliases[j], m.uid, EvidenceTime(m.date, now)));
        NextEvidence(old(rows), own, j);
      }
      return |aliases|, true;
    }
  }

  lemma NothingLearnt(rows: map<string, Row>)
    ensures AllAfter(rows, []) == rows
  {
  }

  lemma NothingSeen(rows: map<string, Row>, sorted: seq<Message>, classify: Classifier, now: real)
    ensures AllEvidence(sorted[..0], classify, now) == [] && AllAfter(rows, []) == rows
  {
  }

  lemma OneMoreMessage(sorted: seq<Message>, classify: Classifier, now: real, i: nat)
    requires i < |sorted|
    ensures var m := sorted[i];
            AllEvidence(sorted[..i + 1], classify, now)
            == AllEvidence(sorted[..i], classify, now)
               + if classify(m).Some? then EvidenceOf(m, NormalizeAliases(m.aliases), classify(m).value, now) else []
  {
    assert sorted[..i + 1][..i] == sorted[..i];
  }

  lemma {:induction false} AllAfterConcat(rows: map<string, Row>, a: seq<Evidence>, b: seq<Evidence>)
    ensures AllAfter(rows, a + b) == AllAfter(AllAfter(rows, a), b)
  {
    hide Next;
    if b == [] {
      assert a + b == a;
    } else {
      AllAfterConcat(rows, a, b[..|b| - 1]);
      assert (a + b)[..|a + b| - 1] == a + b[..|b| - 1];
    }
  }

  lemma NextEvidence(rows: map<string, Row>, evidence: seq<Evidence>, n: nat)
    requires n < |evidence|
    ensures AllAfter(rows, evidence[..n + 1]) == AllAfter(AllAfter(rows, evidence[..n]), [evidence[n]])
  {
    assert evidence[..n + 1][..n] == evidence[..n];
    assert [evidence[n]][..0] == [];
  }

  lemma {:induction false} EvidencePrefix(messages: seq<Message>, classify: Classifier, now: real, n: nat)
    requires n <= |messages|
    ensures AllEvidence(messages[..n], classify, now) <= AllEvidence(messages, classify, now)
    decreases |messages| - n
  {
    if n < |messages| {
      EvidencePrefix(messages, classify, now, n + 1);
      assert messages[..n + 1][..n] == messages[..n];
    } else {
      assert messages[..n] == messages;
    }
  }
}
