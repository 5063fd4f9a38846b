/** When the worker refreshes an Apple Account session in the background. */
module KeepAlive {
  import opened Wrappers
  import opened CookieJar
  import opened AppleUpstream
  import opened AppleAccount
  import opened AppleSession

  const INTERVAL := 180 * SECOND
  const JITTER_PERCENT := 15
  const SPREAD := INTERVAL * JITTER_PERCENT / 100
  const IDLE_POLL := 30 * SECOND
  const MINIMUM_WAKE := SECOND / 10

  /** Later than a time that may be absent. */
  predicate After(a: Option<int>, b: Option<int>) {
    a.Some? && (b.None? || a.value > b.value)
  }

  datatype Schedule = Schedule(anchor: Option<int>, deadline: int)

  /** No schedule without a session that could still be refreshed. */
  function ScheduleOf(account: Option<Stored>, now: int): Option<Schedule> {
    if account.None? || account.value.cookies == [] || account.value.info.health == ReauthRequired then None
    else
      var info := account.value.info;
      var due := RefreshDueAt(info);
      var deadline := if due.None? then now else due.value;
      var anchor := if After(info.lastAttemptAt, info.lastCheckedAt) then info.lastAttemptAt else info.lastCheckedAt;
      Some(Schedule(anchor,
                    if After(info.lastAttemptAt, info.lastCheckedAt) && deadline < info.lastAttemptAt.value + INTERVAL
                    then info.lastAttemptAt.value + INTERVAL else deadline))
  }

  /** The last attempt failed without ending the session. */
  predicate Failing(info: Info) {
    After(info.lastAttemptAt, info.lastCheckedAt)
  }

  /** Refreshes never come later than 30 seconds before the session ends, nor
      earlier than two minutes before. */
  lemma RefreshLead(info: Info, now: int)
    requires info.manageExpiresAt.Some?
    ensures NeedsRefresh(info, now) <==> info.apiKey == "" || now >= RefreshDueAt(info).value
    ensures RefreshDueAt(info).Some?
    ensures 30 * SECOND <= info.manageExpiresAt.value - RefreshDueAt(info).value <= 120 * SECOND
    ensures info.lastCheckedAt.Some? && 90 * SECOND <= info.manageExpiresAt.value - info.lastCheckedAt.value <= 360 * SECOND ==>
              info.lastCheckedAt.value
              < RefreshDueAt(info).value == info.manageExpiresAt.value - (info.manageExpiresAt.value - info.lastCheckedAt.value) / 3
  {
  }

  /** A success is not a failure: a session that was just checked is not failing,
      and one that noted a later attempt is. */
  lemma FailingExactly(info: Info, now: int)
    ensures IsChecked(info, now) ==> !Failing(info)
    ensures info.lastAttemptAt == Some(now) && (info.lastCheckedAt.None? || info.lastCheckedAt.value < now) ==> Failing(info)
    ensures info.lastAttemptAt.None? ==> !Failing(info)
  {
  }

  const MINIMUM_INTERVAL := 300 * SECOND

  datatype Pass = Idle | WebCheck | Kept

  /** One pass of the worker: its time, the jitter it may draw, and whether the
      listed aliases lack timestamps. */
  datatype Wake = Wake(now: int, offset: int, missingTimestamps: bool)

  /** The worker gives up when the web session expired and there is no Apple
      Account session that could still be used. */
  predicate ShouldDisable(expired: bool, account: Option<Stored>, web: Option<string>) {
    expired && (account.None? || account.value.cookies == [] || account.value.info.health == ReauthRequired
                || !SameAccount(WebId(web), account.value.info.appleId))
  }

  /** A session in which a refresh is always sent when it is checked. */
  predicate Retrying(account: Option<Stored>, web: Option<string>) {
    && account.Some? && account.value.cookies != [] && account.value.info.health == DegradedState
    && SameAccount(WebId(web), account.value.info.appleId) && Failing(account.value.info)
  }

  lemma RetryingTries(account: Option<Stored>, web: Option<string>)
    requires Retrying(account, web)
    ensures !Available(account.value) && forall force, now :: Tries(account, web, force, now)
  {
  }

  class AutoRefresh {
    var target: Option<int>
    var checkedAt: Option<int>
    var enabled: bool
    var lastRunAt: Option<int>
    var interval: int

    /** The stored target lies within the jitter of the attempt that it was drawn for. */
    ghost predicate Valid()
      reads this
    {
      && interval >= MINIMUM_INTERVAL
      && (target.Some? && checkedAt.Some? ==>
        checkedAt.value + INTERVAL - SPREAD <= target.value <= checkedAt.value + INTERVAL + SPREAD)
    }

    constructor (configured: int)
      ensures Valid() && target.None? && checkedAt.None? && enabled && lastRunAt.None?
      ensures interval == if configured < MINIMUM_INTERVAL then MINIMUM_INTERVAL else configured
    {
      target, checkedAt := None, None;
      enabled, lastRunAt := true, None;
      interval := if configured < MINIMUM_INTERVAL then MINIMUM_INTERVAL else configured;
    }

    predicate WebDue(now: int)
      reads this
    {
      lastRunAt.None? || now >= lastRunAt.value + interval
    }

    /** When the next background refresh is due, for a jitter drawn now. After a
        failed attempt it is at least 153 and at most 207 seconds away from it;
        after a success it comes no later than the session needs it, nor later
        than 207 seconds. */
    method DueAt(account: Option<Stored>, now: int, offset: int) returns (due: Option<int>)
      requires Valid() && -SPREAD <= offset <= SPREAD
      modifies this`target, this`checkedAt
      ensures Valid()
      ensures if due.Some? then target.Some? && due.value <= target.value else target.None?
      ensures due.Some? <==> account.Some? && account.value.cookies != [] && account.value.info.health != ReauthRequired
      ensures due.Some? && Failing(account.value.info) ==>
        var last := account.value.info.lastAttemptAt.value;
        last + 153 * SECOND <= due.value <= last + 207 * SECOND
      ensures due.Some? && !Failing(account.value.info) && account.value.info.lastCheckedAt.Some? ==>
        due.value <= account.value.info.lastCheckedAt.value + 207 * SECOND
      ensures due.Some? && !Failing(account.value.info) && account.value.info.manageExpiresAt.Some? ==>
        due.value <= RefreshDueAt(account.value.info).value <= account.value.info.manageExpiresAt.value - 30 * SECOND
    {
      var schedule := ScheduleOf(account, now);
      if schedule.None? {
        target, checkedAt := None, None;
        return None;
      }
      var anchor, deadline := schedule.value.anchor, schedule.value.deadline;
      if target.None? || checkedAt != anchor {
        checkedAt := anchor;
        target := Some(now);
        if anchor.Some? {
          target := Some(anchor.value + INTERVAL + offset);
        }
      }
      if deadline < target.value {
        return Some(deadline);
      }
      return target;
    }

    /** What the worker and the session are at. */
    ghost function At(session: SessionManager): Situation
      reads this, session, session.upstream
    {
      Situation(session.account, session.upstream.sent, enabled, lastRunAt)
    }

    /** What does not change while the worker runs. */
    ghost function Around(session: SessionManager): Surroundings
      reads this, session
    {
      Surroundings(session.upstream.answers, session.upstream.clock, session.web, interval)
    }

    /** A full check in the background, which ends the worker exactly when there is
        nothing left to keep alive. */
    method RunCheck(session: SessionManager, missingTimestamps: bool) returns (expired: bool)
      requires Valid() && session.Valid()
      modifies this`enabled, this`lastRunAt, session`account, session.upstream
      ensures Valid() && session.Valid() && lastRunAt == Some(session.upstream.Now())
      ensures enabled == (old(enabled) && !(expired &&
                (session.account.None? || session.account.value.cookies == [] || session.account.value.info.health == ReauthRequired
                 || (session.web.Some? && !SameAccount(session.web.value, session.account.value.info.appleId)))))
      ensures expired <==> session.web.Some? && SaysExpired(session.upstream.answers(|old(session.upstream.sent)|))
      ensures old(session.upstream.sent) <= session.upstream.sent
      ensures Attempted(Around(session), old(At(session)), At(session))
      ensures old(session.Blocked()) ==> FailureShows(Around(session), old(At(session)), At(session))
      ensures old(Retrying(session.account, session.web)) ==> !SentWeb(old(session.upstream.sent), session.upstream.sent)
    {
      hide Available, SentWeb, SentAll, Passed, RefreshesFirst, NotedBetween, AccountRequests, SameAccount;
      ghost var tried, error;
      ghost var before := At(session);
      if Retrying(session.account, session.web) {
        RetryingTries(session.account, session.web);
      }
      expired, tried, error := session.CheckAll(missingTimestamps);
      lastRunAt := Some(session.upstream.Now());
      if ShouldDisable(expired, session.account, session.web) {
        enabled := false;
      }
      if SentWeb(before.sent, session.upstream.sent) {
        WebCount(before.sent, session.upstream.sent);
      }
    }

    /** The worker's pass: the full check when it is due, or else a keep-alive when
        that is due. A failing session is tried exactly in those two cases: within
        153 seconds of a failed attempt only by a full check. */
    method RunIfDue(session: SessionManager, wake: Wake) returns (pass: Pass, ghost due: Option<int>)
      requires Valid() && session.Valid() && -SPREAD <= wake.offset <= SPREAD
      modifies this, session`account, session.upstream
      ensures Valid() && session.Valid() && interval == old(interval)
      ensures PassFits(Around(session), wake, pass, old(At(session)), At(session))
      ensures pass == WebCheck <==> old(enabled) && (old(lastRunAt).None? || wake.now >= old(lastRunAt).value + interval)
      ensures pass == Kept <==> old(enabled) && !CheckDue(old(lastRunAt), interval, wake.now) && due.Some? && wake.now >= due.value
      ensures old(Retrying(session.account, session.web)) ==>
        var last := old(session.account).value.info.lastAttemptAt.value;
        && due.Some? && last + 153 * SECOND <= due.value <= last + 207 * SECOND
        && (!SentWeb(old(session.upstream.sent), session.upstream.sent)
            <==> old(enabled) && (CheckDue(old(lastRunAt), interval, wake.now) || wake.now >= due.value))
    {
      hide Available, SentWeb, SentAll, Passed, NotedBetween, SameAccount;
      ghost var before := At(session);
      NothingSent(session.upstream.sent);
      var webDue := WebDue(wake.now);
      var appleDue := DueAt(session.account, wake.now, wake.offset);
      due := appleDue;
      if !enabled {
        return Idle, due;
      }
      if webDue {
        pass := WebCheck;
        var _ := RunCheck(session, wake.missingTimestamps);
        return;
      }
      if appleDue.Some? && wake.now >= appleDue.value {
        pass := Kept;
        ghost var tried;
        var error;
        error, tried := session.CheckAccount(true);
        RefreshIsAttempt(before.sent, session.upstream.sent);
        if tried {
          NotedAt(session.upstream.clock, before.sent, session.upstream.sent, session.upstream.sent);
        }
        return;
      }
      pass := Idle;
    }

    /** The worker: pass after pass, from the situation that it finds to the one
        that it leaves. */
    method Work(session: SessionManager, wakes: seq<Wake>) returns (ghost passes: seq<Pass>, ghost trace: seq<Situation>)
      requires Valid() && session.Valid() && forall wake :: wake in wakes ==> -SPREAD <= wake.offset <= SPREAD
      modifies this, session`account, session.upstream
      ensures Valid() && session.Valid() && interval == old(interval)
      ensures Worked(Around(session), wakes, passes, trace)
      ensures trace[0] == old(At(session)) && trace[|wakes|] == At(session)
      ensures forall i, j :: 0 <= i < j < |wakes| && FailedThenNext(passes, trace, i, j) ==>
        Apart(Around(session), wakes, trace, i, j)
      ensures forall i, j :: 0 <= i < j < |wakes| && ChecksInTurn(passes, i, j) ==>
        wakes[j].now >= session.upstream.clock(|trace[i + 1].sent|) + interval
    {
      hide PassFits, FailedThenNext, ChecksInTurn, Apart;
      passes, trace := [], [At(session)];
      for i := 0 to |wakes|
        invariant Valid() && session.Valid() && interval == old(interval)
        invariant Worked(Around(session), wakes[..i], passes, trace)
        invariant trace[0] == old(At(session)) && trace[i] == At(session)
      {
        var pass;
        ghost var due;
        pass, due := RunIfDue(session, wakes[i]);
        passes, trace := passes + [pass], trace + [At(session)];
      }
      assert wakes[..|wakes|] == wakes;
      forall i, j | 0 <= i < j < |wakes| && FailedThenNext(passes, trace, i, j)
        ensures Apart(Around(session), wakes, trace, i, j)
      {
        NextAttempt(Around(session), wakes, passes, trace, i, j);
      }
      forall i, j | 0 <= i < j < |wakes| && ChecksInTurn(passes, i, j)
        ensures wakes[j].now >= session.upstream.clock(|trace[i + 1].sent|) + interval
      {
        NextCheck(Around(session), wakes, passes, trace, i, j);
      }
    }

    /** How long the worker sleeps: never past what is due next. */
    method NextWakeDelay(account: Option<Stored>, now: int, offset: int) returns (delay: int, ghost due: Option<int>)
      requires Valid() && -SPREAD <= offset <= SPREAD
      modifies this`target, this`checkedAt
      ensures Valid() && MINIMUM_WAKE <= delay <= IDLE_POLL
      ensures enabled && lastRunAt.None? ==> delay == MINIMUM_WAKE
      ensures enabled && lastRunAt.Some? ==> now + delay <= lastRunAt.value + interval || delay == MINIMUM_WAKE
      ensures enabled && due.Some? ==> now + delay <= due.value || delay == MINIMUM_WAKE
      ensures enabled && lastRunAt.Some? ==>
        (due.Some? <==> account.Some? && account.value.cookies != [] && account.value.info.health != ReauthRequired)
      ensures enabled && due.Some? && account.Some? && !Failing(account.value.info) && account.value.info.manageExpiresAt.Some? ==>
        due.value <= RefreshDueAt(account.value.info).value
      ensures enabled && due.Some? && account.Some? && Failing(account.value.info) ==>
        due.value <= account.value.info.lastAttemptAt.value + 207 * SECOND
    {
      due := None;
      if !enabled {
        return IDLE_POLL, due;
      }
      if lastRunAt.None? {
        return MINIMUM_WAKE, due;
      }
      var next := lastRunAt.value + interval;
      var appleDue := DueAt(account, now, offset);
      due := appleDue;
      if appleDue.Some? && appleDue.value < next {
        next := appleDue.value;
      }
      var wait := next - now;
      delay := if wait <= MINIMUM_WAKE then MINIMUM_WAKE else if wait >= IDLE_POLL then IDLE_POLL else wait;
    }
  }

  // ---- Runs of the worker ----

  datatype Situation = Situation(account: Option<Stored>, sent: seq<Request>, enabled: bool, lastRunAt: Option<int>)

  datatype Surroundings = Surroundings(answers: nat -> Answer, clock: nat -> int, web: Option<string>, interval: int)

  predicate LoginNeeded(account: Option<Stored>) {
    account.Some? && account.value.info.health == ReauthRequired
  }

  predicate IsBlocked(account: Option<Stored>) {
    account.Some? && !Available(account.value)
  }

  predicate CheckDue(lastRunAt: Option<int>, interval: int, now: int) {
    lastRunAt.None? || now >= lastRunAt.value + interval
  }

  /** Without a request to the Apple Account channel the session stays as it is or
      turns out to need a login. With one it needs a login or has noted a time of
      this attempt. */
  ghost predicate Attempted(around: Surroundings, before: Situation, after: Situation) {
    && (LoginNeeded(before.account) ==> after.account == before.account && SentWeb(before.sent, after.sent))
    && (SentWeb(before.sent, after.sent) ==> after.account == before.account || LoginNeeded(after.account))
    && (!SentWeb(before.sent, after.sent) ==> LoginNeeded(after.account) || Noted(around.clock, before, after))
  }

  ghost predicate Noted(clock: nat -> int, before: Situation, after: Situation) {
    after.account.Some? && NotedBetween(clock, before.sent, after.sent, after.account.value.info.lastAttemptAt)
  }

  /** An attempt without success leaves the session needing a login, or degraded. */
  ghost predicate FailureShows(around: Surroundings, before: Situation, after: Situation) {
    !SentWeb(before.sent, after.sent) && !Passed(around.answers, before.sent, after.sent) ==>
      LoginNeeded(after.account)
      || (before.account.Some? && after.account.Some? && after.account.value.info.health == DegradedState
          && after.account.value.info.lastCheckedAt == before.account.value.info.lastCheckedAt)
  }

  /** What one pass of the worker may do. */
  ghost predicate PassFits(around: Surroundings, wake: Wake, pass: Pass, before: Situation, after: Situation) {
    && before.sent <= after.sent
    && Attempted(around, before, after) && (pass == Kept || IsBlocked(before.account) ==> FailureShows(around, before, after))
    && match pass
       case Idle => after == before
       case WebCheck =>
         && before.enabled && CheckDue(before.lastRunAt, around.interval, wake.now)
         && after.lastRunAt == Some(around.clock(|after.sent|))
       case Kept =>
         && before.enabled && !CheckDue(before.lastRunAt, around.interval, wake.now)
         && after.enabled && after.lastRunAt == before.lastRunAt && SentAll(before.sent, after.sent, REFRESHING)
         && before.account.Some? && (Failing(before.account.value.info) ==>
              wake.now >= before.account.value.info.lastAttemptAt.value + 153 * SECOND)
         && (Passed(around.answers, before.sent, after.sent) ==>
              after.account.Some? && IsChecked(after.account.value.info, around.clock(|after.sent|)))
  }

  ghost predicate Worked(around: Surroundings, wakes: seq<Wake>, passes: seq<Pass>, trace: seq<Situation>) {
    && |passes| == |wakes| && |trace| == |wakes| + 1
    && forall i :: 0 <= i < |wakes| ==> PassFits(around, wakes[i], passes[i], trace[i], trace[i + 1])
  }

  /** Pass i asked something of the Apple Account channel and left the session
      failing; nothing was asked until pass j, a keep-alive. */
  ghost predicate FailedThenNext(passes: seq<Pass>, trace: seq<Situation>, i: nat, j: nat) {
    && i < j < |passes| && |trace| == |passes| + 1
    && !SentWeb(trace[i].sent, trace[i + 1].sent)
    && trace[i + 1].account.Some? && Failing(trace[i + 1].account.value.info)
    && SentWeb(trace[i + 1].sent, trace[j].sent)
    && passes[j] == Kept && trace[j + 1].sent != trace[j].sent
  }

  /** Pass j begins at least 153 seconds after the time that the session noted for
      the attempt of pass i, which is a time of that pass. */
  ghost predicate Apart(around: Surroundings, wakes: seq<Wake>, trace: seq<Situation>, i: nat, j: nat) {
    && i < j < |wakes| && |trace| == |wakes| + 1 && trace[i + 1].account.Some?
    && var noted := trace[i + 1].account.value.info.lastAttemptAt;
       noted.Some? && wakes[j].now >= noted.value + 153 * SECOND
       && NotedBetween(around.clock, trace[i].sent, trace[i + 1].sent, noted)
  }

  /** After a failed attempt the next one of the keep-alive begins at least 153
      seconds later than the time that the session noted for it. */
  lemma NextAttempt(around: Surroundings, wakes: seq<Wake>, passes: seq<Pass>, trace: seq<Situation>, i: nat, j: nat)
    requires Worked(around, wakes, passes, trace) && FailedThenNext(passes, trace, i, j)
    ensures Apart(around, wakes, trace, i, j)
  {
    hide SentWeb, SentAll, Passed, NotedBetween, IsChecked;
    assert PassFits(around, wakes[i], passes[i], trace[i], trace[i + 1]);
    assert PassFits(around, wakes[j], passes[j], trace[j], trace[j + 1]);
    StillTheSame(around, wakes, passes, trace, i + 1, j);
    RefreshIsAttempt(trace[j].sent, trace[j + 1].sent);
  }

  /** A session stays as it is, or turns out to need a login, while nothing is asked. */
  lemma {:induction false} StillTheSame(around: Surroundings, wakes: seq<Wake>, passes: seq<Pass>, trace: seq<Situation>, i: nat, j: nat)
    requires Worked(around, wakes, passes, trace) && i <= j <= |wakes|
    requires SentWeb(trace[i].sent, trace[j].sent)
    ensures trace[j].account == trace[i].account || LoginNeeded(trace[j].account)
    decreases j
  {
    if i < j {
      assert PassFits(around, wakes[j - 1], passes[j - 1], trace[j - 1], trace[j - 1 + 1]);
      Growing(around, wakes, passes, trace, i, j - 1);
      WebBetween(trace[i].sent, trace[j - 1].sent, trace[j].sent);
      StillTheSame(around, wakes, passes, trace, i, j - 1);
    }
  }

  lemma {:induction false} Growing(around: Surroundings, wakes: seq<Wake>, passes: seq<Pass>, trace: seq<Situation>, i: nat, j: nat)
    requires Worked(around, wakes, passes, trace) && i <= j <= |wakes|
    ensures trace[i].sent <= trace[j].sent
    decreases j
  {
    if i < j {
      assert PassFits(around, wakes[j - 1], passes[j - 1], trace[j - 1], trace[j - 1 + 1]);
      Growing(around, wakes, passes, trace, i, j - 1);
    }
  }

  /** Passes i and j are full checks, with none in between. */
  ghost predicate ChecksInTurn(passes: seq<Pass>, i: nat, j: nat) {
    i < j < |passes| && passes[i] == WebCheck && passes[j] == WebCheck && forall k :: i < k < j ==> passes[k] != WebCheck
  }

  /** Full checks in the background are at least an interval apart. */
  lemma NextCheck(around: Surroundings, wakes: seq<Wake>, passes: seq<Pass>, trace: seq<Situation>, i: nat, j: nat)
    requires Worked(around, wakes, passes, trace) && ChecksInTurn(passes, i, j)
    ensures wakes[j].now >= around.clock(|trace[i + 1].sent|) + around.interval
  {
    assert PassFits(around, wakes[i], passes[i], trace[i], trace[i + 1]);
    assert PassFits(around, wakes[j], passes[j], trace[j], trace[j + 1]);
    SameLastRun(around, wakes, passes, trace, i + 1, j);
  }

  lemma {:induction false} SameLastRun(around: Surroundings, wakes: seq<Wake>, passes: seq<Pass>, trace: seq<Situation>, i: nat, j: nat)
    requires Worked(around, wakes, passes, trace) && i <= j <= |wakes|
    requires forall k :: i <= k < j ==> passes[k] != WebCheck
    ensures trace[j].lastRunAt == trace[i].lastRunAt
    decreases j
  {
    if i < j {
      assert PassFits(around, wakes[j - 1], passes[j - 1], trace[j - 1], trace[j - 1 + 1]);
      SameLastRun(around, wakes, passes, trace, i, j - 1);
    }
  }

  /** The requests of a refresh all go to the Apple Account channel. */
  lemma RefreshIsAttempt(before: seq<Request>, after: seq<Request>)
    requires SentAll(before, after, REFRESHING)
    ensures SentWeb(before, after) <==> after == before
  {
    if |after| > |before| {
      assert after[|before|] in REFRESHING;
    } else {
      assert after == before;
    }
  }

  lemma WebBetween(a: seq<Request>, b: seq<Request>, c: seq<Request>)
    requires a <= b <= c && SentWeb(a, c)
    ensures SentWeb(a, b) && SentWeb(b, c)
  {
    forall i | |a| <= i < |b|
      ensures b[i].channel == Web
    {
      assert c[i] == b[i];
    }
  }
}
