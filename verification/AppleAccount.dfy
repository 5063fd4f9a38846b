/** The Apple Account session of a client: requests on working copies, refresh,
    and creation of an address. */
module AppleAccount {
  import opened Wrappers
  import opened CookieJar
  import opened AppleUpstream

  datatype Health = Unknown | Healthy | DegradedState | ReauthRequired

  /** The session apart from its cookies. Times are nanoseconds; a zero time is None. */
  datatype Info = Info(appleId: string, scnt: string, sessionId: string, apiKey: string,
                       manageExpiresAt: Option<int>, lastCheckedAt: Option<int>, lastAttemptAt: Option<int>,
                       lastCheckOk: bool, health: Health)

  const SECOND := 1_000_000_000
  const FALLBACK_TTL := 240 * SECOND
  const REFRESH_LEAD := 120 * SECOND
  const MINIMUM_LEAD := 30 * SECOND

  // ---- Decisions ----

  predicate RequiresReauth(error: Error) {
    error.Protocol? && (error.code == Expired || error.code == Mismatch || error.code == SessionMissing)
  }

  predicate MayHaveCreated(error: Error) {
    error.Protocol? && error.mayHaveCreated
  }

  /** Reads and the request for a candidate may be repeated; nothing else. */
  predicate Retryable(method': Method, path: string) {
    method' == GET || method' == HEAD || (method' == POST && path == ADD)
  }

  function ReplyError(status: int, body: Body, mayHaveCreated: bool): Error {
    var code := if body.saysLimit then Limit else if status == 419 || body.saysExpired then Expired else AccountError;
    Protocol(code, code != Expired, mayHaveCreated)
  }

  /** When the next refresh is due; None means at once. */
  function RefreshDueAt(info: Info): Option<int> {
    if info.manageExpiresAt.None? then None
    else
      var expires := info.manageExpiresAt.value;
      var third := if info.lastCheckedAt.None? || expires <= info.lastCheckedAt.value then REFRESH_LEAD
                   else (expires - info.lastCheckedAt.value) / 3;
      var lead := if third < REFRESH_LEAD then third else REFRESH_LEAD;
      Some(expires - if lead < MINIMUM_LEAD then MINIMUM_LEAD else lead)
  }

  predicate NeedsRefresh(info: Info, now: int) {
    info.apiKey == "" || RefreshDueAt(info).None? || RefreshDueAt(info).value <= now
  }

  function MarkedHealthy(info: Info, now: int): Info {
    info.(lastCheckedAt := Some(now), lastAttemptAt := Some(now), lastCheckOk := true, health := Healthy)
  }

  function MarkedFailure(info: Info, error: Option<Error>, now: int): Info {
    if error.None? then info
    else if RequiresReauth(error.value) then
      info.(lastAttemptAt := Some(now), lastCheckedAt := Some(now), lastCheckOk := false, health := ReauthRequired)
    else if error.value.Protocol? && error.value.code == Limit then info.(lastAttemptAt := Some(now))
    else info.(lastAttemptAt := Some(now), health := DegradedState)
  }

  function WithExpiry(info: Info, timeoutMinutes: int, now: int): (r: Info)
    ensures r == info.(manageExpiresAt := r.manageExpiresAt)
    ensures r.manageExpiresAt == if timeoutMinutes > 0 then Some(now + 60_000_000_000 * timeoutMinutes) else info.manageExpiresAt
  {
    if timeoutMinutes <= 0 then info else info.(manageExpiresAt := Some(now + 60 * SECOND * timeoutMinutes))
  }

  function WithHeaders(info: Info, reply: Reply): Info {
    info.(scnt := if reply.scnt != "" then reply.scnt else info.scnt,
          sessionId := if reply.sessionId != "" then reply.sessionId else info.sessionId)
  }

  // ---- The session object ----

  /** A session with its cookies. Copying the fields alone shares the cookie array. */
  class AccountState {
    var info: Info
    var cookies: Slice

    ghost predicate Valid()
      reads this
    {
      ValidSlice(cookies)
    }

    ghost function Jar(): seq<Cookie>
      requires Valid()
      reads this, cookies.data
    {
      Contents(cookies)
    }

    constructor (info: Info, cookies: Slice)
      ensures this.info == info && this.cookies == cookies
    {
      this.info, this.cookies := info, cookies;
    }
  }

  /** An isolated working copy. */
  method CloneState(state: AccountState) returns (copy: AccountState)
    requires state.Valid()
    ensures fresh(copy) && fresh(copy.cookies.data) && copy.Valid()
    ensures copy.info == state.info && copy.Jar() == state.Jar()
  {
    var cookies := Clone(state.cookies);
    copy := new AccountState(state.info, cookies);
  }

  datatype Outcome = Done(scnt: string, body: Body) | Failed(scnt: string, error: Error)

  /** The state is as it was, down to the array that holds its cookies. */
  twostate predicate Untouched(state: AccountState)
    reads state, state.cookies.data
  {
    && state.info == old(state.info) && state.cookies == old(state.cookies)
    && state.cookies.data[..] == old(state.cookies.data[..])
  }

  /** The state moved to a working copy: cookies in a new array, still one a key,
      health and times as they were. */
  twostate predicate Moved(state: AccountState)
    requires old(state.Valid())
    reads state, state.cookies.data
  {
    && state.Valid() && fresh(state.cookies.data)
    && (OnePerKey(old(state.Jar())) ==> OnePerKey(state.Jar()))
    && state.info == old(state.info).(scnt := state.info.scnt, sessionId := state.info.sessionId)
  }

  /** Takes cookies and headers of a response into a working copy, whose array of
      cookies it edits in place or replaces. */
  method Receive(working: AccountState, reply: Reply)
    requires working.Valid()
    modifies working, working.cookies.data
    ensures working.Valid()
    ensures working.cookies.data == old(working.cookies.data) || fresh(working.cookies.data)
    ensures working.Jar() == Merged(old(working.Jar()), reply.host, reply.cookies)
    ensures OnePerKey(old(working.Jar())) ==> OnePerKey(working.Jar())
    ensures working.info == old(working.info).(scnt := working.info.scnt, sessionId := working.info.sessionId)
    ensures reply.scnt != "" ==> working.info.scnt == reply.scnt
    ensures reply.scnt == "" ==> working.info.scnt == old(working.info.scnt)
    ensures reply.sessionId != "" ==> working.info.sessionId == reply.sessionId
    ensures reply.sessionId == "" ==> working.info.sessionId == old(working.info.sessionId)
  {
    hide OnePerKey, Merged;
    MergedOnePerKey(working.Jar(), reply.host, reply.cookies);
    working.cookies := MergeCookies(working.cookies, reply.host, reply.cookies);
    working.info := WithHeaders(working.info, reply);
  }

  /** A quota answer, an expired session or another failure. */
  predicate IsReplyError(reply: Reply, confirms: bool, error: Error) {
    && error.Protocol? && error.mayHaveCreated == confirms && error.retryable == (error.code != Expired)
    && (reply.body.saysLimit ==> error.code == Limit)
    && (!reply.body.saysLimit && (reply.status == 419 || reply.body.saysExpired) ==> error.code == Expired)
    && (!reply.body.saysLimit && reply.status != 419 && !reply.body.saysExpired ==> error.code == AccountError)
  }

  /** What an answered request fails with. */
  function Refusal(reply: Reply, wanted: bool, confirms: bool): (error: Option<Error>)
    ensures error.None? <==> Understood(Answered(reply), wanted)
    ensures error.Some? && Accepts(Answered(reply)) ==> error.value == Protocol(BadResponse, true, false)
    ensures error.Some? && MayHaveCreated(error.value) ==> confirms
    ensures error.Some? && !Accepts(Answered(reply)) ==> IsReplyError(reply, confirms, error.value)
  {
    if reply.status < 200 || reply.status >= 300 || reply.body.reportsFailure then
      Some(ReplyError(reply.status, reply.body, confirms))
    else if wanted && !reply.body.empty && !reply.body.parses then Some(Protocol(BadResponse, true, false))
    else None
  }

  /** Sends a request and takes what the response sets into the working copy. */
  method Ask(upstream: Upstream, working: AccountState, method': Method, path: string, subject: string, wanted: bool)
    returns (outcome: Outcome)
    requires working.Valid()
    modifies upstream, working, working.cookies.data
    ensures working.Valid() && (working.cookies.data == old(working.cookies.data) || fresh(working.cookies.data))
    ensures OnePerKey(old(working.Jar())) ==> OnePerKey(working.Jar())
    ensures working.info == old(working.info).(scnt := working.info.scnt, sessionId := working.info.sessionId)
    ensures |upstream.sent| > |old(upstream.sent)|
    ensures outcome.Done? ==>
      var answer := upstream.answers(|upstream.sent| - 1);
      Accepts(answer) && working.Jar() == Merged(old(working.Jar()), answer.reply.host, answer.reply.cookies)
    ensures !wanted ==> (outcome.Done? <==> AcceptedIn(upstream.answers, old(upstream.sent), upstream.sent))
    ensures outcome.Done? <==> Understood(upstream.answers(|upstream.sent| - 1), wanted)
    ensures outcome.Done? && wanted ==> outcome.body == Seen(upstream.answers(|upstream.sent| - 1))
    ensures outcome.Failed? && outcome.error.Protocol? ==>
      var answer := upstream.answers(|upstream.sent| - 1);
      answer.Answered? && Refusal(answer.reply, wanted, method' == PUT && path == COMPLETE) == Some(outcome.error)
    ensures SentOnly(old(upstream.sent), upstream.sent, Request(Account, method', path, subject),
                     if Retryable(method', path) then MAX_ATTEMPTS else 1)
  {
    hide OnePerKey, Merged, SentOnly, Retryable, AcceptedIn, IsReplyError, ReplyError;
    var result := upstream.Do(Request(Account, method', path, subject), Retryable(method', path));
    if result.HttpFailed? {
      return Failed("", result.error);
    }
    var reply := result.reply;
    Receive(working, reply);
    var refusal := Refusal(reply, wanted, method' == PUT && path == COMPLETE);
    if refusal.Some? {
      return Failed(reply.scnt, refusal.value);
    }
    outcome := Done(reply.scnt, if wanted && !reply.body.empty then reply.body else NO_BODY);
  }

  /** One request on a working copy. Only a success reaches the caller's state. */
  method AccountRequest(upstream: Upstream, state: AccountState, method': Method, path: string, subject: string, wanted: bool)
    returns (outcome: Outcome)
    requires state.Valid()
    modifies upstream, state
    ensures outcome.Failed? ==> Untouched(state)
    ensures outcome.Done? ==> Moved(state)
    ensures |upstream.sent| > |old(upstream.sent)| && old(upstream.sent) <= upstream.sent
    ensures outcome.Done? ==>
      var answer := upstream.answers(|upstream.sent| - 1);
      Accepts(answer) && state.Jar() == Merged(old(state.Jar()), answer.reply.host, answer.reply.cookies)
    ensures !wanted ==> (outcome.Done? <==> AcceptedIn(upstream.answers, old(upstream.sent), upstream.sent))
    ensures outcome.Done? <==> Understood(upstream.answers(|upstream.sent| - 1), wanted)
    ensures outcome.Done? && wanted ==> outcome.body == Seen(upstream.answers(|upstream.sent| - 1))
    ensures outcome.Failed? && outcome.error.Protocol? ==>
      var answer := upstream.answers(|upstream.sent| - 1);
      answer.Answered? && Refusal(answer.reply, wanted, method' == PUT && path == COMPLETE) == Some(outcome.error)
    ensures SentAccount(old(upstream.sent), upstream.sent)
    ensures SentOnly(old(upstream.sent), upstream.sent, Request(Account, method', path, subject),
                     if Retryable(method', path) then MAX_ATTEMPTS else 1)
    ensures method' != PUT ==> SentHarmless(old(upstream.sent), upstream.sent)
    ensures outcome.Failed? && MayHaveCreated(outcome.error) ==> method' == PUT && path == COMPLETE
    ensures state.Valid()
  {
    hide OnePerKey, Merged, SentOnly, SentHarmless, SentAccount, Retryable, AcceptedIn, Understood, Seen, IsReplyError, ReplyError, Refusal;
    var working := CloneState(state);
    outcome := Ask(upstream, working, method', path, subject, wanted);
    if method' != PUT {
      OnlyIsHarmless(old(upstream.sent), upstream.sent, Request(Account, method', path, subject),
                     if Retryable(method', path) then MAX_ATTEMPTS else 1);
    }
    OnlyGrows(old(upstream.sent), upstream.sent, Request(Account, method', path, subject),
              if Retryable(method', path) then MAX_ATTEMPTS else 1);
    if outcome.Done? {
      state.info, state.cookies := working.info, working.cookies;
    }
  }

  lemma MergedOnePerKey(jar: seq<Cookie>, host: string, items: seq<SetCookie>)
    ensures OnePerKey(jar) ==> OnePerKey(Merged(jar, host, items))
  {
    if OnePerKey(jar) {
      MergedExactly(jar, host, items, NO_COOKIE);
    }
  }

  /** A page of the portal, also on a working copy. */
  method PortalRequest(upstream: Upstream, state: AccountState, path: string) returns (outcome: Outcome)
    requires state.Valid()
    modifies upstream, state
    ensures outcome.Failed? ==> Untouched(state)
    ensures outcome.Done? ==> Moved(state)
    ensures SentOnly(old(upstream.sent), upstream.sent, Request(Account, GET, path, ""), MAX_ATTEMPTS)
    ensures outcome.Failed? ==> !MayHaveCreated(outcome.error)
    ensures state.Valid()
  {
    hide OnePerKey, Merged, SentOnly, SentHarmless;
    var working := CloneState(state);
    var result := upstream.Do(Request(Account, GET, path, ""), true);
    if result.HttpFailed? {
      return Failed("", result.error);
    }
    var reply := result.reply;
    Receive(working, reply);
    if reply.status < 200 || reply.status >= 300 {
      return Failed(reply.scnt, ReplyError(reply.status, reply.body, false));
    }
    state.info, state.cookies := working.info, working.cookies;
    outcome := Done(reply.scnt, reply.body);
  }

  // ---- Refreshing ----

  /** What the steps of a refresh do to its working copy. */
  twostate predicate Stepped(upstream: Upstream, state: AccountState)
    requires old(state.Valid())
    reads upstream, state, state.cookies.data
  {
    && state.Valid() && (state.cookies.data == old(state.cookies.data) || fresh(state.cookies.data))
    && (OnePerKey(old(state.Jar())) ==> OnePerKey(state.Jar()))
    && SentAll(old(upstream.sent), upstream.sent, PREPARING)
    && state.info.health == old(state.info.health) && state.info.appleId == old(state.info.appleId)
    && state.info.lastCheckOk == old(state.info.lastCheckOk)
  }

  method Warm(upstream: Upstream, state: AccountState) returns (error: Option<Error>)
    requires state.Valid()
    modifies upstream, state
    ensures Stepped(upstream, state)
    ensures error.Some? ==> !MayHaveCreated(error.value)
  {
    hide OnePerKey, SentAll, SentOnly, WithExpiry;
    var page := PortalRequest(upstream, state, PRIVACY);
    OnlyIsAll(old(upstream.sent), upstream.sent, Request(Account, GET, PRIVACY, ""), MAX_ATTEMPTS, PREPARING);
    if page.Failed? {
      return Some(page.error);
    }
    ghost var sent := upstream.sent;
    var portal := PortalRequest(upstream, state, PORTAL);
    OnlyIsAll(sent, upstream.sent, Request(Account, GET, PORTAL, ""), MAX_ATTEMPTS, PREPARING);
    AllTransitive(old(upstream.sent), sent, upstream.sent, PREPARING);
    if portal.Failed? {
      return Some(portal.error);
    }
    if portal.body.parses {
      state.info := WithExpiry(state.info, portal.body.timeout, upstream.Now());
    }
    error := None;
  }

  /** Asks for the token without the page's scnt, on a shallow copy that shares the
      cookie array. */
  method RefreshTokenWithoutScnt(upstream: Upstream, state: AccountState) returns (outcome: Outcome)
    requires state.Valid()
    modifies upstream, state
    ensures Stepped(upstream, state)
    ensures outcome.Failed? ==> Untouched(state) && !MayHaveCreated(outcome.error)
  {
    hide OnePerKey, SentAll, SentOnly, Merged, SentHarmless, SentAccount, AcceptedIn, Understood, Seen;
    var withoutScnt := new AccountState(state.info.(scnt := ""), state.cookies);
    outcome := AccountRequest(upstream, withoutScnt, GET, TOKEN, "", true);
    OnlyIsAll(old(upstream.sent), upstream.sent, Request(Account, GET, TOKEN, ""), MAX_ATTEMPTS, PREPARING);
    if outcome.Failed? {
      return;
    }
    state.info, state.cookies := withoutScnt.info, withoutScnt.cookies;
    if outcome.scnt != "" {
      state.info := state.info.(scnt := outcome.scnt);
    }
  }

  method LoadApiKey(upstream: Upstream, state: AccountState) returns (error: Option<Error>)
    requires state.Valid()
    modifies upstream, state
    ensures Stepped(upstream, state)
    ensures error.Some? ==> !MayHaveCreated(error.value)
  {
    hide OnePerKey, SentAll, SentOnly, Merged, SentHarmless, SentAccount, AcceptedIn, Understood, Seen;
    var outcome := AccountRequest(upstream, state, GET, MANAGE, "", true);
    OnlyIsAll(old(upstream.sent), upstream.sent, Request(Account, GET, MANAGE, ""), MAX_ATTEMPTS, PREPARING);
    if outcome.Failed? {
      return Some(outcome.error);
    }
    state.info := state.info.(apiKey := outcome.body.apiKey);
    error := None;
  }

  /** First part of a refresh: a token with its lifetime. */
  method RefreshToken(upstream: Upstream, working: AccountState) returns (error: Option<Error>)
    requires working.Valid()
    modifies upstream, working
    ensures |upstream.sent| > |old(upstream.sent)|
    ensures Stepped(upstream, working)
    ensures error.Some? ==> !MayHaveCreated(error.value)
  {
    hide OnePerKey, SentHarmless, SentOnly, WithExpiry, Merged, SentAll, SentAccount, AcceptedIn, Understood, Seen;
    var token := AccountRequest(upstream, working, GET, TOKEN, "", true);
    ghost var first := upstream.sent;
    OnlyIsAll(old(upstream.sent), first, Request(Account, GET, TOKEN, ""), MAX_ATTEMPTS, PREPARING);
    var timeout := if token.Done? then token.body.timeout else 0;
    if token.Failed? {
      if RequiresReauth(token.error) {
        return Some(token.error);
      }
      var warm := Warm(upstream, working);
      AllTransitive(old(upstream.sent), first, upstream.sent, PREPARING);
      ghost var second := upstream.sent;
      if warm.Some? {
        return Some(if RequiresReauth(warm.value) then warm.value else token.error);
      }
      var again := RefreshTokenWithoutScnt(upstream, working);
      AllTransitive(old(upstream.sent), second, upstream.sent, PREPARING);
      if again.Failed? {
        return Some(again.error);
      }
      timeout := again.body.timeout;
    } else if timeout <= 0 {
      var warm := Warm(upstream, working);
      AllTransitive(old(upstream.sent), first, upstream.sent, PREPARING);
      ghost var second := upstream.sent;
      if warm.None? {
        var again := RefreshTokenWithoutScnt(upstream, working);
        AllTransitive(old(upstream.sent), second, upstream.sent, PREPARING);
        if again.Done? {
          timeout := again.body.timeout;
        } else if RequiresReauth(again.error) {
          return Some(again.error);
        }
      } else if RequiresReauth(warm.value) {
        return warm;
      }
    }
    working.info := WithExpiry(working.info, timeout, upstream.Now());
    error := None;
  }

  /** Second part: the management key, if need be after warming the portal. */
  method RefreshKey(upstream: Upstream, working: AccountState) returns (error: Option<Error>)
    requires working.Valid()
    modifies upstream, working
    ensures Stepped(upstream, working)
    ensures if error.None? then working.info.apiKey != "" else !MayHaveCreated(error.value)
  {
    hide OnePerKey, SentAll, Merged, WithExpiry;
    var manage := LoadApiKey(upstream, working);
    ghost var first := upstream.sent;
    if manage.Some? || working.info.apiKey == "" {
      if manage.Some? && RequiresReauth(manage.value) {
        return manage;
      }
      var warm := Warm(upstream, working);
      AllTransitive(old(upstream.sent), first, upstream.sent, PREPARING);
      ghost var second := upstream.sent;
      if warm.Some? {
        return if RequiresReauth(warm.value) || manage.None? then warm else manage;
      }
      var again := RefreshTokenWithoutScnt(upstream, working);
      AllTransitive(old(upstream.sent), second, upstream.sent, PREPARING);
      ghost var third := upstream.sent;
      if again.Failed? {
        return Some(again.error);
      }
      working.info := WithExpiry(working.info, again.body.timeout, upstream.Now());
      manage := LoadApiKey(upstream, working);
      AllTransitive(old(upstream.sent), third, upstream.sent, PREPARING);
      if manage.Some? {
        return manage;
      }
    }
    if working.info.apiKey == "" {
      return Some(Protocol(ApiKeyMissing, true, false));
    }
    error := None;
  }

  /** Refreshes a session. A failure leaves the caller's state as it was, down to
      the array of cookies, whatever was merged on the way; a success leaves a
      checked, healthy session whose management time lies ahead. It succeeds
      exactly when its check of record is accepted. */
  method Refresh(upstream: Upstream, state: AccountState) returns (error: Option<Error>)
    requires state.Valid()
    modifies upstream, state
    ensures state.Valid()
    ensures |upstream.sent| > |old(upstream.sent)| <==> old(state.cookies.len) > 0
    ensures error.Some? ==> Untouched(state)
    ensures error.None? ==>
      && fresh(state.cookies.data) && (OnePerKey(old(state.Jar())) ==> OnePerKey(state.Jar()))
      && state.info.apiKey != "" && state.info.appleId == old(state.info.appleId)
      && IsChecked(state.info, upstream.Now())
    ensures SentAll(old(upstream.sent), upstream.sent, REFRESHING)
    ensures SentHarmless(old(upstream.sent), upstream.sent) && SentAccount(old(upstream.sent), upstream.sent)
    ensures old(upstream.sent) <= upstream.sent
    ensures error.None? <==> Passed(upstream.answers, old(upstream.sent), upstream.sent)
    ensures error.Some? ==> !MayHaveCreated(error.value)
  {
    hide OnePerKey, SentHarmless, SentAll, SentAccount, Passed;
    ghost var start := upstream.sent;
    NothingSent(start);
    if state.cookies.len == 0 {
      return Some(Protocol(SessionMissing, false, false));
    }
    var working := CloneState(state);
    error := Prepare(upstream, working);
    ghost var first := upstream.sent;
    Prepared(upstream.answers, start, first);
    HarmlessIsAccount(start, first);
    if error.Some? {
      return;
    }
    error := Verify(upstream, working);
    AllTransitive(start, first, upstream.sent, REFRESHING);
    RefreshingIsHarmless(start, upstream.sent);
    HarmlessIsAccount(start, upstream.sent);
    PassedConcat(upstream.answers, start, first, upstream.sent);
    if error.Some? {
      return;
    }
    state.info, state.cookies := working.info, working.cookies;
  }

  /** All of a refresh before its check. */
  method Prepare(upstream: Upstream, working: AccountState) returns (error: Option<Error>)
    requires working.Valid()
    modifies upstream, working
    ensures Stepped(upstream, working) && |upstream.sent| > |old(upstream.sent)|
    ensures if error.None? then working.info.apiKey != "" else !MayHaveCreated(error.value)
  {
    hide OnePerKey, SentAll;
    error := RefreshToken(upstream, working);
    if error.Some? {
      return;
    }
    ghost var first := upstream.sent;
    error := RefreshKey(upstream, working);
    AllTransitive(old(upstream.sent), first, upstream.sent, PREPARING);
  }

  lemma Prepared(answers: nat -> Answer, before: seq<Request>, after: seq<Request>)
    requires SentAll(before, after, PREPARING)
    ensures SentAll(before, after, REFRESHING) && SentHarmless(before, after) && !Passed(answers, before, after)
  {
    RefreshingIsHarmless(before, after);
  }

  /** Last part: the management endpoint as the check of record, then a log entry
      whose outcome does not matter. */
  method Verify(upstream: Upstream, working: AccountState) returns (error: Option<Error>)
    requires working.Valid()
    modifies upstream, working
    ensures working.Valid() && (working.cookies.data == old(working.cookies.data) || fresh(working.cookies.data))
    ensures OnePerKey(old(working.Jar())) ==> OnePerKey(working.Jar())
    ensures SentAll(old(upstream.sent), upstream.sent, REFRESHING)
    ensures error.None? <==> Passed(upstream.answers, old(upstream.sent), upstream.sent)
    ensures working.info.apiKey == old(working.info.apiKey) && working.info.appleId == old(working.info.appleId)
    ensures if error.None? then IsChecked(working.info, upstream.Now()) else !MayHaveCreated(error.value)
  {
    hide OnePerKey, SentHarmless, SentOnly, Merged, SentAll, SentAccount, AcceptedIn, Passed, Understood, Seen;
    ghost var start := upstream.sent;
    var verify := AccountRequest(upstream, working, GET, FORWARD, "", false);
    ghost var first := upstream.sent;
    OnlyIsAll(start, first, CHECK, MAX_ATTEMPTS, REFRESHING);
    OnlyPassed(upstream.answers, start, first, CHECK, MAX_ATTEMPTS);
    if verify.Failed? {
      return Some(verify.error);
    }
    var _ := AccountRequest(upstream, working, POST, JS_LOGS, "", false);
    OnlyIsAll(first, upstream.sent, LOG, 1, REFRESHING);
    AllTransitive(start, first, upstream.sent, REFRESHING);
    PassedConcat(upstream.answers, start, first, upstream.sent);
    var now := upstream.Now();
    if working.info.manageExpiresAt.None? || working.info.manageExpiresAt.value <= now {
      working.info := working.info.(manageExpiresAt := Some(now + FALLBACK_TTL));
    }
    working.info := MarkedHealthy(working.info, now);
    error := None;
  }

  ghost predicate IsChecked(info: Info, now: int) {
    && info.health == Healthy && info.lastCheckOk
    && info.lastCheckedAt == Some(now) && info.lastAttemptAt == Some(now)
    && info.manageExpiresAt.Some? && info.manageExpiresAt.value > now
  }
}
