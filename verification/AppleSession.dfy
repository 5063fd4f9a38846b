/** The session manager: it stores the Apple Account session, chooses between that
    channel and the web channel, and keeps the session alive. */
module AppleSession {
  import opened Wrappers
  import opened CookieJar
  import opened AppleUpstream
  import opened AppleAccount
  import opened AppleCreate

  /** The stored session. */
  datatype Stored = Stored(info: Info, cookies: seq<Cookie>)

  predicate Available(stored: Stored) {
    stored.cookies != [] && stored.info.health != ReauthRequired && stored.info.health != DegradedState && stored.info.lastCheckOk
  }

  predicate HealthyForUse(stored: Stored, now: int) {
    Available(stored) && (stored.info.manageExpiresAt.None? || now < stored.info.manageExpiresAt.value)
  }

  predicate SameAccount(left: string, right: string) {
    left == "" || right == "" || Lower(left) == Lower(right)
  }

  predicate AllowsWebFallback(error: Error) {
    match error
    case Protocol(code, retryable, _) => code == SessionMissing || code == Expired || retryable
    case Transport(transient, cancelled) => !cancelled && transient
  }

  /** The session of an account that no longer matches the web login. */
  function Mismatched(info: Info, now: int): Info {
    info.(lastCheckedAt := Some(now), lastAttemptAt := Some(now), lastCheckOk := false, health := ReauthRequired)
  }

  function WebOutcome(answer: Answer): (outcome: Outcome)
    ensures outcome.Done? <==> Accepts(answer)
    ensures outcome.Done? ==> outcome.body == answer.reply.body
  {
    match answer
    case NoAnswer(transient, cancelled) => Failed("", Transport(transient, cancelled))
    case Unreadable(transient, cancelled) => Failed("", Transport(transient, cancelled))
    case Answered(reply) =>
      if Accepts(answer) then Done("", reply.body) else Failed("", ReplyError(reply.status, reply.body, false))
  }

  const WEB_GENERATE := Request(Web, POST, "/v1/hme/generate", "")

  /** A body that the web channel can use: accepted, with an address. */
  predicate HasAddress(answer: Answer) {
    Accepts(answer) && answer.reply.body.email != ""
  }

  /** The requests of one creation on the web channel: a candidate, then its
      reservation if there is a candidate. */
  ghost predicate AskedWeb(answers: nat -> Answer, before: seq<Request>, after: seq<Request>) {
    after == if HasAddress(answers(|before|))
             then before + [WEB_GENERATE, Request(Web, POST, WEB_RESERVE, answers(|before|).reply.body.email)]
             else before + [WEB_GENERATE]
  }

  /** The alias that the reservation returned. */
  ghost predicate MadeOnWeb(answers: nat -> Answer, before: seq<Request>, alias: Option<Alias>) {
    if HasAddress(answers(|before|)) && HasAddress(answers(|before| + 1)) then
      var body := answers(|before| + 1).reply.body;
      alias == Some(Alias(body.email, body.id, true))
    else alias.None?
  }

  const WEB_LIST := Request(Web, GET, "/v2/hme/list", "")

  datatype Call =
    | CreateAlias(accountCooling: bool, webCooling: bool)
    | ListAliases(missingTimestamps: bool)
    | UpdateAlias(id: string)
    | SetAliasActive(id: string, active: bool)
    | DeleteAlias(id: string)
    | Check(missingTimestamps: bool)
    | KeepAlive
    | Login(webLogin: Option<string>, accountLogin: Option<Stored>)

  /** A login hands over a session that it has just checked. */
  ghost predicate ValidLogin(call: Call) {
    call.Login? && call.accountLogin.Some? ==>
      Consistent(call.accountLogin.value.info) && OnePerKey(call.accountLogin.value.cookies)
  }

  class SessionManager {
    const upstream: Upstream
    var account: Option<Stored>
    /** The Apple ID of the web login, if there is one. */
    var web: Option<string>

    constructor (upstream: Upstream)
      ensures this.upstream == upstream && account.None? && web.None?
    {
      this.upstream := upstream;
      account, web := None, None;
    }

    /** A healthy session has passed its check, and its jar has one cookie a key. */
    ghost predicate Valid()
      reads this
    {
      account.Some? ==> Consistent(account.value.info) && OnePerKey(account.value.cookies)
    }

    ghost predicate NeedsLogin()
      reads this
    {
      account.Some? && account.value.info.health == ReauthRequired
    }

    ghost predicate Blocked()
      reads this
    {
      account.Some? && !Available(account.value)
    }

    // ---- Storage ----

    method Read() returns (state: AccountState)
      requires account.Some?
      ensures fresh(state) && fresh(state.cookies.data) && state.Valid()
      ensures state.info == account.value.info && state.Jar() == account.value.cookies
    {
      var cookies := account.value.cookies;
      var data := new Cookie[|cookies|](i requires 0 <= i < |cookies| => cookies[i]);
      state := new AccountState(account.value.info, Slice(data, |cookies|));
    }

    method Write(state: AccountState)
      requires state.Valid()
      modifies this`account
      ensures account == Some(Stored(state.info, state.Jar()))
    {
      account := Some(Stored(state.info, state.cookies.data[..state.cookies.len]));
    }

    // ---- Creating ----

    /** The Apple Account channel is tried first. */
    predicate UsesAccount(cooling: bool)
      reads this
    {
      && !cooling && account.Some? && account.value.cookies != [] && account.value.info.lastCheckOk
      && (account.value.info.health == Healthy || account.value.info.health == Unknown)
      && (web.None? || SameAccount(web.value, account.value.info.appleId))
    }

    /** Creates an address. Whatever the answers, at most one confirmation is sent
        over all retries and both channels, and exactly one when an alias is
        returned. Up to `middle` the Apple Account channel is asked, exactly if it
        may be used; behind it the web channel, exactly if it may be used and no
        confirmation was sent. The alias is the one that the channel made. */
    method CreateAlias(accountCooling: bool, webCooling: bool)
      returns (alias: Option<Alias>, error: Option<Error>, ghost middle: seq<Request>)
      requires Valid()
      modifies this`account, upstream
      ensures old(upstream.sent) <= middle <= upstream.sent
      ensures SentAccount(old(upstream.sent), middle) && SentWeb(middle, upstream.sent)
      ensures middle != old(upstream.sent) <==> old(UsesAccount(accountCooling))
      ensures upstream.sent != middle <==>
        !webCooling && web.Some? && Confirmations(middle) == Confirmations(old(upstream.sent))
      ensures if upstream.sent == middle
              then alias.Some? ==> MadeBy(upstream.answers, old(upstream.sent), middle, alias.value)
              else AskedWeb(upstream.answers, middle, upstream.sent) && MadeOnWeb(upstream.answers, middle, alias)
      ensures Valid() && (alias.Some? <==> error.None?)
      ensures old(upstream.sent) <= upstream.sent
      ensures Confirmations(old(upstream.sent)) <= Confirmations(upstream.sent) <= Confirmations(old(upstream.sent)) + 1
      ensures alias.Some? ==> Confirmations(upstream.sent) == Confirmations(old(upstream.sent)) + 1
      ensures old(Blocked()) ==> account == old(account) && SentWeb(old(upstream.sent), upstream.sent)
    {
      hide OnePerKey, Confirmations, SentAccount, SentWeb, MadeBy, MadeOnWeb, AskedWeb;
      var accountError: Option<Error> := None;
      middle := upstream.sent;
      NothingSent(middle);
      if !accountCooling && account.Some? && Available(account.value)
         && SameAccount(WebId(web), account.value.info.appleId) {
        var state := Read();
        var created, updated, failed := CreateWithAccount(upstream, state);
        Write(updated);
        middle := upstream.sent;
        NothingSent(middle);
        if failed.None? {
          return created, None, middle;
        }
        accountError := failed;
        if MayHaveCreated(failed.value) {
          return None, failed, middle;
        }
      }
      if webCooling {
        return None, if accountError.Some? then accountError else Some(Protocol(WebCooldown, true, false)), middle;
      }
      if web.None? {
        return None, if accountError.Some? then accountError else Some(Protocol(SessionAbsent, false, false)), middle;
      }
      alias, error := CreateOnWeb();
      AskedWebMore(upstream.answers, middle, upstream.sent);
    }

    /** A candidate, then its reservation; neither is repeated. */
    method CreateOnWeb() returns (alias: Option<Alias>, error: Option<Error>)
      modifies upstream
      ensures alias.Some? <==> error.None?
      ensures old(upstream.sent) <= upstream.sent
      ensures Confirmations(old(upstream.sent)) <= Confirmations(upstream.sent) <= Confirmations(old(upstream.sent)) + 1
      ensures alias.Some? ==> Confirmations(upstream.sent) == Confirmations(old(upstream.sent)) + 1
      ensures SentWeb(old(upstream.sent), upstream.sent)
      ensures AskedWeb(upstream.answers, old(upstream.sent), upstream.sent) && MadeOnWeb(upstream.answers, old(upstream.sent), alias)
    {
      hide Confirmations;
      var generated := WebRequest(POST, "/v1/hme/generate", "");
      WebHarmless(old(upstream.sent), upstream.sent, WEB_GENERATE);
      if generated.Failed? {
        return None, Some(generated.error);
      }
      if generated.body.email == "" {
        return None, Some(Protocol(BadResponse, false, false));
      }
      ghost var first := upstream.sent;
      var reserved := WebRequest(POST, WEB_RESERVE, generated.body.email);
      ConfirmedOnce(first, upstream.sent, Request(Web, POST, WEB_RESERVE, generated.body.email));
      if reserved.Failed? {
        return None, Some(reserved.error);
      }
      if reserved.body.email == "" {
        return None, Some(Protocol(BadResponse, false, false));
      }
      return Some(Alias(reserved.body.email, reserved.body.id, true)), None;
    }

    /** One request of the web channel, sent once. */
    method WebRequest(method': Method, path: string, subject: string) returns (outcome: Outcome)
      modifies upstream
      ensures upstream.sent == old(upstream.sent) + [Request(Web, method', path, subject)]
      ensures outcome == WebOutcome(upstream.answers(|old(upstream.sent)|))
    {
      var answer := upstream.Send(Request(Web, method', path, subject));
      outcome := WebOutcome(answer);
    }

    // ---- Other operations ----

    method ListAliases(missingTimestamps: bool) returns (error: Option<Error>)
      requires Valid()
      modifies this`account, upstream
      ensures Valid() && old(upstream.sent) <= upstream.sent
      ensures old(Blocked()) ==>
        account == old(account) && upstream.sent == old(upstream.sent) + if web.Some? then [WEB_LIST] else []
      ensures old(account).None? ==> account.None? && SentWeb(old(upstream.sent), upstream.sent)
      ensures old(account).Some? && !old(Blocked()) ==>
        && !SentWeb(old(upstream.sent), upstream.sent) && account.Some?
        && NotedBetween(upstream.clock, old(upstream.sent), upstream.sent, account.value.info.lastAttemptAt)
    {
      hide OnePerKey, NotedBetween, SentHarmless, SentWeb;
      ghost var start := upstream.sent;
      NothingSent(start);
      OneWeb(start, WEB_LIST);
      var accountError: Option<Error> := None;
      if account.Some? && Available(account.value) {
        var state := Read();
        var updated, failed := Operate(upstream, state, List);
        AccountAsked(upstream.clock, start, upstream.sent);
        Write(updated);
        if failed.None? {
          if missingTimestamps && web.Some? {
            var _ := WebRequest(GET, "/v2/hme/list", "");
          }
          return None;
        }
        if !AllowsWebFallback(failed.value) {
          return failed;
        }
        accountError := failed;
      }
      if web.None? {
        return if accountError.Some? then accountError else Some(Protocol(SessionAbsent, false, false));
      }
      var outcome := WebRequest(GET, "/v2/hme/list", "");
      error := if outcome.Failed? then Some(outcome.error) else None;
    }

    /** Updates, (de)activates or deletes an address, on one channel only. */
    method Change(operation: Operation, webPath: string, id: string) returns (error: Option<Error>)
      requires Valid()
      modifies this`account, upstream
      ensures Valid() && old(upstream.sent) <= upstream.sent
      ensures old(Blocked()) ==> account == old(account) && SentWeb(old(upstream.sent), upstream.sent)
      ensures old(account).Some? && !old(Blocked()) ==>
        if error.None? then Asked(old(upstream.sent), upstream.sent, operation)
        else SentAll(old(upstream.sent), upstream.sent, REFRESHING) || Asked(old(upstream.sent), upstream.sent, operation)
      ensures old(account).None? || old(Blocked()) ==>
        upstream.sent == old(upstream.sent) + if web.Some? then [Request(Web, POST, webPath, id)] else []
      ensures old(account).None? || old(Blocked()) ==>
        (error.None? <==> web.Some? && Accepts(upstream.answers(|old(upstream.sent)|)))
    {
      hide OnePerKey, Asked, SentAll;
      if account.Some? && Available(account.value) {
        var state := Read();
        var updated;
        updated, error := Operate(upstream, state, operation);
        Write(updated);
        return;
      }
      if web.None? {
        return Some(Protocol(SessionAbsent, false, false));
      }
      var outcome := WebRequest(POST, webPath, id);
      error := if outcome.Failed? then Some(outcome.error) else None;
    }

    // ---- Checking ----

    /** Refreshes the stored session when it is to be tried. A failed refresh
        stores the session as it was before, cookies included, with only its
        health and times changed, and leaves it blocked. */
    method CheckAccount(force: bool) returns (error: Option<Error>, ghost tried: bool)
      requires Valid()
      modifies this`account, upstream
      ensures Valid()
      ensures tried <==> Tries(old(account), web, force, old(upstream.Now()))
      ensures SentAll(old(upstream.sent), upstream.sent, REFRESHING) && old(upstream.sent) <= upstream.sent
      ensures tried <==> upstream.sent != old(upstream.sent)
      ensures tried && error.None? <==> Passed(upstream.answers, old(upstream.sent), upstream.sent)
      ensures error.None? && !tried ==> account == old(account)
      ensures error.None? && tried ==> account.Some? && IsChecked(account.value.info, upstream.Now())
      ensures error.Some? ==> account.Some? && old(account).Some? && OnlyHealth(old(account).value, account.value) && Blocked()
      ensures error.Some? && RequiresReauth(error.value) ==> NeedsLogin()
      ensures error.Some? && !RequiresReauth(error.value) ==>
        tried && account.value.info == old(account).value.info.(lastAttemptAt := Some(upstream.Now()), health := DegradedState)
      ensures old(NeedsLogin()) ==> account == old(account) && !tried
    {
      hide OnePerKey, SentHarmless, SentAll, Passed;
      NothingSent(upstream.sent);
      tried := false;
      if account.None? || account.value.cookies == [] {
        return None, false;
      }
      if account.value.info.health == ReauthRequired {
        return Some(Protocol(Expired, false, false)), false;
      }
      if !force && HealthyForUse(account.value, upstream.Now()) && !NeedsRefresh(account.value.info, upstream.Now()) {
        return None, false;
      }
      var state := Read();
      if !SameAccount(WebId(web), state.info.appleId) {
        state.info := Mismatched(state.info, upstream.Now());
        Write(state);
        return Some(Protocol(Mismatch, false, false)), false;
      }
      var previous := new AccountState(state.info, state.cookies);
      tried := true;
      ghost var start := upstream.sent;
      error := Refresh(upstream, state);
      RefreshingIsHarmless(start, upstream.sent);
      if error.Some? {
        if RequiresReauth(error.value) {
          previous.info := Mismatched(previous.info, upstream.Now());
        } else {
          previous.info := previous.info.(lastAttemptAt := Some(upstream.Now()), health := DegradedState);
        }
        Write(previous);
        return;
      }
      state.info := state.info.(health := Healthy, lastAttemptAt := state.info.lastCheckedAt);
      Write(state);
    }

    /** The full check: the web session first, then the Apple Account session if
        it is to be tried, then, if the web session failed, the alias list: on the
        web channel if the Apple Account session is blocked. */
    method CheckAll(missingTimestamps: bool) returns (expired: bool, ghost tried: bool, ghost error: Option<Error>)
      requires Valid()
      modifies this`account, upstream
      ensures Valid() && old(upstream.sent) <= upstream.sent
      ensures expired <==> web.Some? && SaysExpired(upstream.answers(|old(upstream.sent)|))
      ensures tried <==> Tries(old(account), web, false, upstream.clock(|old(upstream.sent)| + if web.Some? then 1 else 0))
      ensures error.Some? ==> account.Some? && old(account).Some? && OnlyHealth(old(account).value, account.value) && Blocked()
      ensures error.Some? && !RequiresReauth(error.value) ==>
        tried && account.value.info.health == DegradedState && account.value.info.lastCheckedAt == old(account).value.info.lastCheckedAt
        && NotedBetween(upstream.clock, old(upstream.sent), upstream.sent, account.value.info.lastAttemptAt)
      ensures error.Some? && RequiresReauth(error.value) ==> NeedsLogin()
      ensures error.None? && !tried && old(Blocked()) ==> account == old(account)
      ensures !tried && old(Blocked()) ==> SentWeb(old(upstream.sent), upstream.sent)
      ensures tried ==> AccountRequests(upstream.sent) > AccountRequests(old(upstream.sent))
      ensures tried && error.None? ==> Passed(upstream.answers, old(upstream.sent), upstream.sent)
      ensures error.Some? ==> !Passed(upstream.answers, old(upstream.sent), upstream.sent)
      ensures old(Blocked()) ==> RefreshesFirst(upstream.answers, old(upstream.sent), upstream.sent)
      ensures old(NeedsLogin()) ==> account == old(account) && SentWeb(old(upstream.sent), upstream.sent)
      ensures SentWeb(old(upstream.sent), upstream.sent) ==> account == old(account) || NeedsLogin()
      ensures !SentWeb(old(upstream.sent), upstream.sent) ==>
        NeedsLogin() || (account.Some? && NotedBetween(upstream.clock, old(upstream.sent), upstream.sent, account.value.info.lastAttemptAt))
      ensures web.Some? ==> old(upstream.sent) + [WEB_LIST] <= upstream.sent
      ensures web.Some? && Accepts(upstream.answers(|old(upstream.sent)|)) ==>
        SentAll(old(upstream.sent) + [WEB_LIST], upstream.sent, REFRESHING)
      ensures web.Some? && !Accepts(upstream.answers(|old(upstream.sent)|)) && (error.Some? || (!tried && old(Blocked()))) ==>
        |upstream.sent| >= |old(upstream.sent)| + 2 && upstream.sent[|upstream.sent| - 1] == WEB_LIST
    {
      hide OnePerKey, SentHarmless, SentAll, SentWeb, AccountRequests, Passed, RefreshesFirst, NotedBetween, Tries, OnlyHealth, RequiresReauth;
      expired := false;
      var valid := false;
      ghost var start := upstream.sent;
      if web.Some? {
        var outcome := WebRequest(GET, "/v2/hme/list", "");
        valid := outcome.Done?;
        expired := outcome.Failed? && outcome.error.Protocol? && outcome.error.code == Expired;
      }
      ghost var first := upstream.sent;
      error, tried := CheckAccount(false);
      ghost var second := upstream.sent;
      if !valid {
        var _ := ListAliases(missingTimestamps);
      }
      CheckParts(upstream.answers, web.Some?, start, first, second, upstream.sent);
      NotedLater(upstream.clock, start, first, second, upstream.sent,
                 if account.Some? then account.value.info.lastAttemptAt else None);
    }

    // ---- Logging in ----

    /** Stores what a login brought. A web login of another account ends the
        session; an Apple Account login replaces it unless it is for another
        account than the web login. */
    method PersistLogin(webLogin: Option<string>, accountLogin: Option<Stored>) returns (ok: bool)
      requires Valid() && ValidLogin(Login(webLogin, accountLogin))
      modifies this`account, this`web
      ensures Valid()
      ensures web == if webLogin.Some? then webLogin else old(web)
      ensures ok <==> accountLogin.None? || web.None? || SameAccount(web.value, accountLogin.value.info.appleId)
      ensures ok && accountLogin.Some? ==> account == accountLogin
      ensures !(ok && accountLogin.Some?) ==>
        if webLogin.Some? && old(account).Some? && !SameAccount(webLogin.value, old(account).value.info.appleId)
        then NeedsLogin() && OnlyHealth(old(account).value, account.value)
        else account == old(account)
    {
      if webLogin.Some? {
        web := webLogin;
        if account.Some? && !SameAccount(webLogin.value, account.value.info.appleId) {
          account := Some(account.value.(info := Mismatched(account.value.info, upstream.Now())));
        }
      }
      if accountLogin.Some? {
        if web.Some? && !SameAccount(web.value, accountLogin.value.info.appleId) {
          return false;
        }
        account := accountLogin;
      }
      ok := true;
    }

    // ---- Whole runs ----

    /** One call. `Passed` says that a refresh succeeded in it, and `LogsIn` that it
        is a login that stores a session. */
    method Perform(call: Call)
      requires Valid() && ValidLogin(call)
      modifies this`account, this`web, upstream
      ensures Valid() && old(upstream.sent) <= upstream.sent
      ensures web == WebAfter(old(web), call)
      ensures call.Login? ==> upstream.sent == old(upstream.sent)
      ensures LogsIn(old(web), call) ==> account == call.accountLogin
      ensures old(NeedsLogin()) && !LogsIn(old(web), call) ==> NeedsLogin() && SentWeb(old(upstream.sent), upstream.sent)
      ensures old(Blocked()) && !LogsIn(old(web), call) && !Passed(upstream.answers, old(upstream.sent), upstream.sent) ==> Blocked()
      ensures old(Blocked()) && UserCall(call) ==> account == old(account) && SentWeb(old(upstream.sent), upstream.sent)
      ensures old(Blocked()) ==> RefreshesFirst(upstream.answers, old(upstream.sent), upstream.sent)
      ensures call.KeepAlive? ==> SentAll(old(upstream.sent), upstream.sent, REFRESHING)
      ensures call.KeepAlive? && Passed(upstream.answers, old(upstream.sent), upstream.sent) ==>
        account.Some? && IsChecked(account.value.info, upstream.Now())
    {
      hide OnePerKey, SentWeb, SentAll, SentHarmless, Passed, RefreshesFirst;
      ghost var start := upstream.sent;
      NothingSent(start);
      match call {
        case CreateAlias(accountCooling, webCooling) =>
          ghost var middle;
          var alias, error;
          alias, error, middle := CreateAlias(accountCooling, webCooling);
        case ListAliases(missingTimestamps) =>
          var _ := ListAliases(missingTimestamps);
          OneWeb(start, WEB_LIST);
          assert start + [] == start;
        case UpdateAlias(id) =>
          var _ := Change(Update(id), "/v1/hme/updateMetaData", id);
        case SetAliasActive(id, active) =>
          var _ := Change(SetActive(id, active), if active then "/v1/hme/reactivate" else "/v1/hme/deactivate", id);
        case DeleteAlias(id) =>
          var _ := Change(Delete(id), "/v1/hme/delete", id);
        case Check(missingTimestamps) =>
          var _, _, _ := CheckAll(missingTimestamps);
        case KeepAlive =>
          var _, _ := CheckAccount(true);
          OnlyRefreshes(upstream.answers, start, upstream.sent);
        case Login(webLogin, accountLogin) =>
          var _ := PersistLogin(webLogin, accountLogin);
      }
      WebQuiet(upstream.answers, start, upstream.sent);
    }

    /** Over any run of calls; `trace` holds the requests sent up to each of them.
        A session that needs a login gets no request and stays so until a login
        stores a session. A degraded or otherwise blocked session stays blocked,
        through any failing checks, keep-alives and web logins, until a refresh
        succeeds or a login stores a session: until then user calls send only web
        requests, and all that the Apple Account channel gets are the requests of
        refreshes, which only checks and keep-alives send. */
    method Run(calls: seq<Call>) returns (ghost trace: seq<seq<Request>>)
      requires Valid() && forall call :: call in calls ==> ValidLogin(call)
      modifies this`account, this`web, upstream
      ensures Valid() && web == WebAfterAll(old(web), calls)
      ensures |trace| == |calls| + 1 && trace[0] == old(upstream.sent) && trace[|calls|] == upstream.sent
      ensures forall i :: 0 <= i < |calls| ==> trace[i] <= trace[i + 1]
      ensures old(NeedsLogin()) && NoLogin(old(web), calls) ==> NeedsLogin() && SentWeb(old(upstream.sent), upstream.sent)
      ensures old(Blocked()) && NoLogin(old(web), calls) ==>
        && (!Passed(upstream.answers, old(upstream.sent), upstream.sent) ==> Blocked())
        && RefreshesFirst(upstream.answers, old(upstream.sent), upstream.sent)
        && (NoChecks(calls) ==> Blocked() && SentWeb(old(upstream.sent), upstream.sent))
      ensures old(Blocked()) ==>
        forall i :: 0 <= i < |calls| && StillBlocked(upstream.answers, calls, old(web), trace, i) ==> SentWeb(trace[i], trace[i + 1])
    {
      hide OnePerKey, SentWeb, SentAll, Passed, RefreshesFirst, Available, Stays, Ran, NoLogin, NoChecks, WebAfterAll;
      ghost var web0 := web;
      ghost var start := Standing(NeedsLogin(), Blocked(), upstream.sent);
      trace := [upstream.sent];
      NoCalls(upstream.answers, calls, web0, start);
      for i := 0 to |calls|
        invariant Valid() && web == WebAfterAll(web0, calls[..i])
        invariant |trace| == i + 1 && trace[0] == start.sent && trace[i] == upstream.sent
        invariant Stays(upstream.answers, calls[..i], web0, start, Standing(NeedsLogin(), Blocked(), upstream.sent))
        invariant Ran(upstream.answers, calls[..i], web0, start.blocked, trace)
      {
        ghost var before := Standing(NeedsLogin(), Blocked(), upstream.sent);
        Perform(calls[i]);
        ghost var now := Standing(NeedsLogin(), Blocked(), upstream.sent);
        assert calls[..i + 1] == calls[..i] + [calls[i]];
        LastCall(web0, calls[..i], calls[i]);
        OneMoreCall(upstream.answers, calls[..i], calls[i], web0, start, before, now);
        OneMoreTrace(upstream.answers, calls[..i], calls[i], web0, start, before, now, trace);
        trace := trace + [upstream.sent];
      }
      assert calls[..|calls|] == calls;
      AllCalls(upstream.answers, calls, web0, start, Standing(NeedsLogin(), Blocked(), upstream.sent), trace);
    }
  }

  // ---- What a run leaves ----

  function WebAfter(web: Option<string>, call: Call): Option<string> {
    if call.Login? && call.webLogin.Some? then call.webLogin else web
  }

  function WebAfterAll(web: Option<string>, calls: seq<Call>): Option<string> {
    if calls == [] then web else WebAfter(WebAfterAll(web, calls[..|calls| - 1]), calls[|calls| - 1])
  }

  /** A login that brings a session of the account that the web login then names. */
  predicate LogsIn(web: Option<string>, call: Call) {
    call.Login? && call.accountLogin.Some?
    && (WebAfter(web, call).None? || SameAccount(WebAfter(web, call).value, call.accountLogin.value.info.appleId))
  }

  predicate NoLogin(web: Option<string>, calls: seq<Call>) {
    calls == []
    || (NoLogin(web, calls[..|calls| - 1]) && !LogsIn(WebAfterAll(web, calls[..|calls| - 1]), calls[|calls| - 1]))
  }

  predicate UserCall(call: Call) {
    call.CreateAlias? || call.ListAliases? || call.UpdateAlias? || call.SetAliasActive? || call.DeleteAlias?
  }

  predicate NoChecks(calls: seq<Call>) {
    forall call :: call in calls ==> UserCall(call) || call.Login?
  }

  /** Until a refresh succeeds, the Apple Account channel gets requests of refreshes only. */
  ghost predicate RefreshesFirst(answers: nat -> Answer, before: seq<Request>, after: seq<Request>) {
    forall i :: |before| <= i < |after| && after[i].channel == Account && !Passed(answers, before, after[..i])
                ==> after[i] in REFRESHING
  }

  /** How the session stands, and what was sent. */
  datatype Standing = Standing(needsLogin: bool, blocked: bool, sent: seq<Request>)

  /** What calls may do to a session, as one body of requests. */
  ghost predicate Stays(answers: nat -> Answer, calls: seq<Call>, web: Option<string>, start: Standing, now: Standing) {
    && start.sent <= now.sent
    && (start.needsLogin && NoLogin(web, calls) ==> now.needsLogin && SentWeb(start.sent, now.sent))
    && (start.blocked && NoLogin(web, calls) ==>
          && (!Passed(answers, start.sent, now.sent) ==> now.blocked)
          && RefreshesFirst(answers, start.sent, now.sent)
          && (NoChecks(calls) ==> now.blocked && SentWeb(start.sent, now.sent)))
  }

  /** A user call before any refresh succeeded or a login stored a session. */
  ghost predicate StillBlocked(answers: nat -> Answer, calls: seq<Call>, web: Option<string>, trace: seq<seq<Request>>, i: nat) {
    && i < |calls| && i < |trace|
    && UserCall(calls[i]) && NoLogin(web, calls[..i]) && !Passed(answers, trace[0], trace[i])
  }

  ghost predicate Ran(answers: nat -> Answer, calls: seq<Call>, web: Option<string>, blocked: bool, trace: seq<seq<Request>>) {
    && |trace| == |calls| + 1
    && (forall i :: 0 <= i < |calls| ==> trace[i] <= trace[i + 1])
    && (blocked ==>
          forall i :: 0 <= i < |calls| && StillBlocked(answers, calls, web, trace, i) ==> SentWeb(trace[i], trace[i + 1]))
  }

  lemma NoCalls(answers: nat -> Answer, calls: seq<Call>, web: Option<string>, start: Standing)
    ensures Stays(answers, calls[..0], web, start, start) && Ran(answers, calls[..0], web, start.blocked, [start.sent])
    ensures WebAfterAll(web, calls[..0]) == web
  {
    NothingSent(start.sent);
  }

  lemma LastCall(web: Option<string>, calls: seq<Call>, call: Call)
    ensures WebAfterAll(web, calls + [call]) == WebAfter(WebAfterAll(web, calls), call)
    ensures NoLogin(web, calls + [call]) <==> NoLogin(web, calls) && !LogsIn(WebAfterAll(web, calls), call)
    ensures NoChecks(calls + [call]) <==> NoChecks(calls) && (UserCall(call) || call.Login?)
  {
    assert (calls + [call])[..|calls|] == calls;
    if NoChecks(calls + [call]) {
      assert call in calls + [call] && forall c :: c in calls ==> c in calls + [call];
    }
  }

  /** What a single call guarantees. */
  ghost predicate Performed(answers: nat -> Answer, web: Option<string>, call: Call, before: Standing, now: Standing) {
    && before.sent <= now.sent
    && (call.Login? ==> now.sent == before.sent)
    && (before.needsLogin && !LogsIn(web, call) ==> now.needsLogin && SentWeb(before.sent, now.sent))
    && (before.blocked && !LogsIn(web, call) && !Passed(answers, before.sent, now.sent) ==> now.blocked)
    && (before.blocked && UserCall(call) ==> now.blocked && SentWeb(before.sent, now.sent))
    && (before.blocked ==> RefreshesFirst(answers, before.sent, now.sent))
  }

  lemma OneMoreCall(answers: nat -> Answer, calls: seq<Call>, call: Call, web: Option<string>,
                    start: Standing, before: Standing, now: Standing)
    requires Stays(answers, calls, web, start, before)
    requires Performed(answers, WebAfterAll(web, calls), call, before, now)
    ensures Stays(answers, calls + [call], web, start, now)
  {
    hide SentWeb, Passed, RefreshesFirst, LogsIn, WebAfterAll, NoLogin, NoChecks, UserCall;
    LastCall(web, calls, call);
    NothingSent(before.sent);
    PassedConcat(answers, start.sent, before.sent, now.sent);
    if start.blocked && NoLogin(web, calls) {
      RefreshesConcat(answers, start.sent, before.sent, now.sent);
    }
    if SentWeb(start.sent, before.sent) && SentWeb(before.sent, now.sent) {
      WebTransitive(start.sent, before.sent, now.sent);
    }
  }

  lemma OneMoreTrace(answers: nat -> Answer, calls: seq<Call>, call: Call, web: Option<string>,
                     start: Standing, before: Standing, now: Standing, trace: seq<seq<Request>>)
    requires Ran(answers, calls, web, start.blocked, trace) && trace[0] == start.sent && trace[|calls|] == before.sent
    requires Stays(answers, calls, web, start, before)
    requires Performed(answers, WebAfterAll(web, calls), call, before, now)
    ensures Ran(answers, calls + [call], web, start.blocked, trace + [now.sent])
  {
    hide SentWeb, Passed, RefreshesFirst, LogsIn, WebAfterAll, NoLogin, NoChecks, UserCall;
    var calls', trace' := calls + [call], trace + [now.sent];
    assert calls'[..|calls|] == calls;
    forall i | 0 <= i < |calls'| && start.blocked && StillBlocked(answers, calls', web, trace', i)
      ensures SentWeb(trace'[i], trace'[i + 1])
    {
      if i < |calls| {
        assert calls'[..i] == calls[..i] && calls'[i] == calls[i];
        assert StillBlocked(answers, calls, web, trace, i);
      }
    }
  }

  /** Requests of refreshes only until one succeeds, over two parts: at the end of
      the first part one has succeeded, or the session is still blocked. */
  lemma RefreshesConcat(answers: nat -> Answer, a: seq<Request>, b: seq<Request>, c: seq<Request>)
    requires a <= b <= c && RefreshesFirst(answers, a, b)
    requires Passed(answers, a, b) || RefreshesFirst(answers, b, c)
    ensures RefreshesFirst(answers, a, c)
  {
    hide Passed;
    forall i | |a| <= i < |c| && c[i].channel == Account && !Passed(answers, a, c[..i])
      ensures c[i] in REFRESHING
    {
      if i < |b| {
        assert c[i] == b[i] && c[..i] == b[..i];
      } else {
        assert b <= c[..i];
        PassedConcat(answers, a, b, c[..i]);
      }
    }
  }

  lemma AllCalls(answers: nat -> Answer, calls: seq<Call>, web: Option<string>, start: Standing, now: Standing,
                 trace: seq<seq<Request>>)
    requires Stays(answers, calls, web, start, now) && Ran(answers, calls, web, start.blocked, trace)
    ensures |trace| == |calls| + 1
    ensures forall i :: 0 <= i < |calls| ==> trace[i] <= trace[i + 1]
    ensures start.needsLogin && NoLogin(web, calls) ==> now.needsLogin && SentWeb(start.sent, now.sent)
    ensures start.blocked && NoLogin(web, calls) ==>
      && (!Passed(answers, start.sent, now.sent) ==> now.blocked)
      && RefreshesFirst(answers, start.sent, now.sent)
      && (NoChecks(calls) ==> now.blocked && SentWeb(start.sent, now.sent))
    ensures start.blocked ==>
      forall i :: 0 <= i < |calls| && StillBlocked(answers, calls, web, trace, i) ==> SentWeb(trace[i], trace[i + 1])
  {
    hide SentWeb, Passed, RefreshesFirst, NoLogin, NoChecks, StillBlocked;
  }

  // ---- Parts of a call ----

  lemma AskedWebMore(answers: nat -> Answer, before: seq<Request>, after: seq<Request>)
    requires AskedWeb(answers, before, after)
    ensures before <= after && after != before
  {
  }

  /** The web part, the refresh and the list of a full check. */
  lemma CheckParts(answers: nat -> Answer, web: bool, start: seq<Request>, first: seq<Request>, second: seq<Request>, now: seq<Request>)
    requires first == start + if web then [WEB_LIST] else []
    requires SentAll(first, second, REFRESHING) && first <= second <= now
    ensures start <= now && first <= now
    ensures second != first ==> AccountRequests(now) > AccountRequests(start)
    ensures Passed(answers, first, second) ==> Passed(answers, start, now) && RefreshesFirst(answers, start, now)
    ensures now == second || now == second + [WEB_LIST] ==>
      && RefreshesFirst(answers, start, now) && (Passed(answers, start, now) ==> Passed(answers, first, second))
      && (second == first ==> SentWeb(start, now))
    ensures now == second ==> SentAll(first, now, REFRESHING)
  {
    hide AccountRequests;
    WebCount(start, first);
    RefreshingIsHarmless(first, second);
    HarmlessCount(first, second);
    AccountGrows(second, now);
    PassedConcat(answers, start, first, second);
    PassedConcat(answers, start, second, now);
    WebQuiet(answers, start, first);
    OnlyRefreshes(answers, first, second);
    RefreshesConcat(answers, start, first, second);
    if now == second || now == second + [WEB_LIST] {
      OneWeb(second, WEB_LIST);
      NothingSent(second);
      WebQuiet(answers, second, now);
    }
    if Passed(answers, first, second) || now == second || now == second + [WEB_LIST] {
      RefreshesConcat(answers, start, second, now);
    }
    if second == first && SentWeb(second, now) {
      WebTransitive(start, first, now);
    }
  }

  lemma OnlyRefreshes(answers: nat -> Answer, before: seq<Request>, after: seq<Request>)
    requires SentAll(before, after, REFRESHING)
    ensures RefreshesFirst(answers, before, after)
  {
    hide Passed;
  }

  lemma WebQuiet(answers: nat -> Answer, before: seq<Request>, after: seq<Request>)
    ensures SentWeb(before, after) ==> RefreshesFirst(answers, before, after)
  {
    hide Passed;
  }

  lemma OneWeb(sent: seq<Request>, request: Request)
    requires request.channel == Web
    ensures SentWeb(sent, sent + [request])
  {
  }

  /** A time that was read after a new request. */
  ghost predicate NotedBetween(clock: nat -> int, before: seq<Request>, after: seq<Request>, time: Option<int>) {
    exists k: nat :: |before| < k <= |after| && time == Some(clock(k))
  }

  /** After requests to the Apple Account channel, whatever follows. */
  lemma AccountAsked(clock: nat -> int, before: seq<Request>, at: seq<Request>)
    requires SentHarmless(before, at) && |at| > |before|
    ensures before <= at
    ensures forall after :: at <= after ==> !SentWeb(before, after)
    ensures forall after :: at <= after ==> NotedBetween(clock, before, after, Some(clock(|at|)))
  {
    forall after | at <= after
      ensures !SentWeb(before, after) && NotedBetween(clock, before, after, Some(clock(|at|)))
    {
      assert after[|before|] == at[|before|];
      NotedAt(clock, before, at, after);
    }
  }

  lemma NotedLater(clock: nat -> int, start: seq<Request>, first: seq<Request>, second: seq<Request>, now: seq<Request>, time: Option<int>)
    requires SentWeb(start, first) && start <= first && SentAll(first, second, REFRESHING) && first <= second <= now
    ensures second != first ==> !SentWeb(start, now) && NotedBetween(clock, start, now, Some(clock(|second|)))
    ensures !SentWeb(second, now) ==> !SentWeb(start, now)
    ensures second == first && SentWeb(second, now) ==> SentWeb(start, now)
    ensures NotedBetween(clock, second, now, time) ==> NotedBetween(clock, start, now, time)
  {
    RefreshingIsHarmless(first, second);
    if second != first {
      assert now[|first|] == second[|first|];
      NotedAt(clock, start, second, now);
    } else if SentWeb(second, now) {
      WebTransitive(start, first, now);
    }
  }

  lemma NotedAt(clock: nat -> int, before: seq<Request>, at: seq<Request>, after: seq<Request>)
    requires |before| < |at| <= |after|
    ensures NotedBetween(clock, before, after, Some(clock(|at|)))
  {
  }

  predicate SaysExpired(answer: Answer) {
    var outcome := WebOutcome(answer);
    outcome.Failed? && outcome.error.Protocol? && outcome.error.code == Expired
  }

  /** A check sends a refresh: there is a session that does not need a login and
      is of the web login's account, and it is forced, unhealthy or due. */
  predicate Tries(account: Option<Stored>, web: Option<string>, force: bool, now: int) {
    && account.Some? && account.value.cookies != [] && account.value.info.health != ReauthRequired
    && SameAccount(WebId(web), account.value.info.appleId)
    && (force || !HealthyForUse(account.value, now) || NeedsRefresh(account.value.info, now))
  }

  function WebId(web: Option<string>): string {
    if web.Some? then web.value else ""
  }

  /** Nothing but the health and the times of a session differ. */
  ghost predicate OnlyHealth(before: Stored, after: Stored) {
    after == before.(info := before.info.(health := after.info.health, lastCheckOk := after.info.lastCheckOk,
                                          lastCheckedAt := after.info.lastCheckedAt, lastAttemptAt := after.info.lastAttemptAt))
  }

  lemma {:induction false} AccountGrows(before: seq<Request>, after: seq<Request>)
    requires before <= after
    ensures AccountRequests(after) >= AccountRequests(before)
    decreases |after|
  {
    if |after| > |before| {
      AccountGrows(before, after[..|after| - 1]);
    } else {
      assert after == before;
    }
  }
}
