/** Operations on addresses through an Apple Account session. */
module AppleCreate {
  import opened Wrappers
  import opened CookieJar
  import opened AppleUpstream
  import opened AppleAccount

  datatype Alias = Alias(address: string, id: string, detailConfirmed: bool)

  /** A healthy session has passed its last check. */
  ghost predicate Consistent(info: Info) {
    info.health == Healthy ==> info.lastCheckOk
  }

  /** What an operation hands back: a valid session of its own, with the cookies
      in one piece. */
  twostate predicate HandedBack(given: AccountState, new updated: AccountState)
    requires old(given.Valid())
    reads updated, updated.cookies.data
  {
    && fresh(updated) && updated.Valid()
    && (updated.cookies.data == old(given.cookies.data) || fresh(updated.cookies.data))
    && (OnePerKey(old(given.Jar())) ==> OnePerKey(updated.Jar()))
    && (Consistent(old(given.info)) ==> Consistent(updated.info))
  }

  function FirstNonEmpty(a: string, b: string): string {
    if a != "" then a else b
  }

  /** The alias that the answers describe: the address and identifier of the accepted
      answer to the confirmation at `at`, which was for the candidate asked for just
      before; the candidate stands in for an address left out, and an answer to
      the look-up behind it takes precedence. */
  ghost predicate MadeAt(answers: nat -> Answer, sent: seq<Request>, at: nat, alias: Alias) {
    && 0 < at < |sent|
    && sent[at - 1] == Request(Account, POST, ADD, "") && Understood(answers(at - 1), true)
    && var candidate := Seen(answers(at - 1)).email;
    && candidate != "" && sent[at] == Request(Account, PUT, COMPLETE, candidate) && Understood(answers(at), true)
    && var completed := Seen(answers(at));
       var address := if completed.email != "" then completed.email else candidate;
       if completed.id == "" then |sent| == at + 1 && alias == Alias(address, "", false)
       else
         && at + 1 < |sent|
         && (forall i :: at < i < |sent| ==>
              sent[i] == Request(Account, GET, "/account/manage/email/private/" + completed.id + ".em", ""))
         && if Understood(answers(|sent| - 1), true) then
              var detail := Seen(answers(|sent| - 1));
              alias == Alias(if detail.email != "" then detail.email else address,
                             if detail.id != "" then detail.id else completed.id, true)
            else alias == Alias(address, completed.id, false)
  }

  /** By a confirmation that was sent since. */
  ghost predicate MadeBy(answers: nat -> Answer, before: seq<Request>, after: seq<Request>, alias: Alias) {
    exists at :: |before| < at && MadeAt(answers, after, at, alias)
  }

  /** Only Apple Account requests, and a returned alias is the one that they made. */
  ghost predicate Creates(answers: nat -> Answer, before: seq<Request>, after: seq<Request>, alias: Option<Alias>) {
    SentAccount(before, after) && (alias.Some? ==> MadeBy(answers, before, after, alias.value))
  }

  lemma CreatesLater(answers: nat -> Answer, before: seq<Request>, later: seq<Request>, after: seq<Request>,
                     first: Option<Alias>, alias: Option<Alias>)
    requires Creates(answers, before, later, first) && Creates(answers, later, after, alias)
    ensures Creates(answers, before, after, alias)
  {
    hide MadeAt;
    AccountTransitive(before, later, after);
  }

  lemma CreatesNone(answers: nat -> Answer, before: seq<Request>, after: seq<Request>)
    requires SentAccount(before, after)
    ensures Creates(answers, before, after, None)
  {
  }

  /** One attempt: a candidate, its confirmation, and the details. The error says
      truthfully whether the confirmation was sent. */
  method CreateWithState(upstream: Upstream, given: AccountState)
    returns (alias: Option<Alias>, updated: AccountState, error: Option<Error>)
    requires given.Valid()
    modifies upstream
    ensures HandedBack(given, updated) && (alias.Some? <==> error.None?)
    ensures error.Some? ==> updated.info.health == given.info.health
    ensures Creates(upstream.answers, old(upstream.sent), upstream.sent, alias)
    ensures |upstream.sent| > |old(upstream.sent)|
    ensures old(upstream.sent) <= upstream.sent
    ensures Confirmations(upstream.sent) == Confirmations(old(upstream.sent))
              + if error.None? || MayHaveCreated(error.value) then 1 else 0
  {
    hide OnePerKey, SentHarmless, SentOnly, SentAccount, Confirmations, Merged, AcceptedIn, Accepts, Understood, Seen, MadeBy, Detailed;
    ghost var start := upstream.sent;
    var state := new AccountState(given.info, given.cookies);
    var generated := AccountRequest(upstream, state, POST, ADD, "", true);
    ghost var first := upstream.sent;
    HarmlessCount(start, first);
    OnlyLast(start, first, Request(Account, POST, ADD, ""), MAX_ATTEMPTS);
    if generated.Failed? {
      return None, state, Some(generated.error);
    }
    var candidate := generated.body.email;
    if candidate == "" {
      return None, state, Some(Protocol(GenerateEmpty, true, false));
    }
    var made, uncertain := Complete(upstream, state, candidate);
    ghost var second := upstream.sent;
    AccountTransitive(start, first, second);
    if uncertain.Some? {
      return None, state, uncertain;
    }
    var full := ReadDetails(upstream, state, made);
    AccountTransitive(start, second, upstream.sent);
    MadeTogether(upstream.answers, start, first, second, upstream.sent, made, full);
    return Some(full), state, None;
  }

  /** The confirmation, sent once. Any failure of it may have created the address. */
  method Complete(upstream: Upstream, state: AccountState, candidate: string) returns (made: Alias, error: Option<Error>)
    requires state.Valid()
    modifies upstream, state
    ensures state.Valid() && (state.cookies.data == old(state.cookies.data) || fresh(state.cookies.data))
    ensures OnePerKey(old(state.Jar())) ==> OnePerKey(state.Jar())
    ensures state.info == old(state.info).(scnt := state.info.scnt, sessionId := state.info.sessionId)
    ensures upstream.sent == old(upstream.sent) + [Request(Account, PUT, COMPLETE, candidate)]
    ensures SentAccount(old(upstream.sent), upstream.sent)
    ensures Confirmations(upstream.sent) == Confirmations(old(upstream.sent)) + 1
    ensures if error.Some? then MayHaveCreated(error.value)
            else var answer := upstream.answers(|old(upstream.sent)|);
                 Understood(answer, true) && made == Alias(FirstNonEmpty(Seen(answer).email, candidate), Seen(answer).id, false)
  {
    hide OnePerKey, SentHarmless, SentOnly, SentAccount, Confirmations, Merged, AcceptedIn, Accepts, Understood, Seen;
    var completed := AccountRequest(upstream, state, PUT, COMPLETE, candidate, true);
    ConfirmedOnce(old(upstream.sent), upstream.sent, Request(Account, PUT, COMPLETE, candidate));
    OnlyLast(old(upstream.sent), upstream.sent, Request(Account, PUT, COMPLETE, candidate), 1);
    if completed.Failed? {
      return Alias("", "", false),
             Some(if completed.error.Protocol? then completed.error.(mayHaveCreated := true)
                  else Protocol(CreateUncertain, true, true));
    }
    return Alias(FirstNonEmpty(completed.body.email, candidate), completed.body.id, false), None;
  }

  /** What the three parts of an attempt sent. */
  lemma MadeTogether(answers: nat -> Answer, start: seq<Request>, first: seq<Request>, second: seq<Request>, now: seq<Request>,
                     made: Alias, full: Alias)
    requires |start| < |first| && first[|first| - 1] == Request(Account, POST, ADD, "") && Understood(answers(|first| - 1), true)
    requires var candidate := Seen(answers(|first| - 1)).email;
             && candidate != "" && second == first + [Request(Account, PUT, COMPLETE, candidate)]
             && Understood(answers(|first|), true)
             && made == Alias(FirstNonEmpty(Seen(answers(|first|)).email, candidate), Seen(answers(|first|)).id, false)
    requires Detailed(answers, second, now, made, full)
    ensures MadeBy(answers, start, now, full)
  {
    hide Understood, Seen;
    assert second <= now;
    assert now[|first|] == second[|first|] && now[|first| - 1] == second[|first| - 1] == first[|first| - 1];
    assert MadeAt(answers, now, |first|, full);
  }

  /** The details of an address as they were looked up, or as they were. */
  ghost predicate Detailed(answers: nat -> Answer, before: seq<Request>, after: seq<Request>, made: Alias, full: Alias) {
    && before <= after
    && if made.id == "" then after == before && full == made
       else
         && |before| < |after| && (forall i :: |before| <= i < |after| ==> after[i] == Request(Account, GET, DetailPath(made.id), ""))
         && if Understood(answers(|after| - 1), true) then
              var detail := Seen(answers(|after| - 1));
              full == Alias(FirstNonEmpty(detail.email, made.address), FirstNonEmpty(detail.id, made.id), true)
            else full == made
  }

  /** Reads back the details of an address that exists. A failure does not undo it;
      only an answer that demands a login shows in the session. */
  method ReadDetails(upstream: Upstream, state: AccountState, made: Alias) returns (alias: Alias)
    requires state.Valid()
    modifies upstream, state
    ensures state.Valid() && (state.cookies.data == old(state.cookies.data) || fresh(state.cookies.data))
    ensures OnePerKey(old(state.Jar())) ==> OnePerKey(state.Jar())
    ensures Consistent(state.info) && (state.info.health == Healthy || state.info.health == ReauthRequired)
    ensures old(upstream.sent) <= upstream.sent && Confirmations(upstream.sent) == Confirmations(old(upstream.sent))
    ensures Detailed(upstream.answers, old(upstream.sent), upstream.sent, made, alias)
    ensures SentAccount(old(upstream.sent), upstream.sent)
  {
    hide OnePerKey, SentHarmless, SentOnly, SentAccount, Confirmations, Merged, AcceptedIn, Accepts, Understood, Seen;
    NothingSent(upstream.sent);
    alias := made;
    if made.id != "" {
      var confirmed := AccountRequest(upstream, state, GET, DetailPath(made.id), "", true);
      OnlyLast(old(upstream.sent), upstream.sent, Request(Account, GET, DetailPath(made.id), ""), MAX_ATTEMPTS);
      HarmlessCount(old(upstream.sent), upstream.sent);
      if confirmed.Done? {
        alias := Alias(FirstNonEmpty(confirmed.body.email, made.address), FirstNonEmpty(confirmed.body.id, made.id), true);
      } else if RequiresReauth(confirmed.error) {
        state.info := MarkedFailure(state.info, Some(confirmed.error), upstream.Now());
        return;
      }
    }
    state.info := MarkedHealthy(state.info, upstream.Now());
  }

  function DetailPath(id: string): string {
    "/account/manage/email/private/" + id + ".em"
  }

  /** Creates an address, if need be after a refresh. Only a session that expired
      before the confirmation was sent is refreshed for a second attempt. */
  method CreateWithAccount(upstream: Upstream, given: AccountState)
    returns (alias: Option<Alias>, updated: AccountState, error: Option<Error>)
    requires given.Valid()
    modifies upstream
    ensures HandedBack(given, updated) && (alias.Some? <==> error.None?)
    ensures old(upstream.sent) <= upstream.sent
    ensures Confirmations(upstream.sent) == Confirmations(old(upstream.sent))
              + if error.None? || MayHaveCreated(error.value) then 1 else 0
    ensures Creates(upstream.answers, old(upstream.sent), upstream.sent, alias)
    ensures given.cookies.len > 0 && given.info.health != ReauthRequired && given.info.health != DegradedState ==>
              |upstream.sent| > |old(upstream.sent)|
    ensures given.info.health == ReauthRequired || given.info.health == DegradedState ==>
              upstream.sent == old(upstream.sent) && error.Some? && updated.info.health == given.info.health
    ensures given.info.health != DegradedState && error.Some? ==>
              (updated.info.health == DegradedState <==> Degrades(error.value))
  {
    hide OnePerKey, SentHarmless, SentAccount, Confirmations, SentAll, Passed, Creates;
    ghost var start := upstream.sent;
    var state := new AccountState(given.info, given.cookies);
    var refreshedBeforeCreate;
    refreshedBeforeCreate, error := BeforeCreate(upstream, state);
    if error.Some? {
      state.info := MarkedFailure(state.info, error, upstream.Now());
      return None, state, error;
    }
    ghost var first := upstream.sent;
    alias, updated, error := CreateWithState(upstream, state);
    ghost var second := upstream.sent;
    CreatesLater(upstream.answers, start, first, second, None, alias);
    if error.None? || refreshedBeforeCreate || !ExpiredBeforeConfirmation(error.value) {
      updated.info := MarkedFailure(updated.info, error, upstream.Now());
      return;
    }
    ghost var nothing := alias;
    alias, updated, error := CreateAgain(upstream, updated);
    CreatesLater(upstream.answers, start, second, upstream.sent, nothing, alias);
  }

  /** A session that needs a login or is degraded is not used; one that is due is
      refreshed. */
  method BeforeCreate(upstream: Upstream, state: AccountState) returns (refreshed: bool, error: Option<Error>)
    requires state.Valid()
    modifies upstream, state
    ensures state.Valid() && (state.cookies.data == old(state.cookies.data) || fresh(state.cookies.data))
    ensures OnePerKey(old(state.Jar())) ==> OnePerKey(state.Jar())
    ensures Consistent(old(state.info)) ==> Consistent(state.info)
    ensures error.Some? ==> Untouched(state) && !MayHaveCreated(error.value)
    ensures old(upstream.sent) <= upstream.sent && Confirmations(upstream.sent) == Confirmations(old(upstream.sent))
    ensures Creates(upstream.answers, old(upstream.sent), upstream.sent, None)
    ensures old(state.cookies.len) > 0 && error.Some? && old(state.info.health) != ReauthRequired && old(state.info.health) != DegradedState ==>
              |upstream.sent| > |old(upstream.sent)|
    ensures old(state.info.health) == ReauthRequired ==> error == Some(Protocol(Expired, false, false)) && upstream.sent == old(upstream.sent)
    ensures old(state.info.health) == DegradedState ==> error == Some(Protocol(Degraded, true, false)) && upstream.sent == old(upstream.sent)
    ensures error.None? ==> state.info.health != DegradedState
  {
    hide OnePerKey, SentHarmless, SentAccount, Confirmations, SentAll, Passed, NeedsRefresh, Creates;
    NothingSent(upstream.sent);
    CreatesNone(upstream.answers, upstream.sent, upstream.sent);
    if state.info.health == ReauthRequired {
      return false, Some(Protocol(Expired, false, false));
    }
    if state.info.health == DegradedState {
      return false, Some(Protocol(Degraded, true, false));
    }
    if !NeedsRefresh(state.info, upstream.Now()) {
      return false, None;
    }
    error := Refresh(upstream, state);
    HarmlessCount(old(upstream.sent), upstream.sent);
    CreatesNone(upstream.answers, old(upstream.sent), upstream.sent);
    refreshed := true;
  }

  /** The second attempt, after a refresh. */
  method CreateAgain(upstream: Upstream, state: AccountState)
    returns (alias: Option<Alias>, updated: AccountState, error: Option<Error>)
    requires state.Valid()
    modifies upstream, state
    ensures updated.Valid() && (updated == state || fresh(updated))
    ensures updated.cookies.data == old(state.cookies.data) || fresh(updated.cookies.data)
    ensures OnePerKey(old(state.Jar())) ==> OnePerKey(updated.Jar())
    ensures Consistent(old(state.info)) ==> Consistent(updated.info)
    ensures alias.Some? <==> error.None?
    ensures Creates(upstream.answers, old(upstream.sent), upstream.sent, alias)
    ensures old(state.info.health) != DegradedState && error.Some? ==>
              (updated.info.health == DegradedState <==> Degrades(error.value))
    ensures old(upstream.sent) <= upstream.sent
    ensures Confirmations(upstream.sent) == Confirmations(old(upstream.sent))
              + if error.None? || MayHaveCreated(error.value) then 1 else 0
  {
    hide OnePerKey, SentHarmless, SentAccount, Confirmations, SentAll, Passed, Creates;
    ghost var start := upstream.sent;
    error := Refresh(upstream, state);
    CreatesNone(upstream.answers, start, upstream.sent);
    HarmlessCount(old(upstream.sent), upstream.sent);
    if error.Some? {
      state.info := MarkedFailure(state.info, error, upstream.Now());
      return None, state, error;
    }
    ghost var first := upstream.sent;
    alias, updated, error := CreateWithState(upstream, state);
    CreatesLater(upstream.answers, start, first, upstream.sent, None, alias);
    updated.info := MarkedFailure(updated.info, error, upstream.Now());
  }

  /** A quota answer is no sign of a broken session; an expired one needs a login. */
  predicate Degrades(error: Error) {
    !RequiresReauth(error) && !(error.Protocol? && error.code == Limit)
  }

  predicate ExpiredBeforeConfirmation(error: Error) {
    error.Protocol? && error.code == Expired && !error.mayHaveCreated
  }

  // ---- The other operations ----

  datatype Operation = List | Update(id: string) | SetActive(id: string, active: bool) | Delete(id: string)

  function MethodOf(operation: Operation): Method {
    match operation
    case List => GET
    case Update(_) => POST
    case SetActive(_, active) => if active then POST else DELETE
    case Delete(_) => DELETE
  }

  function PathOf(operation: Operation): string {
    match operation
    case List => "/account/manage/email/private"
    case Update(id) => "/account/manage/email/private/" + id + "/note"
    case SetActive(id, active) => "/account/manage/email/private/" + id + if active then "/reactivate" else "/stop"
    case Delete(id) => "/account/manage/email/private/" + id + "/remove"
  }

  function RequestOf(operation: Operation): Request {
    Request(Account, MethodOf(operation), PathOf(operation), "")
  }

  /** The request of each operation. */
  lemma OperationRequests(id: string)
    ensures RequestOf(List) == Request(Account, GET, "/account/manage/email/private", "")
    ensures RequestOf(Update(id)) == Request(Account, POST, "/account/manage/email/private/" + id + "/note", "")
    ensures RequestOf(SetActive(id, true)) == Request(Account, POST, "/account/manage/email/private/" + id + "/reactivate", "")
    ensures RequestOf(SetActive(id, false)) == Request(Account, DELETE, "/account/manage/email/private/" + id + "/stop", "")
    ensures RequestOf(Delete(id)) == Request(Account, DELETE, "/account/manage/email/private/" + id + "/remove", "")
  {
  }

  /** After the requests of a refresh, if any: the request of the operation, once, or
      up to three times for a list. */
  ghost predicate Asked(before: seq<Request>, after: seq<Request>, operation: Operation) {
    exists ready ::
      SentAll(before, ready, REFRESHING) && SentOnly(ready, after, RequestOf(operation), if operation.List? then MAX_ATTEMPTS else 1)
  }

  /** Fails without a request unless the session may be used; refreshes it when due. */
  method EnsureReady(upstream: Upstream, state: AccountState) returns (error: Option<Error>)
    requires state.Valid()
    modifies upstream, state
    ensures state.Valid()
    ensures error.Some? ==> Untouched(state)
    ensures state.cookies.data == old(state.cookies.data) || fresh(state.cookies.data)
    ensures OnePerKey(old(state.Jar())) ==> OnePerKey(state.Jar())
    ensures Consistent(old(state.info)) ==> Consistent(state.info)
    ensures SentHarmless(old(upstream.sent), upstream.sent) && SentAll(old(upstream.sent), upstream.sent, REFRESHING)
    ensures old(state.cookies.len) > 0 && old(state.info.health) != ReauthRequired && old(state.info.health) != DegradedState ==>
              error.None? || |upstream.sent| > |old(upstream.sent)|
    ensures old(state.info.health) == ReauthRequired || old(state.info.health) == DegradedState ==>
              error.Some? && upstream.sent == old(upstream.sent)
    ensures old(state.info.health) == ReauthRequired ==> RequiresReauth(error.value)
    ensures old(state.info.health) == DegradedState ==> RequiresReauth(error.value) || error == Some(Protocol(Degraded, true, false))
    ensures error.None? ==> state.info.health != DegradedState
  {
    hide OnePerKey, SentHarmless, SentAll, SentOnly, Passed, Merged, AcceptedIn, Accepts;
    NothingSent(upstream.sent);
    if state.cookies.len == 0 {
      return Some(Protocol(SessionMissing, false, false));
    }
    if state.info.health == ReauthRequired {
      return Some(Protocol(Expired, false, false));
    }
    if state.info.health == DegradedState {
      return Some(Protocol(Degraded, true, false));
    }
    if !NeedsRefresh(state.info, upstream.Now()) {
      return None;
    }
    error := Refresh(upstream, state);
  }

  /** Only a new login helps: the session expired, is of another account or missing. */
  predicate EndsLogin(error: Error) {
    match error
    case Protocol(code, _, _) => code == Expired || code == Mismatch || code == SessionMissing
    case Transport(_, _) => false
  }

  predicate IsQuota(error: Error) {
    match error
    case Protocol(code, _, _) => code == Limit
    case Transport(_, _) => false
  }

  /** What a failure notes in the session. */
  lemma FailureMarks(info: Info, error: Error, now: int)
    ensures var marked := MarkedFailure(info, Some(error), now);
            && marked.lastAttemptAt == Some(now)
            && (EndsLogin(error) ==> marked.health == ReauthRequired && !marked.lastCheckOk)
            && (IsQuota(error) ==> marked.health == info.health && marked.lastCheckOk == info.lastCheckOk)
            && (!EndsLogin(error) && !IsQuota(error) ==> marked.health == DegradedState && marked.lastCheckOk == info.lastCheckOk)
    ensures RequiresReauth(error) <==> EndsLogin(error)
  {
  }

  method Operate(upstream: Upstream, given: AccountState, operation: Operation)
    returns (updated: AccountState, error: Option<Error>)
    requires given.Valid()
    modifies upstream
    ensures HandedBack(given, updated)
    ensures SentHarmless(old(upstream.sent), upstream.sent)
    ensures updated.info.lastAttemptAt == Some(upstream.Now())
    ensures error.None? ==>
      Asked(old(upstream.sent), upstream.sent, operation) && Understood(upstream.answers(|upstream.sent| - 1), operation.List?)
    ensures error.Some? ==>
      || SentAll(old(upstream.sent), upstream.sent, REFRESHING)
      || (Asked(old(upstream.sent), upstream.sent, operation) && !Understood(upstream.answers(|upstream.sent| - 1), operation.List?))
    ensures given.cookies.len > 0 && given.info.health != ReauthRequired && given.info.health != DegradedState ==>
              |upstream.sent| > |old(upstream.sent)|
    ensures error.None? ==> updated.info.health == Healthy && updated.info.lastCheckOk
    ensures error.Some? ==>
      && (updated.info.health == DegradedState <==> !EndsLogin(error.value) && !IsQuota(error.value))
      && (EndsLogin(error.value) ==> updated.info.health == ReauthRequired && !updated.info.lastCheckOk)
    ensures given.info.health == ReauthRequired ==>
              upstream.sent == old(upstream.sent) && error.Some? && updated.info.health == ReauthRequired
  {
    hide OnePerKey, SentHarmless, SentAll, SentOnly, Passed, Understood, Asked, MarkedFailure, EndsLogin, RequiresReauth;
    updated := new AccountState(given.info, given.cookies);
    error := EnsureReady(upstream, updated);
    if error.Some? {
      FailureMarks(updated.info, error.value, upstream.Now());
      updated.info := MarkedFailure(updated.info, error, upstream.Now());
      return;
    }
    ghost var first := upstream.sent;
    error := Send(upstream, updated, operation);
    HarmlessTransitive(old(upstream.sent), first, upstream.sent);
    AskedNow(old(upstream.sent), first, upstream.sent, operation);
  }

  /** The request of an operation, and what its outcome notes in the session. */
  method Send(upstream: Upstream, state: AccountState, operation: Operation) returns (error: Option<Error>)
    requires state.Valid() && state.info.health != DegradedState
    modifies upstream, state
    ensures state.Valid() && (state.cookies.data == old(state.cookies.data) || fresh(state.cookies.data))
    ensures OnePerKey(old(state.Jar())) ==> OnePerKey(state.Jar())
    ensures Consistent(old(state.info)) ==> Consistent(state.info)
    ensures |upstream.sent| > |old(upstream.sent)| && SentHarmless(old(upstream.sent), upstream.sent)
    ensures SentOnly(old(upstream.sent), upstream.sent, RequestOf(operation),
                     if Retryable(MethodOf(operation), PathOf(operation)) then MAX_ATTEMPTS else 1)
    ensures error.None? <==> Understood(upstream.answers(|upstream.sent| - 1), operation.List?)
    ensures state.info.lastAttemptAt == Some(upstream.Now())
    ensures error.None? ==> state.info.health == Healthy && state.info.lastCheckOk
    ensures error.Some? ==>
      && (state.info.health == DegradedState <==> !EndsLogin(error.value) && !IsQuota(error.value))
      && (EndsLogin(error.value) ==> state.info.health == ReauthRequired && !state.info.lastCheckOk)
  {
    hide OnePerKey, SentHarmless, SentAccount, SentOnly, Merged, AcceptedIn, Accepts, Understood, Seen, MarkedFailure, EndsLogin, IsQuota,
      RequiresReauth;
    var outcome := AccountRequest(upstream, state, MethodOf(operation), PathOf(operation), "", operation.List?);
    if outcome.Failed? {
      FailureMarks(state.info, outcome.error, upstream.Now());
      state.info := MarkedFailure(state.info, Some(outcome.error), upstream.Now());
      return Some(outcome.error);
    }
    state.info := MarkedHealthy(state.info, upstream.Now());
    error := None;
  }

  lemma AskedNow(before: seq<Request>, ready: seq<Request>, after: seq<Request>, operation: Operation)
    requires SentAll(before, ready, REFRESHING)
    requires SentOnly(ready, after, RequestOf(operation),
                      if Retryable(MethodOf(operation), PathOf(operation)) then MAX_ATTEMPTS else 1)
    ensures Asked(before, after, operation)
  {
    hide SentAll;
    match operation {
      case Update(id) =>
        NoteIsNotAdd("/account/manage/email/private/", id, "/note");
      case SetActive(id, active) =>
        NoteIsNotAdd("/account/manage/email/private/", id, "/reactivate");
      case _ =>
    }
  }

  /** A path with such an end is not the one of a candidate. */
  lemma NoteIsNotAdd(front: string, id: string, end: string)
    requires |end| >= 3 && end[|end| - 1] != 'd'
    ensures front + id + end != ADD
  {
    var path := front + id + end;
    assert path[|path| - 1] == end[|end| - 1];
    assert ADD[|ADD| - 1] == 'd';
  }
}
