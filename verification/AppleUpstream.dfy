/** Requests to Apple, the answers to them, and bounded retries. The answers, the
    clock and cancellation are arbitrary functions of how many requests were sent. */
module AppleUpstream {
  import opened Wrappers
  import opened CookieJar

  datatype Channel = Account | Web
  datatype Method = GET | HEAD | POST | PUT | DELETE
  /** A request; `subject` is the address or identifier that its body names, if any. */
  datatype Request = Request(channel: Channel, method': Method, path: string, subject: string)

  /** What is read from a response body. */
  datatype Body = Body(saysLimit: bool, saysExpired: bool, reportsFailure: bool, empty: bool, parses: bool,
                       timeout: int, apiKey: string, email: string, id: string)

  datatype Reply = Reply(status: int, host: string, scnt: string, sessionId: string, cookies: seq<SetCookie>, body: Body)

  datatype Answer =
    | NoAnswer(transient: bool, cancelled: bool)
    | Unreadable(transient: bool, cancelled: bool)
    | Answered(reply: Reply)

  datatype Code =
    | Expired | Mismatch | SessionMissing | Limit | Degraded | BadResponse | ApiKeyMissing
    | GenerateEmpty | CreateUncertain | AccountError | WebCooldown | SessionAbsent

  datatype Error =
    | Protocol(code: Code, retryable: bool, mayHaveCreated: bool)
    | Transport(transient: bool, cancelled: bool)

  datatype HttpResult = Received(reply: Reply) | HttpFailed(error: Error)

  const MAX_ATTEMPTS := 3

  const ADD := "/account/manage/email/private/add"
  const COMPLETE := "/account/manage/email/private/add/complete"
  const WEB_RESERVE := "/v1/hme/reserve"

  /** The requests that create an address. */
  predicate Confirms(request: Request) {
    (request.channel == Account && request.method' == PUT && request.path == COMPLETE)
    || (request.channel == Web && request.path == WEB_RESERVE)
  }

  function Confirmations(sent: seq<Request>): nat {
    if sent == [] then 0
    else Confirmations(sent[..|sent| - 1]) + if Confirms(sent[|sent| - 1]) then 1 else 0
  }

  function AccountRequests(sent: seq<Request>): nat {
    if sent == [] then 0
    else AccountRequests(sent[..|sent| - 1]) + if sent[|sent| - 1].channel == Account then 1 else 0
  }

  // ---- What was sent between two moments ----

  /** One to `most` copies of a request were sent. */
  ghost predicate SentOnly(before: seq<Request>, after: seq<Request>, request: Request, most: nat) {
    && |before| < |after| <= |before| + most && after[..|before|] == before
    && forall i :: |before| <= i < |after| ==> after[i] == request
  }

  /** Any number of Apple Account requests that create nothing. */
  ghost predicate SentHarmless(before: seq<Request>, after: seq<Request>) {
    && |before| <= |after| && after[..|before|] == before
    && forall i :: |before| <= i < |after| ==> after[i].channel == Account && !Confirms(after[i])
  }

  /** Only requests of the Apple Account channel. */
  ghost predicate SentAccount(before: seq<Request>, after: seq<Request>) {
    && before <= after
    && forall i :: |before| <= i < |after| ==> after[i].channel == Account
  }

  /** Only requests of the web channel. */
  ghost predicate SentWeb(before: seq<Request>, after: seq<Request>) {
    && |before| <= |after| && after[..|before|] == before
    && forall i :: |before| <= i < |after| ==> after[i].channel == Web
  }

  /** Only requests of the given kinds. */
  ghost predicate SentAll(before: seq<Request>, after: seq<Request>, kinds: set<Request>) {
    && |before| <= |after| && after[..|before|] == before
    && forall i :: |before| <= i < |after| ==> after[i] in kinds
  }

  // ---- The requests of a refresh ----

  const TOKEN := "/account/manage/gs/ws/token"
  const MANAGE := "/account/manage"
  const PRIVACY := "/account/manage/section/privacy"
  const PORTAL := "/bootstrap/portal"
  const FORWARD := "/account/manage/forwardemail"
  const JS_LOGS := "/v2/jslogs"

  /** What a refresh asks for before its check. */
  const PREPARING := {Request(Account, GET, TOKEN, ""), Request(Account, GET, MANAGE, ""),
                      Request(Account, GET, PRIVACY, ""), Request(Account, GET, PORTAL, "")}
  /** The check of record that ends a refresh, and the log entry after it. */
  const CHECK := Request(Account, GET, FORWARD, "")
  const LOG := Request(Account, POST, JS_LOGS, "")
  const REFRESHING := PREPARING + {CHECK, LOG}

  predicate Accepts(answer: Answer) {
    answer.Answered? && 200 <= answer.reply.status < 300 && !answer.reply.body.reportsFailure
  }

  /** An accepted answer whose body, if it is wanted, can be read. */
  predicate Understood(answer: Answer, wanted: bool) {
    Accepts(answer) && (!wanted || answer.reply.body.empty || answer.reply.body.parses)
  }

  /** What is taken from the body of an accepted answer. */
  function Seen(answer: Answer): Body {
    if Accepts(answer) && !answer.reply.body.empty then answer.reply.body else NO_BODY
  }

  const NO_BODY := Body(false, false, false, true, true, 0, "", "", "")

  /** One of the answers to new requests accepts. */
  ghost predicate AcceptedIn(answers: nat -> Answer, before: seq<Request>, after: seq<Request>) {
    exists i :: |before| <= i < |after| && Accepts(answers(i))
  }

  /** A refresh succeeded: a new check of record was accepted. */
  ghost predicate Passed(answers: nat -> Answer, before: seq<Request>, after: seq<Request>) {
    exists i :: |before| <= i < |after| && after[i] == CHECK && Accepts(answers(i))
  }

  lemma PassedConcat(answers: nat -> Answer, a: seq<Request>, b: seq<Request>, c: seq<Request>)
    requires a <= b <= c
    ensures Passed(answers, a, c) <==> Passed(answers, a, b) || Passed(answers, b, c)
  {
    if Passed(answers, a, b) {
      var i :| |a| <= i < |b| && b[i] == CHECK && Accepts(answers(i));
      assert c[i] == b[i];
    }
    if Passed(answers, a, c) {
      var i :| |a| <= i < |c| && c[i] == CHECK && Accepts(answers(i));
      assert i < |b| ==> c[i] == b[i];
    }
  }

  lemma OnlyIsAll(before: seq<Request>, after: seq<Request>, request: Request, most: nat, kinds: set<Request>)
    requires SentOnly(before, after, request, most) && request in kinds
    ensures SentAll(before, after, kinds) && before <= after
  {
  }

  /** Of one request alone, a check passed exactly if an answer accepts. */
  lemma OnlyPassed(answers: nat -> Answer, before: seq<Request>, after: seq<Request>, request: Request, most: nat)
    requires SentOnly(before, after, request, most)
    ensures Passed(answers, before, after) <==> request == CHECK && AcceptedIn(answers, before, after)
  {
    if AcceptedIn(answers, before, after) {
      var i :| |before| <= i < |after| && Accepts(answers(i));
      assert after[i] == request;
    }
  }

  lemma AllTransitive(a: seq<Request>, b: seq<Request>, c: seq<Request>, kinds: set<Request>)
    requires SentAll(a, b, kinds) && SentAll(b, c, kinds)
    ensures SentAll(a, c, kinds) && a <= b <= c
  {
    assert c[..|a|] == c[..|b|][..|a|];
    forall i | |a| <= i < |b|
      ensures c[i] in kinds
    {
      assert c[..|b|][i] == b[i];
    }
  }

  lemma RefreshingIsHarmless(before: seq<Request>, after: seq<Request>)
    requires SentAll(before, after, REFRESHING)
    ensures SentHarmless(before, after) && before <= after
  {
  }

  lemma NothingSent(sent: seq<Request>)
    ensures SentHarmless(sent, sent) && SentWeb(sent, sent) && SentAccount(sent, sent)
    ensures forall kinds :: SentAll(sent, sent, kinds)
    ensures forall answers :: !Passed(answers, sent, sent)
  {
  }

  lemma OnlyGrows(before: seq<Request>, after: seq<Request>, request: Request, most: nat)
    requires SentOnly(before, after, request, most)
    ensures before <= after && (request.channel == Account ==> SentAccount(before, after))
  {
  }

  /** The requests that were sent, of one kind. */
  lemma OnlyLast(before: seq<Request>, after: seq<Request>, request: Request, most: nat)
    requires SentOnly(before, after, request, most)
    ensures |before| < |after| && before <= after && after[|after| - 1] == request
    ensures forall i :: |before| <= i < |after| ==> after[i] == request
    ensures most == 1 ==> after == before + [request]
  {
  }

  lemma OnlyIsHarmless(before: seq<Request>, after: seq<Request>, request: Request, most: nat)
    requires SentOnly(before, after, request, most) && request.channel == Account && !Confirms(request)
    ensures SentHarmless(before, after)
  {
  }

  lemma AccountTransitive(a: seq<Request>, b: seq<Request>, c: seq<Request>)
    requires SentAccount(a, b) && SentAccount(b, c)
    ensures SentAccount(a, c)
  {
    forall i | |a| <= i < |c|
      ensures c[i].channel == Account
    {
      assert i < |b| ==> c[i] == b[i];
    }
  }

  lemma HarmlessIsAccount(before: seq<Request>, after: seq<Request>)
    requires SentHarmless(before, after)
    ensures SentAccount(before, after)
  {
  }

  lemma HarmlessTransitive(a: seq<Request>, b: seq<Request>, c: seq<Request>)
    requires SentHarmless(a, b) && SentHarmless(b, c)
    ensures SentHarmless(a, c) && |a| <= |b| <= |c|
  {
    assert c[..|a|] == c[..|b|][..|a|];
    forall i | |a| <= i < |b|
      ensures c[i].channel == Account && !Confirms(c[i])
    {
      assert c[..|b|][i] == b[i];
    }
  }

  lemma {:induction false} HarmlessCount(before: seq<Request>, after: seq<Request>)
    requires SentHarmless(before, after)
    ensures Confirmations(after) == Confirmations(before)
    ensures AccountRequests(after) == AccountRequests(before) + |after| - |before|
    decreases |after|
  {
    if |after| == |before| {
      assert after == before;
    } else {
      var front := after[..|after| - 1];
      assert front[..|before|] == before;
      HarmlessCount(before, front);
    }
  }

  lemma ConfirmedOnce(before: seq<Request>, after: seq<Request>, request: Request)
    requires SentOnly(before, after, request, 1) && Confirms(request)
    ensures Confirmations(after) == Confirmations(before) + 1
  {
    assert after[..|after| - 1] == before;
  }

  lemma WebHarmless(before: seq<Request>, after: seq<Request>, request: Request)
    requires after == before + [request] && !Confirms(request)
    ensures Confirmations(after) == Confirmations(before)
  {
    assert after[..|after| - 1] == before;
  }

  lemma WebTransitive(a: seq<Request>, b: seq<Request>, c: seq<Request>)
    requires SentWeb(a, b) && SentWeb(b, c)
    ensures SentWeb(a, c)
  {
    assert c[..|a|] == c[..|b|][..|a|];
    forall i | |a| <= i < |b|
      ensures c[i].channel == Web
    {
      assert c[..|b|][i] == b[i];
    }
  }

  lemma {:induction false} WebCount(before: seq<Request>, after: seq<Request>)
    requires SentWeb(before, after)
    ensures AccountRequests(after) == AccountRequests(before)
    decreases |after|
  {
    if |after| == |before| {
      assert after == before;
    } else {
      var front := after[..|after| - 1];
      assert front[..|before|] == before;
      WebCount(before, front);
    }
  }

  /** Why a request may be sent again. */
  predicate Passing(answer: Answer) {
    match answer
    case NoAnswer(transient, _) => transient
    case Unreadable(transient, _) => transient
    case Answered(reply) => 500 <= reply.status <= 599
  }

  // ---- The connection ----

  class Upstream {
    const answers: nat -> Answer
    const clock: nat -> int
    const contextDone: nat -> bool
    /** Whether the caller gives up while waiting for the next attempt. */
    const interrupted: nat -> bool
    var sent: seq<Request>

    constructor (answers: nat -> Answer, clock: nat -> int, contextDone: nat -> bool, interrupted: nat -> bool)
      ensures sent == [] && this.answers == answers && this.clock == clock
      ensures this.contextDone == contextDone && this.interrupted == interrupted
    {
      this.answers, this.clock, this.contextDone, this.interrupted := answers, clock, contextDone, interrupted;
      sent := [];
    }

    function Now(): int
      reads this
    {
      clock(|sent|)
    }

    /** Another attempt may follow request i. */
    predicate MayFollow(i: nat) {
      Passing(answers(i)) && !contextDone(i + 1)
    }

    method Send(request: Request) returns (answer: Answer)
      modifies this
      ensures sent == old(sent) + [request] && answer == answers(|old(sent)|)
    {
      answer := answers(|sent|);
      sent := sent + [request];
    }

    /** Sends a request, and again after a transient failure or a server error if
        it may be retried. */
    method Do(request: Request, retryable: bool) returns (result: HttpResult)
      modifies this
      ensures SentOnly(old(sent), sent, request, if retryable then MAX_ATTEMPTS else 1)
      ensures forall i :: |old(sent)| <= i < |sent| - 1 ==> MayFollow(i)
      ensures result.HttpFailed? ==> result.error.Transport? && !AcceptedIn(answers, old(sent), sent) && !Accepts(answers(|sent| - 1))
      ensures result.Received? ==> answers(|sent| - 1) == Answered(result.reply)
      ensures result.Received? ==> (AcceptedIn(answers, old(sent), sent) <==> Accepts(Answered(result.reply)))
      ensures result.Received? && retryable && 500 <= result.reply.status <= 599 && !contextDone(|sent|)
              ==> |sent| == |old(sent)| + MAX_ATTEMPTS
    {
      var attempt := 1;
      while true
        invariant 1 <= attempt <= MAX_ATTEMPTS && (!retryable ==> attempt == 1)
        invariant |sent| == |old(sent)| + attempt - 1 && sent[..|old(sent)|] == old(sent)
        invariant forall i :: |old(sent)| <= i < |sent| ==> sent[i] == request
        invariant forall i :: |old(sent)| <= i < |sent| ==> MayFollow(i)
        invariant !AcceptedIn(answers, old(sent), sent)
        decreases MAX_ATTEMPTS - attempt
      {
        var answer := Send(request);
        var again := retryable && attempt < MAX_ATTEMPTS && !contextDone(|sent|);
        match answer {
          case NoAnswer(transient, cancelled) =>
            if !again || !transient {
              return HttpFailed(Transport(transient, cancelled));
            }
          case Unreadable(transient, cancelled) =>
            if !again || !transient {
              return HttpFailed(Transport(transient, cancelled));
            }
          case Answered(reply) =>
            if !again || reply.status < 500 || reply.status > 599 {
              return Received(reply);
            }
        }
        assert MayFollow(|sent| - 1);
        if interrupted(|sent|) {
          return HttpFailed(Transport(false, true));
        }
        attempt := attempt + 1;
      }
    }
  }
}
