/**
 How often one hand-written request is sent, and what it takes for it to be sent again.

 What becomes of each attempt is arbitrary: how it is signed, the redirects it draws, the answer
 it ends with, what a refresh asked for it comes to, and when its context ends.
 */
module Sends {
  import opened HttpHeaders
  import opened Wrappers
  import opened Redirects
  import opened RefreshCoordinator

  datatype Code = AuthRequired | ForbiddenCode | NotFound | RateLimit | Network | Api | Validation

  /** The errors a send ends with, as far as the retry loops tell them apart. */
  datatype Failure =
    | RateLimited(retryAfter: nat)
    | Sdk(code: Code, status: nat, retryable: bool)
    | Other

  datatype Outcome = Done(fromCache: bool) | Failed(failure: Failure)

  /** What the cache is told: nothing, a response to store, or what a 304 confirmed. */
  datatype CacheWrite = NoWrite | Store(etag: string) | Confirm(validated: string, etag: string)

  /** Whether a body was read to its end, was lost on its way, or was given up with its caller's context. */
  datatype Body = Whole | Unread | Abandoned

  /** How a chain ends: no answer, or a status; `etag` and `retryAfter` are what it carried. */
  datatype Fate = Lost | Status(code: nat, etag: string, retryAfter: nat, body: Body)

  /**
   One attempt: the failure that keeps it from being sent, or the headers it is signed with; the
   cache entry held for it, whose body may be over the bound; the redirects it draws; its end.
   */
  datatype Exchange = Exchange(
    signing: Result<Headers, Failure>,
    entry: Option<string>,
    oversized: bool,
    hops: seq<Hop>,
    fate: Fate)

  datatype World = World(
    url: string,
    noRedirect: bool,
    refreshable: bool,
    caching: bool,
    streams: bool,               // whether the caller gave the body a destination of its own
    sameOrigin: (string, string) -> bool,
    exchange: nat -> Exchange,   // by attempt, from 1
    under: nat -> Generation,    // what the attempt was signed under
    current: nat -> Generation,  // the generation when its answer came
    answer: nat -> Answer,       // what asking for a refresh after that attempt comes to
    ended: nat -> bool)          // whether the context ends in the wait after that attempt

  predicate IsWrite(verb: string) {
    verb == "POST" || verb == "PATCH"
  }

  const TokenRefreshed := Sdk(AuthRequired, 0, true)

  function Hops(w: World, attempt: nat): nat {
    Taken(w.noRedirect, w.exchange(attempt).hops)
  }

  /** The validator the attempt goes out with: an entry is looked up for a GET that is keyed. */
  function Validator(w: World, verb: string, attempt: nat): Option<string> {
    var e := w.exchange(attempt);
    if verb == "GET" && w.caching && e.signing.Ok? && First(e.signing.value, "Authorization") != "" then e.entry
    else None
  }

  /** The answer the chain ended with; none when it was lost or the policy ended it with an error. */
  function End(w: World, attempt: nat): Fate {
    var stopped := Stopped(w.noRedirect, w.exchange(attempt).hops);
    if stopped.Some? && !stopped.value.UseLastResponse? then Lost else w.exchange(attempt).fate
  }

  function Left(w: World, attempt: nat): bool {
    LeftOrigin(w.sameOrigin, w.url, w.exchange(attempt).hops, Hops(w, attempt))
  }

  predicate Goes(w: World, attempt: nat) {
    w.exchange(attempt).signing.Ok?
  }

  predicate Refused401(w: World, attempt: nat) {
    Goes(w, attempt) && End(w, attempt).Status? && End(w, attempt).code == 401
  }

  /** Whether the attempt draws a 401 that a refresh is asked for. */
  predicate Asks(w: World, attempt: nat) {
    Refused401(w, attempt) && attempt == 1 && w.refreshable && !Left(w, attempt)
  }

  /** Whether a 401 was answered by renewed credentials and may be answered by a resend. */
  predicate Refreshed(w: World, verb: string, attempt: nat) {
    Asks(w, attempt) && w.answer(attempt) == Renewed(true) && !(IsWrite(verb) && Hops(w, attempt) > 0)
  }

  /** Signs an attempt, makes it conditional on the entry held for it, and follows its redirects; `wire` goes out first. */
  method SendAttempt(w: World, signed: Headers, cached: Option<string>, attempt: nat)
    returns (redirected: RedirectState, lost: bool, wire: Headers)
    ensures wire == if cached.Some? then signed["If-None-Match" := [cached.value]] else signed
    ensures lost <==> End(w, attempt).Lost?
    ensures redirected.followed <==> Hops(w, attempt) > 0
    ensures redirected.unauthenticated <==> Left(w, attempt)
    ensures redirected.signedUnder == w.under(attempt)
  {
    var exchange := w.exchange(attempt);
    var state := new RedirectState();
    var first := new Request(w.url, map[], state);
    var wires, last, refusal := SignAndSend(
      w.sameOrigin, w.noRedirect, first, signed, w.under(attempt), cached, exchange.hops);
    return last, exchange.fate.Lost? || (refusal.Some? && !refusal.value.UseLastResponse?), wires[0];
  }

  /** One attempt of a request, as `singleRequest` sends it and reads its answer. */
  method SingleRequest(w: World, verb: string, attempt: nat)
    returns (outcome: Outcome, sent: bool, asked: Option<Generation>, write: CacheWrite, wire: Headers)
    ensures sent <==> w.exchange(attempt).signing.Ok?
    ensures sent ==>
              var signed, validator := w.exchange(attempt).signing.value, Validator(w, verb, attempt);
              wire == if validator.Some? then signed["If-None-Match" := [validator.value]] else signed
    ensures asked == if Asks(w, attempt) then Some(w.under(attempt)) else None
    ensures outcome == Judged(w, verb, attempt)
    ensures !sent ==> outcome == Failed(w.exchange(attempt).signing.error)
    ensures outcome == Done(true) ==>
              Hops(w, attempt) == 0 && Validator(w, verb, attempt).Some? && End(w, attempt).code == 304
    ensures write != NoWrite ==> Hops(w, attempt) == 0 && verb == "GET" && w.caching && outcome.Done?
    ensures write.Confirm? ==> outcome == Done(true) && Validator(w, verb, attempt) == Some(write.validated)
    ensures write.Store? ==> !w.streams && outcome == Done(false) && write.etag == End(w, attempt).etag != ""
  {
    sent, asked, write, wire := false, None, NoWrite, map[];
    var exchange := w.exchange(attempt);
    if exchange.signing.Err? {
      return Failed(exchange.signing.error), false, None, NoWrite, map[];
    }
    var keyed := verb == "GET" && w.caching && First(exchange.signing.value, "Authorization") != "";
    var cached := if keyed then exchange.entry else None;
    var redirected, lost;
    redirected, lost, wire := SendAttempt(w, exchange.signing.value, cached, attempt);
    sent := true;
    if lost {
      return Failed(Sdk(Network, 0, true)), sent, asked, write, wire;
    }
    if redirected.followed {
      keyed := false;
    }
    if exchange.fate.code == 401 {
      outcome, asked := ReadRefusal(w, verb, attempt, redirected);
    } else {
      outcome, write := ReadAnswer(
        verb, exchange.fate, if keyed then cached else None, exchange.oversized, keyed, w.streams);
    }
  }

  /** The 401 case: the first attempt asks for a refresh, unless the chain left the origin. */
  method ReadRefusal(w: World, verb: string, attempt: nat, redirected: RedirectState)
    returns (outcome: Outcome, asked: Option<Generation>)
    ensures asked ==
            if attempt == 1 && w.refreshable && !redirected.unauthenticated then Some(redirected.signedUnder) else None
    ensures outcome == Failed(
              if asked.Some? && w.answer(attempt).CutOff? then Other
              else if asked.Some? && w.answer(attempt).renewed && !(redirected.followed && IsWrite(verb)) then TokenRefreshed
              else Sdk(AuthRequired, 0, false))
  {
    asked := None;
    if attempt == 1 {
      var told: Answer;
      told, asked := Answer401(redirected, w.refreshable, w.current(attempt), w.answer(attempt));
      if told.CutOff? {
        return Failed(Other), asked;
      }
      var wentThrough := redirected.followed && (verb == "POST" || verb == "PATCH");
      if told.renewed && !wentThrough {
        return Failed(TokenRefreshed), asked;
      }
    }
    return Failed(Sdk(AuthRequired, 0, false)), asked;
  }

  /** Every other case; `cached` is the entry a 304 may be answered from, `keyed` whether there can be one. */
  method ReadAnswer(
    verb: string, fate: Fate, cached: Option<string>, oversized: bool, keyed: bool, streams: bool)
    returns (outcome: Outcome, write: CacheWrite)
    requires fate.Status? && fate.code != 401
    requires keyed ==> verb == "GET"
    requires cached.Some? ==> keyed
    ensures outcome == Read(verb, fate, cached.Some?, oversized, streams)
    ensures write ==
            if outcome == Done(true) then Confirm(cached.value, if fate.etag != "" then fate.etag else cached.value)
            else if outcome == Done(false) && keyed && !streams && fate.etag != "" then Store(fate.etag)
            else NoWrite
  {
    write := NoWrite;
    var status := fate.code;
    if verb != "GET" && 200 <= status < 300 && status != 204 && status != 201 {
      status := 200;
    }
    match status
    case 304 =>
      if cached.None? {
        return Failed(Sdk(Api, 304, false)), NoWrite;
      }
      if oversized {
        return Failed(Other), NoWrite;
      }
      return Done(true), Confirm(cached.value, if fate.etag != "" then fate.etag else cached.value);
    case 429 => return Failed(RateLimited(fate.retryAfter)), NoWrite;
    case 403 => return Failed(Sdk(ForbiddenCode, 403, false)), NoWrite;
    case 404 => return Failed(Sdk(NotFound, 0, false)), NoWrite;
    case 422 => return Failed(Sdk(Validation, 422, false)), NoWrite;
    case _ =>
      if status == 200 || status == 201 || status == 204 {
        if streams {
          return if fate.body.Whole? then Done(false) else Failed(Other), NoWrite;
        }
        if fate.body.Unread? && verb != "GET" {
          return Done(false), NoWrite;
        }
        if !fate.body.Whole? {
          return Failed(Other), NoWrite;
        }
        return Done(false), if keyed && fate.etag != "" then Store(fate.etag) else NoWrite;
      }
      if status == 502 || status == 503 || status == 504 {
        return Failed(Sdk(Api, status, true)), NoWrite;
      }
      return Failed(Sdk(Api, status, false)), NoWrite;
  }

  /** How an attempt ends. */
  function Judged(w: World, verb: string, attempt: nat): Outcome {
    if !Goes(w, attempt) then Failed(w.exchange(attempt).signing.error)
    else if End(w, attempt).Lost? then Failed(Sdk(Network, 0, true))
    else if Refused401(w, attempt) then
      Failed(
        if Refreshed(w, verb, attempt) then TokenRefreshed
        else if Asks(w, attempt) && w.answer(attempt).CutOff? then Other
        else Sdk(AuthRequired, 0, false))
    else
      Read(verb, End(w, attempt), Hops(w, attempt) == 0 && Validator(w, verb, attempt).Some?,
           w.exchange(attempt).oversized, w.streams)
  }

  /** What an answer other than a 401 reads as. */
  function Read(verb: string, fate: Fate, cached: bool, oversized: bool, streams: bool): Outcome
    requires fate.Status?
  {
    if Succeeds(verb, fate.code) then
      match fate.body
      case Whole => Done(false)
      case Unread => if verb != "GET" && !streams then Done(false) else Failed(Other)
      case Abandoned => Failed(Other)
    else if fate.code == 304 && cached then
      if oversized then Failed(Other) else Done(true)
    else if fate.code == 429 then Failed(RateLimited(fate.retryAfter))
    else Failed(Sdk(CodeOf(fate.code), if fate.code == 404 then 0 else fate.code, fate.code in {502, 503, 504}))
  }

  /** A GET reads three statuses as success, a write any status from 200 to 299. */
  predicate Succeeds(verb: string, status: nat) {
    status in {200, 201, 204} || (verb != "GET" && 200 <= status < 300)
  }

  function CodeOf(status: nat): Code {
    match status
    case 403 => ForbiddenCode
    case 404 => NotFound
    case 422 => Validation
    case _ => Api
  }

  // ---- the retry loop ----

  /** What a request may spend on being resent. */
  datatype Budget = Budget(attempts: int, statuses: set<nat>, declared: bool) {
    predicate Resends(status: nat) {
      !declared || status == 0 || status in statuses
    }
  }

  /** Whether a failure earns another attempt under a budget, the count aside. */
  predicate Earns(budget: Budget, outcome: Outcome) {
    outcome.Failed? &&
    match outcome.failure
    case RateLimited(_) => budget.Resends(429)
    case Sdk(_, status, retryable) => retryable && budget.Resends(status)
    case Other => false
  }

  /** The attempts of the first `n` that went out. */
  function Sent(w: World, n: nat): seq<nat> {
    if n == 0 then [] else Sent(w, n - 1) + (if Goes(w, n) then [n] else [])
  }

  function Asked(w: World, n: nat): nat {
    if n == 0 then 0 else Asked(w, n - 1) + (if Asks(w, n) then 1 else 0)
  }

  lemma SentWithin(w: World, n: nat)
    ensures forall k :: k in Sent(w, n) <==> 1 <= k <= n && w.exchange(k).signing.Ok?
    ensures |Sent(w, n)| <= n
    ensures forall i :: 0 <= i < |Sent(w, n)| ==> 1 <= Sent(w, n)[i] <= n
    ensures forall i, j :: 0 <= i < j < |Sent(w, n)| ==> Sent(w, n)[i] < Sent(w, n)[j]
  {
  }

  lemma AskedOnce(w: World, n: nat)
    ensures Asked(w, n) <= 1
    ensures n >= 1 ==> Asked(w, n) == (if Asks(w, 1) then 1 else 0)
  {
  }

  /**
   A write, sent once and once more only when its first attempt was refused and its refresh
   renewed the credentials. `sends` are the attempts that went out, `asks` the refreshes asked for.
   */
  method DoWrite(w: World, verb: string) returns (outcome: Outcome, attempts: nat, sends: seq<nat>, asks: nat)
    requires IsWrite(verb)
    ensures 1 <= attempts <= 2 && outcome == Judged(w, verb, attempts)
    ensures sends == Sent(w, attempts) && asks == Asked(w, attempts) <= 1
    ensures attempts == 2 <==> exists status :: Judged(w, verb, 1) == Failed(Sdk(AuthRequired, status, true))
    ensures w.exchange(1).signing.Ok? ==>
              (attempts == 2 <==>
                && End(w, 1).Status? && End(w, 1).code == 401 && Hops(w, 1) == 0
                && w.refreshable && w.answer(1) == Renewed(true))
    ensures |sends| == 2 ==> sends == [1, 2]
  {
    var sent, asked, write, wire;
    outcome, sent, asked, write, wire := SingleRequest(w, verb, 1);
    attempts, sends, asks := 1, if sent then [1] else [], if asked.Some? then 1 else 0;
    assert Sent(w, 0) == [] && Asked(w, 0) == 0;
    if outcome.Failed? && outcome.failure.Sdk? && outcome.failure.retryable && outcome.failure.code == AuthRequired {
      outcome, sent, asked, write, wire := SingleRequest(w, verb, 2);
      attempts := 2;
      sends := sends + if sent then [2] else [];
      asks := asks + if asked.Some? then 1 else 0;
    }
  }

  /** Any other request, sent until it succeeds, fails for good, or has spent its budget. */
  method DoRetried(w: World, verb: string, budget: Budget)
    returns (outcome: Outcome, attempts: nat, sends: seq<nat>, asks: nat)
    requires !IsWrite(verb)
    ensures attempts <= budget.attempts || attempts == 0
    ensures attempts == 0 ==> budget.attempts <= 0
    ensures sends == Sent(w, attempts) && asks == Asked(w, attempts)
    ensures forall k :: 1 <= k < attempts ==> Earns(budget, Judged(w, verb, k)) && !w.ended(k)
    ensures forall k :: 1 <= k < attempts && w.exchange(k).signing.Ok? ==>
              || End(w, k).Lost?
              || (k == 1 && End(w, k).code == 401 && w.refreshable && !Left(w, k) && w.answer(k) == Renewed(true))
              || (End(w, k).code in {429, 502, 503, 504} && (!budget.declared || End(w, k).code in budget.statuses))
    ensures 1 <= attempts < budget.attempts && !w.ended(attempts) && w.exchange(attempts).signing.Ok? ==>
              && End(w, attempts).Status?
              && !(attempts == 1 && End(w, attempts).code == 401 && w.refreshable && !Left(w, attempts)
                   && w.answer(attempts) == Renewed(true))
              && !(End(w, attempts).code in {429, 502, 503, 504}
                   && (!budget.declared || End(w, attempts).code in budget.statuses))
    ensures 1 <= attempts < budget.attempts ==> !Earns(budget, Judged(w, verb, attempts)) || w.ended(attempts)
    ensures outcome ==
            if attempts == 0 || Earns(budget, Judged(w, verb, attempts)) then Failed(Other)
            else match Judged(w, verb, attempts)
              case Failed(RateLimited(_)) => Failed(Sdk(RateLimit, 429, true))
              case judged => judged
  {
    attempts, sends, asks := 0, [], 0;
    outcome := Failed(Other);
    EarnedByAnswers(w, verb, budget);
    while attempts < budget.attempts
      invariant attempts < budget.attempts || attempts == 0
      invariant sends == Sent(w, attempts) && asks == Asked(w, attempts)
      invariant forall k :: 1 <= k <= attempts ==> Earns(budget, Judged(w, verb, k)) && !w.ended(k)
      invariant attempts == 0 ==> outcome == Failed(Other)
      decreases budget.attempts - attempts
    {
      attempts := attempts + 1;
      var sent, asked, write, wire;
      outcome, sent, asked, write, wire := SingleRequest(w, verb, attempts);
      sends := sends + if sent then [attempts] else [];
      asks := asks + if asked.Some? then 1 else 0;
      if outcome.Done? {
        return;
      }
      match outcome.failure {
        case RateLimited(_) =>
          if !budget.Resends(429) {
            outcome := Failed(Sdk(RateLimit, 429, true));
            return;
          }
        case Sdk(_, status, retryable) =>
          if !retryable || !budget.Resends(status) {
            return;
          }
        case Other => return;
      }
      if attempts >= budget.attempts || w.ended(attempts) {
        outcome := Failed(Other);
        return;
      }
    }
  }

  /** A hand-written request: what the caller is answered, and how often it was sent. */
  method DoRequest(w: World, verb: string, budget: Budget) returns (outcome: Outcome, sends: seq<nat>, asks: nat)
    ensures verb == "POST" || verb == "PATCH" ==> |sends| <= 2
    ensures (verb == "POST" || verb == "PATCH") && w.exchange(1).signing.Ok? && w.exchange(2).signing.Ok? ==>
              (|sends| == 2 <==>
                && End(w, 1).Status? && End(w, 1).code == 401 && Hops(w, 1) == 0
                && w.refreshable && w.answer(1) == Renewed(true))
    ensures (verb == "POST" || verb == "PATCH") && |sends| == 2 ==> sends == [1, 2] && w.exchange(1).signing.Ok?
    ensures verb != "POST" && verb != "PATCH" ==> |sends| <= if budget.attempts < 0 then 0 else budget.attempts
    ensures forall i, j :: 0 <= i < j < |sends| ==> sends[i] < sends[j]
    ensures asks <= 1
    ensures asks == 1 <==> Asks(w, 1) && (verb == "POST" || verb == "PATCH" || budget.attempts >= 1)
  {
    var attempts;
    if verb == "POST" || verb == "PATCH" {
      outcome, attempts, sends, asks := DoWrite(w, verb);
    } else {
      outcome, attempts, sends, asks := DoRetried(w, verb, budget);
    }
    AskedOnce(w, attempts);
    SentWithin(w, attempts);
  }

  /**
   What earns an attempt that went out another one: no answer at all, a 401 answered by renewed
   credentials, or one of four statuses the budget resends.
   */
  lemma EarnedByAnswer(w: World, verb: string, budget: Budget, attempt: nat)
    requires Goes(w, attempt)
    ensures Earns(budget, Judged(w, verb, attempt)) <==>
            || End(w, attempt).Lost?
            || (attempt == 1 && End(w, attempt).code == 401 && w.refreshable && !Left(w, attempt)
                && w.answer(attempt) == Renewed(true) && !(IsWrite(verb) && Hops(w, attempt) > 0))
            || (End(w, attempt).code in {429, 502, 503, 504}
                && (!budget.declared || End(w, attempt).code in budget.statuses))
  {
  }

  lemma EarnedByAnswers(w: World, verb: string, budget: Budget)
    requires !IsWrite(verb)
    ensures forall k :: Goes(w, k) ==>
              (Earns(budget, Judged(w, verb, k)) <==>
                || End(w, k).Lost?
                || (k == 1 && End(w, k).code == 401 && w.refreshable && !Left(w, k) && w.answer(k) == Renewed(true))
                || (End(w, k).code in {429, 502, 503, 504}
                    && (!budget.declared || End(w, k).code in budget.statuses)))
  {
    forall k | Goes(w, k) {
      EarnedByAnswer(w, verb, budget, k);
    }
  }

  // ---- what an answer is read as ----

  /** An attempt is refreshed for exactly when it is the first, draws a 401, and has not left the origin. */
  lemma AsksExactly(w: World, attempt: nat)
    ensures Asks(w, attempt) <==>
            && attempt == 1 && w.refreshable
            && w.exchange(attempt).signing.Ok? && End(w, attempt).Status? && End(w, attempt).code == 401
            && forall i :: 0 <= i < Hops(w, attempt) ==> w.sameOrigin(Target(w.exchange(attempt).hops[i]), w.url)
  {
    LeftOriginExactly(w.sameOrigin, w.url, w.exchange(attempt).hops, Hops(w, attempt));
  }

  /** Without a policy of the caller's a chain follows all its hops up to nine, and one with more of them is lost. */
  lemma PlainChain(w: World, attempt: nat)
    requires forall i :: 0 <= i < |w.exchange(attempt).hops| ==> w.exchange(attempt).hops[i].next.None?
    ensures Hops(w, attempt) ==
            if w.noRedirect then 0 else if |w.exchange(attempt).hops| < 9 then |w.exchange(attempt).hops| else 9
    ensures End(w, attempt) ==
            if !w.noRedirect && |w.exchange(attempt).hops| > 9 then Lost else w.exchange(attempt).fate
  {
    TakenByDefault(w.noRedirect, w.exchange(attempt).hops, 0);
  }

  /** A failing status is the caller's error; only a rate limit and three gateway statuses are worth another attempt. */
  lemma FailuresAreSorted(w: World, verb: string, attempt: nat)
    requires Goes(w, attempt) && End(w, attempt).Status?
    requires End(w, attempt).code !in {304, 401} && !(200 <= End(w, attempt).code < 300)
    ensures Judged(w, verb, attempt) == Failed(
              var code := End(w, attempt).code;
              if code == 429 then RateLimited(End(w, attempt).retryAfter)
              else if code == 403 then Sdk(ForbiddenCode, 403, false)
              else if code == 404 then Sdk(NotFound, 0, false)
              else if code == 422 then Sdk(Validation, 422, false)
              else Sdk(Api, code, code == 502 || code == 503 || code == 504))
  {
  }

  /** A read succeeds with 200, 201 or 204 and its body, a write with any status from 200 to 299, its body lost or not. */
  lemma SuccessesAreRead(w: World, verb: string, attempt: nat)
    requires Goes(w, attempt) && End(w, attempt).Status? && 200 <= End(w, attempt).code < 300
    ensures (verb == "GET" && End(w, attempt).code !in {200, 201, 204} ==>
              Judged(w, verb, attempt) == Failed(Sdk(Api, End(w, attempt).code, false)))
    ensures verb != "GET" || End(w, attempt).code in {200, 201, 204} ==>
              (Judged(w, verb, attempt) == Done(false) <==>
                End(w, attempt).body.Whole? || (End(w, attempt).body.Unread? && verb != "GET" && !w.streams))
  {
  }

  /** A 304 is answered from the cache exactly when the entry was asked about directly and may be served. */
  lemma NotModifiedIsRead(w: World, verb: string, attempt: nat)
    requires Goes(w, attempt) && End(w, attempt).Status? && End(w, attempt).code == 304
    ensures Judged(w, verb, attempt) == Done(true) <==>
            && verb == "GET" && w.caching && First(w.exchange(attempt).signing.value, "Authorization") != ""
            && w.exchange(attempt).entry.Some? && Hops(w, attempt) == 0 && !w.exchange(attempt).oversized
    ensures Judged(w, verb, attempt) != Done(false)
  {
  }

  // ---- requests that capture their redirect ----

  /** How an attempt of a form or multipart request ends. */
  function JudgedBody(w: World, verb: string, attempt: nat): Outcome {
    var fate := w.exchange(attempt).fate;
    if !Goes(w, attempt) then Failed(w.exchange(attempt).signing.error)
    else if fate.Lost? then Failed(Sdk(Network, 0, true))
    else if fate.code in {302, 303} then Done(false)
    else if 200 <= fate.code < 300 then
      if fate.body.Whole? || (fate.body.Unread? && verb != "GET") then Done(false) else Failed(Sdk(Network, 0, true))
    else if fate.code == 401 then
      if attempt == 1 && w.refreshable && w.answer(1) == Renewed(true) then Failed(TokenRefreshed)
      else if attempt == 1 && w.refreshable && w.answer(1).CutOff? then Failed(Other)
      else Failed(Sdk(AuthRequired, 0, false))
    else Failed(Sdk(Api, fate.code, false))
  }

  method SendBodyRequest(w: World, verb: string, attempt: nat)
    returns (outcome: Outcome, sent: bool, asked: Option<Generation>)
    ensures sent <==> Goes(w, attempt)
    ensures asked ==
            if attempt == 1 && w.refreshable && sent && w.exchange(1).fate.Status? && w.exchange(1).fate.code == 401
            then Some(w.under(1)) else None
    ensures outcome == JudgedBody(w, verb, attempt)
  {
    sent, asked := false, None;
    var exchange := w.exchange(attempt);
    if exchange.signing.Err? {
      return Failed(exchange.signing.error), false, None;
    }
    var state := new RedirectState();
    var first := new Request(w.url, map[], state);
    var wires, redirected, refusal := SignAndSend(
      w.sameOrigin, true, first, exchange.signing.value, w.under(attempt), None, exchange.hops);
    sent := true;
    if exchange.fate.Lost? {
      return Failed(Sdk(Network, 0, true)), sent, asked;
    }
    var code, body := exchange.fate.code, exchange.fate.body;
    if code == 302 || code == 303 {
      return Done(false), sent, asked;
    }
    if 200 <= code < 300 {
      if body.Whole? || (body.Unread? && verb != "GET") {
        return Done(false), sent, asked;
      }
      return Failed(Sdk(Network, 0, true)), sent, asked;
    }
    if code == 401 {
      outcome, asked := ReadRefusal(w, verb, attempt, redirected);
      return;
    }
    return Failed(Sdk(Api, code, false)), sent, asked;
  }

  /** A form request's redirect is its answer, and so is a success, read or lost; any other status is the caller's error. */
  lemma BodyAnswersAreRead(w: World, verb: string, attempt: nat)
    requires Goes(w, attempt) && w.exchange(attempt).fate.Status? && w.exchange(attempt).fate.code != 401
    ensures
      var code, body := w.exchange(attempt).fate.code, w.exchange(attempt).fate.body;
      && (JudgedBody(w, verb, attempt) == Done(false) <==>
            || code == 302 || code == 303
            || (200 <= code < 300 && (body.Whole? || (body.Unread? && verb != "GET"))))
      && (code != 302 && code != 303 && !(200 <= code < 300) ==>
            JudgedBody(w, verb, attempt) == Failed(Sdk(Api, code, false)))
  {
  }

  /** Sent once, and once more only after a 401 that renewed credentials answered. */
  method DoBodyRequest(w: World, verb: string) returns (outcome: Outcome, sends: seq<nat>, asks: nat)
    ensures sends == Sent(w, if Resent(w, verb) then 2 else 1)
    ensures outcome == JudgedBody(w, verb, if Resent(w, verb) then 2 else 1)
    ensures asks <= 1
    ensures |sends| == 2 ==>
              && w.exchange(1).fate.Status? && w.exchange(1).fate.code == 401
              && w.refreshable && w.answer(1) == Renewed(true)
    ensures w.exchange(1).signing.Ok? && w.exchange(2).signing.Ok? ==>
              (|sends| == 2 <==>
                && w.exchange(1).fate.Status? && w.exchange(1).fate.code == 401
                && w.refreshable && w.answer(1) == Renewed(true))
  {
    var sent, asked;
    outcome, sent, asked := SendBodyRequest(w, verb, 1);
    assert Sent(w, 0) == [];
    sends, asks := if sent then [1] else [], if asked.Some? then 1 else 0;
    if outcome.Failed? && outcome.failure.Sdk? && outcome.failure.retryable && outcome.failure.code == AuthRequired {
      outcome, sent, asked := SendBodyRequest(w, verb, 2);
      sends := sends + if sent then [2] else [];
    }
  }

  predicate Resent(w: World, verb: string) {
    var first := JudgedBody(w, verb, 1);
    first.Failed? && first.failure.Sdk? && first.failure.retryable && first.failure.code == AuthRequired
  }
}
