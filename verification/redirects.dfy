/**
 What one send records about itself, the redirect policy that runs on every hop, and the
 transport that holds credentials back from hops off the origin.

 Header names are canonical. Which URLs share an origin is an arbitrary predicate.
 */
module Redirects {
  import opened HttpHeaders
  import opened RefreshCoordinator
  import opened Wrappers

  const AUTHORIZATION := "Authorization"
  const COOKIE := "Cookie"
  const IF_NONE_MATCH := "If-None-Match"

  /** The headers the strategy set or changed: those whose values differ from before it ran. */
  function SetByStrategy(before: Headers, after: Headers): set<string> {
    set name | name in after && Values(before, name) != after[name]
  }

  /** Adds every header of `added`, as a cookie jar adds its cookies to what is there. */
  function Adding(headers: Headers, added: Headers): (both: Headers)
    ensures forall name :: Values(both, name) == Values(headers, name) + Values(added, name)
    ensures both.Keys == headers.Keys + added.Keys
  {
    map name | name in headers.Keys + added.Keys :: Values(headers, name) + Values(added, name)
  }

  /** A hop as the caller's policy leaves it: its URL, its headers, and whether its context keeps the state. */
  datatype Offer = Offer(url: string, headers: Headers, keepsState: bool)

  datatype Refusal = UseLastResponse | CallersPolicy | TooManyRedirects

  /** Why the policy takes a hop no further, when it does not. */
  function Refused(noRedirect: bool, next: Option<Result<Offer, ()>>, sent: nat): Option<Refusal> {
    if noRedirect then Some(UseLastResponse)
    else if next.Some? && next.value.Err? then Some(CallersPolicy)
    else if next.None? && sent >= 10 then Some(TooManyRedirects)
    else None
  }

  class RedirectState {
    var credentialHeaders: seq<string>
    var followed: bool
    var unauthenticated: bool
    var signedUnder: Generation

    constructor ()
      ensures credentialHeaders == [] && !followed && !unauthenticated && signedUnder == Generation(0, 0)
    {
      credentialHeaders, followed, unauthenticated, signedUnder := [], false, false, Generation(0, 0);
    }

    function Credentials(): set<string>
      reads this
    {
      Names(credentialHeaders)
    }
  }

  /** One request of a chain; `state` is the redirect state its context carries. */
  class Request {
    var url: string
    var headers: Headers
    var state: RedirectState?

    constructor (url: string, headers: Headers, state: RedirectState?)
      ensures this.url == url && this.headers == headers && this.state == state
    {
      this.url, this.headers, this.state := url, headers, state;
    }
  }

  /** Records every header the strategy set, given the headers before it ran. */
  method NoteCredentialHeaders(req: Request, before: Headers)
    modifies req.state
    ensures req.state != null ==>
              forall name :: name in req.state.credentialHeaders <==>
                name in old(req.state.credentialHeaders)
                || (name in req.headers && Values(before, name) != req.headers[name])
    ensures req.state != null ==>
              && req.state.Credentials() == old(req.state.Credentials()) + SetByStrategy(before, req.headers)
              && req.state.followed == old(req.state.followed)
              && req.state.unauthenticated == old(req.state.unauthenticated)
              && req.state.signedUnder == old(req.state.signedUnder)
  {
    if req.state == null {
      return;
    }
    var state, names := req.state, req.headers.Keys;
    while names != {}
      invariant names <= req.headers.Keys
      invariant state.Credentials() ==
                old(req.state.Credentials()) + (SetByStrategy(before, req.headers) - names)
      invariant state.followed == old(state.followed) && state.unauthenticated == old(state.unauthenticated)
      invariant state.signedUnder == old(state.signedUnder)
    {
      var name :| name in names;
      if Values(before, name) != req.headers[name] {
        ghost var noted := state.Credentials();
        state.credentialHeaders := state.credentialHeaders + [name];
        assert state.Credentials() == noted + {name};
      }
      names := names - {name};
    }
    assert forall name :: name in state.credentialHeaders <==> name in state.Credentials();
    assert forall name :: name in old(req.state.credentialHeaders) <==> name in old(req.state.Credentials());
  }

  /** Records the generation the strategy signed a request under; a request without a state records nothing. */
  method NoteSigning(req: Request, under: Generation)
    modifies req.state
    ensures req.state != null ==>
              && req.state.signedUnder == under && req.state.credentialHeaders == old(req.state.credentialHeaders)
              && req.state.followed == old(req.state.followed)
              && req.state.unauthenticated == old(req.state.unauthenticated)
  {
    if req.state != null {
      req.state.signedUnder := under;
    }
  }

  /** A hop's headers once the policy has been over them. */
  function Cleaned(headers: Headers, unauthenticated: bool, credentials: seq<string>): Headers {
    if unauthenticated then headers - {IF_NONE_MATCH} - {AUTHORIZATION} - Names(credentials)
    else headers - {IF_NONE_MATCH}
  }

  /** A request's headers as the transport puts them on the wire. */
  function Stripped(headers: Headers, unauthenticated: bool, credentials: seq<string>): Headers {
    if unauthenticated then headers - {COOKIE} - {AUTHORIZATION} - Names(credentials) else headers
  }

  /** Takes off a hop's headers what it must not carry. */
  method Clean(headers: Headers, state: RedirectState) returns (kept: Headers)
    ensures kept == Cleaned(headers, state.unauthenticated, state.credentialHeaders)
    ensures forall name :: name in kept <==>
              && name in headers && name != "If-None-Match"
              && !(state.unauthenticated && (name == "Authorization" || name in state.credentialHeaders))
    ensures forall name :: name in kept ==> kept[name] == headers[name]
  {
    kept := headers - {IF_NONE_MATCH};
    if state.unauthenticated {
      kept := kept - {AUTHORIZATION};
      kept := DeleteEach(kept, state.credentialHeaders);
    }
  }

  /** Gives a hop the state it carries, or the hop before's, or a new one. */
  method TakeOver(req: Request, last: Request) returns (state: RedirectState)
    requires req != last
    modifies req`state
    ensures req.state == state
    ensures old(req.state) != null ==> state == old(req.state)
    ensures old(req.state) == null && last.state != null ==> state == last.state
    ensures old(req.state) == null && last.state == null ==>
              && fresh(state) && state.credentialHeaders == []
              && !state.unauthenticated && state.signedUnder == Generation(0, 0)
  {
    var found := req.state;
    if found == null {
      found := last.state;
    }
    if found == null {
      found := new RedirectState();
    }
    state := found;
    if req.state != state {
      req.state := state;
    }
  }

  /**
   The policy every hop is put to: the caller's own verdict first, when there is one, and the
   SDK's bookkeeping last. `first` and `last` are the first and the latest request sent; `sent`
   counts them.
   */
  method CheckRedirect(
    sameOrigin: (string, string) -> bool,
    noRedirect: bool,
    next: Option<Result<Offer, ()>>,
    req: Request,
    first: Request,
    last: Request,
    sent: nat)
    returns (refusal: Option<Refusal>)
    requires req != last && req != first
    modifies req, req.state, last.state
    ensures refusal == Refused(noRedirect, next, sent)
    ensures refusal == Some(UseLastResponse) <==> noRedirect
    ensures refusal == Some(CallersPolicy) <==> !noRedirect && next.Some? && next.value.Err?
    ensures refusal == Some(TooManyRedirects) <==> !noRedirect && next.None? && sent >= 10
    ensures refusal.Some? ==>
              && (last.state != null ==> unchanged(last.state))
              && (old(req.state) != null ==> unchanged(old(req.state)))
    ensures refusal.None? ==>
              var carried := if next.Some? && !next.value.value.keepsState then null else old(req.state);
              var state := if carried != null then carried else last.state;
              && req.state != null
              && req.state.followed
              && (if state == null then fresh(req.state) && req.state.credentialHeaders == [] else
                    && req.state == state && req.state.credentialHeaders == old(state.credentialHeaders)
                    && req.state.signedUnder == old(state.signedUnder))
              && req.url == (if next.Some? then next.value.value.url else old(req.url))
              && req.state.unauthenticated ==
                 ((state != null && old(state.unauthenticated)) || !sameOrigin(req.url, first.url))
              && req.headers ==
                 Cleaned(if next.Some? then next.value.value.headers else old(req.headers),
                         req.state.unauthenticated, req.state.credentialHeaders)
    ensures last.state == old(last.state)
  {
    if noRedirect {
      return Some(UseLastResponse);
    }
    if next.Some? {
      if next.value.Err? {
        return Some(CallersPolicy);
      }
      req.url, req.headers := next.value.value.url, next.value.value.headers;
      if !next.value.value.keepsState {
        req.state := null;
      }
    } else if sent >= 10 {
      return Some(TooManyRedirects);
    }
    var state := TakeOver(req, last);
    state.followed := true;
    if !sameOrigin(req.url, first.url) {
      state.unauthenticated := true;
    }
    req.headers := Clean(req.headers, state);
    return None;
  }

  /** What the credential-stripping transport puts on the wire; the request keeps its headers. */
  method RoundTrip(req: Request) returns (wire: Headers)
    ensures wire ==
            if req.state == null then req.headers
            else Stripped(req.headers, req.state.unauthenticated, req.state.credentialHeaders)
    ensures forall name :: name in wire <==>
              && name in req.headers
              && !(req.state != null && req.state.unauthenticated
                   && (name == "Authorization" || name == "Cookie" || name in req.state.credentialHeaders))
    ensures forall name :: name in wire ==> wire[name] == req.headers[name]
  {
    var state := req.state;
    if state == null || !state.unauthenticated {
      return req.headers;
    }
    wire := req.headers - {COOKIE};
    wire := wire - {AUTHORIZATION};
    wire := DeleteEach(wire, state.credentialHeaders);
  }

  /**
   One hop as net/http takes it: the request it builds, what the caller's policy makes of it,
   and what is added to it between the policy and the transport, cookies among it.
   */
  datatype Hop = Hop(url: string, offered: Headers, next: Option<Result<Offer, ()>>, added: Headers)

  /** The headers the policy is handed, the caller's own changes made. */
  function Offered(hop: Hop): Headers {
    if hop.next.Some? && hop.next.value.Ok? then hop.next.value.value.headers else hop.offered
  }

  /** Where the hop goes, the caller's own changes made. */
  function Target(hop: Hop): string {
    if hop.next.Some? && hop.next.value.Ok? then hop.next.value.value.url else hop.url
  }

  /** Whether one of the first `n` hops left the origin of `url`. */
  predicate LeftOrigin(sameOrigin: (string, string) -> bool, url: string, hops: seq<Hop>, n: nat)
    requires n <= |hops|
  {
    n > 0 && (LeftOrigin(sameOrigin, url, hops, n - 1) || !sameOrigin(Target(hops[n - 1]), url))
  }

  /** A chain that has left the origin has left it for good. */
  lemma {:induction false} LeftForGood(sameOrigin: (string, string) -> bool, url: string, hops: seq<Hop>,
        i: nat, n: nat)
    requires i < n <= |hops| && !sameOrigin(Target(hops[i]), url)
    ensures LeftOrigin(sameOrigin, url, hops, n)
  {
    if n > i + 1 {
      LeftForGood(sameOrigin, url, hops, i, n - 1);
    }
  }

  /** A chain has left the origin exactly when one of its hops went elsewhere. */
  lemma {:induction false} LeftOriginExactly(sameOrigin: (string, string) -> bool, url: string, hops: seq<Hop>, n: nat)
    requires n <= |hops|
    ensures LeftOrigin(sameOrigin, url, hops, n) <==> exists i :: 0 <= i < n && !sameOrigin(Target(hops[i]), url)
  {
    if n > 0 {
      LeftOriginExactly(sameOrigin, url, hops, n - 1);
    }
  }

  /** What the request after `n` hops puts on the wire, given the headers a strategy set. */
  predicate SentAs(
    wire: Headers,
    sameOrigin: (string, string) -> bool,
    url: string,
    hops: seq<Hop>,
    n: nat,
    credentials: set<string>)
    requires 1 <= n <= |hops|
  {
    var hop := hops[n - 1];
    var secret := {AUTHORIZATION, COOKIE} + credentials;
    if LeftOrigin(sameOrigin, url, hops, n)
    then wire == Adding(Offered(hop) - {IF_NONE_MATCH}, hop.added) - secret
    else wire == Adding(Offered(hop) - {IF_NONE_MATCH}, hop.added)
  }

  /** What every request but the first puts on the wire. */
  predicate AllSentAs(
    wires: seq<Headers>, sameOrigin: (string, string) -> bool, url: string, hops: seq<Hop>, credentials: set<string>)
    requires |wires| <= |hops| + 1
  {
    forall n :: 1 <= n < |wires| ==> SentAs(wires[n], sameOrigin, url, hops, n, credentials)
  }

  lemma SentAppended(
    wires: seq<Headers>, wire: Headers, sameOrigin: (string, string) -> bool, url: string, hops: seq<Hop>,
    credentials: set<string>)
    requires 1 <= |wires| <= |hops|
    requires AllSentAs(wires, sameOrigin, url, hops, credentials)
    requires SentAs(wire, sameOrigin, url, hops, |wires|, credentials)
    ensures AllSentAs(wires + [wire], sameOrigin, url, hops, credentials)
  {
  }

  /** How many of the hops offered from the `n`th on are taken, counting those before. */
  function TakenFrom(noRedirect: bool, hops: seq<Hop>, n: nat): (taken: nat)
    requires n <= |hops|
    ensures n <= taken <= |hops|
    ensures forall i :: n <= i < taken ==> Refused(noRedirect, hops[i].next, i + 1).None?
    ensures taken < |hops| ==> Refused(noRedirect, hops[taken].next, taken + 1).Some?
    decreases |hops| - n
  {
    if n < |hops| && Refused(noRedirect, hops[n].next, n + 1).None? then TakenFrom(noRedirect, hops, n + 1) else n
  }

  function Taken(noRedirect: bool, hops: seq<Hop>): nat {
    TakenFrom(noRedirect, hops, 0)
  }

  /** Left to itself the policy lets a chain have ten requests; an operation that follows none has one. */
  lemma {:induction false} TakenByDefault(noRedirect: bool, hops: seq<Hop>, n: nat)
    requires n <= |hops| && n <= 9
    requires forall i :: 0 <= i < |hops| ==> hops[i].next.None?
    ensures TakenFrom(noRedirect, hops, n) == if noRedirect then n else if |hops| < 9 then |hops| else 9
    decreases |hops| - n
  {
    if n < |hops| && n < 9 {
      TakenByDefault(noRedirect, hops, n + 1);
    }
  }

  /** Why the chain ended before the last hop offered, when it did. */
  function Stopped(noRedirect: bool, hops: seq<Hop>): Option<Refusal> {
    var n := Taken(noRedirect, hops);
    if n < |hops| then Refused(noRedirect, hops[n].next, n + 1) else None
  }

  function Noted(state: RedirectState?): seq<string>
    reads state
  {
    if state == null then [] else state.credentialHeaders
  }

  function Left(state: RedirectState?): bool
    reads state
  {
    state != null && state.unauthenticated
  }

  function Under(state: RedirectState?): Generation
    reads state
  {
    if state == null then Generation(0, 0) else state.signedUnder
  }

  /** The policy takes nothing from a hop that the transport would have let through. */
  lemma CleanedThenStripped(hop: Hop, unauthenticated: bool, credentials: seq<string>)
    ensures
      var offered := Offered(hop);
      Stripped(Adding(Cleaned(offered, unauthenticated, credentials), hop.added), unauthenticated, credentials) ==
      if unauthenticated
      then Adding(offered - {IF_NONE_MATCH}, hop.added) - ({AUTHORIZATION, COOKIE} + Names(credentials))
      else Adding(offered - {IF_NONE_MATCH}, hop.added)
  {
  }

  /** One hop: built on the first request's context, put to the policy, added to, and sent. */
  method Follow(
    sameOrigin: (string, string) -> bool,
    noRedirect: bool,
    hop: Hop,
    first: Request,
    previous: Request,
    sent: nat)
    returns (refusal: Option<Refusal>, req: Request, wire: Headers)
    requires first.state == null || previous.state == first.state
    modifies first.state, previous.state
    ensures fresh(req) && first.url == old(first.url)
    ensures refusal == Refused(noRedirect, hop.next, sent)
    ensures previous.state == old(previous.state) && first.state == old(first.state)
    ensures refusal.Some? && previous.state != null ==> unchanged(previous.state)
    ensures refusal.None? ==>
              && req.state != null
              && (if previous.state == null then fresh(req.state) else req.state == previous.state)
              && req.state.followed
              && req.state.credentialHeaders == old(Noted(previous.state))
              && (previous.state != null ==> req.state.signedUnder == old(Under(previous.state)))
              && req.state.unauthenticated == (old(Left(previous.state)) || !sameOrigin(Target(hop), first.url))
              && wire ==
                 Stripped(Adding(Cleaned(Offered(hop), req.state.unauthenticated, req.state.credentialHeaders), hop.added),
                          req.state.unauthenticated, req.state.credentialHeaders)
  {
    req := new Request(hop.url, hop.offered, first.state);
    wire := map[];
    refusal := CheckRedirect(sameOrigin, noRedirect, hop.next, req, first, previous, sent);
    if refusal.None? {
      req.headers := Adding(req.headers, hop.added);
      wire := RoundTrip(req);
    }
  }

  /**
   Sends a request and follows its redirects as net/http does. A chain ends where the policy
   refuses a hop or the server redirects no further. The first request goes out with whatever
   was put on it.
   */
  method Send(sameOrigin: (string, string) -> bool, noRedirect: bool, first: Request, hops: seq<Hop>)
    returns (wires: seq<Headers>, last: RedirectState?, refusal: Option<Refusal>)
    requires first.state != null ==> !first.state.followed && !first.state.unauthenticated
    modifies first.state
    ensures |wires| == 1 + Taken(noRedirect, hops)
    ensures refusal == Stopped(noRedirect, hops)
    ensures wires[0] == old(first.headers)
    ensures AllSentAs(wires, sameOrigin, first.url, hops, Names(old(Noted(first.state))))
    ensures first.state == old(first.state)
    ensures first.state != null ==> last == first.state && last.signedUnder == old(Under(first.state))
    ensures last != null ==>
              && (last.followed <==> |wires| > 1)
              && (last.unauthenticated <==> LeftOrigin(sameOrigin, first.url, hops, |wires| - 1))
  {
    ghost var credentials := Noted(first.state);
    var wire := RoundTrip(first);
    wires := [wire];
    last, refusal := first.state, None;
    var previous := first;
    for n := 0 to |hops|
      invariant |wires| == n + 1
      invariant Taken(noRedirect, hops) == TakenFrom(noRedirect, hops, n) && refusal.None?
      invariant wires[0] == old(first.headers)
      invariant AllSentAs(wires, sameOrigin, first.url, hops, Names(credentials))
      invariant unchanged(first) && (first.state != null ==> last == first.state)
      invariant previous.state == last && (n > 0 ==> last != null && fresh(previous))
      invariant n == 0 ==> previous == first
      invariant last != first.state ==> last != null && fresh(last)
      invariant Noted(last) == credentials
      invariant first.state != null ==> Under(first.state) == old(Under(first.state))
      invariant last != null ==> (last.followed <==> n > 0)
      invariant Left(last) <==> LeftOrigin(sameOrigin, first.url, hops, n)
    {
      var stopped, req, sent := Follow(sameOrigin, noRedirect, hops[n], first, previous, n + 1);
      if stopped.Some? {
        refusal := stopped;
        return;
      }
      CleanedThenStripped(hops[n], req.state.unauthenticated, req.state.credentialHeaders);
      SentAppended(wires, sent, sameOrigin, first.url, hops, Names(credentials));
      wires := wires + [sent];
      previous, last := req, req.state;
    }
  }

  /** The state a request carries when it carries a new one. */
  predicate Unused(state: RedirectState?)
    reads state
  {
    state != null ==> state.credentialHeaders == [] && !state.followed && !state.unauthenticated
  }

  /**
   Signs a request and sends it: the strategy leaves `signed` where there was `before`, what it
   set is noted, and `validator` is put on it when the cache holds an entry. From the first hop
   off the origin on, returned to it or not, nothing the strategy set and no cookie goes out;
   and no hop carries the validator of the URL asked for. The generation it was signed under is
   there at the chain's end, whatever became of its hops' contexts.
   */
  method SignAndSend(
    sameOrigin: (string, string) -> bool,
    noRedirect: bool,
    first: Request,
    signed: Headers,
    under: Generation,
    validator: Option<string>,
    hops: seq<Hop>)
    returns (wires: seq<Headers>, last: RedirectState, refusal: Option<Refusal>)
    requires first.state != null && Unused(first.state)
    modifies first, first.state
    ensures |wires| == 1 + Taken(noRedirect, hops)
    ensures refusal == Stopped(noRedirect, hops)
    ensures wires[0] == if validator.Some? then signed["If-None-Match" := [validator.value]] else signed
    ensures forall n, name :: 1 <= n < |wires| && LeftOrigin(sameOrigin, first.url, hops, n)
                              && name in signed && Values(old(first.headers), name) != signed[name] ==>
              name !in wires[n]
    ensures forall n :: 1 <= n < |wires| && LeftOrigin(sameOrigin, first.url, hops, n) ==>
              wires[n] == Adding(Offered(hops[n - 1]) - {"If-None-Match"}, hops[n - 1].added)
                          - {"Authorization", "Cookie"} - SetByStrategy(old(first.headers), signed)
    ensures forall n :: 1 <= n < |wires| && !LeftOrigin(sameOrigin, first.url, hops, n) ==>
              wires[n] == Adding(Offered(hops[n - 1]) - {"If-None-Match"}, hops[n - 1].added)
    ensures forall n :: 1 <= n < |wires| && "If-None-Match" in wires[n] ==> "If-None-Match" in hops[n - 1].added
    ensures last.followed <==> |wires| > 1
    ensures last.unauthenticated <==> LeftOrigin(sameOrigin, first.url, hops, |wires| - 1)
    ensures last.signedUnder == under && first.url == old(first.url)
  {
    var before := first.headers;
    first.headers := signed;
    NoteCredentialHeaders(first, before);
    NoteSigning(first, under);
    if validator.Some? {
      first.headers := first.headers[IF_NONE_MATCH := [validator.value]];
    }
    wires, last, refusal := Send(sameOrigin, noRedirect, first, hops);
  }

  /** What asking for a refresh came to. */
  datatype Answer = Renewed(renewed: bool) | CutOff

  /**
   What a 401 comes to: a chain that left the origin rejected none of HEY's credentials; any other
   asks for a refresh of those it was signed with, or of the current ones if it does not say.
   */
  method Answer401(state: RedirectState?, refreshable: bool, current: Generation, answer: Answer)
    returns (told: Answer, asked: Option<Generation>)
    ensures asked ==
            if refreshable && !Left(state) then Some(if state != null then state.signedUnder else current) else None
    ensures told == if asked.Some? then answer else Renewed(false)
  {
    if state != null && state.unauthenticated {
      return Renewed(false), None;
    }
    if !refreshable {
      return Renewed(false), None;
    }
    var signedUnder := current;
    if state != null {
      signedUnder := state.signedUnder;
    }
    return answer, Some(signedUnder);
  }
}
