# Verified models of the HEY SDKs' concurrent and stateful core

The HEY SDKs (Go, TypeScript, Rust) carry a core that is easy to get subtly wrong: goroutines
sharing one credential refresh, redirects that must not carry credentials away, a validator cache
read and written by many requests at once, the machines that throttle and isolate operations, and
a few loops whose results must be exactly right. This project models that core in Dafny and proves
what its comments and documentation promise, over every interleaving, every run and every input.

`dafny verify dfyconfig.toml` checks all of it.

## What is modelled

**The refresh coordinator** (`refresh_*.dfy`). `Coordinator` is the memory the mutex of
`credentialRefresh` guards, one method for each stretch of code that holds the mutex. The
protocol interleaves those stretches for any number of signings, 401s and refresh goroutines.
Channels are objects that are open or closed; what the strategy returns, whether it fails or
panics, whether a renewal succeeds, and when contexts and timeouts end are arbitrary. The
invariant has eleven conjuncts, each shown to be kept by each action; the theorems are read off
it. The exit of `answer` that hands out the remembered result of the last refresh is shown to
hand out a refusal in every reachable state, although signings move both counts without touching
that result. Progress is proved by a rank: without new calls no run is longer than its first
state's rank, and where no goroutine can move every one of them has returned.

**Redirects and sends** (`redirects.dfy`, `sends.dfy`, `ts_transport.dfy`). The redirect policy,
the state it writes, the transport that reads it, and the two Go retry loops around them; the
TypeScript loop is modelled apart. Hops, answers, signings and refreshes are arbitrary functions
of the attempt. In the hand-written Go loop a resend after a refreshed 401 is one of the budget's
attempts, so a budget of one sends once (go/pkg/hey/client.go:1046-1074).

**The ETag cache** (`cache_store.dfy`, `caching_doer.dfy`, `cache_protocol.dfy`). The cache's
directory as three maps, the generated client's two halves around the network, and the
interleaving of any number of reads with `SetResponse`, `revalidate`, `Invalidate` and `Clear`,
Rust's two-step default `revalidate` included. A page is a body and the fields that belong to it
from end to end, any set of them that may be stored: `Link` and `X-Total-Count` for two. The
server is trusted with three things, stated as `Confirms` and `Serves`.

**Throttling and isolation** (`rate_limiter.dfy`, `circuit_breaker.dfy`, `permits*.dfy`,
`resilience_hooks.dfy`). A token bucket over real seconds; a breaker whose counters and ring are
proved to be functions of the outcomes recorded; and bulkhead permits twice: as a protocol in
which any number of operations, nested ones included, interleave at every step of the gate,
start and end hooks, and as the hooks themselves, run one at a time.

**Algorithms** (`schema_graph.dfy`, `link_*.dfy`, `pagination.dfy`, `body_limit.dfy`). The
generator's two graph walks, the Link parser with each of its patterns written out as a function
and each function shown to match exactly what its pattern does (`link_patterns.dfy`),
the two pagination loops, and the capped reader.

## What came out

- The Link parser reads back every printed list of links whose targets have no closing bracket
  and whose quotes, if they have any, pair up; a URI reference has none. It takes any `rel`
  parameter that lists next, where section 3.3 of RFC 8288 has all but the first ignored. A link
  is read as that section has it exactly when no later `rel` overrides its first
  (`AgreesExactly`), so with one `rel` or none the two agree (`OneRelAgrees`); a list is, exactly
  when the link chosen is not overridden (`ListAgreesExactly`, `RoundTripByFirstRel`); and
  `<a>;rel="prev";rel="next"` is read otherwise (`PrevThenNextMisleads`).
- `resolves_to_string` looks once more often than any chain of aliases is long.
- The length test of `FollowPagination`'s trim guard and the test for an empty URL in its loop are
  never false, and its test for an absolute URL refuses only what the origin test would refuse.
- `limitedReadAll` over a capped body at the same bound accepts exactly what the cap lets through
  whole. At a bound of 2^63-1, where there is no byte to ask for past it, that holds of bodies
  shorter than the bound; of any other, the first 2^63-1 bytes are accepted unless its own error
  comes with the last of them.
- A reservation in debt can add at most one second's worth of grants to what `Allow` and `Wait`
  are bounded by, and the bound is met: `Allow` refuses only where one more grant would break it
  (`RefusedOnlyWhenSpent`).

## Model

| member | source | states |
|---|---|---|
| RefreshCoordinator.Coordinator.constructor | go/pkg/hey/credential_refresh.go:26-52 | a coordinator starts with both counts at zero, the turn free and nothing in flight |
| RefreshCoordinator.Coordinator.ReadGeneration | go/pkg/hey/credential_refresh.go:64-68 | the two counts as they are now |
| RefreshCoordinator.Coordinator.TryTake | go/pkg/hey/credential_refresh.go:73-95 | one pass of the wait loop takes the turn or names the channel to block on, making one only when none is there |
| RefreshCoordinator.Coordinator.Give | go/pkg/hey/credential_refresh.go:98-104 | the turn is free and the channel its waiters block on is closed |
| RefreshCoordinator.Coordinator.FinishSigning | go/pkg/hey/credential_refresh.go:119-153 | a credential other than the remembered one moves both counts; the generation returned is the one after that |
| RefreshCoordinator.Coordinator.Look | go/pkg/hey/credential_refresh.go:173-202 | a 401 on renewed credentials is told so at once, whatever is in flight; one on the current ones waits for the refresh in flight, hears the remembered result, or launches the one refresh of its generation |
| RefreshCoordinator.Coordinator.GiveUp | go/pkg/hey/credential_refresh.go:219-225 | a refresh that waited too long clears the way for the next |
| RefreshCoordinator.Coordinator.BeginRun | go/pkg/hey/credential_refresh.go:226-234 | a renewal runs only if its credentials are still the current ones; otherwise the turn is given up |
| RefreshCoordinator.Coordinator.FinishRun | go/pkg/hey/credential_refresh.go:238-249 | a success moves both counts and forgets the credential, a failure only the runs; the turn is given up |
| RefreshCoordinator.Coordinator.Announce | go/pkg/hey/credential_refresh.go:251-252 | the answer is in the run before its channel is closed |
| RefreshInvariant.ApplyKeeps | go/pkg/hey/credential_refresh.go:64-253 | every stretch, by any goroutine, keeps the whole invariant |
| RefreshInvariant.AfterKeeps | go/pkg/hey/credential_refresh.go:64-253 | so does every run |
| RefreshTheorems.RenewalRunsUnderItsGeneration | go/pkg/hey/credential_refresh.go:204-253 | while a renewal is under way, the counts are those its refresh was launched for |
| RefreshTheorems.OneRenewalPerGeneration | go/pkg/hey/credential_refresh.go:155-202 | no generation has renew entered for it twice, over any interleaving |
| RefreshTheorems.CountsAccountForRenewals | go/pkg/hey/credential_refresh.go:106-153 | runs counts completed and provider renewals, refreshes the successful and provider ones; at most one is unaccounted for, and then one is under way |
| RefreshTheorems.ResentOnlyAfterRenewal | go/pkg/hey/credential_refresh.go:155-180 | a 401 is told to resend only when the refresh count has strictly grown since its request was signed |
| RefreshTheorems.RenewedIsTold | go/pkg/hey/credential_refresh.go:173-180 | and it is told so at once, whatever refresh is in flight by then |
| RefreshTheorems.StaleRefusalWaits | go/pkg/hey/credential_refresh.go:181-202 | a 401 on the current credentials waits for the refresh in flight, or launches one for its generation |
| RefreshTheorems.RefreshRenews | go/pkg/hey/credential_refresh.go:226-234 | a refresh that gets the turn renews exactly when its credentials are still current |
| RefreshTheorems.RenewalCounts | go/pkg/hey/credential_refresh.go:238-249 | a successful renewal outdates every generation there has been, a failed one outdates none |
| RefreshTheorems.AnswerIsShared | go/pkg/hey/credential_refresh.go:187-198 | every 401 that waits on the refresh of its generation hears what that came to |
| RefreshTheorems.SigningCountsProviderRenewals | go/pkg/hey/credential_refresh.go:119-153 | a signing moves both counts by one exactly when it finds another credential than the one remembered |
| RefreshTheorems.RefusedOnlyAfterFailure | go/pkg/hey/credential_refresh.go:155-202 | a 401 is refused only after a renewal of its own credentials failed or its refresh was given up |
| RefreshTheorems.RememberedAnswerIsRefusal | go/pkg/hey/credential_refresh.go:182-186 | the remembered result is false whenever it is handed out |
| RefreshTheorems.RefreshCountDeterminesCredential | go/pkg/hey/credential_refresh.go:106-153 | successful signings that name a credential and return equal refresh counts used the same credential |
| RefreshTheorems.TurnHeldByOne | go/pkg/hey/credential_refresh.go:70-104 | at most one signing or renewal holds the turn, panics and timeouts included |
| RefreshTheorems.RefreshRunsNext | go/pkg/hey/credential_refresh.go:70-95 | while a run is in flight only the signing already inside the strategy can finish, and no second one |
| RefreshTheorems.NoLostWakeup | go/pkg/hey/credential_refresh.go:73-104 | whoever blocks on an open channel blocks on one that someone there is still to close |
| RefreshTheorems.SomeoneAdvances | go/pkg/hey/credential_refresh.go:64-253 | until every goroutine has returned, one can move without any context ending |
| RefreshTheorems.RunsEnd | go/pkg/hey/credential_refresh.go:64-253 | without new calls a run has at most as many stretches as its first state's rank |
| RefreshTheorems.EveryRunSettles | go/pkg/hey/credential_refresh.go:64-253 | so every such run comes to a state in which every goroutine has returned |
| Redirects.NoteCredentialHeaders | go/pkg/hey/http.go:267-277 | a header is recorded exactly when it was before or its values differ from those before the strategy ran, new headers included |
| Redirects.NoteSigning | go/pkg/hey/http.go:283-299 | the generation a request was signed under is on its state, and nothing else of it changes |
| Redirects.TakeOver | go/pkg/hey/client.go:356-365 | a hop's state is its own, or the hop before's, or a new one |
| Redirects.Clean | go/pkg/hey/client.go:367-376 | off every hop the validator is taken, off those of a chain that left the origin Authorization and what was recorded, and nothing else |
| Redirects.CheckRedirect | go/pkg/hey/client.go:336-379 | the refusals in order, and on a followed hop, whatever the caller's policy made of its URL, headers and context, the state shared along the chain and the headers left |
| Redirects.RoundTrip | go/pkg/hey/http.go:304-316 | a request of a chain that left the origin goes out without cookies, Authorization and what was recorded; every other header, and every other request, as it is |
| Redirects.LeftForGood | go/pkg/hey/client.go:366-370 | a chain that has left the origin counts as having left it ever after |
| Redirects.LeftOriginExactly | go/pkg/hey/client.go:366-370 | a chain has left the origin exactly when one of its hops went elsewhere |
| Redirects.CleanedThenStripped | go/pkg/hey/client.go:367-376 | policy and transport together take away the validator and, off the origin, every secret, whatever was added between them |
| Redirects.TakenFrom | go/pkg/hey/client.go:341-350 | every hop counted as taken is one the policy takes, and the one behind them is not |
| Redirects.TakenByDefault | go/pkg/hey/client.go:341-350 | left to itself the policy lets a chain have ten requests, and one that follows none a single one |
| Redirects.Follow | go/pkg/hey/client.go:336-379 | one hop built, put to the policy, added to and sent |
| Redirects.Send | go/pkg/hey/client.go:336-379 | what each request of a chain of any length puts on the wire, and what the chain's state says at its end |
| Redirects.SignAndSend | go/pkg/hey/account_scope.go:132-153 | off the origin, returned to it or not, no Authorization, no cookie and no header whose values the strategy set goes out, and all else does; no hop carries the If-None-Match of the URL asked for; the generation signed under is there at the chain's end |
| Redirects.Answer401 | go/pkg/hey/client.go:419-434 | a chain that left the origin never asks for a refresh; any other asks under the generation it was signed under, or the current one without a state |
| Sends.SendAttempt | go/pkg/hey/client.go:1155-1162 | what the first request puts on the wire and what the attempt's redirects leave behind |
| Sends.SingleRequest | go/pkg/hey/client.go:1106-1299 | how an attempt ends, streamed downloads included; that it goes out with the validator of the entry held; when it asks for a refresh and for which generation; and that only a direct 304 to the validator sent is answered from the cache |
| Sends.ReadRefusal | go/pkg/hey/client.go:1234-1252 | only a first attempt's 401 is refreshed for, under the generation the chain carries, and a redirected write is not resent |
| Sends.ReadAnswer | go/pkg/hey/client.go:1171-1299 | the outcome of every other status and what the cache is told |
| Sends.DoWrite | go/pkg/hey/client.go:1029-1041 | a write goes out at most twice, the second time exactly after a direct 401 that renewed credentials answered |
| Sends.DoRetried | go/pkg/hey/client.go:1043-1096 | every attempt that went out and was not the last was lost, refreshed for, or answered by one of 429, 502, 503 and 504 that the budget resends; one that was is the last only when the budget is spent or the context ended |
| Sends.DoRequest | go/pkg/hey/client.go:1016-1096 | both bounds in one, when a write is resent, and at most one refresh asked for, exactly when the first attempt asks |
| Sends.EarnedByAnswer | go/pkg/hey/client.go:1008-1014 | what earns a resend is exactly no answer, a refreshed 401, or one of four statuses that a declared policy must name |
| Sends.AsksExactly | go/pkg/hey/client.go:1234-1252 | a refresh is asked for exactly after a first attempt's 401 whose hops all kept to the origin |
| Sends.PlainChain | go/pkg/hey/client.go:341-350 | without a policy of the caller's a chain follows its hops up to nine and is lost if there are more |
| Sends.FailuresAreSorted | go/pkg/hey/client.go:1253-1299 | the error each failing status is surfaced as; only a rate limit and three gateway statuses are retryable |
| Sends.SuccessesAreRead | go/pkg/hey/client.go:1171-1233 | which statuses are success for a read and for a write, and when a lost body still is |
| Sends.NotModifiedIsRead | go/pkg/hey/client.go:1171-1192 | a 304 is answered from the cache exactly when a keyed, direct GET asked about an entry that may be served |
| Sends.BodyAnswersAreRead | go/pkg/hey/client.go:792-876 | a form request is answered by a captured redirect or a success; any other status is the caller's error |
| Sends.SendBodyRequest | go/pkg/hey/client.go:792-876 | how an attempt of a form request ends |
| Sends.DoBodyRequest | go/pkg/hey/client.go:774-787 | a form request goes out twice exactly after a 401 that renewed credentials answered |
| TsTransport.Attempt | typescript/src/client.ts:352-457 | what one attempt comes to: an answer nothing is left to do about, no answer for one of the reasons listed, or another attempt that is justified, after exactly the longer of the backoff and what the server asked |
| TsTransport.Request | typescript/src/client.ts:342-457 | at most one more than maxAttempts, two more than maxRetries sends and one refresh; every further attempt is justified by what the one before met; an operation goes unanswered only for a reason its last attempt gives; an unsafe one goes out at most twice, then after a refreshed 401 |
| TsTransport.RetriesExactly | typescript/src/client.ts:343-346 | an attempt is among the retries exactly when neither maxRetries, three by default, nor maxAttempts is used up |
| TsTransport.DelayDoubles | typescript/src/client.ts:152-162 | the backoff starts as the larger of the two delays asked for and doubles |
| CacheStore.StorableIsFinal | go/pkg/hey/cache.go:237-255 | what is stored keeps no credential or connection field and is stored as it is the second time |
| CacheStore.StorableExactly | go/pkg/hey/cache.go:227-255 | field by field, what an entry keeps: every field with a value that is no credential, not the connection's and not listed as such, with all its values |
| CacheStore.Rebuilt | go/pkg/hey/cache.go:240-245 | adding every value of every field gives the fields that have any |
| CacheStore.StorableHeaders | go/pkg/hey/cache.go:237-255 | the nested loops take away what Connection lists and what is never stored, and nothing else |
| CacheStore.RevalidatedHeaders | go/pkg/hey/cache.go:263-275 | each field of a 304 replaces the stored values of its name, Content-Length apart, and every other keeps its values |
| CacheStore.Cache.constructor | go/pkg/hey/cache.go:21-23 | a new directory holds nothing |
| CacheStore.Cache.Lookup | go/pkg/hey/cache.go:85-102 | an entry is found only whole |
| CacheStore.Cache.SetResponse | go/pkg/hey/cache.go:171-208 | the new directory, its other keys as they were |
| CacheStore.Cache.Revalidate | go/pkg/hey/cache.go:109-133 | while the entry is still the one revalidated, its validator and headers become the 304's; otherwise nothing changes; the body never does |
| CacheStore.Cache.Invalidate | go/pkg/hey/cache.go:303-326 | one key is forgotten |
| CacheStore.Cache.Clear | go/pkg/hey/cache.go:287-300 | every key is forgotten |
| CacheStore.StoredIsFound | go/pkg/hey/cache.go:85-208 | what is stored is found, whole, and other keys are as they were |
| CacheStore.RevalidatedIsFound | go/pkg/hey/cache.go:104-133 | a revalidated entry is found with its new validator and headers over its own body; an entry of another validator stays as it was |
| CacheStore.InvalidatedIsGone | go/pkg/hey/cache.go:303-326 | what is invalidated is not found, and other keys are as they were |
| CachingDoer.Doer.Prepare | go/pkg/hey/generated_cache.go:21-50 | which requests go through the cache, in terms of verb, credentials, Accept and the opt-out, and that one is conditional exactly when the entry found may be served |
| CachingDoer.Doer.Settle | go/pkg/hey/generated_cache.go:51-76 | what is answered and what becomes of the cache, redirects, failures and oversized pages included |
| CachingDoer.Doer.Keep | go/pkg/hey/generated_cache.go:87-101 | a page is stored only if it can be served again, and otherwise drops the entry it replaces |
| CachingDoer.PageComesBack | go/pkg/hey/generated_cache.go:107-122 | a 304 to a stored page answers its body and every field of it that may be stored and the 304 does not renew |
| CachingDoer.Doer.ReadAgain | go/pkg/hey/generated_cache.go:21-76 | a page read three times: the second read asks about the first's validator and gets the same page, fields included; the third asks about the validator the 304 named |
| CachingDoer.DecimalIsRead | go/pkg/hey/generated_cache.go:110 | the length a cached answer declares is written in digits that stand for it |
| CacheProtocol.StorableKeepsFields | go/pkg/hey/cache.go:237-255 | storing keeps a page's fields unless the page lists one as the connection's own |
| CacheProtocol.MergedKeepsFields | go/pkg/hey/cache.go:263-275 | a trusted 304 leaves a page's fields as they were |
| CacheProtocol.ReadingKeeps | go/pkg/hey/cache.go:85-102 | lookups, answers and the first half of Rust's default keep every entry and read of one version |
| CacheProtocol.KeepingKeeps | go/pkg/hey/cache.go:104-133 | a 304 is written over the body it confirmed or not at all |
| CacheProtocol.StoringKeeps | rust/hey-sdk/src/cache.rs:99-112 | so are stored pages, and the second half of Rust's default, whatever was stored between its halves |
| CacheProtocol.RemovingKeeps | go/pkg/hey/cache.go:287-326 | so do Invalidate and Clear |
| CacheProtocol.AfterKeeps | go/pkg/hey/cache.go:81-208 | every interleaving keeps it |
| CacheProtocol.EntriesStayWhole | go/pkg/hey/cache.go:104-133 | after any run, an entry's validator names the body and the fields stored with it |
| CacheProtocol.ConditionalReadsAnswerTheirPage | go/pkg/hey/client.go:1136-1192 | a read answered from a 304 gets the body and the fields named by the If-None-Match it sent |
| CacheProtocol.AnswersAreKept | go/pkg/hey/cache.go:104-208 | what each read learns is on disk afterwards: a 304's validator and headers over the body it confirmed, a page that fits whole, one that does not not at all, and nothing of what is removed |
| RateLimiter.Configured | go/pkg/hey/rate_limit.go:36-57 | a positive rate and burst are kept, and any other takes the default |
| RateLimiter.Limiter.constructor | go/pkg/hey/rate_limit.go:36-57 | a new bucket is full |
| RateLimiter.Limiter.Refill | go/pkg/hey/rate_limit.go:66-77 | the bucket after a refill |
| RateLimiter.Limiter.Allow | go/pkg/hey/rate_limit.go:79-97 | granted exactly when no deadline holds and the tokens there are and those earned since make one |
| RateLimiter.Limiter.TryWait | go/pkg/hey/rate_limit.go:99-136 | one pass of Wait goes through exactly when Allow would be granted, and otherwise sleeps until the deadline or as long as the missing token takes |
| RateLimiter.Limiter.Wait | go/pkg/hey/rate_limit.go:99-136 | the loop of passes, as far as its context lasts |
| RateLimiter.Limiter.Reserve | go/pkg/hey/rate_limit.go:138-165 | granted exactly when no deadline holds and the debt is at most a second's worth; the bucket, debt included, and the delay |
| RateLimiter.Limiter.SetRetryAfter | go/pkg/hey/rate_limit.go:167-178 | a deadline only ever moves later |
| RateLimiter.AllowedExactly | go/pkg/hey/rate_limit.go:79-97 | when a call is granted, and the tokens it leaves |
| RateLimiter.PassedExactly | go/pkg/hey/rate_limit.go:99-136 | when a pass goes through, and which of the two sleeps it takes otherwise |
| RateLimiter.ReservedExactly | go/pkg/hey/rate_limit.go:138-165 | when a reservation is granted, and after what delay |
| RateLimiter.FirstBurstIsGranted | go/pkg/hey/rate_limit.go:36-165 | a new limiter grants its first burst of calls, whatever their kinds |
| RateLimiter.RefusedOnlyWhenSpent | go/pkg/hey/rate_limit.go:66-97 | with no deadline in force Allow refuses only when one more grant since some earlier moment would exceed a burst and what the rate has earned since |
| RateLimiter.NextTakes | go/pkg/hey/rate_limit.go:79-165 | a call takes one token exactly when it is granted |
| RateLimiter.GrantsWithinRate | go/pkg/hey/rate_limit.go:66-165 | of calls decided between two moments, the first begun before them perhaps, at most a burst and the rate's earnings are granted, and one second's worth more with reservations |
| RateLimiter.GrantsBetweenMoments | go/pkg/hey/rate_limit.go:36-165 | the same in any run from a limiter's start, of all calls decided from one moment to another |
| RateLimiter.NextIsBounded | go/pkg/hey/rate_limit.go:138-165 | no call leaves more than a burst or a debt of more than one second's worth |
| RateLimiter.NothingGrantedBeforeDeadline | go/pkg/hey/rate_limit.go:79-178 | no grant is made before any deadline set earlier in the run |
| RateLimiter.SleepSuffices | go/pkg/hey/rate_limit.go:99-136 | a Wait that slept as told goes through if nobody took the token |
| RateLimiter.ThirdPassSuffices | go/pkg/hey/rate_limit.go:99-136 | a Wait nobody interferes with gets its token at its third pass at the latest, a Retry-After deadline included |
| RateLimiter.ReservationIsCovered | go/pkg/hey/rate_limit.go:138-165 | a reservation waits at most a second and until its debt is earned back |
| CircuitBreaker.Configured | go/pkg/hey/circuit_breaker.go:50-75 | positive settings are kept, and any other takes the default |
| CircuitBreaker.TrailingExactly | go/pkg/hey/circuit_breaker.go:124-134 | outcomes end with so many failures exactly when none of the last so many is a success |
| CircuitBreaker.FailuresFrom | go/pkg/hey/circuit_breaker.go:156-161 | the failures counted are as many as the places of failures |
| CircuitBreaker.TripsExactly | go/pkg/hey/circuit_breaker.go:124-165 | the counter and the ring say to open exactly when the last threshold's worth of outcomes since closing failed, or too large a share of a full window's worth |
| CircuitBreaker.RingHoldsLast | go/pkg/hey/circuit_breaker.go:151-165 | the failures counted over the ring are those of exactly the last outcomes |
| CircuitBreaker.RingAfter | go/pkg/hey/circuit_breaker.go:143-149 | recording keeps the ring, wherever it wraps |
| CircuitBreaker.RecordedIsRing | go/pkg/hey/circuit_breaker.go:143-149 | whatever was recorded, the window is a ring of exactly the last outcomes |
| CircuitBreaker.FailureCounts | go/pkg/hey/circuit_breaker.go:124-141 | a failure while closed is one more of the trailing run, and so is the counter |
| CircuitBreaker.SuccessCounts | go/pkg/hey/circuit_breaker.go:105-122 | a success ends the run while closed, and is one more since half-opening |
| CircuitBreaker.Breaker.constructor | go/pkg/hey/circuit_breaker.go:50-75 | a breaker starts closed with no history |
| CircuitBreaker.Breaker.Allow | go/pkg/hey/circuit_breaker.go:84-103 | nothing is admitted while open until OpenTimeout after the latest failure, and then the breaker half-opens |
| CircuitBreaker.Breaker.RecordSuccess | go/pkg/hey/circuit_breaker.go:105-122 | the breaker closes exactly when the successes since half-opening reach their threshold |
| CircuitBreaker.Breaker.RecordFailure | go/pkg/hey/circuit_breaker.go:124-141 | it opens from closed exactly when the last threshold's worth of outcomes since it closed all failed or too large a share of the last window's worth of all did, and always from half-open |
| CircuitBreaker.Breaker.RecordInWindow | go/pkg/hey/circuit_breaker.go:143-149 | the window is what recording the whole history gives |
| CircuitBreaker.Breaker.CountFailures | go/pkg/hey/circuit_breaker.go:156-161 | the loop counts the window's failures |
| CircuitBreaker.Breaker.CheckFailureRate | go/pkg/hey/circuit_breaker.go:151-165 | what the window holds decides about the last outcomes of the history |
| PermitsInvariant.ApplyKeeps | go/pkg/hey/resilience.go:65-123 | every step of every operation keeps the invariant |
| PermitsInvariant.AfterKeeps | go/pkg/hey/resilience.go:65-123 | so does every interleaving |
| PermitsInvariant.CountKept | go/pkg/hey/bulkhead.go:45-71 | every step moves a slot and the releases that account for it together |
| PermitsTheorems.SlotsAreConserved | go/pkg/hey/bulkhead.go:45-94 | a bulkhead's slots in use are its releases pending, active and in hands, never more than MaxConcurrent |
| PermitsTheorems.EverythingComesBack | go/pkg/hey/resilience.go:65-123 | when every operation has ended or been refused, all slots are free, both maps empty, and each release has run once |
| PermitsTheorems.ReleasedOnce | go/pkg/hey/resilience.go:77-123 | a release is in exactly one place until it runs, and runs at most once |
| PermitsTheorems.NoReleaseIsLost | go/pkg/hey/resilience.go:84-123 | an operation that comes for its release finds it parked, and its own |
| PermitsTheorems.NoOperationIsStuck | go/pkg/hey/resilience.go:65-123 | every operation can take its next step; a release never blocks |
| PermitsTheorems.OperationsFinish | go/pkg/hey/resilience.go:65-123 | an operation takes at most nine steps, whatever the others do |
| PermitsTheorems.RegistryOnlyGrows | go/pkg/hey/bulkhead.go:106-124 | a scope keeps the bulkhead it was first given |
| PermitsTheorems.OneBulkheadPerScope | go/pkg/hey/bulkhead.go:106-124 | operations however far apart get the same bulkhead exactly when they are of one scope |
| PermitsTheorems.TakenExactly | go/pkg/hey/bulkhead.go:45-71 | a bulkhead gives out a slot exactly while fewer than MaxConcurrent releases are out |
| PermitsTheorems.BulkheadIsFound | go/pkg/hey/bulkhead.go:106-124 | an arriving operation is handed its scope's bulkhead, or a new one with no slots in use |
| PermitsTheorems.SlotIsTaken | go/pkg/hey/resilience.go:77-88 | an operation that gets a slot takes one and parks its release under the number it then carries |
| PermitsTheorems.OperationStarts | go/pkg/hey/resilience.go:103-114 | an admitted operation's release moves over under its number and its slot stays taken |
| PermitsTheorems.OperationEnds | go/pkg/hey/resilience.go:116-123 | a running operation's end frees one slot of its bulkhead and leaves nothing of it parked |
| PermitsTheorems.RefusedGivesBack | go/pkg/hey/resilience.go:90-97 | an operation the rate limiter refuses gives back the slot it took |
| ResilienceHooks.Hooks.constructor | go/pkg/hey/bulkhead.go:96-104 | no bulkheads and no permits |
| ResilienceHooks.Hooks.Find | go/pkg/hey/bulkhead.go:107-112 | the look under the read lock |
| ResilienceHooks.Hooks.FindOrCreate | go/pkg/hey/bulkhead.go:114-123 | under the write lock a bulkhead is made only if there still is none |
| ResilienceHooks.Hooks.Get | go/pkg/hey/bulkhead.go:106-124 | a scope's bulkhead, its slots in use and everyone else's as they were |
| ResilienceHooks.Hooks.Take | go/pkg/hey/resilience.go:77-88 | a slot is taken and its release parked under a new number, or nothing happens |
| ResilienceHooks.Hooks.LetGo | go/pkg/hey/resilience.go:92-96 | a parked release is taken out and run; a number without one frees nothing |
| ResilienceHooks.Hooks.OnOperationGate | go/pkg/hey/resilience.go:65-101 | exactly when an operation is admitted, what an admitted one holds, and that a refused one holds nothing |
| ResilienceHooks.Hooks.OnOperationStart | go/pkg/hey/resilience.go:103-114 | the release moves from one map to the other |
| ResilienceHooks.Hooks.OnOperationEnd | go/pkg/hey/resilience.go:116-123 | one slot of the release's bulkhead is freed, and none the second time |
| ResilienceHooks.Hooks.RunOperation | go/pkg/hey/boxes.go:26-34 | an operation is admitted exactly when breaker, bulkhead and limiter let it, and gate, start and end leave slots and both maps as they were |
| SchemaGraph.FirstNamed | rust/generator/src/model.rs:308 | the first schema of a name, or none |
| SchemaGraph.NameInAnyDepth | rust/generator/src/model.rs:739-745 | a type mentions a schema exactly when it is that name inside any layers of lists and maps |
| SchemaGraph.LeadsExactly | rust/generator/src/model.rs:305-317 | a name leads to those the first schema of that name has in a field or stands for, at any depth |
| SchemaGraph.BodiesOf | rust/generator/src/model.rs:299-303 | the names of all request bodies |
| SchemaGraph.NamesIn | rust/generator/src/model.rs:310-315 | the names a shape mentions, through lists and maps |
| SchemaGraph.Mark | rust/generator/src/model.rs:308-316 | the first schema of a name is marked and its mentions listed |
| SchemaGraph.Visit | rust/generator/src/model.rs:305-317 | one turn of the worklist |
| SchemaGraph.ClosedHasPath | rust/generator/src/model.rs:295-297 | a set with the bodies, closed under mention, has every name a body leads to |
| SchemaGraph.WalkEnds | rust/generator/src/model.rs:304-318 | an empty worklist has seen exactly the names a body leads to |
| SchemaGraph.MarkRequestSide | rust/generator/src/model.rs:298-319 | a schema is marked exactly when a body leads to it, cycles and repeats included; the walk ends |
| SchemaGraph.StringAfterOnce | rust/generator/src/model.rs:236-250 | a chain of aliases comes to a string in one number of steps |
| SchemaGraph.PassedAreMany | rust/generator/src/model.rs:236-250 | a chain that comes to a string passes through a new schema at every step |
| SchemaGraph.ChainsAreShort | rust/generator/src/model.rs:234-238 | so it is shorter than there are schemas |
| SchemaGraph.ResolvesToString | rust/generator/src/model.rs:236-250 | true exactly when following aliases ever comes to a string, cycles included |
| SchemaGraph.IsStringByPath | rust/generator/src/model.rs:236-250 | that is, when some path of aliases leads from the name to a string |
| LinkHeader.JoinRestores | typescript/src/security.ts:119-145 | joining the parts restores every input |
| LinkHeader.CutApart | typescript/src/security.ts:119-145 | a part ends at the first separator outside quotes and brackets |
| LinkHeader.SplitOutsideQuotes | typescript/src/security.ts:119-145 | the loop finds those parts |
| LinkParser.AnyNext | typescript/src/security.ts:151-162 | whether one of a link's parameters is a relation that lists next |
| LinkParser.NextLink | typescript/src/security.ts:147-165 | the target of the first link with such a parameter, or nothing |
| LinkRoundTrip.SplitRestores | typescript/src/security.ts:119-145 | splitting what was joined from whole parts gives the parts back |
| LinkRoundTrip.TargetIsRead | typescript/src/security.ts:149-150 | a printed link's target and parameters are read back |
| LinkRoundTrip.ParameterIsRead | typescript/src/security.ts:152-153 | a printed parameter's name and value, quoted or bare, are read back |
| LinkRoundTrip.QuotedIsRead | typescript/src/security.ts:155-158 | unescaping undoes escaping |
| LinkRoundTrip.RoundTrip | typescript/src/security.ts:147-165 | any printed list of links, parameters quoted or bare, is read as the target of the first whose relation lists next, or nothing |
| LinkRoundTrip.AgreesExactly | typescript/src/security.ts:151-162 | a printed link is read as section 3.3 of RFC 8288 has it exactly when no later rel overrides its first |
| LinkRoundTrip.OneRelAgrees | typescript/src/security.ts:151-162 | with at most one rel it always is |
| LinkRoundTrip.ListAgreesExactly | typescript/src/security.ts:147-165 | the two readings choose the same link of a list exactly when the one chosen is not overridden |
| LinkRoundTrip.RoundTripByFirstRel | typescript/src/security.ts:147-165 | a printed list gives the target section 3.3 means if the link chosen is not overridden, and where targets differ only then |
| LinkRoundTrip.SecondRelMisleads | typescript/src/security.ts:151-162 | any link with two rels of which only the second lists next is read otherwise |
| LinkRoundTrip.PrevThenNextMisleads | typescript/src/security.ts:151-162 | rel prev, then rel next, is one |
| LinkRoundTrip.PlainUriIsPrintable | typescript/src/security.ts:119-145 | a target without quote and closing bracket is among those the round trip covers |
| LinkRoundTrip.ListsNextIsAWord | typescript/src/security.ts:160 | a relation lists next exactly when next stands in it between spaces, in any case |
| LinkPatterns.TargetExactly | typescript/src/security.ts:149 | a target is read exactly from space, an opening bracket and all up to the first closing one |
| LinkPatterns.ParameterExactly | typescript/src/security.ts:152 | a parameter is read exactly from a name, an equals sign and a value, with any space around each |
| LinkPatterns.UnquotedExactly | typescript/src/security.ts:155-158 | a quoted value is read exactly when its quotes close, for the first time, at its end |
| LinkPatterns.BareExactly | typescript/src/security.ts:159 | a bare value is read as it is, exactly when it is not empty and has no space, comma or semicolon |
| Pagination.GetAllWithLimit | go/pkg/hey/pagination.go:165-208 | the first items of the trail of pages up to the limit, or its failure; every page is of the first's origin and there are at most MaxPages |
| Pagination.FollowPagination | go/pkg/hey/pagination.go:79-157 | the same of the pages behind a response, less the first page's share |
| Pagination.LoopsAgree | go/pkg/hey/pagination.go:72-208 | the one is the limit's prefix of the first page and the other, and each fails exactly when the other does |
| Pagination.LimitIsPrefix | go/pkg/hey/pagination.go:164-208 | a limit only shortens what there is without it |
| Pagination.FromIsRead | go/pkg/hey/pagination.go:172-206 | a trail is what reading URLs one after another gives: each page answered with its items and led, at the first's origin, to the next, and the last says why it ended |
| Pagination.ItemsInOrder | go/pkg/hey/pagination.go:172-206 | the items are the pages', each page's after those before it |
| Pagination.LimitedExactly | go/pkg/hey/pagination.go:164-208 | a limited read is a trail's first items, the limit's worth or all; short of the limit a failure is the answer |
| BodyLimit.CappedBody.constructor | go/pkg/hey/body_limit.go:44-60 | a declared length past the limit leaves nothing to deliver |
| BodyLimit.CappedBody.Read | go/pkg/hey/body_limit.go:102-128 | each read delivers the next stretch of what the cap lets through, and errs exactly at its end |
| BodyLimit.ReadToError | go/pkg/hey/body_limit.go:11-60 | whatever the buffers and chunks: the whole body, or its first limit bytes and a refusal, or a refusal alone |
| BodyLimit.LimitedReadAll | go/pkg/hey/security.go:37-54 | a body is accepted exactly when it ends well within both bounds, and what happens at 2^63-1 |
| BodyLimit.SameBoundAcceptsSameBodies | go/pkg/hey/security.go:37-54 | at the cap that is exactly the bodies the cap lets through whole |

## Left out

- LimitedReadAll: at a bound of 2^63-1 a body of that many bytes or more is accepted or refused as its chunks fall, so the contract there names both endings and does not say which; the code cannot ask for the byte that would tell.
- RefreshCoordinator.Coordinator: the counts are unbounded, where the source's wrap at 64 bits; a panic in a renewal ends the process and is not a step.
- Redirects.CheckRedirect: a caller's policy may change the hop it is handed, its URL, headers and context, but not the requests before it.
- Redirects.SignAndSend: headers that are no credential's, such as User-Agent and Accept, are among those the strategy finds and leaves; what net/http itself resends or strips between hops is part of the arbitrary hop; header names are taken to be canonical already.
- RateLimiter: times are reals, so the truncation of delays to nanoseconds is not modelled; Tokens is modelled as a refill only; in runs of many callers a Wait is its passes, and its sleeps are the clock moving on.
- CircuitBreaker: which errors trip the breaker, and the registry of breakers, which is the bulkheads' over again.
- Permits: the steps are modelled on values, each one operation on shared memory; the hooks as an object are modelled one call at a time in ResilienceHooks. All three mechanisms are taken to be configured, and an inner hook to hand its context through. A wait for a slot is a step that may also give up.
- Sends: `renewal`, which asks the provider before the refresher, since whether a renewal succeeds is arbitrary here; request building, hooks, logging, backoff delays and jitter, and what a download streamed to a destination of its own has written when it fails.
- TsTransport.Request: the in-memory cache, page decoding and what a status maps to as an error; the Credentials object, whose refresh is an arbitrary success or failure here.
- CacheStore.Cache: the directory is three maps whose writes succeed; failed or torn writes, JSON, and other processes sharing the directory are outside the model. So is Set, which stores without headers.
- CachingDoer.Doer: the client's own key and buffer bound are parameters; between its halves the cache is left to CacheProtocol.
- LinkParser: a header is a sequence of characters, not of UTF-16 units; only the letters A to Z are folded, which is all the two names compared have.
- Pagination: URLs are compared by an arbitrary parse into scheme and host, with the empty URL known to have no scheme; a nil list is an empty one.
- BodyLimit: a wire that reads nothing and reports nothing is not modelled, nor is the status an error response's refusal carries, nor which requests are capped.
- The generated Go client's retry loop, its parsers and the services built on it; OAuth, PKCE, token stores, configuration and observability; the conformance runners.
- The generator beyond its two graph walks: parsing the API description, naming and emitting code.
