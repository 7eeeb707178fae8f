/**
 The TypeScript client's retry loop: one loop for every operation, with its own bound.

 What each attempt meets is arbitrary: the token read, the fetch, the body, the refresh, and
 whether the signal has aborted by each point the loop looks at it.
 */
module TsTransport {
  import opened Integers
  import opened Wrappers

  datatype Meta = Meta(
    safe: bool,
    unsigned: bool,
    noRedirect: bool,
    lenientSuccess: bool,
    maxAttempts: Option<int>,
    baseDelayMs: Option<nat>,
    retryOn: set<nat>)

  datatype Options = Options(maxRetries: Option<nat>, baseDelayMs: Option<nat>)

  datatype Fetched = NetworkFailure | Response(status: nat, readable: bool, cached: bool, retryAfterMs: Option<nat>)

  datatype World = World(
    refreshable: bool,
    token: nat -> bool,        // whether the attempt gets a token when the operation is signed
    fetched: nat -> Fetched,
    refreshed: nat -> bool,    // whether a refresh after the attempt succeeds
    aborted: (nat, nat) -> bool)  // whether the signal has aborted, by attempt and by point in it

  const MAX_TIMER_MS: nat := 2_147_483_647

  function Retries(meta: Meta, options: Options): nat {
    var configured := if options.maxRetries.Some? then options.maxRetries.value else 3;
    var declared := if meta.maxAttempts.Some? then meta.maxAttempts.value else 1;
    Min(configured, Max(0, declared - 1))
  }

  function Pow2(n: nat): nat {
    if n == 0 then 1 else 2 * Pow2(n - 1)
  }

  function RetryDelayMs(meta: Meta, options: Options, attempt: nat): nat {
    var declared := if meta.baseDelayMs.Some? then meta.baseDelayMs.value else 1000;
    var configured := if options.baseDelayMs.Some? then options.baseDelayMs.value else 0;
    Max(declared, configured) * Pow2(attempt)
  }

  /** An attempt is one of the retries exactly when neither the client's count nor the operation's is used up. */
  lemma RetriesExactly(meta: Meta, options: Options, attempt: nat)
    ensures attempt < Retries(meta, options) <==>
            && (if options.maxRetries.Some? then attempt < options.maxRetries.value else attempt < 3)
            && meta.maxAttempts.Some? && attempt + 1 < meta.maxAttempts.value
  {
  }

  /** The delay starts out as the larger of the two asked for, one second unless the operation says, and doubles. */
  lemma DelayDoubles(meta: Meta, options: Options, attempt: nat)
    ensures RetryDelayMs(meta, options, attempt + 1) == 2 * RetryDelayMs(meta, options, attempt)
    ensures
      var first := RetryDelayMs(meta, options, 0);
      && (if meta.baseDelayMs.Some? then first >= meta.baseDelayMs.value else first >= 1000)
      && (options.baseDelayMs.Some? ==> first >= options.baseDelayMs.value)
      && (first == 1000 || meta.baseDelayMs == Some(first) || options.baseDelayMs == Some(first))
      && (meta.baseDelayMs.Some? && first == 1000 ==> meta.baseDelayMs == Some(1000) || options.baseDelayMs == Some(1000))
  {
  }

  /** Why the loop went round again after an attempt, and how long it waited first. */
  datatype Again = AfterRefresh | AfterWait(ms: nat)

  /** The attempt was answered 401, and the refresh that asked for came back without failing. */
  predicate RefreshedAt(meta: Meta, w: World, attempt: nat) {
    && !meta.unsigned && w.refreshable && w.refreshed(attempt)
    && w.fetched(attempt).Response? && w.fetched(attempt).status == 401
  }

  /** The attempt failed in a way that a safe operation is sent again after. */
  predicate RetriedAt(meta: Meta, options: Options, w: World, attempt: nat) {
    && meta.safe && attempt < Retries(meta, options)
    && (w.fetched(attempt).NetworkFailure? || w.fetched(attempt).status in meta.retryOn)
  }

  /** A wait is as long as the backoff or as the server asked, whichever is longer, and fits the timer. */
  predicate WaitsOut(meta: Meta, options: Options, w: World, attempt: nat, ms: nat) {
    var backoff, response := RetryDelayMs(meta, options, attempt), w.fetched(attempt);
    && ms <= MAX_TIMER_MS
    && if response.Response? && response.retryAfterMs.Some? && response.retryAfterMs.value > backoff
       then ms == response.retryAfterMs.value else ms == backoff
  }

  /** Every attempt but the last was followed by one of the two reasons to go round again. */
  predicate Justified(meta: Meta, options: Options, w: World, again: seq<Again>) {
    forall k :: 0 <= k < |again| ==>
      match again[k]
      case AfterRefresh => RefreshedAt(meta, w, k)
      case AfterWait(ms) => RetriedAt(meta, options, w, k) && WaitsOut(meta, options, w, k, ms)
  }

  predicate OneRefresh(again: seq<Again>) {
    forall i, j :: 0 <= i < j < |again| ==> !(again[i].AfterRefresh? && again[j].AfterRefresh?)
  }

  /**
   Why an attempt may end an operation without an answer: the signal, a token or a refresh that
   failed, an answer that cannot be taken, or a failure that earns no wait.
   */
  predicate GivesUp(meta: Meta, options: Options, w: World, attempt: nat, refreshed: bool) {
    || (exists point :: 0 <= point <= 4 && w.aborted(attempt, point))
    || (!meta.unsigned && !w.token(attempt))
    || match w.fetched(attempt)
       case NetworkFailure =>
         !meta.safe || attempt >= Retries(meta, options) || RetryDelayMs(meta, options, attempt) > MAX_TIMER_MS
       case Response(status, readable, cached, retryAfterMs) =>
         || (meta.noRedirect && 300 <= status < 400 && !(status == 304 && cached))
         || (!readable && !(meta.lenientSuccess && 200 <= status < 300))
         || (status == 401 && !meta.unsigned && w.refreshable && !refreshed && !w.refreshed(attempt))
         || (RetriedAt(meta, options, w, attempt)
             && (RetryDelayMs(meta, options, attempt) > MAX_TIMER_MS
                 || (retryAfterMs.Some? && retryAfterMs.value > MAX_TIMER_MS)))
  }

  /** What one attempt comes to: an answer, no answer, or another attempt. */
  datatype Turn = Answered(status: nat) | GaveUp | GoesOn(why: Again)

  /** One attempt, and whether it was sent and asked for a refresh. */
  method Attempt(meta: Meta, options: Options, w: World, attempt: nat, refreshed: bool)
    returns (turn: Turn, sent: bool, asked: bool)
    ensures !turn.GaveUp? ==> sent
    ensures asked ==> sent && !refreshed
    ensures turn == GoesOn(AfterRefresh) ==> asked
    ensures turn.GaveUp? ==> GivesUp(meta, options, w, attempt, refreshed)
    ensures turn.GoesOn? ==>
              match turn.why
              case AfterRefresh => RefreshedAt(meta, w, attempt)
              case AfterWait(ms) =>
                !asked && RetriedAt(meta, options, w, attempt) && WaitsOut(meta, options, w, attempt, ms)
    ensures turn == GoesOn(AfterRefresh) ==>
              && w.fetched(attempt).Response? && w.fetched(attempt).status == 401
              && !meta.unsigned && w.refreshable && w.refreshed(attempt)
    ensures turn.GoesOn? && turn.why.AfterWait? ==>
              && meta.safe && (w.fetched(attempt).NetworkFailure? || w.fetched(attempt).status in meta.retryOn)
    ensures turn.Answered? ==>
              && w.fetched(attempt).Response? && w.fetched(attempt).status == turn.status
              && !(meta.safe && attempt < Retries(meta, options) && turn.status in meta.retryOn)
              && !asked && !(turn.status == 401 && !refreshed && !meta.unsigned && w.refreshable)
    ensures turn.GaveUp? && (meta.unsigned || w.token(attempt)) && !meta.noRedirect
            && (forall point :: 0 <= point <= 4 ==> !w.aborted(attempt, point)) ==>
              match w.fetched(attempt)
              case NetworkFailure =>
                !meta.safe || attempt >= Retries(meta, options) || RetryDelayMs(meta, options, attempt) > 2_147_483_647
              case Response(status, readable, _, retryAfterMs) =>
                || !readable || (status == 401 && !w.refreshed(attempt))
                || (status in meta.retryOn
                    && (RetryDelayMs(meta, options, attempt) > 2_147_483_647
                        || (retryAfterMs.Some? && retryAfterMs.value > 2_147_483_647)))
  {
    sent, asked := false, false;
    if w.aborted(attempt, 0) || (!meta.unsigned && !w.token(attempt)) || w.aborted(attempt, 1) {
      return GaveUp, sent, asked;
    }
    var retries := Retries(meta, options);
    sent := true;
    var response := w.fetched(attempt);
    if response.NetworkFailure? {
      if w.aborted(attempt, 2) {
        return GaveUp, sent, asked;
      }
      if meta.safe && attempt < retries {
        var ms := RetryDelayMs(meta, options, attempt);
        if ms <= MAX_TIMER_MS {
          return if w.aborted(attempt, 3) then GaveUp else GoesOn(AfterWait(ms)), sent, asked;
        }
      }
      return GaveUp, sent, asked;
    }
    var code := response.status;
    if meta.noRedirect && 300 <= code < 400 && !(code == 304 && response.cached) {
      return GaveUp, sent, asked;
    }
    if !response.readable && (w.aborted(attempt, 2) || !meta.lenientSuccess || code < 200 || code >= 300) {
      return GaveUp, sent, asked;
    }
    if code == 401 && !meta.unsigned && !refreshed && w.refreshable {
      asked := true;
      if w.aborted(attempt, 3) || !w.refreshed(attempt) || w.aborted(attempt, 4) {
        return GaveUp, sent, asked;
      }
      return GoesOn(AfterRefresh), sent, asked;
    }
    if meta.safe && attempt < retries && code in meta.retryOn {
      var ms := RetryDelayMs(meta, options, attempt);
      if response.retryAfterMs.Some? {
        ms := Max(ms, response.retryAfterMs.value);
      }
      if ms > MAX_TIMER_MS || w.aborted(attempt, 3) {
        return GaveUp, sent, asked;
      }
      return GoesOn(AfterWait(ms)), sent, asked;
    }
    return Answered(code), sent, asked;
  }

  /**
   Sends an operation until it is answered or given up. `again` says why each attempt but the
   last was followed by another; `sends` counts the fetches and `refreshes` the refreshes asked for.
   */
  method Request(meta: Meta, options: Options, w: World)
    returns (status: Option<nat>, again: seq<Again>, sends: nat, refreshes: nat)
    ensures sends == |again| || sends == |again| + 1
    ensures Justified(meta, options, w, again) && OneRefresh(again)
    ensures refreshes <= 1
    ensures status.Some? ==>
              && sends == |again| + 1
              && w.fetched(|again|).Response? && w.fetched(|again|).status == status.value
              && !(meta.safe && |again| < Retries(meta, options) && status.value in meta.retryOn)
              && !(status.value == 401 && refreshes == 0 && !meta.unsigned && w.refreshable)
    ensures status.None? ==> GivesUp(meta, options, w, |again|, AfterRefresh in again)
    ensures status.None? && (forall k, point :: !w.aborted(k, point)) && (forall k :: w.token(k)) && !meta.noRedirect ==>
              match w.fetched(|again|)
              case NetworkFailure =>
                !meta.safe || |again| >= Retries(meta, options) || RetryDelayMs(meta, options, |again|) > 2_147_483_647
              case Response(status, readable, _, retryAfterMs) =>
                || !readable || (status == 401 && !w.refreshed(|again|))
                || (status in meta.retryOn
                    && (RetryDelayMs(meta, options, |again|) > 2_147_483_647
                        || (retryAfterMs.Some? && retryAfterMs.value > 2_147_483_647)))
    ensures sends <= Retries(meta, options) + 2
    ensures sends == Retries(meta, options) + 2 ==> again[Retries(meta, options)] == AfterRefresh
    ensures !meta.safe ==> sends <= 2
    ensures !meta.safe && sends == 2 ==>
              && w.fetched(0).Response? && w.fetched(0).status == 401
              && !meta.unsigned && w.refreshable && w.refreshed(0)
    ensures options.maxRetries.Some? ==> sends <= options.maxRetries.value + 2
    ensures options.maxRetries.None? ==> sends <= 5
    ensures if meta.maxAttempts.Some? && meta.maxAttempts.value > 0 then sends <= meta.maxAttempts.value + 1 else sends <= 2
    ensures forall k :: 0 <= k < |again| && again[k].AfterWait? ==>
              meta.safe && (w.fetched(k).NetworkFailure? || w.fetched(k).status in meta.retryOn)
    ensures forall k :: 0 <= k < |again| && again[k].AfterRefresh? ==>
              w.fetched(k).Response? && w.fetched(k).status == 401 && !meta.unsigned && w.refreshable && w.refreshed(k)
  {
    var refreshed := false;
    ghost var retries := Retries(meta, options);
    again, sends, refreshes := [], 0, 0;
    while true
      invariant |again| == sends
      invariant Justified(meta, options, w, again) && OneRefresh(again)
      invariant refreshes == if refreshed then 1 else 0
      invariant refreshed <==> AfterRefresh in again
      invariant if refreshed then |again| <= retries + 1 else |again| <= retries
      invariant |again| == retries + 1 ==> again[retries] == AfterRefresh
      invariant !meta.safe && |again| > 0 ==> again == [AfterRefresh]
      decreases !refreshed, retries + 1 - |again|
    {
      var turn, sent, asked := Attempt(meta, options, w, |again|, refreshed);
      sends := sends + if sent then 1 else 0;
      refreshes := refreshes + if asked then 1 else 0;
      match turn
      case Answered(code) => return Some(code), again, sends, refreshes;
      case GaveUp => return None, again, sends, refreshes;
      case GoesOn(why) =>
        refreshed := refreshed || asked;
        again := again + [why];
    }
  }
}
