/**
 The circuit breaker: its counters and its ring are read off the history of what was recorded.

 Times are seconds on a clock that never goes back; the failure rate is a share in percent.
 */
module CircuitBreaker {
  datatype Config = Config(
    failureThreshold: int,
    successThreshold: int,
    openTimeout: real,
    failureRate: real,
    windowSize: int)
  {
    predicate Valid() {
      failureThreshold > 0 && successThreshold > 0 && openTimeout > 0.0 && failureRate > 0.0 && windowSize > 0
    }
  }

  function Configured(c: Config): (r: Config)
    ensures r.Valid()
    ensures c.Valid() ==> r == c
    ensures c.failureThreshold > 0 ==> r.failureThreshold == c.failureThreshold
    ensures c.successThreshold > 0 ==> r.successThreshold == c.successThreshold
    ensures c.openTimeout > 0.0 ==> r.openTimeout == c.openTimeout
    ensures c.failureRate > 0.0 ==> r.failureRate == c.failureRate
    ensures c.windowSize > 0 ==> r.windowSize == c.windowSize
  {
    Config(if c.failureThreshold <= 0 then 5 else c.failureThreshold,
           if c.successThreshold <= 0 then 2 else c.successThreshold,
           if c.openTimeout <= 0.0 then 30.0 else c.openTimeout,
           if c.failureRate <= 0.0 then 50.0 else c.failureRate,
           if c.windowSize <= 0 then 10 else c.windowSize)
  }

  datatype State = Closed | Open | HalfOpen

  /** How many outcomes are failures. */
  function Failures(outcomes: seq<bool>): nat {
    if |outcomes| == 0 then 0
    else Failures(outcomes[..|outcomes| - 1]) + if outcomes[|outcomes| - 1] then 0 else 1
  }

  /** How many failures the outcomes end with. */
  function Trailing(outcomes: seq<bool>): nat {
    if |outcomes| == 0 || outcomes[|outcomes| - 1] then 0 else 1 + Trailing(outcomes[..|outcomes| - 1])
  }

  function Last(outcomes: seq<bool>, n: nat): seq<bool> {
    if |outcomes| < n then outcomes else outcomes[|outcomes| - n..]
  }

  /** A share in percent. */
  function Share(part: nat, whole: nat): real
    requires whole > 0
  {
    part as real / whole as real * 100.0
  }

  /** Whether enough outcomes exist and the share of failures among the last of them is too high. */
  predicate RateReached(c: Config, outcomes: seq<bool>)
    requires c.Valid()
  {
    |outcomes| >= c.windowSize
    && Share(Failures(Last(outcomes, c.windowSize)), c.windowSize) >= c.failureRate
  }

  /** The places of the failures among outcomes, from one place on. */
  function FailedFrom(outcomes: seq<bool>, from: int): set<nat> {
    set i: nat | from <= i < |outcomes| && !outcomes[i]
  }

  /**
   Whether a failure recorded while closed opens the breaker, given all outcomes and those since it
   closed: the last threshold's worth since it closed all failed, or too large a share of a full
   window's worth of all of them did.
   */
  predicate Trips(c: Config, outcomes: seq<bool>, sinceClosed: seq<bool>)
    requires c.Valid()
  {
    || (c.failureThreshold <= |sinceClosed|
        && forall i :: |sinceClosed| - c.failureThreshold <= i < |sinceClosed| ==> !sinceClosed[i])
    || (c.windowSize <= |outcomes|
        && |FailedFrom(outcomes, |outcomes| - c.windowSize)| as real * 100.0 >= c.failureRate * c.windowSize as real)
  }

  lemma FailedFromGrows(outcomes: seq<bool>, outcome: bool, from: nat)
    requires from <= |outcomes|
    ensures |FailedFrom(outcomes + [outcome], from)| == |FailedFrom(outcomes, from)| + if outcome then 0 else 1
  {
    assert FailedFrom(outcomes + [outcome], from) == FailedFrom(outcomes, from) + if outcome then {} else {|outcomes|};
  }

  lemma FailuresGrow(outcomes: seq<bool>, outcome: bool)
    ensures Failures(outcomes + [outcome]) == Failures(outcomes) + if outcome then 0 else 1
  {
    assert (outcomes + [outcome])[..|outcomes|] == outcomes;
  }

  /** The failures are as many as the places of failures. */
  lemma {:induction false} FailuresFrom(outcomes: seq<bool>, from: nat)
    requires from <= |outcomes|
    ensures Failures(outcomes[from..]) == |FailedFrom(outcomes, from)|
    decreases |outcomes|
  {
    if from == |outcomes| {
      assert outcomes[from..] == [] && FailedFrom(outcomes, from) == {};
    } else {
      var earlier, last := outcomes[..|outcomes| - 1], outcomes[|outcomes| - 1];
      assert outcomes == earlier + [last];
      assert outcomes[from..] == earlier[from..] + [last];
      FailuresFrom(earlier, from);
      FailuresGrow(earlier[from..], last);
      FailedFromGrows(earlier, last, from);
    }
  }

  /** Outcomes end with so many failures exactly when none of the last so many is a success. */
  lemma {:induction false} TrailingExactly(outcomes: seq<bool>, n: nat)
    ensures Trailing(outcomes) >= n <==>
            n <= |outcomes| && forall i :: |outcomes| - n <= i < |outcomes| ==> !outcomes[i]
    decreases |outcomes|
  {
    if n > 0 && |outcomes| > 0 {
      TrailingExactly(outcomes[..|outcomes| - 1], n - 1);
    }
  }

  lemma ShareReaches(part: nat, whole: nat, rate: real)
    requires whole > 0
    ensures Share(part, whole) >= rate <==> part as real * 100.0 >= rate * whole as real
  {
    var share := part as real / whole as real;
    assert share * whole as real == part as real;
    assert Share(part, whole) * whole as real == part as real * 100.0;
    if Share(part, whole) >= rate {
      assert Share(part, whole) * whole as real >= rate * whole as real;
    } else {
      assert Share(part, whole) * whole as real < rate * whole as real;
    }
  }

  /** It does exactly when the counters and the ring say so. */
  lemma TripsExactly(c: Config, outcomes: seq<bool>, sinceClosed: seq<bool>)
    requires c.Valid()
    ensures Trips(c, outcomes, sinceClosed) <==>
            Trailing(sinceClosed) >= c.failureThreshold || RateReached(c, outcomes)
  {
    TrailingExactly(sinceClosed, c.failureThreshold);
    if c.windowSize <= |outcomes| {
      FailuresFrom(outcomes, |outcomes| - c.windowSize);
      ShareReaches(Failures(Last(outcomes, c.windowSize)), c.windowSize, c.failureRate);
    }
  }

  lemma {:induction false} FailuresOfBoth(a: seq<bool>, b: seq<bool>)
    ensures Failures(a + b) == Failures(a) + Failures(b)
  {
    if |b| == 0 {
      assert a + b == a;
    } else {
      assert (a + b)[..|a + b| - 1] == a + b[..|b| - 1];
      FailuresOfBoth(a, b[..|b| - 1]);
    }
  }

  lemma TrailingAfter(outcomes: seq<bool>, outcome: bool)
    ensures Trailing(outcomes + [outcome]) == if outcome then 0 else 1 + Trailing(outcomes)
  {
    assert (outcomes + [outcome])[..|outcomes|] == outcomes;
  }

  /** A ring of the last outcomes, the oldest at `index` once it has filled. */
  predicate Ring(window: seq<bool>, index: nat, filled: bool, outcomes: seq<bool>) {
    && index < |window|
    && (filled <==> |outcomes| >= |window|)
    && if filled then window[index..] + window[..index] == outcomes[|outcomes| - |window|..]
       else index == |outcomes| && window[..index] == outcomes
  }

  lemma NextSlot(index: nat, n: nat)
    requires index < n
    ensures (index + 1) % n == if index + 1 == n then 0 else index + 1
  {
  }

  lemma FullRingAfter(window: seq<bool>, index: nat, outcomes: seq<bool>, outcome: bool, next: nat)
    requires Ring(window, index, true, outcomes)
    requires next == if index + 1 == |window| then 0 else index + 1
    ensures Ring(window[index := outcome], next, true, outcomes + [outcome])
  {
    var r, n := window[index := outcome], |window|;
    var held, all := window[index..] + window[..index], outcomes + [outcome];
    assert all[|all| - n..] == held[1..] + [outcome];
    if next == 0 {
      assert r[next..] + r[..next] == r == held[1..] + [outcome];
    } else {
      assert r[next..] == window[next..];
      assert r[..next] == window[..index] + [outcome];
      assert held[1..] == window[next..] + window[..index];
    }
  }

  lemma FillingRingAfter(window: seq<bool>, index: nat, outcomes: seq<bool>, outcome: bool, next: nat)
    requires Ring(window, index, false, outcomes)
    requires next == if index + 1 == |window| then 0 else index + 1
    ensures Ring(window[index := outcome], next, next == 0, outcomes + [outcome])
  {
    var r := window[index := outcome];
    assert r[..index + 1] == outcomes + [outcome];
    if next == 0 {
      assert r[next..] + r[..next] == r == r[..index + 1];
    }
  }

  /** Recording an outcome in the slot at `index` keeps the ring, wherever it wraps. */
  lemma RingAfter(window: seq<bool>, index: nat, filled: bool, outcomes: seq<bool>, outcome: bool, next: nat)
    requires Ring(window, index, filled, outcomes)
    requires next == if index + 1 == |window| then 0 else index + 1
    ensures Ring(window[index := outcome], next, filled || next == 0, outcomes + [outcome])
  {
    if filled {
      FullRingAfter(window, index, outcomes, outcome, next);
    } else {
      FillingRingAfter(window, index, outcomes, outcome, next);
    }
  }

  /** A window, the slot the next outcome goes to, and whether it has filled. */
  datatype Slots = Slots(window: seq<bool>, index: nat, filled: bool) {
    predicate Valid() {
      index < |window|
    }

    function Record(outcome: bool): (next: Slots)
      requires Valid()
      ensures next.Valid() && |next.window| == |window|
    {
      var to := (index + 1) % |window|;
      Slots(window[index := outcome], to, filled || to == 0)
    }
  }

  /** What a window of `n` slots holds once each of the outcomes has been recorded. */
  function Recorded(n: nat, outcomes: seq<bool>): (slots: Slots)
    requires n > 0
    ensures slots.Valid() && |slots.window| == n
  {
    if |outcomes| == 0 then Slots(seq(n, i => false), 0, false)
    else Recorded(n, outcomes[..|outcomes| - 1]).Record(outcomes[|outcomes| - 1])
  }

  lemma RecordKeepsRing(slots: Slots, outcomes: seq<bool>, outcome: bool)
    requires slots.Valid() && Ring(slots.window, slots.index, slots.filled, outcomes)
    ensures
      var next := slots.Record(outcome);
      Ring(next.window, next.index, next.filled, outcomes + [outcome])
  {
    NextSlot(slots.index, |slots.window|);
    RingAfter(slots.window, slots.index, slots.filled, outcomes, outcome, slots.Record(outcome).index);
  }

  lemma NothingRecordedIsRing(n: nat)
    requires n > 0
    ensures Recorded(n, []) == Slots(seq(n, i => false), 0, false)
    ensures Ring(Recorded(n, []).window, 0, false, [])
  {
  }

  lemma RecordedAfter(n: nat, outcomes: seq<bool>, outcome: bool)
    requires n > 0
    ensures Recorded(n, outcomes + [outcome]) == Recorded(n, outcomes).Record(outcome)
  {
    var all := outcomes + [outcome];
    assert all[..|all| - 1] == outcomes;
  }

  /** Whatever was recorded, the window is a ring of exactly the last outcomes. */
  lemma {:induction false} RecordedIsRing(n: nat, outcomes: seq<bool>)
    requires n > 0
    ensures
      var slots := Recorded(n, outcomes);
      Ring(slots.window, slots.index, slots.filled, outcomes)
  {
    if |outcomes| == 0 {
      assert outcomes == [];
      NothingRecordedIsRing(n);
    } else {
      var earlier, last := outcomes[..|outcomes| - 1], outcomes[|outcomes| - 1];
      var slots := Recorded(n, earlier);
      var next := slots.Record(last);
      assert outcomes == earlier + [last];
      RecordedIsRing(n, earlier);
      RecordKeepsRing(slots, earlier, last);
      RecordedAfter(n, earlier, last);
      assert Recorded(n, outcomes) == next;
      assert Ring(next.window, next.index, next.filled, outcomes);
    }
  }

  /** The failures counted over the whole ring are those of the last outcomes. */
  lemma RingHoldsLast(window: seq<bool>, index: nat, outcomes: seq<bool>)
    requires Ring(window, index, true, outcomes)
    ensures Failures(window) == Failures(Last(outcomes, |window|))
  {
    assert window == window[..index] + window[index..];
    FailuresOfBoth(window[..index], window[index..]);
    FailuresOfBoth(window[index..], window[..index]);
  }

  /** What the counters say of the outcomes since the breaker closed and since it half-opened. */
  predicate Counters(
    c: Config, state: State, failures: int, successes: int, sinceClosed: seq<bool>, sinceHalfOpen: seq<bool>)
  {
    && (state == Closed ==> failures == Trailing(sinceClosed) < c.failureThreshold)
    && (state == HalfOpen ==>
          && successes == |sinceHalfOpen| < c.successThreshold
          && forall i :: 0 <= i < |sinceHalfOpen| ==> sinceHalfOpen[i])
  }

  /** A failure while closed extends the trailing run; one more in the run is the counter's one more. */
  lemma FailureCounts(
    c: Config, state: State, failures: int, successes: int, sinceClosed: seq<bool>, sinceHalfOpen: seq<bool>)
    requires Counters(c, state, failures, successes, sinceClosed, sinceHalfOpen)
    ensures state == Closed ==> Trailing(sinceClosed + [false]) == failures + 1
    ensures state == Closed && failures + 1 < c.failureThreshold ==>
              Counters(c, Closed, failures + 1, successes, sinceClosed + [false], sinceHalfOpen + [false])
  {
    TrailingAfter(sinceClosed, false);
  }

  /** A success ends the trailing run while closed, and is one more of those since half-opening. */
  lemma SuccessCounts(
    c: Config, state: State, failures: int, successes: int, sinceClosed: seq<bool>, sinceHalfOpen: seq<bool>)
    requires c.Valid() && Counters(c, state, failures, successes, sinceClosed, sinceHalfOpen)
    ensures state == Closed ==> Counters(c, Closed, 0, successes, sinceClosed + [true], sinceHalfOpen + [true])
    ensures state == HalfOpen && successes + 1 < c.successThreshold ==>
              Counters(c, HalfOpen, failures, successes + 1, sinceClosed + [true], sinceHalfOpen + [true])
  {
    TrailingAfter(sinceClosed, true);
  }

  class Breaker {
    const config: Config
    const window: array<bool>
    var state: State
    var failures: int
    var successes: int
    var lastFailure: real
    var windowIndex: nat
    var windowFilled: bool

    /** Every outcome recorded; those since the breaker last closed, and since it last half-opened. */
    ghost var outcomes: seq<bool>
    ghost var sinceClosed: seq<bool>
    ghost var sinceHalfOpen: seq<bool>
    /** When the latest failure was recorded. */
    ghost var failedAt: real

    ghost predicate Valid()
      reads this, window
    {
      && config.Valid()
      && window.Length == config.windowSize
      && Slots(window[..], windowIndex, windowFilled) == Recorded(config.windowSize, outcomes)
      && lastFailure == failedAt
      && Counters(config, state, failures, successes, sinceClosed, sinceHalfOpen)
    }

    constructor (config: Config)
      ensures Valid() && this.config == Configured(config)
      ensures state == Closed && outcomes == sinceClosed == []
      ensures fresh(window)
    {
      this.config := Configured(config);
      window := new bool[Configured(config).windowSize](i => false);
      state, failures, successes, lastFailure := Closed, 0, 0, 0.0;
      windowIndex, windowFilled := 0, false;
      outcomes, sinceClosed, sinceHalfOpen, failedAt := [], [], [], 0.0;
      new;
      assert window[..] == seq(window.Length, i => false);
    }

    /** Admits nothing while open until the timeout has passed since the latest failure recorded. */
    method Allow(now: real) returns (admitted: bool)
      requires Valid()
      modifies this
      ensures Valid()
      ensures outcomes == old(outcomes) && sinceClosed == old(sinceClosed) && failedAt == old(failedAt)
      ensures admitted <==> old(state) != Open || now - old(failedAt) >= config.openTimeout
      ensures state == if old(state) == Open && admitted then HalfOpen else old(state)
      ensures sinceHalfOpen == if old(state) == Open && admitted then [] else old(sinceHalfOpen)
    {
      match state
      case Closed => return true;
      case Open =>
        if now - lastFailure >= config.openTimeout {
          state, successes := HalfOpen, 0;
          sinceHalfOpen := [];
          return true;
        }
        return false;
      case HalfOpen => return true;
    }

    /** Closes exactly when the successes since half-opening reach their threshold. */
    method RecordSuccess()
      requires Valid()
      modifies this, window
      ensures Valid()
      ensures outcomes == old(outcomes) + [true] && failedAt == old(failedAt)
      ensures sinceHalfOpen == old(sinceHalfOpen) + [true]
      ensures state ==
              if old(state) == HalfOpen && |sinceHalfOpen| >= config.successThreshold then Closed else old(state)
      ensures sinceClosed == if old(state) == HalfOpen && state == Closed then [] else old(sinceClosed) + [true]
    {
      RecordInWindow(true);
      SuccessCounts(config, state, failures, successes, sinceClosed, sinceHalfOpen);
      sinceClosed, sinceHalfOpen := sinceClosed + [true], sinceHalfOpen + [true];
      match state
      case HalfOpen =>
        successes := successes + 1;
        if successes >= config.successThreshold {
          state, failures, successes := Closed, 0, 0;
          sinceClosed := [];
        }
      case Closed =>
        failures := 0;
      case Open =>
    }

    /** Opens from closed exactly when the run of failures or their rate says so, and always from half-open. */
    method RecordFailure(now: real)
      requires Valid()
      modifies this, window
      ensures Valid()
      ensures outcomes == old(outcomes) + [false] && failedAt == now
      ensures sinceClosed == old(sinceClosed) + [false] && sinceHalfOpen == old(sinceHalfOpen) + [false]
      ensures state == if old(state) == Closed && !Trips(config, outcomes, sinceClosed) then Closed else Open
    {
      lastFailure := now;
      failedAt := now;
      RecordInWindow(false);
      FailureCounts(config, state, failures, successes, sinceClosed, sinceHalfOpen);
      sinceClosed, sinceHalfOpen := sinceClosed + [false], sinceHalfOpen + [false];
      TripsExactly(config, outcomes, sinceClosed);
      match state
      case Closed =>
        failures := failures + 1;
        var tooOften := CheckFailureRate();
        if failures >= config.failureThreshold || tooOften {
          state := Open;
        }
      case HalfOpen =>
        state, successes := Open, 0;
      case Open =>
    }

    method RecordInWindow(success: bool)
      requires config.Valid() && window.Length == config.windowSize
      requires Slots(window[..], windowIndex, windowFilled) == Recorded(config.windowSize, outcomes)
      modifies this`windowIndex, this`windowFilled, this`outcomes, window
      ensures Slots(window[..], windowIndex, windowFilled) == Recorded(config.windowSize, outcomes)
      ensures outcomes == old(outcomes) + [success]
    {
      ghost var before := Slots(window[..], windowIndex, windowFilled);
      window[windowIndex] := success;
      assert window[..] == before.window[windowIndex := success];
      windowIndex := (windowIndex + 1) % window.Length;
      if windowIndex == 0 {
        windowFilled := true;
      }
      assert Slots(window[..], windowIndex, windowFilled) == before.Record(success);
      RecordedAfter(config.windowSize, outcomes, success);
      outcomes := outcomes + [success];
    }

    method CountFailures() returns (count: nat)
      ensures count == Failures(window[..])
    {
      count := 0;
      for i := 0 to window.Length
        invariant count == Failures(window[..i])
      {
        assert window[..i + 1][..i] == window[..i];
        if !window[i] {
          count := count + 1;
        }
      }
      assert window[..window.Length] == window[..];
    }

    method CheckFailureRate() returns (reached: bool)
      requires config.Valid() && window.Length == config.windowSize
      requires Slots(window[..], windowIndex, windowFilled) == Recorded(config.windowSize, outcomes)
      ensures reached == RateReached(config, outcomes)
    {
      RecordedIsRing(window.Length, outcomes);
      if !windowFilled {
        return false;
      }
      RingHoldsLast(window[..], windowIndex, outcomes);
      var count := CountFailures();
      return Share(count, window.Length) >= config.failureRate;
    }
  }
}
