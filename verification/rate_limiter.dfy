/**
 The token bucket: it refills with time, goes into debt for reservations, and grants nothing
 before a Retry-After deadline.

 Times are seconds on a clock that never goes back. Each call reads it for the deadline and
 again for the refill, so each takes two readings.
 */
module RateLimiter {
  import opened Wrappers

  datatype Config = Config(rate: real, burst: int, respectRetryAfter: bool) {
    predicate Valid() {
      rate > 0.0 && burst > 0
    }
  }

  /** The configuration a limiter runs on: what is not positive takes its default. */
  function Configured(config: Config): (c: Config)
    ensures c.Valid()
    ensures config.Valid() ==> c == config
    ensures config.rate > 0.0 ==> c.rate == config.rate
    ensures config.burst > 0 ==> c.burst == config.burst
    ensures c.respectRetryAfter == config.respectRetryAfter
  {
    Config(if config.rate <= 0.0 then 50.0 else config.rate,
           if config.burst <= 0 then 10 else config.burst,
           config.respectRetryAfter)
  }

  datatype Bucket = Bucket(tokens: real, refilled: real, until: Option<real>)

  /** What a call comes to: refused, granted at once, or granted after a wait. */
  datatype Verdict = No | Granted(delay: real)

  /** What one pass of `Wait` comes to. */
  datatype Pass = Go | SleepUntil(deadline: real) | SleepFor(seconds: real)

  function Min(a: real, b: real): real {
    if a < b then a else b
  }

  predicate Held(c: Config, b: Bucket, now: real) {
    c.respectRetryAfter && b.until.Some? && now < b.until.value
  }

  function Released(c: Config, b: Bucket): Bucket {
    if c.respectRetryAfter then b.(until := None) else b
  }

  /** What the rate earns from one moment to another. */
  function Earnings(c: Config, from: real, to: real): (tokens: real)
    ensures tokens == (to - from) * c.rate
  {
    (to - from) * c.rate
  }

  /** How long the rate takes to earn so many tokens. */
  function SecondsFor(c: Config, tokens: real): (seconds: real)
    requires c.Valid()
    ensures seconds * c.rate == tokens
  {
    tokens / c.rate
  }

  function Refilled(c: Config, b: Bucket, now: real): Bucket {
    b.(tokens := Min(c.burst as real, b.tokens + Earnings(c, b.refilled, now)), refilled := now)
  }

  function Spent(b: Bucket): Bucket {
    b.(tokens := b.tokens - 1.0)
  }

  function Allowed(c: Config, b: Bucket, now: real, later: real): (Bucket, bool) {
    if Held(c, b, now) then (b, false)
    else
      var full := Refilled(c, Released(c, b), later);
      if full.tokens >= 1.0 then (Spent(full), true) else (full, false)
  }

  function Passed(c: Config, b: Bucket, now: real, later: real): (Bucket, Pass)
    requires c.Valid()
  {
    if Held(c, b, now) then (b, SleepUntil(b.until.value))
    else
      var full := Refilled(c, Released(c, b), later);
      if full.tokens >= 1.0 then (Spent(full), Go) else (full, SleepFor(SecondsFor(c, 1.0 - full.tokens) + 0.001))
  }

  function Reserved(c: Config, b: Bucket, now: real, later: real): (Bucket, Verdict)
    requires c.Valid()
  {
    if Held(c, b, now) then (b, No)
    else
      var full := Refilled(c, Released(c, b), later);
      if full.tokens >= 1.0 then (Spent(full), Granted(0.0))
      else
        var delay := SecondsFor(c, 1.0 - full.tokens);
        if delay > 1.0 then (full, No) else (Spent(full), Granted(delay))
  }

  function Deferred(c: Config, b: Bucket, until: real): Bucket {
    if c.respectRetryAfter && (b.until.None? || until > b.until.value) then b.(until := Some(until)) else b
  }

  /** The clock readings of one pass of a wait. */
  datatype Reading = Reading(now: real, later: real)

  /** A wait whose context lasts for as many passes: the bucket, and whether it got its token. */
  function Waited(c: Config, b: Bucket, passes: seq<Reading>): (Bucket, bool)
    requires c.Valid()
    decreases |passes|
  {
    if |passes| == 0 then (b, false)
    else
      var (r, pass) := Passed(c, b, passes[0].now, passes[0].later);
      if pass.Go? then (r, true) else Waited(c, r, passes[1..])
  }

  // ---- when each is granted ----

  /** Whether no deadline is in force. */
  predicate Free(c: Config, b: Bucket, now: real) {
    !c.respectRetryAfter || b.until.None? || b.until.value <= now
  }

  /** The tokens there would be by a moment if the bucket had no brim. */
  function Earned(c: Config, b: Bucket, later: real): real {
    b.tokens + Earnings(c, b.refilled, later)
  }

  lemma ReleasedEarns(c: Config, b: Bucket, later: real)
    requires c.Valid()
    ensures Refilled(c, Released(c, b), later).tokens == Min(c.burst as real, Earned(c, b, later))
  {
  }

  /** Allow grants exactly when no deadline is in force and a token has been earned. */
  lemma AllowedExactly(c: Config, b: Bucket, now: real, later: real)
    requires c.Valid()
    ensures Allowed(c, b, now, later).1 <==> Free(c, b, now) && Earned(c, b, later) >= 1.0
    ensures Free(c, b, now) ==>
              Allowed(c, b, now, later).0.tokens ==
              Min(c.burst as real, Earned(c, b, later)) - if Allowed(c, b, now, later).1 then 1.0 else 0.0
  {
    ReleasedEarns(c, b, later);
  }

  /** So does a pass of Wait; a refused one sleeps until the deadline, or for what the missing token takes. */
  lemma PassedExactly(c: Config, b: Bucket, now: real, later: real)
    requires c.Valid()
    ensures
      var pass := Passed(c, b, now, later).1;
      && (pass.Go? <==> Free(c, b, now) && Earned(c, b, later) >= 1.0)
      && (pass.SleepUntil? <==> !Free(c, b, now))
      && (pass.SleepUntil? ==> b.until == Some(pass.deadline))
      && (pass.SleepFor? ==> pass.seconds == SecondsFor(c, 1.0 - Earned(c, b, later)) + 0.001)
  {
    ReleasedEarns(c, b, later);
  }

  /** Reserve grants exactly when no deadline is in force and no more than a second's worth is owed for it. */
  lemma ReservedExactly(c: Config, b: Bucket, now: real, later: real)
    requires c.Valid()
    ensures
      var verdict := Reserved(c, b, now, later).1;
      && (verdict.Granted? <==> Free(c, b, now) && 1.0 - Earned(c, b, later) <= c.rate)
      && (verdict.Granted? ==>
            if Earned(c, b, later) >= 1.0 then verdict.delay == 0.0
            else verdict.delay == SecondsFor(c, 1.0 - Earned(c, b, later)))
  {
    ReleasedEarns(c, b, later);
    if Free(c, b, now) && Earned(c, b, later) < 1.0 {
      DelayMeansDebt(c, Earned(c, b, later));
    }
  }

  class Limiter {
    const config: Config
    var tokens: real
    var refilled: real
    var until: Option<real>

    function Level(): Bucket
      reads this
    {
      Bucket(tokens, refilled, until)
    }

    constructor (config: Config, now: real)
      ensures this.config == Configured(config)
      ensures Level() == Bucket(this.config.burst as real, now, None)
    {
      this.config := Configured(config);
      tokens, refilled, until := Configured(config).burst as real, now, None;
    }

    method Refill(now: real)
      modifies this
      ensures Level() == Refilled(config, old(Level()), now)
      ensures refilled == now && until == old(until)
      ensures tokens ==
              if Earned(config, old(Level()), now) > config.burst as real then config.burst as real
              else Earned(config, old(Level()), now)
    {
      var elapsed := now - refilled;
      assert elapsed * config.rate == Earnings(config, refilled, now);
      refilled := now;
      tokens := tokens + elapsed * config.rate;
      if tokens > config.burst as real {
        tokens := config.burst as real;
      }
    }

    method Allow(now: real, later: real) returns (granted: bool)
      requires config.Valid()
      modifies this
      ensures (Level(), granted) == Allowed(config, old(Level()), now, later)
      ensures granted <==>
              && (!config.respectRetryAfter || old(until).None? || old(until).value <= now)
              && old(tokens) + Earnings(config, old(refilled), later) >= 1.0
    {
      AllowedExactly(config, Level(), now, later);
      if config.respectRetryAfter && until.Some? {
        if now < until.value {
          return false;
        }
        until := None;
      }
      Refill(later);
      if tokens >= 1.0 {
        tokens := tokens - 1.0;
        return true;
      }
      return false;
    }

    /** One pass of the loop in `Wait`, which sleeps as told between passes. */
    method TryWait(now: real, later: real) returns (pass: Pass)
      requires config.Valid()
      modifies this
      ensures (Level(), pass) == Passed(config, old(Level()), now, later)
      ensures pass.Go? <==>
              && (!config.respectRetryAfter || old(until).None? || old(until).value <= now)
              && old(tokens) + Earnings(config, old(refilled), later) >= 1.0
    {
      PassedExactly(config, Level(), now, later);
      if config.respectRetryAfter && until.Some? {
        if now < until.value {
          return SleepUntil(until.value);
        }
        until := None;
      }
      Refill(later);
      if tokens >= 1.0 {
        tokens := tokens - 1.0;
        return Go;
      }
      var needed := 1.0 - tokens;
      return SleepFor(SecondsFor(config, needed) + 0.001);
    }

    method Wait(passes: seq<Reading>) returns (granted: bool)
      requires config.Valid()
      modifies this
      ensures (Level(), granted) == Waited(config, old(Level()), passes)
    {
      for i := 0 to |passes|
        invariant Waited(config, Level(), passes[i..]) == Waited(config, old(Level()), passes)
      {
        assert passes[i..][1..] == passes[i + 1..];
        var pass := TryWait(passes[i].now, passes[i].later);
        if pass.Go? {
          return true;
        }
      }
      return false;
    }

    method Reserve(now: real, later: real) returns (verdict: Verdict)
      requires config.Valid()
      modifies this
      ensures (Level(), verdict) == Reserved(config, old(Level()), now, later)
      ensures verdict.Granted? <==>
              && (!config.respectRetryAfter || old(until).None? || old(until).value <= now)
              && 1.0 - (old(tokens) + Earnings(config, old(refilled), later)) <= config.rate
    {
      ReservedExactly(config, Level(), now, later);
      if config.respectRetryAfter && until.Some? {
        if now < until.value {
          return No;
        }
        until := None;
      }
      Refill(later);
      if tokens >= 1.0 {
        tokens := tokens - 1.0;
        return Granted(0.0);
      }
      var needed := 1.0 - tokens;
      var delay := SecondsFor(config, needed);
      if delay > 1.0 {
        return No;
      }
      tokens := tokens - 1.0;
      return Granted(delay);
    }

    method SetRetryAfter(deadline: real)
      modifies this
      ensures Level() == Deferred(config, old(Level()), deadline)
      ensures tokens == old(tokens) && refilled == old(refilled)
      ensures until ==
              if config.respectRetryAfter && (old(until).None? || deadline > old(until).value) then Some(deadline)
              else old(until)
    {
      if !config.respectRetryAfter {
        return;
      }
      if until.None? || deadline > until.value {
        until := Some(deadline);
      }
    }
  }

  // ---- runs ----

  datatype Call =
    | Allow(now: real, later: real)
    | Wait(now: real, later: real)      // one pass
    | Reserve(now: real, later: real)
    | Tokens(now: real)
    | Defer(now: real, until: real)     // SetRetryAfter

  function Start(call: Call): real {
    call.now
  }

  function End(call: Call): real {
    if call.Allow? || call.Wait? || call.Reserve? then call.later else call.now
  }

  /** Whether the clock readings of the calls never go back, from `since` on. */
  predicate Ordered(calls: seq<Call>, since: real) {
    |calls| > 0 ==>
      since <= Start(calls[0]) <= End(calls[0]) && Ordered(calls[1..], End(calls[0]))
  }

  /** The bucket after one call, and whether the call was granted. */
  function Next(c: Config, b: Bucket, call: Call): (Bucket, bool)
    requires c.Valid()
  {
    match call
    case Allow(now, later) => Allowed(c, b, now, later)
    case Wait(now, later) =>
      var (r, pass) := Passed(c, b, now, later);
      (r, pass.Go?)
    case Reserve(now, later) =>
      var (r, verdict) := Reserved(c, b, now, later);
      (r, verdict.Granted?)
    case Tokens(now) => (Refilled(c, b, now), false)
    case Defer(_, until) => (Deferred(c, b, until), false)
  }

  function After(c: Config, b: Bucket, calls: seq<Call>): Bucket
    requires c.Valid()
    decreases |calls|
  {
    if |calls| == 0 then b else After(c, Next(c, b, calls[0]).0, calls[1..])
  }

  /** How many of the calls are granted. */
  function Grants(c: Config, b: Bucket, calls: seq<Call>): nat
    requires c.Valid()
    decreases |calls|
  {
    if |calls| == 0 then 0
    else (if Next(c, b, calls[0]).1 then 1 else 0) + Grants(c, Next(c, b, calls[0]).0, calls[1..])
  }

  predicate NoReserve(calls: seq<Call>) {
    forall i :: 0 <= i < |calls| ==> !calls[i].Reserve?
  }

  predicate EndBy(calls: seq<Call>, time: real) {
    forall i :: 0 <= i < |calls| ==> End(calls[i]) <= time
  }

  /** The bucket never holds more than a burst nor owes more than a second's worth. */
  predicate Bounded(c: Config, b: Bucket) {
    -c.rate <= b.tokens <= c.burst as real
  }

  lemma DelayMeansDebt(c: Config, tokens: real)
    requires c.Valid()
    ensures SecondsFor(c, 1.0 - tokens) <= 1.0 <==> 1.0 - tokens <= c.rate
  {
    var delay := SecondsFor(c, 1.0 - tokens);
    if delay <= 1.0 {
      assert delay * c.rate <= 1.0 * c.rate;
    } else {
      assert delay * c.rate > 1.0 * c.rate;
    }
  }

  lemma EarningsAddUp(c: Config, from: real, middle: real, to: real)
    requires c.Valid() && from <= middle <= to
    ensures Earnings(c, from, to) == Earnings(c, from, middle) + Earnings(c, middle, to)
    ensures Earnings(c, from, middle) >= 0.0 && Earnings(c, middle, to) >= 0.0
  {
  }

  lemma EarningsCover(c: Config, from: real, to: real, seconds: real)
    requires c.Valid() && from + seconds <= to
    ensures Earnings(c, from, to) >= seconds * c.rate
  {
    assert to - from >= seconds;
    assert (to - from) * c.rate >= seconds * c.rate;
  }

  /** A refill only adds, up to a burst. */
  lemma RefillAdds(c: Config, b: Bucket, now: real)
    requires c.Valid() && b.refilled <= now
    ensures Min(c.burst as real, b.tokens) <= Refilled(c, b, now).tokens <= c.burst as real
  {
    EarningsAddUp(c, b.refilled, b.refilled, now);
  }

  lemma NextIsBounded(c: Config, b: Bucket, call: Call)
    requires c.Valid() && Bounded(c, b) && b.refilled <= Start(call) <= End(call)
    ensures Bounded(c, Next(c, b, call).0)
    ensures b.refilled <= Next(c, b, call).0.refilled <= End(call)
  {
    RefillAdds(c, b, End(call));
    RefillAdds(c, Released(c, b), End(call));
    if call.Reserve? {
      DelayMeansDebt(c, Refilled(c, Released(c, b), End(call)).tokens);
    }
  }

  /** What may have been granted since `from`, given how full the bucket is. */
  function Allowance(c: Config, b: Bucket, from: real): real {
    if b.refilled < from then 0.0 else c.burst as real + Earnings(c, from, b.refilled) - b.tokens
  }

  lemma AllowanceAtStart(c: Config, b: Bucket, from: real)
    requires c.Valid() && Bounded(c, b) && b.refilled <= from
    ensures Allowance(c, b, from) >= 0.0
  {
    EarningsAddUp(c, from, from, from);
  }

  /** A refill never makes room for more than it accounts for. */
  lemma RefillEarns(c: Config, b: Bucket, now: real, from: real)
    requires c.Valid() && Bounded(c, b) && b.refilled <= now && from <= now
    ensures Allowance(c, Refilled(c, b, now), from) >= Allowance(c, b, from)
    ensures Allowance(c, Spent(Refilled(c, b, now)), from) == Allowance(c, Refilled(c, b, now), from) + 1.0
  {
    var full := Refilled(c, b, now);
    assert Allowance(c, full, from) == c.burst as real + Earnings(c, from, now) - full.tokens;
    assert Spent(full).tokens == full.tokens - 1.0 && Spent(full).refilled == now;
    if b.refilled >= from {
      EarningsAddUp(c, from, b.refilled, now);
    } else {
      EarningsAddUp(c, from, from, now);
    }
  }

  /** A call leaves the bucket, or refills it and perhaps takes a token: what is granted is what is taken. */
  lemma NextTakes(c: Config, b: Bucket, call: Call)
    requires c.Valid()
    ensures
      var (r, granted) := Next(c, b, call);
      var full, released := Refilled(c, b, End(call)), Refilled(c, Released(c, b), End(call));
      if granted then r == Spent(released)
      else (r.tokens == b.tokens && r.refilled == b.refilled) || r == full || r == released
  {
  }

  /** Deadlines are no part of an allowance. */
  lemma AllowanceOfLevel(c: Config, b: Bucket, r: Bucket, from: real)
    requires r.tokens == b.tokens && r.refilled == b.refilled
    ensures Allowance(c, r, from) == Allowance(c, b, from)
  {
  }

  lemma GrantIsEarned(c: Config, b: Bucket, call: Call, from: real)
    requires c.Valid() && Bounded(c, b) && b.refilled <= Start(call) <= End(call) && from <= End(call)
    ensures Allowance(c, Next(c, b, call).0, from) >= Allowance(c, b, from) + if Next(c, b, call).1 then 1.0 else 0.0
  {
    NextTakes(c, b, call);
    if Next(c, b, call).1 {
      RefillEarns(c, Released(c, b), End(call), from);
    } else if Next(c, b, call).0 == Refilled(c, b, End(call)) {
      RefillEarns(c, b, End(call), from);
    } else if Next(c, b, call).0 == Refilled(c, Released(c, b), End(call)) {
      RefillEarns(c, Released(c, b), End(call), from);
    } else {
      AllowanceOfLevel(c, b, Next(c, b, call).0, from);
    }
  }

  lemma {:induction false} GrantsAreEarned(c: Config, b: Bucket, calls: seq<Call>, since: real, from: real)
    requires c.Valid() && Bounded(c, b) && Ordered(calls, since) && b.refilled <= since
    requires |calls| > 0 ==> from <= End(calls[0])
    ensures Bounded(c, After(c, b, calls))
    ensures Allowance(c, After(c, b, calls), from) >= Allowance(c, b, from) + Grants(c, b, calls) as real
    decreases |calls|
  {
    if |calls| > 0 {
      NextIsBounded(c, b, calls[0]);
      GrantIsEarned(c, b, calls[0], from);
      GrantsAreEarned(c, Next(c, b, calls[0]).0, calls[1..], End(calls[0]), from);
    }
  }

  lemma {:induction false} EndsBy(c: Config, b: Bucket, calls: seq<Call>, since: real, to: real)
    requires c.Valid() && Bounded(c, b) && Ordered(calls, since) && b.refilled <= since <= to && EndBy(calls, to)
    ensures After(c, b, calls).refilled <= to
    ensures Bounded(c, After(c, b, calls))
    decreases |calls|
  {
    if |calls| > 0 {
      NextIsBounded(c, b, calls[0]);
      EndsBy(c, Next(c, b, calls[0]).0, calls[1..], End(calls[0]), to);
    }
  }

  lemma NextKeepsOutOfDebt(c: Config, b: Bucket, call: Call)
    requires c.Valid() && b.refilled <= End(call) && !call.Reserve?
    ensures b.tokens >= 0.0 || Next(c, b, call).1 ==> Next(c, b, call).0.tokens >= 0.0
  {
    RefillAdds(c, b, End(call));
    RefillAdds(c, Released(c, b), End(call));
  }

  /** Without reservations a bucket that granted anything is not left in debt. */
  lemma {:induction false} NoDebtAfterGrant(c: Config, b: Bucket, calls: seq<Call>, since: real)
    requires c.Valid() && Bounded(c, b) && Ordered(calls, since) && b.refilled <= since && NoReserve(calls)
    ensures b.tokens >= 0.0 || Grants(c, b, calls) > 0 ==> After(c, b, calls).tokens >= 0.0
    decreases |calls|
  {
    if |calls| > 0 {
      NextIsBounded(c, b, calls[0]);
      NextKeepsOutOfDebt(c, b, calls[0]);
      NoDebtAfterGrant(c, Next(c, b, calls[0]).0, calls[1..], End(calls[0]));
    }
  }

  /** What an allowance comes to by a later moment. */
  lemma AllowanceWithin(c: Config, b: Bucket, granted: nat, from: real, to: real)
    requires c.Valid() && Bounded(c, b) && from <= to && b.refilled <= to
    requires granted as real <= Allowance(c, b, from)
    ensures granted as real <= c.burst as real + Earnings(c, from, to) + c.rate
    ensures b.tokens >= 0.0 || granted == 0 ==> granted as real <= c.burst as real + Earnings(c, from, to)
  {
    EarningsAddUp(c, from, from, to);
    if b.refilled >= from {
      EarningsAddUp(c, from, b.refilled, to);
    }
  }

  /**
   Calls that come to their verdicts between two moments are granted at most a burst and what the
   rate earns meanwhile, and at most a second's worth more when reservations are among them. The
   first may have begun before the first moment.
   */
  lemma GrantsWithinRate(c: Config, b: Bucket, calls: seq<Call>, since: real, from: real, to: real)
    requires c.Valid() && Bounded(c, b) && b.refilled <= since <= to && b.refilled <= from <= to
    requires Ordered(calls, since) && EndBy(calls, to) && (|calls| > 0 ==> from <= End(calls[0]))
    ensures Grants(c, b, calls) as real <= c.burst as real + Earnings(c, from, to) + c.rate
    ensures NoReserve(calls) ==> Grants(c, b, calls) as real <= c.burst as real + Earnings(c, from, to)
  {
    var granted := Grants(c, b, calls);
    assert granted as real <= Allowance(c, After(c, b, calls), from) by {
      AllowanceAtStart(c, b, from);
      GrantsAreEarned(c, b, calls, since, from);
    }
    EndsBy(c, b, calls, since, to);
    AllowanceWithin(c, After(c, b, calls), granted, from, to);
    if NoReserve(calls) {
      NoDebtAfterGrant(c, b, calls, since);
    }
  }

  /** When the last of a run's first `i` calls ended. */
  function EndOf(run: seq<Call>, i: nat, start: real): real
    requires i <= |run|
  {
    if i == 0 then start else End(run[i - 1])
  }

  lemma {:induction false} OrderedSplits(run: seq<Call>, i: nat, start: real)
    requires Ordered(run, start) && i <= |run|
    ensures Ordered(run[..i], start) && Ordered(run[i..], EndOf(run, i, start))
    ensures start <= EndOf(run, i, start) && EndBy(run[..i], EndOf(run, i, start))
    decreases i
  {
    if i == 0 {
      assert run[..i] == [] && run[i..] == run;
    } else {
      var rest, end := run[1..], End(run[0]);
      OrderedSplits(rest, i - 1, end);
      assert EndOf(run, i, start) == EndOf(rest, i - 1, end);
      assert run[..i] == [run[0]] + rest[..i - 1];
      assert rest[i - 1..] == run[i..];
    }
  }

  /**
   Over any run of a limiter from its start: of the calls that come to their verdicts from one
   moment to another, as many are granted at most.
   */
  lemma GrantsBetweenMoments(c: Config, start: real, run: seq<Call>, i: nat, from: real, to: real)
    requires c.Valid() && start <= from <= to && Ordered(run, start) && EndBy(run, to)
    requires i <= |run| && EndBy(run[..i], from) && (i < |run| ==> from <= End(run[i]))
    ensures
      var b := After(c, Bucket(c.burst as real, start, None), run[..i]);
      && Grants(c, b, run[i..]) as real <= c.burst as real + Earnings(c, from, to) + c.rate
      && (NoReserve(run[i..]) ==> Grants(c, b, run[i..]) as real <= c.burst as real + Earnings(c, from, to))
  {
    var full := Bucket(c.burst as real, start, None);
    var since := EndOf(run, i, start);
    OrderedSplits(run, i, start);
    if i > 0 {
      assert End(run[..i][i - 1]) == since;
    }
    EndsBy(c, full, run[..i], start, since);
    GrantsWithinRate(c, After(c, full, run[..i]), run[i..], since, from, to);
  }

  // ---- and never fewer ----

  lemma {:induction false} RunAppends(c: Config, b: Bucket, calls: seq<Call>, call: Call)
    requires c.Valid()
    ensures After(c, b, calls + [call]) == Next(c, After(c, b, calls), call).0
    ensures Grants(c, b, calls + [call]) == Grants(c, b, calls) + if Next(c, After(c, b, calls), call).1 then 1 else 0
    decreases |calls|
  {
    var all := calls + [call];
    if |calls| == 0 {
      assert all == [call] && all[1..] == [];
    } else {
      assert all[1..] == calls[1..] + [call];
      RunAppends(c, Next(c, b, calls[0]).0, calls[1..], call);
    }
  }

  /** Whether all that is missing from a bucket was granted, or is yet to be earned, since it was full at `moment`. */
  predicate Accounted(c: Config, b: Bucket, moment: real, granted: nat) {
    moment <= b.refilled && b.tokens == c.burst as real + Earnings(c, moment, b.refilled) - granted as real
  }

  /** A call keeps the account, or finds the bucket full and starts it over. */
  lemma NextIsAccounted(c: Config, b: Bucket, call: Call, moment: real, granted: nat)
    requires c.Valid() && b.refilled <= Start(call) <= End(call) && Accounted(c, b, moment, granted)
    ensures
      var (r, taken) := Next(c, b, call);
      var more := if taken then 1 else 0;
      Accounted(c, r, moment, granted + more) || Accounted(c, r, End(call), more)
  {
    NextTakes(c, b, call);
    ReleasedEarns(c, b, End(call));
    EarningsAddUp(c, moment, b.refilled, End(call));
    EarningsAddUp(c, End(call), End(call), End(call));
  }

  lemma {:induction false} RunJoins(c: Config, b: Bucket, run: seq<Call>, i: nat, n: nat)
    requires c.Valid() && i <= n <= |run|
    ensures After(c, After(c, b, run[..i]), run[i..n]) == After(c, b, run[..n])
    decreases n - i
  {
    if i == n {
      assert run[i..n] == [];
    } else {
      RunJoins(c, b, run, i, n - 1);
      assert run[i..n] == run[i..n - 1] + [run[n - 1]];
      assert run[..n] == run[..n - 1] + [run[n - 1]];
      RunAppends(c, After(c, b, run[..i]), run[i..n - 1], run[n - 1]);
      RunAppends(c, b, run[..n - 1], run[n - 1]);
    }
  }

  lemma RefilledBefore(c: Config, run: seq<Call>, start: real, n: nat)
    requires c.Valid() && Ordered(run, start) && n < |run|
    ensures After(c, Bucket(c.burst as real, start, None), run[..n]).refilled <= Start(run[n]) <= End(run[n])
  {
    var full := Bucket(c.burst as real, start, None);
    OrderedSplits(run, n, start);
    EndsBy(c, full, run[..n], start, EndOf(run, n, start));
  }

  /** One more call of a run, as seen from its start and from its `i`th call. */
  lemma RunGoesOn(c: Config, b: Bucket, run: seq<Call>, i: nat, n: nat)
    requires c.Valid() && i <= n < |run|
    ensures After(c, b, run[..n + 1]) == Next(c, After(c, b, run[..n]), run[n]).0
    ensures Grants(c, After(c, b, run[..i]), run[i..n + 1]) ==
            Grants(c, After(c, b, run[..i]), run[i..n]) + if Next(c, After(c, b, run[..n]), run[n]).1 then 1 else 0
  {
    assert run[..n + 1] == run[..n] + [run[n]];
    RunAppends(c, b, run[..n], run[n]);
    assert run[i..n + 1] == run[i..n] + [run[n]];
    RunAppends(c, After(c, b, run[..i]), run[i..n], run[n]);
    RunJoins(c, b, run, i, n);
  }

  /** At any point of a run the bucket is as full as the rate and the grants since it was last full make it. */
  lemma {:induction false} RunIsAccounted(c: Config, run: seq<Call>, start: real, n: nat) returns (i: nat, moment: real)
    requires c.Valid() && Ordered(run, start) && n <= |run|
    ensures i <= n && ((i == 0 && moment == start) || (i < n && moment == End(run[i])))
    ensures
      var full := Bucket(c.burst as real, start, None);
      Accounted(c, After(c, full, run[..n]), moment, Grants(c, After(c, full, run[..i]), run[i..n]))
  {
    var full := Bucket(c.burst as real, start, None);
    if n == 0 {
      i, moment := 0, start;
      assert run[..0] == run[0..0] == [];
      EarningsAddUp(c, start, start, start);
    } else {
      i, moment := RunIsAccounted(c, run, start, n - 1);
      var b := After(c, full, run[..n - 1]);
      RefilledBefore(c, run, start, n - 1);
      NextIsAccounted(c, b, run[n - 1], moment, Grants(c, After(c, full, run[..i]), run[i..n - 1]));
      RunGoesOn(c, full, run, i, n - 1);
      if !Accounted(c, Next(c, b, run[n - 1]).0, moment, Grants(c, After(c, full, run[..i]), run[i..n])) {
        i, moment := n - 1, End(run[n - 1]);
        RunGoesOn(c, full, run, n - 1, n - 1);
        assert run[n - 1..n - 1] == [];
      }
    }
  }

  /**
   Allow refuses nothing it could grant: with no deadline in force it refuses only when, since
   some earlier moment, one more grant would be more than a burst and what the rate has earned.
   */
  lemma RefusedOnlyWhenSpent(c: Config, run: seq<Call>, start: real, n: nat) returns (i: nat, moment: real)
    requires c.Valid() && Ordered(run, start) && n < |run| && run[n].Allow?
    requires
      var b := After(c, Bucket(c.burst as real, start, None), run[..n]);
      Free(c, b, run[n].now) && !Next(c, b, run[n]).1
    ensures i <= n && ((i == 0 && moment == start) || (i < n && moment == End(run[i])))
    ensures
      var before := After(c, Bucket(c.burst as real, start, None), run[..i]);
      Grants(c, before, run[i..n]) as real + 1.0 > c.burst as real + Earnings(c, moment, End(run[n]))
  {
    var b := After(c, Bucket(c.burst as real, start, None), run[..n]);
    i, moment := RunIsAccounted(c, run, start, n);
    RefilledBefore(c, run, start, n);
    AllowedExactly(c, b, run[n].now, run[n].later);
    EarningsAddUp(c, moment, b.refilled, End(run[n]));
  }

  predicate Asks(call: Call) {
    call.Allow? || call.Wait? || call.Reserve?
  }

  /** A call that finds a token takes one, and none of what is earned meanwhile is lost below the brim. */
  lemma TokenIsGranted(c: Config, b: Bucket, call: Call)
    requires c.Valid() && Bounded(c, b) && b.refilled <= Start(call) <= End(call)
    requires b.until.None? && b.tokens >= 1.0 && Asks(call)
    ensures
      var (r, granted) := Next(c, b, call);
      granted && r.until.None? && r.tokens >= b.tokens - 1.0
  {
    RefillAdds(c, b, End(call));
    assert Released(c, b) == b;
  }

  /** While a bucket holds as many tokens as there are calls, each is granted. */
  lemma {:induction false} StockIsGranted(c: Config, b: Bucket, calls: seq<Call>, since: real)
    requires c.Valid() && Bounded(c, b) && Ordered(calls, since) && b.refilled <= since
    requires b.until.None? && |calls| as real <= b.tokens
    requires forall i :: 0 <= i < |calls| ==> Asks(calls[i])
    ensures Grants(c, b, calls) == |calls|
    decreases |calls|
  {
    if |calls| > 0 {
      TokenIsGranted(c, b, calls[0]);
      NextIsBounded(c, b, calls[0]);
      StockIsGranted(c, Next(c, b, calls[0]).0, calls[1..], End(calls[0]));
    }
  }

  /** A new limiter grants its first calls, up to a burst of them, whatever their kinds. */
  lemma FirstBurstIsGranted(config: Config, start: real, calls: seq<Call>)
    requires Ordered(calls, start) && |calls| <= Configured(config).burst
    requires forall i :: 0 <= i < |calls| ==> Asks(calls[i])
    ensures Grants(Configured(config), Bucket(Configured(config).burst as real, start, None), calls) == |calls|
  {
    StockIsGranted(Configured(config), Bucket(Configured(config).burst as real, start, None), calls, start);
  }

  // ---- Retry-After ----

  /** The deadline is still enforced, or has come. */
  predicate Enforced(b: Bucket, deadline: real, time: real) {
    deadline <= time || (b.until.Some? && deadline <= b.until.value)
  }

  lemma {:induction false} HeldUntil(c: Config, b: Bucket, calls: seq<Call>, since: real, deadline: real)
    requires c.Valid() && c.respectRetryAfter && Ordered(calls, since) && Enforced(b, deadline, since)
    ensures forall i :: 0 <= i < |calls| && Next(c, After(c, b, calls[..i]), calls[i]).1 ==> deadline <= Start(calls[i])
    decreases |calls|
  {
    if |calls| > 0 {
      var r := Next(c, b, calls[0]).0;
      HeldUntil(c, r, calls[1..], End(calls[0]), deadline);
      forall i | 0 <= i < |calls| && Next(c, After(c, b, calls[..i]), calls[i]).1
        ensures deadline <= Start(calls[i])
      {
        if i > 0 {
          assert calls[..i][1..] == calls[1..][..i - 1];
          assert After(c, b, calls[..i]) == After(c, r, calls[1..][..i - 1]);
        }
      }
    }
  }

  /** Nothing is granted before a Retry-After deadline that was set earlier. */
  lemma NothingGrantedBeforeDeadline(c: Config, b: Bucket, calls: seq<Call>, since: real, i: nat, j: nat)
    requires c.Valid() && c.respectRetryAfter && Ordered(calls, since) && i < j < |calls|
    requires calls[i].Defer? && Next(c, After(c, b, calls[..j]), calls[j]).1
    ensures calls[i].until <= Start(calls[j])
    decreases |calls|
  {
    var r := Next(c, b, calls[0]).0;
    if i > 0 {
      assert calls[..j][1..] == calls[1..][..j - 1];
      NothingGrantedBeforeDeadline(c, r, calls[1..], End(calls[0]), i - 1, j - 1);
    } else {
      HeldUntil(c, r, calls[1..], End(calls[0]), calls[0].until);
      assert calls[..j][1..] == calls[1..][..j - 1];
      assert calls[1..][j - 1] == calls[j];
    }
  }

  // ---- waits are long enough ----

  /** A pass that slept as long as it was told finds a token, when no one took it meanwhile. */
  lemma SleepSuffices(c: Config, b: Bucket, now: real, later: real, woken: real, after: real)
    requires c.Valid() && Passed(c, b, now, later).1.SleepFor?
    requires later + Passed(c, b, now, later).1.seconds <= woken <= after
    requires c.respectRetryAfter || b.until.None?
    ensures Passed(c, Passed(c, b, now, later).0, woken, after).1.Go?
  {
    var full, seconds := Passed(c, b, now, later).0, Passed(c, b, now, later).1.seconds;
    EarningsCover(c, later, after, seconds - 0.001);
  }

  /** Whether each pass begins once the one before has slept as long as it was told. */
  predicate Slept(c: Config, b: Bucket, passes: seq<Reading>)
    requires c.Valid()
    decreases |passes|
  {
    |passes| > 0 ==>
      && passes[0].now <= passes[0].later
      && var (r, pass) := Passed(c, b, passes[0].now, passes[0].later);
      && (|passes| > 1 ==> Woken(pass, passes[0], passes[1]))
      && Slept(c, r, passes[1..])
  }

  predicate Woken(pass: Pass, slept: Reading, next: Reading) {
    match pass
    case Go => true
    case SleepUntil(deadline) => deadline <= next.now
    case SleepFor(seconds) => slept.later + seconds <= next.now
  }

  lemma SecondPassSuffices(c: Config, b: Bucket, passes: seq<Reading>)
    requires c.Valid() && (c.respectRetryAfter || b.until.None?)
    requires |passes| >= 2 && Slept(c, b, passes) && !Held(c, b, passes[0].now)
    ensures Waited(c, b, passes).1
  {
    var (r, pass) := Passed(c, b, passes[0].now, passes[0].later);
    assert Slept(c, r, passes[1..]) && passes[1..][0] == passes[1];
    if pass.SleepFor? {
      SleepSuffices(c, b, passes[0].now, passes[0].later, passes[1].now, passes[1].later);
    }
  }

  /** A wait nobody interferes with gets its token at its third pass at the latest, deadline and all. */
  lemma ThirdPassSuffices(c: Config, b: Bucket, passes: seq<Reading>)
    requires c.Valid() && (c.respectRetryAfter || b.until.None?)
    requires |passes| >= 3 && Slept(c, b, passes)
    ensures Waited(c, b, passes).1
  {
    if Held(c, b, passes[0].now) {
      assert passes[1..][0] == passes[1];
      SecondPassSuffices(c, b, passes[1..]);
    } else {
      SecondPassSuffices(c, b, passes);
    }
  }

  /** A reservation waits until its token is earned, and never longer than a second. */
  lemma ReservationIsCovered(c: Config, b: Bucket, now: real, later: real)
    requires c.Valid() && Reserved(c, b, now, later).1.Granted?
    ensures
      var (r, verdict) := Reserved(c, b, now, later);
      && 0.0 <= verdict.delay <= 1.0
      && Refilled(c, r, later + verdict.delay).tokens >= 0.0
  {
    var full := Refilled(c, Released(c, b), later);
    if full.tokens < 1.0 {
      EarningsCover(c, later, later + SecondsFor(c, 1.0 - full.tokens), SecondsFor(c, 1.0 - full.tokens));
    }
  }
}
