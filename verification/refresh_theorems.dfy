/** What the refresh protocol promises over every run. */
module RefreshTheorems {
  import opened Wrappers
  import opened RefreshCoordinator
  import opened RefreshProtocol
  import opened RefreshInvariant
  import opened Totals

  /** Whether `actions` is a run from an initial state to `s`. */
  predicate RunsTo(start: State, actions: seq<Action>, s: State) {
    Initial(start) && WellFormed(start) && Possible(start, actions) && After(start, actions) == s
  }

  ghost predicate Reachable(s: State) {
    exists start, actions :: RunsTo(start, actions, s)
  }

  lemma ReachableInv(s: State)
    requires Reachable(s)
    ensures Inv(s)
  {
    var start, actions :| RunsTo(start, actions, s);
    InitialInv(start);
    AfterKeeps(start, actions);
  }

  // ---- one renewal per generation ----

  /** A renewal runs only under the very generation its refresh was launched for. */
  lemma RenewalRunsUnderItsGeneration(s: State, k: nat)
    requires Reachable(s) && k < |s.runners|
    ensures s.runners[k].Renewing? ==> s.m.flights[k].from == s.m.Current()
  {
    ReachableInv(s);
  }

  /** No generation has renew entered for it twice. */
  lemma OneRenewalPerGeneration(s: State, i: nat, j: nat)
    requires Reachable(s) && i < j < |s.past.entered|
    ensures s.past.entered[i] != s.past.entered[j]
  {
    ReachableInv(s);
  }

  /** The counts are the renewals that came back and those the provider made, at every moment. */
  lemma CountsAccountForRenewals(s: State)
    requires Reachable(s)
    ensures s.m.runs == s.past.completed + s.past.provided
    ensures s.m.refreshes == s.past.succeeded + s.past.provided
    ensures |s.past.entered| - 1 <= s.past.completed <= |s.past.entered|
    ensures s.past.completed < |s.past.entered| <==> exists k :: 0 <= k < |s.runners| && s.runners[k].Renewing?
  {
    ReachableInv(s);
    if s.past.completed < |s.past.entered| {
      var k := TotalHasSource(s.runners, Renews);
      assert s.runners[k].Renewing?;
    } else if exists k :: 0 <= k < |s.runners| && s.runners[k].Renewing? {
      var k :| 0 <= k < |s.runners| && s.runners[k].Renewing?;
      TotalAtLeast(s.runners, k, Renews);
    }
  }

  // ---- what a 401 is told ----

  /** A 401 is told to resend only once the credentials it was signed with were renewed. */
  lemma ResentOnlyAfterRenewal(s: State, t: nat)
    requires Reachable(s) && t < |s.calls| && s.calls[t].Told? && s.calls[t].renewed
    ensures s.calls[t].under.refreshes < s.m.refreshes
  {
    ReachableInv(s);
  }

  /** And it is told so at once, whatever refresh is in flight by then: nothing is launched or waited on. */
  lemma RenewedIsTold(s: State, t: nat)
    requires Reachable(s) && Enabled(s, Look(t)) && s.calls[t].under.refreshes < s.m.refreshes
    ensures Apply(s, Look(t)).calls[t] == Told(s.calls[t].under, true)
    ensures Apply(s, Look(t)).m == s.m && Apply(s, Look(t)).runners == s.runners
  {
  }

  /** A 401 on the current credentials waits for the refresh in flight, or launches the one for its generation. */
  lemma StaleRefusalWaits(s: State, t: nat)
    requires Reachable(s) && Enabled(s, Look(t))
    requires s.calls[t].under.refreshes == s.m.refreshes && (s.m.inFlight.Some? || s.calls[t].under.runs == s.m.runs)
    ensures
      var r := Apply(s, Look(t));
      if s.m.inFlight.Some? then
        r.calls[t] == AskWaiting(s.calls[t].under, s.m.inFlight.value) && r.m == s.m && r.runners == s.runners
      else
        && r.calls[t] == AskWaiting(s.calls[t].under, |s.m.flights|)
        && r.m.inFlight == Some(|s.m.flights|) && r.runners == s.runners + [Taking]
        && r.m.flights == s.m.flights + [Flight(s.calls[t].under, false, false)]
  {
  }

  /** A refresh that gets the turn renews exactly when its credentials are still the current ones. */
  lemma RefreshRenews(s: State, k: nat)
    requires Reachable(s) && Enabled(s, TakeToRun(k)) && !s.m.busy
    ensures
      var r := Apply(s, TakeToRun(k));
      if s.m.flights[k].from.refreshes == s.m.refreshes then
        r.runners[k] == Renewing && r.m.busy && s.m.flights[k].from == s.m.Current()
      else r.runners[k] == Announcing(true) && !r.m.busy && r.m.inFlight == None
  {
    ReachableInv(s);
  }

  /** A renewal that comes back with success outdates every generation there has been; a failed one outdates none. */
  lemma RenewalCounts(s: State, k: nat, success: bool)
    requires Reachable(s) && Enabled(s, Renewed(k, success))
    ensures forall g :: g in s.past.current ==> g.refreshes <= s.m.refreshes
    ensures
      var r := Apply(s, Renewed(k, success));
      && r.m.refreshes == s.m.refreshes + (if success then 1 else 0) && r.m.runs == s.m.runs + 1
      && r.runners[k] == Announcing(success) && r.calls == s.calls
  {
    ReachableInv(s);
  }

  /** Every 401 that waits on a refresh for its generation hears what that came to. */
  lemma AnswerIsShared(s: State, k: nat, t: nat)
    requires Reachable(s) && Enabled(s, Announce(k))
    requires t < |s.calls| && s.calls[t].AskWaiting? && s.calls[t].flight == k && s.calls[t].under == s.m.flights[k].from
    ensures
      var r := Apply(s, Announce(k));
      && WellFormed(r) && Enabled(r, Hear(t))
      && Apply(r, Hear(t)).calls[t] == Told(s.calls[t].under, s.runners[k].renewed)
  {
    ReachableInv(s);
  }

  /** A signing that finds the credential it knows moves nothing; another one moves both counts by one. */
  lemma SigningCountsProviderRenewals(s: State, t: nat, credential: string, failed: bool)
    requires Reachable(s) && Enabled(s, Authenticated(t, credential, failed))
    ensures
      var r := Apply(s, Authenticated(t, credential, failed));
      var other := !failed && credential != "" && s.m.credential != "" && credential != s.m.credential;
      && r.m.refreshes == s.m.refreshes + (if other then 1 else 0)
      && r.m.runs == s.m.runs + (if other then 1 else 0)
      && r.m.credential == (if !failed && credential != "" then credential else s.m.credential)
      && r.calls[t] == Signed(credential, Generation(r.m.refreshes, r.m.runs), failed)
  {
  }

  /**
   A 401 is refused only when a renewal of its own credentials, entered no earlier than they
   were signed with, failed, or when the refresh for its very generation was given up.
   */
  lemma RefusedOnlyAfterFailure(s: State, t: nat)
    requires Reachable(s) && t < |s.calls| && s.calls[t].Told? && !s.calls[t].renewed
    ensures Refused(s.past.failed, s.past.abandoned, s.calls[t].under)
  {
    ReachableInv(s);
  }

  /** The answer remembered from the last refresh is always a refusal when it is handed out. */
  lemma RememberedAnswerIsRefusal(s: State, t: nat)
    requires Reachable(s) && Enabled(s, Look(t))
    requires s.m.inFlight.None? && s.m.refreshes == s.calls[t].under.refreshes
    requires s.m.runs != s.calls[t].under.runs
    ensures Apply(s, Look(t)).calls[t] == Told(s.calls[t].under, false)
  {
    ReachableInv(s);
  }

  /** Signings given the same refresh count used the same credential. */
  lemma RefreshCountDeterminesCredential(s: State, i: nat, j: nat)
    requires Reachable(s) && i < |s.past.signings| && j < |s.past.signings|
    requires s.past.signings[i].under.refreshes == s.past.signings[j].under.refreshes
    ensures s.past.signings[i].credential == s.past.signings[j].credential
  {
    ReachableInv(s);
  }

  // ---- the turn ----

  /** No two goroutines hold the turn, and it is busy exactly while one does. */
  lemma TurnHeldByOne(s: State)
    requires Reachable(s)
    ensures forall t, u :: 0 <= t < u < |s.calls| ==> !(s.calls[t].Authenticating? && s.calls[u].Authenticating?)
    ensures forall j, k :: 0 <= j < k < |s.runners| ==> !(s.runners[j].Renewing? && s.runners[k].Renewing?)
    ensures forall t, k :: 0 <= t < |s.calls| && 0 <= k < |s.runners| ==>
              !(s.calls[t].Authenticating? && s.runners[k].Renewing?)
    ensures s.m.busy <==>
              || (exists t :: 0 <= t < |s.calls| && s.calls[t].Authenticating?)
              || (exists k :: 0 <= k < |s.runners| && s.runners[k].Renewing?)
  {
    ReachableInv(s);
    TurnIsExclusive(s);
    if s.m.busy {
      if Total(s.calls, Signs) > 0 {
        var t := TotalHasSource(s.calls, Signs);
        assert s.calls[t].Authenticating?;
      } else {
        var k := TotalHasSource(s.runners, Renews);
        assert s.runners[k].Renewing?;
      }
    }
  }

  lemma TurnIsExclusive(s: State)
    requires Inv(s)
    ensures forall t, u :: 0 <= t < u < |s.calls| ==> !(s.calls[t].Authenticating? && s.calls[u].Authenticating?)
    ensures forall j, k :: 0 <= j < k < |s.runners| ==> !(s.runners[j].Renewing? && s.runners[k].Renewing?)
    ensures forall t, k :: 0 <= t < |s.calls| && 0 <= k < |s.runners| ==>
              !(s.calls[t].Authenticating? && s.runners[k].Renewing?)
    ensures forall t :: 0 <= t < |s.calls| && s.calls[t].Authenticating? ==> s.m.busy
    ensures forall k :: 0 <= k < |s.runners| && s.runners[k].Renewing? ==> s.m.busy
  {
    forall t, u | 0 <= t < u < |s.calls|
      ensures !(s.calls[t].Authenticating? && s.calls[u].Authenticating?)
    {
      TotalAtLeastTwo(s.calls, t, u, Signs);
    }
    forall j, k | 0 <= j < k < |s.runners|
      ensures !(s.runners[j].Renewing? && s.runners[k].Renewing?)
    {
      TotalAtLeastTwo(s.runners, j, k, Renews);
    }
    forall t | 0 <= t < |s.calls|
      ensures Signs(s.calls[t]) <= Total(s.calls, Signs)
    {
      TotalAtLeast(s.calls, t, Signs);
    }
    forall k | 0 <= k < |s.runners|
      ensures Renews(s.runners[k]) <= Total(s.runners, Renews)
    {
      TotalAtLeast(s.runners, k, Renews);
    }
  }

  predicate FinishesSigning(a: Action) {
    a.Authenticated? || a.Panicked?
  }

  /** Whether refresh `k` is in flight at the moment each of the actions is taken. */
  predicate InFlightThroughout(s: State, actions: seq<Action>, k: nat)
    requires WellFormed(s) && Possible(s, actions)
    decreases |actions|
  {
    |actions| > 0 ==>
      s.m.inFlight == Some(k) && InFlightThroughout(Apply(s, actions[0]), actions[1..], k)
  }

  predicate NoneSigning(s: State) {
    forall t :: 0 <= t < |s.calls| ==> !s.calls[t].Authenticating?
  }

  lemma NoSigningBegins(s: State, a: Action)
    requires Inv(s) && Enabled(s, a) && s.m.inFlight.Some?
    ensures forall t :: 0 <= t < |Apply(s, a).calls| && Apply(s, a).calls[t].Authenticating? ==>
              t < |s.calls| && s.calls[t].Authenticating?
    ensures FinishesSigning(a) ==>
              CallOf(a) < |s.calls| && s.calls[CallOf(a)].Authenticating? && NoneSigning(Apply(s, a))
  {
    if FinishesSigning(a) {
      TurnIsExclusive(s);
    }
  }

  /** While a refresh is in flight no signing begins, so none finishes unless one was inside. */
  lemma {:induction false} NoSigningWhileInFlight(s: State, actions: seq<Action>, k: nat)
    requires Inv(s) && NoneSigning(s)
    requires Possible(s, actions) && InFlightThroughout(s, actions, k)
    ensures forall i :: 0 <= i < |actions| ==> !FinishesSigning(actions[i])
    decreases |actions|
  {
    if |actions| > 0 {
      NoSigningBegins(s, actions[0]);
      ApplyKeeps(s, actions[0]);
      NoSigningWhileInFlight(Apply(s, actions[0]), actions[1..], k);
    }
  }

  /**
   Between the launch of a refresh and its end at most one signing finishes, and it is the one
   that was inside the strategy already.
   */
  lemma {:induction false} OnlyTheSigningInsideFinishes(s: State, actions: seq<Action>, k: nat)
    requires Inv(s) && Possible(s, actions) && InFlightThroughout(s, actions, k)
    ensures forall i :: 0 <= i < |actions| && FinishesSigning(actions[i]) ==>
              CallOf(actions[i]) < |s.calls| && s.calls[CallOf(actions[i])].Authenticating?
    ensures forall i, j :: 0 <= i < j < |actions| ==> !(FinishesSigning(actions[i]) && FinishesSigning(actions[j]))
    decreases |actions|
  {
    if |actions| > 0 {
      NoSigningBegins(s, actions[0]);
      ApplyKeeps(s, actions[0]);
      OnlyTheSigningInsideFinishes(Apply(s, actions[0]), actions[1..], k);
      if FinishesSigning(actions[0]) {
        NoSigningWhileInFlight(Apply(s, actions[0]), actions[1..], k);
      }
    }
  }

  // ---- no lost wakeup, and no run without an end ----

  /**
   A goroutine blocked on a `freed` channel nobody closed finds the turn held and the field
   naming that channel; one blocked on a refresh finds it in flight or about to be announced.
   */
  lemma NoLostWakeup(s: State)
    requires Reachable(s)
    ensures forall t :: 0 <= t < |s.calls| && s.calls[t].SignWaiting? && !s.m.Ended(s.calls[t].on) ==>
              match s.calls[t].on
              case OnFreed(c) => s.m.busy && s.m.freed == Some(c)
              case OnDone(k) => k < |s.runners| && (s.m.inFlight == Some(k) || s.runners[k].Announcing?)
    ensures forall t :: 0 <= t < |s.calls| && s.calls[t].AskWaiting? && !s.m.Ended(OnDone(s.calls[t].flight)) ==>
              && s.calls[t].flight < |s.runners|
              && (s.m.inFlight == Some(s.calls[t].flight) || s.runners[s.calls[t].flight].Announcing?)
    ensures forall k :: 0 <= k < |s.runners| && s.runners[k].RunnerWaiting?
                        && !s.m.Ended(OnFreed(s.runners[k].channel)) ==>
              s.m.busy && s.m.freed == Some(s.runners[k].channel)
  {
    ReachableInv(s);
  }

  /** An action of a goroutine already there: no new call, no context or timeout ending. */
  predicate Advances(a: Action) {
    !IsArrival(a) && !a.CancelSign? && !a.CancelAsk? && !a.TimeOut? && !a.Panicked?
  }

  predicate Returned(call: Call) {
    call.Signed? || call.Unsigned? || call.Told? || call.Untold?
  }

  predicate Settled(s: State) {
    && (forall t :: 0 <= t < |s.calls| ==> Returned(s.calls[t]))
    && (forall k :: 0 <= k < |s.runners| ==> s.runners[k].Over?)
  }

  lemma RunnerAdvances(s: State, k: nat) returns (a: Action)
    requires Inv(s) && !s.m.busy && k < |s.runners| && !s.runners[k].Over?
    ensures Advances(a) && Enabled(s, a)
  {
    TurnIsExclusive(s);
    a := if s.runners[k].Announcing? then Announce(k) else TakeToRun(k);
  }

  /** Until every goroutine has returned, one of them can move without any context ending. */
  lemma SomeoneAdvances(s: State) returns (a: Action)
    requires Inv(s) && !Settled(s)
    ensures Advances(a) && Enabled(s, a)
  {
    if s.m.busy {
      if Total(s.calls, Signs) > 0 {
        var t := TotalHasSource(s.calls, Signs);
        return Authenticated(t, "", true);
      } else {
        var k := TotalHasSource(s.runners, Renews);
        return Renewed(k, false);
      }
    }
    TurnIsExclusive(s);
    if exists k :: 0 <= k < |s.runners| && !s.runners[k].Over? {
      var k :| 0 <= k < |s.runners| && !s.runners[k].Over?;
      a := RunnerAdvances(s, k);
      return;
    }
    var t :| 0 <= t < |s.calls| && !Returned(s.calls[t]);
    match s.calls[t]
    case Entering => a := TakeToSign(t);
    case SignWaiting(_) => a := TakeToSign(t);
    case Asking(_) => a := Look(t);
    case AskWaiting(_, _) => a := if HoldsAnswer(s, s.calls[t]) then Hear(t) else Look(t);
  }

  /** How far a call is from returning; waiting for another generation's refresh gains nothing. */
  function CallWeight(m: Shared, call: Call): nat {
    match call
    case Entering => 2
    case SignWaiting(_) => 2
    case Authenticating => 1
    case Asking(_) => 5
    case AskWaiting(under, k) => if k < |m.flights| && m.flights[k].from == under then 1 else 5
    case _ => 0
  }

  function RunnerWeight(runner: Runner): nat {
    match runner
    case Taking => 3
    case RunnerWaiting(_) => 3
    case Renewing => 2
    case Announcing(_) => 1
    case Over => 0
  }

  function CallReady(m: Shared, call: Call): nat {
    if Runnable(m, call) then 1 else 0
  }

  function RunnerReady(m: Shared, runner: Runner): nat {
    if runner.Taking? || (runner.RunnerWaiting? && m.Ended(OnFreed(runner.channel))) then 1 else 0
  }

  function CallWeightIn(m: Shared): Call -> nat {
    call => CallWeight(m, call)
  }

  function CallReadyIn(m: Shared): Call -> nat {
    call => CallReady(m, call)
  }

  function RunnerReadyIn(m: Shared): Runner -> nat {
    runner => RunnerReady(m, runner)
  }

  /** What remains to be done. */
  function Work(s: State): nat {
    Total(s.calls, CallWeightIn(s.m)) + Total(s.runners, RunnerWeight)
  }

  /** The goroutines that are not blocked. */
  function Awake(s: State): nat {
    Total(s.calls, CallReadyIn(s.m)) + Total(s.runners, RunnerReadyIn(s.m))
  }

  function Scale(s: State): nat {
    |s.calls| + |s.runners| + Work(s) + 1
  }

  /** How many more actions there can be without a new call. */
  function Rank(s: State): nat {
    Work(s) * Scale(s) + Awake(s)
  }

  lemma AwakeBelowScale(s: State)
    ensures Awake(s) < Scale(s)
  {
    TotalAtMostLength(s.calls, CallReadyIn(s.m));
    TotalAtMostLength(s.runners, RunnerReadyIn(s.m));
  }

  /** A call keeps its weight while the refreshes it may wait on keep their generations. */
  lemma WeightsOutliveMemory(calls: seq<Call>, m: Shared, n: Shared)
    requires |m.flights| <= |n.flights|
    requires forall k :: 0 <= k < |m.flights| ==> m.flights[k].from == n.flights[k].from
    requires forall t :: 0 <= t < |calls| && calls[t].AskWaiting? ==> calls[t].flight < |m.flights|
    ensures Total(calls, CallWeightIn(n)) == Total(calls, CallWeightIn(m))
  {
    TotalAgrees(calls, CallWeightIn(n), CallWeightIn(m));
  }

  lemma WorkMoves(s: State, r: State, t: nat, k: nat)
    requires |s.m.flights| <= |r.m.flights|
    requires forall k :: 0 <= k < |s.m.flights| ==> s.m.flights[k].from == r.m.flights[k].from
    requires forall t :: 0 <= t < |s.calls| && s.calls[t].AskWaiting? ==> s.calls[t].flight < |s.m.flights|
    requires r.calls == s.calls || (t < |s.calls| == |r.calls| && r.calls == s.calls[t := r.calls[t]])
    requires
      || r.runners == s.runners
      || (k < |s.runners| == |r.runners| && r.runners == s.runners[k := r.runners[k]])
      || r.runners == s.runners + [Taking]
    ensures
      var fell := if r.calls == s.calls then 0 else CallWeight(s.m, s.calls[t]) - CallWeight(r.m, r.calls[t]);
      var ended := if r.runners == s.runners then 0
        else if |r.runners| == |s.runners| then RunnerWeight(s.runners[k]) - RunnerWeight(r.runners[k])
        else -3;
      Work(r) == Work(s) - fell - ended
  {
    WeightsOutliveMemory(s.calls, s.m, r.m);
    if r.calls != s.calls {
      TotalUpdate(s.calls, t, r.calls[t], CallWeightIn(r.m));
    }
    if r.runners != s.runners {
      if |r.runners| == |s.runners| {
        TotalUpdate(s.runners, k, r.runners[k], RunnerWeight);
      } else {
        TotalAppend(s.runners, Taking, RunnerWeight);
      }
    }
  }

  /** A pass of a wait loop that ends in waiting. */
  predicate GoesToSleep(s: State, a: Action)
    requires WellFormed(s) && Enabled(s, a)
  {
    match a
    case TakeToSign(t) => Apply(s, a).calls[t].SignWaiting?
    case Look(t) => Apply(s, a).calls[t].AskWaiting? && !HoldsAnswer(Apply(s, a), Apply(s, a).calls[t])
    case TakeToRun(k) => Apply(s, a).runners[k].RunnerWaiting?
    case _ => false
  }

  lemma WorkFallsByTelling(s: State, t: nat)
    requires Inv(s) && Enabled(s, Look(t)) && Looked(s.m, s.calls[t].under).1.Tell?
    ensures |Apply(s, Look(t)).runners| == |s.runners| && Work(Apply(s, Look(t))) < Work(s)
  {
    WorkMoves(s, Apply(s, Look(t)), t, 0);
  }

  lemma WorkFallsByAwaiting(s: State, t: nat)
    requires Inv(s) && Enabled(s, Look(t)) && Looked(s.m, s.calls[t].under).1.Await?
    ensures |Apply(s, Look(t)).runners| == |s.runners|
    ensures if GoesToSleep(s, Look(t)) then Work(Apply(s, Look(t))) == Work(s) else Work(Apply(s, Look(t))) < Work(s)
  {
    var r := Apply(s, Look(t));
    assert r.calls[t] == s.calls[t] ==> r.calls == s.calls;
    WorkMoves(s, r, t, 0);
  }

  lemma WorkFallsByLaunching(s: State, t: nat)
    requires Inv(s) && Enabled(s, Look(t)) && Looked(s.m, s.calls[t].under).1.Launch?
    ensures !GoesToSleep(s, Look(t))
    ensures |Apply(s, Look(t)).runners| == |s.runners| + 1 && Work(Apply(s, Look(t))) < Work(s)
  {
    var r := Apply(s, Look(t));
    assert r.calls[t] == s.calls[t] ==> r.calls == s.calls;
    WorkMoves(s, r, t, 0);
  }

  lemma WorkFallsByLook(s: State, t: nat)
    requires Inv(s) && Enabled(s, Look(t))
    ensures |Apply(s, Look(t)).runners| + Work(Apply(s, Look(t))) <= |s.runners| + Work(s)
    ensures if GoesToSleep(s, Look(t))
            then Work(Apply(s, Look(t))) == Work(s) && |Apply(s, Look(t)).runners| == |s.runners|
            else Work(Apply(s, Look(t))) < Work(s)
  {
    match Looked(s.m, s.calls[t].under).1
    case Tell(_) => WorkFallsByTelling(s, t);
    case Await(_) => WorkFallsByAwaiting(s, t);
    case Launch(_) => WorkFallsByLaunching(s, t);
  }

  lemma WorkFallsByCalls(s: State, a: Action)
    requires Inv(s) && Enabled(s, a) && !IsArrival(a) && !OfRunner(a) && !a.Look?
    ensures |Apply(s, a).runners| == |s.runners|
    ensures if GoesToSleep(s, a) then Work(Apply(s, a)) == Work(s) else Work(Apply(s, a)) < Work(s)
  {
    WorkMoves(s, Apply(s, a), CallOf(a), 0);
  }

  lemma WorkFallsByRunners(s: State, a: Action)
    requires Inv(s) && Enabled(s, a) && OfRunner(a)
    ensures |Apply(s, a).runners| == |s.runners|
    ensures if GoesToSleep(s, a) then Work(Apply(s, a)) == Work(s) else Work(Apply(s, a)) < Work(s)
  {
    WorkMoves(s, Apply(s, a), 0, a.flight);
  }

  lemma AwakeFallsByCalls(s: State, a: Action)
    requires Inv(s) && Enabled(s, a) && !OfRunner(a) && GoesToSleep(s, a)
    ensures Awake(Apply(s, a)) < Awake(s)
  {
    var r := Apply(s, a);
    TotalAgrees(s.calls, CallReadyIn(r.m), CallReadyIn(s.m));
    TotalAgrees(s.runners, RunnerReadyIn(r.m), RunnerReadyIn(s.m));
    TotalUpdate(s.calls, a.call, r.calls[a.call], CallReadyIn(r.m));
  }

  lemma AwakeFallsByRunners(s: State, k: nat)
    requires Inv(s) && Enabled(s, TakeToRun(k)) && GoesToSleep(s, TakeToRun(k))
    ensures Awake(Apply(s, TakeToRun(k))) < Awake(s)
  {
    var r := Apply(s, TakeToRun(k));
    TotalAgrees(s.calls, CallReadyIn(r.m), CallReadyIn(s.m));
    TotalAgrees(s.runners, RunnerReadyIn(r.m), RunnerReadyIn(s.m));
    TotalUpdate(s.runners, k, r.runners[k], RunnerReadyIn(r.m));
  }

  lemma ProductFalls(w: nat, v: nat, n: nat, m: nat)
    requires w < v && n <= m
    ensures w * n + m <= v * m
  {
    assert w * n <= w * m;
    assert (w + 1) * m <= v * m;
  }

  lemma RankFalls(s: State, a: Action)
    requires Inv(s) && Enabled(s, a) && !IsArrival(a)
    ensures Rank(Apply(s, a)) < Rank(s)
  {
    var r := Apply(s, a);
    if OfRunner(a) {
      WorkFallsByRunners(s, a);
    } else if a.Look? {
      WorkFallsByLook(s, a.call);
    } else {
      WorkFallsByCalls(s, a);
    }
    AwakeBelowScale(r);
    if GoesToSleep(s, a) {
      if OfRunner(a) {
        AwakeFallsByRunners(s, a.flight);
      } else {
        AwakeFallsByCalls(s, a);
      }
    } else {
      ProductFalls(Work(r), Work(s), Scale(r), Scale(s));
    }
  }

  /** Without new calls no run goes on for longer than its first state's rank. */
  lemma {:induction false} RunsEnd(s: State, actions: seq<Action>)
    requires Inv(s) && Possible(s, actions)
    requires forall i :: 0 <= i < |actions| ==> !IsArrival(actions[i])
    ensures |actions| <= Rank(s)
    decreases |actions|
  {
    if |actions| > 0 {
      RankFalls(s, actions[0]);
      ApplyKeeps(s, actions[0]);
      RunsEnd(Apply(s, actions[0]), actions[1..]);
    }
  }

  /**
   From any reachable state, with no further calls: a run has at most as many actions as the
   rank allows, and one that leaves no goroutine able to move has let every one of them return.
   */
  lemma EveryRunSettles(s: State, actions: seq<Action>)
    requires Reachable(s) && Possible(s, actions)
    requires forall i :: 0 <= i < |actions| ==> !IsArrival(actions[i])
    ensures |actions| <= Rank(s)
    ensures Settled(After(s, actions)) || exists a :: Advances(a) && Enabled(After(s, actions), a)
  {
    ReachableInv(s);
    RunsEnd(s, actions);
    AfterKeeps(s, actions);
    if !Settled(After(s, actions)) {
      var a := SomeoneAdvances(After(s, actions));
    }
  }

  /** The turn discipline of one refresh, from whatever moment of its flight it is watched. */
  lemma RefreshRunsNext(s: State, actions: seq<Action>, k: nat)
    requires Reachable(s) && Possible(s, actions) && InFlightThroughout(s, actions, k)
    ensures forall i :: 0 <= i < |actions| && FinishesSigning(actions[i]) ==>
              CallOf(actions[i]) < |s.calls| && s.calls[CallOf(actions[i])].Authenticating?
    ensures forall i, j :: 0 <= i < j < |actions| ==> !(FinishesSigning(actions[i]) && FinishesSigning(actions[j]))
  {
    ReachableInv(s);
    OnlyTheSigningInsideFinishes(s, actions, k);
  }
}
