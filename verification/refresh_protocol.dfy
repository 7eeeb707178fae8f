/**
 Every interleaving of the signings, the 401s and the refreshes that share one coordinator.

 A call is one goroutine inside `sign` or `answer`; a runner is the goroutine of one refresh.
 An action is one stretch with the mutex held, or one stretch without it. Which credential the
 strategy hands over, whether it fails or panics, whether a renewal succeeds, and when contexts
 and timeouts end are all arbitrary.
 */
module RefreshProtocol {
  import opened RefreshCoordinator

  datatype Call =
    | Entering                                         // in sign, about to ask for the turn
    | SignWaiting(on: Wait)                            // in sign, blocked in take
    | Authenticating                                   // in sign, inside the strategy
    | Signed(credential: string, under: Generation, failed: bool)
    | Unsigned                                         // cancelled, or the strategy panicked
    | Asking(under: Generation)                        // in answer, about to look
    | AskWaiting(under: Generation, flight: nat)       // in answer, blocked on a refresh
    | Told(under: Generation, renewed: bool)
    | Untold(under: Generation)                        // cancelled

  datatype Runner =
    | Taking
    | RunnerWaiting(channel: nat)
    | Renewing
    | Announcing(renewed: bool)
    | Over

  /** A signing the strategy named a credential for, and the generation it was given. */
  datatype Signing = Signing(credential: string, under: Generation)

  /** What has happened so far; nothing in the protocol reads it. */
  datatype History = History(
    current: set<Generation>,      // the generations that have been the current one
    signings: seq<Signing>,        // the successful signings that named a credential
    entered: seq<Generation>,      // the generation current each time renew was entered
    failed: set<Generation>,       // those whose renewal came back without success
    abandoned: set<Generation>,    // those whose refresh outlasted its bound
    completed: nat,                // renewals that came back
    succeeded: nat,                // renewals that came back with success
    provided: nat)                 // renewals a signing found the provider had made

  datatype State = State(m: Shared, calls: seq<Call>, runners: seq<Runner>, past: History)

  datatype Action =
    | Sign
    | Ask(under: Generation)
    | TakeToSign(call: nat)
    | CancelSign(call: nat)
    | Authenticated(call: nat, credential: string, failed: bool)
    | Panicked(call: nat)
    | Look(call: nat)
    | Hear(call: nat)
    | CancelAsk(call: nat)
    | TakeToRun(flight: nat)
    | TimeOut(flight: nat)
    | Renewed(flight: nat, success: bool)
    | Announce(flight: nat)

  /** Before any call: nothing signed, nothing renewed. */
  predicate Initial(s: State) {
    && s.m == Fresh
    && |s.calls| == |s.runners| == 0
    && s.past.current == {Generation(0, 0)}
    && |s.past.signings| == |s.past.entered| == 0
    && s.past.failed == s.past.abandoned == {}
    && s.past.completed == s.past.succeeded == s.past.provided == 0
  }

  predicate WellFormed(s: State) {
    s.m.WellFormed() && |s.runners| == |s.m.flights|
  }

  /** Whether a goroutine in `take` or `answer` can run its next stretch. */
  predicate Runnable(m: Shared, call: Call) {
    match call
    case Entering => true
    case SignWaiting(on) => m.Ended(on)
    case Asking(_) => true
    case AskWaiting(_, k) => m.Ended(OnDone(k))
    case _ => false
  }

  predicate Enabled(s: State, a: Action)
    requires WellFormed(s)
  {
    match a
    case Sign => true
    case Ask(under) => under in s.past.current
    case TakeToSign(t) =>
      t < |s.calls| && (s.calls[t].Entering? || s.calls[t].SignWaiting?) && Runnable(s.m, s.calls[t])
    case CancelSign(t) => t < |s.calls| && s.calls[t].SignWaiting?
    case Authenticated(t, _, _) => t < |s.calls| && s.calls[t].Authenticating?
    case Panicked(t) => t < |s.calls| && s.calls[t].Authenticating?
    case Look(t) =>
      && t < |s.calls|
      && (s.calls[t].Asking? || (s.calls[t].AskWaiting? && !HoldsAnswer(s, s.calls[t])))
      && Runnable(s.m, s.calls[t])
    case Hear(t) =>
      && t < |s.calls|
      && s.calls[t].AskWaiting? && HoldsAnswer(s, s.calls[t])
      && Runnable(s.m, s.calls[t])
    case CancelAsk(t) => t < |s.calls| && s.calls[t].AskWaiting?
    case TakeToRun(k) =>
      && k < |s.runners|
      && (s.runners[k].Taking? || (s.runners[k].RunnerWaiting? && s.m.Ended(OnFreed(s.runners[k].channel))))
    case TimeOut(k) => k < |s.runners| && s.runners[k].RunnerWaiting?
    case Renewed(k, _) => k < |s.runners| && s.runners[k].Renewing?
    case Announce(k) => k < |s.runners| && s.runners[k].Announcing?
  }

  /** Whether the refresh waited on answers for the generation the 401 was signed under. */
  predicate HoldsAnswer(s: State, call: Call)
    requires call.AskWaiting?
  {
    call.flight < |s.m.flights| && s.m.flights[call.flight].from == call.under
  }

  /** The state with its memory replaced, the new generation noted. */
  function Moved(s: State, m: Shared): State {
    s.(m := m, past := s.past.(current := s.past.current + {m.Current()}))
  }

  function Apply(s: State, a: Action): State
    requires WellFormed(s) && Enabled(s, a)
  {
    match a
    case Sign => s.(calls := s.calls + [Entering])
    case Ask(under) => s.(calls := s.calls + [Asking(under)])
    case TakeToSign(t) =>
      var (m, wait) := Tried(s.m, true);
      s.(m := m, calls := s.calls[t := if wait.None? then Authenticating else SignWaiting(wait.value)])
    case CancelSign(t) => s.(calls := s.calls[t := Unsigned])
    case Authenticated(t, credential, failed) => ApplyAuthenticated(s, t, credential, failed)
    case Panicked(t) => s.(m := Given(s.m), calls := s.calls[t := Unsigned])
    case Look(t) => ApplyLook(s, t)
    case Hear(t) =>
      s.(calls := s.calls[t := Told(s.calls[t].under, s.m.flights[s.calls[t].flight].renewed)])
    case CancelAsk(t) => s.(calls := s.calls[t := Untold(s.calls[t].under)])
    case TakeToRun(k) => ApplyTakeToRun(s, k)
    case TimeOut(k) =>
      s.(m := GivenUp(s.m), runners := s.runners[k := Announcing(false)],
      past := s.past.(abandoned := s.past.abandoned + {s.m.flights[k].from}))
    case Renewed(k, success) => ApplyRenewed(s, k, success)
    case Announce(k) =>
      s.(m := Announced(s.m, k, s.runners[k].renewed), runners := s.runners[k := Over])
  }

  function ApplyAuthenticated(s: State, t: nat, credential: string, failed: bool): State
    requires WellFormed(s) && t < |s.calls|
  {
    var m := Counted(s.m, credential, failed);
    var under := m.Current();
    var past := s.past.(
      signings := if !failed && credential != "" then s.past.signings + [Signing(credential, under)] else s.past.signings,
      provided := if FindsRenewal(s.m, credential, failed) then s.past.provided + 1 else s.past.provided);
    Moved(s.(calls := s.calls[t := Signed(credential, under, failed)], past := past), Given(m))
  }

  function ApplyLook(s: State, t: nat): State
    requires WellFormed(s) && t < |s.calls| && (s.calls[t].Asking? || s.calls[t].AskWaiting?)
  {
    var under := s.calls[t].under;
    var (m, verdict) := Looked(s.m, under);
    match verdict
    case Tell(renewed) => s.(m := m, calls := s.calls[t := Told(under, renewed)])
    case Await(k) => s.(m := m, calls := s.calls[t := AskWaiting(under, k)])
    case Launch(k) =>
      s.(m := m, calls := s.calls[t := AskWaiting(under, k)], runners := s.runners + [Taking])
  }

  function ApplyTakeToRun(s: State, k: nat): State
    requires WellFormed(s) && k < |s.runners|
  {
    var (m, wait) := Tried(s.m, false);
    if wait.Some? then
      s.(m := m, runners := s.runners[k := if wait.value.OnFreed? then RunnerWaiting(wait.value.channel) else Taking])
    else if StillStale(m, k) then
      s.(m := m, runners := s.runners[k := Renewing],
      past := s.past.(entered := s.past.entered + [m.Current()]))
    else
      s.(m := Forestalled(m), runners := s.runners[k := Announcing(true)])
  }

  function ApplyRenewed(s: State, k: nat, success: bool): State
    requires WellFormed(s) && k < |s.runners|
  {
    var past := s.past.(
      completed := s.past.completed + 1,
      succeeded := if success then s.past.succeeded + 1 else s.past.succeeded,
      failed := if success then s.past.failed else s.past.failed + {s.m.Current()});
    Moved(s.(runners := s.runners[k := Announcing(success)], past := past), Finished(s.m, success))
  }

  lemma ApplyKeepsWellFormed(s: State, a: Action)
    requires WellFormed(s) && Enabled(s, a)
    ensures WellFormed(Apply(s, a))
  {
  }

  /** Whether the actions can happen one after another from `s`. */
  predicate Possible(s: State, actions: seq<Action>)
    requires WellFormed(s)
    decreases |actions|
  {
    |actions| > 0 ==>
      && Enabled(s, actions[0])
      && (ApplyKeepsWellFormed(s, actions[0]); Possible(Apply(s, actions[0]), actions[1..]))
  }

  /** The state a run of actions ends in. */
  function After(s: State, actions: seq<Action>): (r: State)
    requires WellFormed(s) && Possible(s, actions)
    ensures WellFormed(r)
    decreases |actions|
  {
    if |actions| == 0 then s
    else
      ApplyKeepsWellFormed(s, actions[0]);
      After(Apply(s, actions[0]), actions[1..])
  }
}
