/** What every reachable state of the refresh protocol satisfies, and that each action keeps it. */
module RefreshInvariant {
  import opened Wrappers
  import opened RefreshCoordinator
  import opened RefreshProtocol
  import opened Totals

  function Signs(call: Call): nat {
    if call.Authenticating? then 1 else 0
  }

  function Renews(runner: Runner): nat {
    if runner.Renewing? then 1 else 0
  }

  predicate Earlier(a: Generation, b: Generation) {
    a.refreshes <= b.refreshes && a.runs <= b.runs
  }

  /** The turn is held by exactly one signing or renewal while it is busy, and by none otherwise. */
  predicate TurnInv(busy: bool, calls: seq<Call>, runners: seq<Runner>) {
    Total(calls, Signs) + Total(runners, Renews) == if busy then 1 else 0
  }

  predicate Flying(runner: Runner) {
    runner.Taking? || runner.RunnerWaiting? || runner.Renewing?
  }

  /** The refresh in flight is the one whose runner has not ended it. */
  predicate FlightInv(inFlight: Option<nat>, flights: seq<Flight>, runners: seq<Runner>) {
    && |runners| == |flights|
    && (forall k :: 0 <= k < |runners| ==> (Flying(runners[k]) <==> inFlight == Some(k)))
    && (forall k :: 0 <= k < |runners| ==> (flights[k].done <==> runners[k].Over?))
  }

  /** Refreshes are launched for generations there have been, and run for the current one. */
  predicate FromInv(now: Generation, inFlight: Option<nat>, flights: seq<Flight>, runners: seq<Runner>,
        current: set<Generation>) {
    && (forall k :: 0 <= k < |flights| ==> flights[k].from in current)
    && (inFlight.Some? && inFlight.value < |flights| && flights[inFlight.value].from.refreshes == now.refreshes ==>
          flights[inFlight.value].from == now)
    && (forall k :: 0 <= k < |runners| && k < |flights| && runners[k].Renewing? ==> flights[k].from == now)
  }

  /** An open channel is the one the `freed` field names, and the turn is then held. */
  predicate FreedInv(busy: bool, freed: Option<nat>, channels: seq<bool>) {
    && (freed.Some? ==> busy && freed.value < |channels| && !channels[freed.value])
    && (forall c :: 0 <= c < |channels| && !channels[c] ==> freed == Some(c))
  }

  /** A goroutine blocks only on a channel there is. */
  predicate CallsWaitInv(channels: nat, flights: nat, calls: seq<Call>) {
    forall t :: 0 <= t < |calls| ==>
      match calls[t]
      case SignWaiting(OnFreed(c)) => c < channels
      case SignWaiting(OnDone(k)) => k < flights
      case AskWaiting(_, k) => k < flights
      case _ => true
  }

  predicate RunnersWaitInv(channels: nat, runners: seq<Runner>) {
    forall k :: 0 <= k < |runners| && runners[k].RunnerWaiting? ==> runners[k].channel < channels
  }

  /** The counts only grow, and a run count that moved alone moved by a failure. */
  predicate CountInv(now: Generation, renewed: bool, past: History) {
    && now in past.current
    && (forall g :: g in past.current ==> Earlier(g, now))
    && (forall g :: g in past.current && g.refreshes == now.refreshes && g.runs < now.runs ==>
          !renewed && Generation(now.refreshes, now.runs - 1) in past.failed)
    && now.runs == past.completed + past.provided
    && now.refreshes == past.succeeded + past.provided
  }

  /** Renewals were entered under strictly growing run counts, all but one of them past. */
  predicate EnteredInv(now: Generation, renewing: nat, entered: seq<Generation>, completed: nat) {
    && |entered| == completed + renewing
    && (forall i, j :: 0 <= i < j < |entered| ==> entered[i].runs < entered[j].runs)
    && (forall i :: 0 <= i < completed && i < |entered| ==> entered[i].runs < now.runs)
    && (forall i :: completed <= i < |entered| ==> entered[i] == now)
  }

  /** Every credential handed out under the current refresh count is the one remembered. */
  predicate SigningInv(refreshes: nat, credential: string, signings: seq<Signing>) {
    && (forall i :: 0 <= i < |signings| ==>
          && signings[i].credential != ""
          && signings[i].under.refreshes <= refreshes
          && (signings[i].under.refreshes == refreshes ==> signings[i].credential == credential))
    && (forall i, j :: 0 <= i < |signings| && 0 <= j < |signings|
                       && signings[i].under.refreshes == signings[j].under.refreshes ==>
          signings[i].credential == signings[j].credential)
  }

  /** Some renewal entered no earlier than `under` failed, or the refresh for it was given up. */
  predicate Refused(failed: set<Generation>, abandoned: set<Generation>, under: Generation) {
    under in abandoned || exists g :: g in failed && g.refreshes == under.refreshes && g.runs >= under.runs
  }

  predicate Justified(refreshes: nat, failed: set<Generation>, abandoned: set<Generation>, under: Generation,
        renewed: bool) {
    if renewed then under.refreshes < refreshes else Refused(failed, abandoned, under)
  }

  /** What a refresh ended with, or is about to announce. */
  predicate OutcomeInv(refreshes: nat, flights: seq<Flight>, runners: seq<Runner>, failed: set<Generation>,
        abandoned: set<Generation>) {
    forall k :: 0 <= k < |runners| && k < |flights| ==>
      match runners[k]
      case Announcing(renewed) => Justified(refreshes, failed, abandoned, flights[k].from, renewed)
      case Over => Justified(refreshes, failed, abandoned, flights[k].from, flights[k].renewed)
      case _ => true
  }

  /** What each 401 was told, and that it was signed under a generation there has been. */
  predicate AnswerInv(refreshes: nat, calls: seq<Call>, current: set<Generation>, failed: set<Generation>,
        abandoned: set<Generation>) {
    forall t :: 0 <= t < |calls| ==>
      match calls[t]
      case Asking(under) => under in current
      case AskWaiting(under, _) => under in current
      case Told(under, renewed) => Justified(refreshes, failed, abandoned, under, renewed)
      case _ => true
  }

  predicate TurnHolds(s: State) {
    TurnInv(s.m.busy, s.calls, s.runners)
  }

  predicate FlightHolds(s: State) {
    FlightInv(s.m.inFlight, s.m.flights, s.runners)
  }

  predicate FromHolds(s: State) {
    FromInv(s.m.Current(), s.m.inFlight, s.m.flights, s.runners, s.past.current)
  }

  predicate FreedHolds(s: State) {
    FreedInv(s.m.busy, s.m.freed, s.m.channels)
  }

  predicate CallsWaitHolds(s: State) {
    CallsWaitInv(|s.m.channels|, |s.m.flights|, s.calls)
  }

  predicate RunnersWaitHolds(s: State) {
    RunnersWaitInv(|s.m.channels|, s.runners)
  }

  predicate CountHolds(s: State) {
    CountInv(s.m.Current(), s.m.renewed, s.past)
  }

  predicate EnteredHolds(s: State) {
    EnteredInv(s.m.Current(), Total(s.runners, Renews), s.past.entered, s.past.completed)
  }

  predicate SigningHolds(s: State) {
    SigningInv(s.m.refreshes, s.m.credential, s.past.signings)
  }

  predicate OutcomeHolds(s: State) {
    OutcomeInv(s.m.refreshes, s.m.flights, s.runners, s.past.failed, s.past.abandoned)
  }

  predicate AnswerHolds(s: State) {
    AnswerInv(s.m.refreshes, s.calls, s.past.current, s.past.failed, s.past.abandoned)
  }

  predicate Inv(s: State) {
    && WellFormed(s)
    && TurnHolds(s)
    && FlightHolds(s)
    && FromHolds(s)
    && FreedHolds(s)
    && CallsWaitHolds(s)
    && RunnersWaitHolds(s)
    && CountHolds(s)
    && EnteredHolds(s)
    && SigningHolds(s)
    && OutcomeHolds(s)
    && AnswerHolds(s)
  }

  lemma InitialInv(s: State)
    requires Initial(s)
    ensures Inv(s)
  {
  }

  /** How the totals of the turn's holders move with the one call touched. */
  lemma CallMoves(calls: seq<Call>, t: nat, call: Call)
    requires t < |calls|
    ensures Total(calls[t := call], Signs) + Signs(calls[t]) == Total(calls, Signs) + Signs(call)
    ensures Signs(calls[t]) <= Total(calls, Signs)
  {
    TotalUpdate(calls, t, call, Signs);
    TotalAtLeast(calls, t, Signs);
  }

  lemma RunnerMoves(runners: seq<Runner>, k: nat, runner: Runner)
    requires k < |runners|
    ensures Total(runners[k := runner], Renews) + Renews(runners[k]) == Total(runners, Renews) + Renews(runner)
    ensures Renews(runners[k]) <= Total(runners, Renews)
  {
    TotalUpdate(runners, k, runner, Renews);
    TotalAtLeast(runners, k, Renews);
  }

  /** The call an action is about. */
  function CallOf(a: Action): nat {
    match a
    case TakeToSign(t) => t
    case CancelSign(t) => t
    case Authenticated(t, _, _) => t
    case Panicked(t) => t
    case Look(t) => t
    case Hear(t) => t
    case CancelAsk(t) => t
    case _ => 0
  }

  predicate IsArrival(a: Action) {
    a.Sign? || a.Ask?
  }

  predicate OfRunner(a: Action) {
    a.TakeToRun? || a.TimeOut? || a.Renewed? || a.Announce?
  }

  /** How the turn's holders move with the call the action is about. */
  lemma CallHoldersMove(s: State, a: Action)
    requires WellFormed(s) && Enabled(s, a) && !OfRunner(a)
    ensures
      var r := Apply(s, a);
      && Total(r.runners, Renews) == Total(s.runners, Renews)
      && if IsArrival(a) then Total(r.calls, Signs) == Total(s.calls, Signs)
         else
           && Total(r.calls, Signs) + Signs(s.calls[CallOf(a)]) == Total(s.calls, Signs) + Signs(r.calls[CallOf(a)])
           && Signs(s.calls[CallOf(a)]) <= Total(s.calls, Signs)
  {
    if a.Look? {
      TotalAppend(s.runners, Taking, Renews);
    }
    if IsArrival(a) {
      TotalAppend(s.calls, Apply(s, a).calls[|s.calls|], Signs);
    } else {
      CallMoves(s.calls, CallOf(a), Apply(s, a).calls[CallOf(a)]);
    }
  }

  lemma RunnerHoldersMove(s: State, a: Action)
    requires WellFormed(s) && Enabled(s, a) && OfRunner(a)
    ensures
      var r := Apply(s, a);
      && Total(r.runners, Renews) + Renews(s.runners[a.flight]) == Total(s.runners, Renews) + Renews(r.runners[a.flight])
      && Renews(s.runners[a.flight]) <= Total(s.runners, Renews)
  {
    RunnerMoves(s.runners, a.flight, Apply(s, a).runners[a.flight]);
  }

  lemma TurnKeptByCalls(s: State, a: Action)
    requires WellFormed(s) && TurnHolds(s)
    requires Enabled(s, a) && !OfRunner(a)
    ensures TurnHolds(Apply(s, a))
  {
    CallHoldersMove(s, a);
  }

  lemma TurnKeptByRunners(s: State, a: Action)
    requires WellFormed(s) && TurnHolds(s)
    requires Enabled(s, a) && OfRunner(a)
    ensures TurnHolds(Apply(s, a))
  {
    RunnerHoldersMove(s, a);
  }

  lemma FlightKeptByCalls(s: State, a: Action)
    requires WellFormed(s) && FlightHolds(s)
    requires Enabled(s, a) && !OfRunner(a)
    ensures FlightHolds(Apply(s, a))
  {
  }

  lemma FlightKeptByTaking(s: State, a: Action)
    requires WellFormed(s) && FlightHolds(s)
    requires Enabled(s, a) && a.TakeToRun?
    ensures FlightHolds(Apply(s, a))
  {
  }

  lemma FlightKeptByEnding(s: State, a: Action)
    requires WellFormed(s) && FlightHolds(s)
    requires Enabled(s, a) && OfRunner(a) && !a.TakeToRun?
    ensures FlightHolds(Apply(s, a))
  {
  }

  lemma FromKeptByCalls(s: State, a: Action)
    requires WellFormed(s) && TurnHolds(s) && FlightHolds(s) && FromHolds(s) && CountHolds(s)
    requires Enabled(s, a) && !OfRunner(a) && !a.Look?
    ensures FromHolds(Apply(s, a))
  {
    CallHoldersMove(s, a);
    forall k | 0 <= k < |s.runners|
      ensures Renews(s.runners[k]) <= Total(s.runners, Renews)
    {
      TotalAtLeast(s.runners, k, Renews);
    }
  }

  lemma FromKeptByLook(s: State, a: Action)
    requires WellFormed(s) && FlightHolds(s) && FromHolds(s) && CountHolds(s)
    requires Enabled(s, a) && a.Look?
    ensures FromHolds(Apply(s, a))
  {
  }

  lemma FromKeptByTaking(s: State, a: Action)
    requires WellFormed(s) && TurnHolds(s) && FlightHolds(s) && FromHolds(s) && CountHolds(s)
    requires Enabled(s, a) && a.TakeToRun?
    ensures FromHolds(Apply(s, a))
  {
    RunnerHoldersMove(s, a);
  }

  lemma FromKeptByEnding(s: State, a: Action)
    requires WellFormed(s) && TurnHolds(s) && FlightHolds(s) && FromHolds(s) && CountHolds(s)
    requires Enabled(s, a) && OfRunner(a) && !a.TakeToRun?
    ensures FromHolds(Apply(s, a))
  {
    RunnerHoldersMove(s, a);
  }

  lemma FreedKeptByCalls(s: State, a: Action)
    requires WellFormed(s) && TurnHolds(s) && FreedHolds(s)
    requires Enabled(s, a) && !OfRunner(a) && !a.Look?
    ensures FreedHolds(Apply(s, a))
  {
    CallHoldersMove(s, a);
  }

  lemma FreedKeptByLook(s: State, a: Action)
    requires WellFormed(s) && TurnHolds(s) && FreedHolds(s)
    requires Enabled(s, a) && a.Look?
    ensures FreedHolds(Apply(s, a))
  {
  }

  lemma FreedKeptByRunners(s: State, a: Action)
    requires WellFormed(s) && TurnHolds(s) && FreedHolds(s)
    requires Enabled(s, a) && OfRunner(a)
    ensures FreedHolds(Apply(s, a))
  {
    RunnerHoldersMove(s, a);
  }

  lemma CallsWaitKeptByCalls(s: State, a: Action)
    requires WellFormed(s) && FreedHolds(s) && CallsWaitHolds(s)
    requires Enabled(s, a) && !OfRunner(a)
    ensures CallsWaitHolds(Apply(s, a))
  {
  }

  lemma CallsWaitKeptByRunners(s: State, a: Action)
    requires WellFormed(s) && FreedHolds(s) && CallsWaitHolds(s)
    requires Enabled(s, a) && OfRunner(a)
    ensures CallsWaitHolds(Apply(s, a))
  {
  }

  lemma RunnersWaitKept(s: State, a: Action)
    requires WellFormed(s) && FreedHolds(s) && RunnersWaitHolds(s)
    requires Enabled(s, a)
    ensures RunnersWaitHolds(Apply(s, a))
  {
  }

  lemma CountKeptByCalls(s: State, a: Action)
    requires WellFormed(s) && FlightHolds(s) && FromHolds(s) && CountHolds(s)
    requires Enabled(s, a) && !OfRunner(a) && !a.Look?
    ensures CountHolds(Apply(s, a))
  {
  }

  lemma CountKeptByLook(s: State, a: Action)
    requires WellFormed(s) && FlightHolds(s) && FromHolds(s) && CountHolds(s)
    requires Enabled(s, a) && a.Look?
    ensures CountHolds(Apply(s, a))
  {
  }

  lemma CountKeptByRunners(s: State, a: Action)
    requires WellFormed(s) && FlightHolds(s) && FromHolds(s) && CountHolds(s)
    requires Enabled(s, a) && OfRunner(a)
    ensures CountHolds(Apply(s, a))
  {
  }

  lemma EnteredKeptByCalls(s: State, a: Action)
    requires WellFormed(s) && TurnHolds(s) && EnteredHolds(s)
    requires Enabled(s, a) && !OfRunner(a)
    ensures EnteredHolds(Apply(s, a))
  {
    CallHoldersMove(s, a);
  }

  lemma EnteredKeptByRunners(s: State, a: Action)
    requires WellFormed(s) && TurnHolds(s) && EnteredHolds(s)
    requires Enabled(s, a) && OfRunner(a)
    ensures EnteredHolds(Apply(s, a))
  {
    RunnerHoldersMove(s, a);
  }

  lemma SigningKept(s: State, a: Action)
    requires WellFormed(s) && SigningHolds(s)
    requires Enabled(s, a)
    ensures SigningHolds(Apply(s, a))
  {
  }

  lemma OutcomeKeptByCalls(s: State, a: Action)
    requires WellFormed(s) && FlightHolds(s) && FromHolds(s) && CountHolds(s) && OutcomeHolds(s)
    requires Enabled(s, a) && !OfRunner(a)
    ensures OutcomeHolds(Apply(s, a))
  {
  }

  lemma OutcomeKeptByTaking(s: State, a: Action)
    requires WellFormed(s) && FlightHolds(s) && FromHolds(s) && CountHolds(s) && OutcomeHolds(s)
    requires Enabled(s, a) && a.TakeToRun?
    ensures OutcomeHolds(Apply(s, a))
  {
  }

  lemma OutcomeKeptByEnding(s: State, a: Action)
    requires WellFormed(s) && FlightHolds(s) && FromHolds(s) && CountHolds(s) && OutcomeHolds(s)
    requires Enabled(s, a) && (a.TimeOut? || a.Renewed?)
    ensures OutcomeHolds(Apply(s, a))
  {
  }

  lemma OutcomeKeptByAnnounce(s: State, a: Action)
    requires WellFormed(s) && FlightHolds(s) && FromHolds(s) && CountHolds(s) && OutcomeHolds(s)
    requires Enabled(s, a) && a.Announce?
    ensures OutcomeHolds(Apply(s, a))
  {
  }

  lemma AnswerKept(s: State, a: Action)
    requires WellFormed(s) && FlightHolds(s) && FromHolds(s) && CountHolds(s) && OutcomeHolds(s) && AnswerHolds(s)
    requires Enabled(s, a)
    ensures AnswerHolds(Apply(s, a))
  {
  }

  lemma ApplyKeeps(s: State, a: Action)
    requires Inv(s) && Enabled(s, a)
    ensures Inv(Apply(s, a))
  {
    ApplyKeepsWellFormed(s, a);
    RunnersWaitKept(s, a);
    SigningKept(s, a);
    AnswerKept(s, a);
    if OfRunner(a) {
      TurnKeptByRunners(s, a);
      FreedKeptByRunners(s, a);
      CallsWaitKeptByRunners(s, a);
      CountKeptByRunners(s, a);
      EnteredKeptByRunners(s, a);
      if a.TakeToRun? {
        FromKeptByTaking(s, a);
        OutcomeKeptByTaking(s, a);
        FlightKeptByTaking(s, a);
      } else {
        FromKeptByEnding(s, a);
        FlightKeptByEnding(s, a);
        if a.Announce? {
          OutcomeKeptByAnnounce(s, a);
        } else {
          OutcomeKeptByEnding(s, a);
        }
      }
    } else {
      TurnKeptByCalls(s, a);
      FlightKeptByCalls(s, a);
      CallsWaitKeptByCalls(s, a);
      EnteredKeptByCalls(s, a);
      OutcomeKeptByCalls(s, a);
      if a.Look? {
        FromKeptByLook(s, a);
        FreedKeptByLook(s, a);
        CountKeptByLook(s, a);
      } else {
        FromKeptByCalls(s, a);
        FreedKeptByCalls(s, a);
        CountKeptByCalls(s, a);
      }
    }
  }

  /** Every state a run reaches from the start satisfies the invariant. */
  lemma {:induction false} AfterKeeps(s: State, actions: seq<Action>)
    requires Inv(s) && Possible(s, actions)
    ensures Inv(After(s, actions))
    decreases |actions|
  {
    if |actions| > 0 {
      ApplyKeeps(s, actions[0]);
      AfterKeeps(Apply(s, actions[0]), actions[1..]);
    }
  }
}
