/**
 The memory every client derived from one root shares to coordinate credential refreshes, and
 the stretches of code that run with its mutex held.

 Each stretch is a function on the shared memory; the class below performs it in place. The
 protocol module interleaves the stretches of any number of goroutines.
 */
module RefreshCoordinator {
  import opened Wrappers

  /** The two counts a request is signed under. */
  datatype Generation = Generation(refreshes: nat, runs: nat)

  /** One refresh and the channel its waiters block on; `done` is set once that is closed. */
  datatype Flight = Flight(from: Generation, renewed: bool, done: bool)

  /** The channel a goroutine waiting for the turn blocks on. */
  datatype Wait = OnFreed(channel: nat) | OnDone(flight: nat)

  /** What one look at the counts tells a request that drew a 401. */
  datatype Verdict = Tell(renewed: bool) | Await(flight: nat) | Launch(flight: nat)

  /**
   The fields the mutex guards. `channels` holds every `freed` channel made so far, true once it
   is closed, and `flights` every refresh launched, so that a channel keeps its identity after
   the field that named it has moved on.
   */
  datatype Shared = Shared(
    refreshes: nat,
    runs: nat,
    inFlight: Option<nat>,
    renewed: bool,
    busy: bool,
    freed: Option<nat>,
    credential: string,
    channels: seq<bool>,
    flights: seq<Flight>)
  {
    predicate WellFormed() {
      && (freed.Some? ==> freed.value < |channels|)
      && (inFlight.Some? ==> inFlight.value < |flights|)
    }

    function Current(): Generation {
      Generation(refreshes, runs)
    }

    /** The condition of the wait loop in `take`. */
    predicate MustWait(signer: bool) {
      busy || (signer && inFlight.Some?)
    }

    /** Whether a receive on the channel waited on would return. */
    predicate Ended(wait: Wait) {
      match wait
      case OnFreed(c) => c < |channels| && channels[c]
      case OnDone(k) => k < |flights| && flights[k].done
    }
  }

  const Fresh := Shared(0, 0, None, false, false, None, "", [], [])

  /** Gives the turn up and closes the channel its waiters block on. */
  function Given(m: Shared): Shared
    requires m.WellFormed()
  {
    m.(busy := false,
    freed := None,
    channels := if m.freed.Some? then m.channels[m.freed.value := true] else m.channels)
  }

  /** One pass of the wait loop: the turn is taken, or a channel to wait on is named. */
  function Tried(m: Shared, signer: bool): (Shared, Option<Wait>)
    requires m.WellFormed()
  {
    if !m.MustWait(signer) then (m.(busy := true), None)
    else if !m.busy then (m, Some(OnDone(m.inFlight.value)))
    else if m.freed.Some? then (m, Some(OnFreed(m.freed.value)))
    else (m.(freed := Some(|m.channels|), channels := m.channels + [false]), Some(OnFreed(|m.channels|)))
  }

  /** Whether a signing found a credential the provider renewed on its own account. */
  predicate FindsRenewal(m: Shared, credential: string, failed: bool) {
    !failed && credential != "" && credential != m.credential && m.credential != ""
  }

  /** The counts and the credential after a signing the strategy came back from. */
  function Counted(m: Shared, credential: string, failed: bool): Shared {
    var remembered := if !failed && credential != "" then m.(credential := credential) else m;
    if FindsRenewal(m, credential, failed)
    then remembered.(refreshes := m.refreshes + 1, runs := m.runs + 1)
    else remembered
  }

  /** One look at the counts on behalf of a 401 signed under `signedUnder`. */
  function Looked(m: Shared, signedUnder: Generation): (Shared, Verdict)
    requires m.WellFormed()
  {
    if m.refreshes != signedUnder.refreshes then (m, Tell(true))
    else if m.inFlight.Some? then (m, Await(m.inFlight.value))
    else if m.runs != signedUnder.runs then (m, Tell(m.renewed))
    else
      (m.(inFlight := Some(|m.flights|), flights := m.flights + [Flight(signedUnder, false, false)]),
       Launch(|m.flights|))
  }

  /** A refresh whose wait for the turn outlasted its bound. */
  function GivenUp(m: Shared): Shared {
    m.(inFlight := None)
  }

  /** Whether a refresh that has the turn finds its generation still the current one. */
  predicate StillStale(m: Shared, flight: nat)
    requires flight < |m.flights|
  {
    m.refreshes == m.flights[flight].from.refreshes
  }

  /** A refresh that has the turn and finds its credentials already renewed. */
  function Forestalled(m: Shared): Shared
    requires m.WellFormed()
  {
    Given(m.(inFlight := None))
  }

  /** The counts after a renewal came back. */
  function Finished(m: Shared, renewed: bool): Shared
    requires m.WellFormed()
  {
    var counted := if renewed then m.(refreshes := m.refreshes + 1, credential := "") else m;
    Given(counted.(runs := m.runs + 1, renewed := renewed, inFlight := None))
  }

  /** The answer is written to the refresh and its waiters are released, outside the mutex. */
  function Announced(m: Shared, flight: nat, renewed: bool): Shared
    requires flight < |m.flights|
  {
    m.(flights := m.flights[flight := m.flights[flight].(renewed := renewed, done := true)])
  }

  /** The coordinator itself: every method is one stretch with the mutex held. */
  class Coordinator {
    var refreshes: nat
    var runs: nat
    var inFlight: Option<nat>
    var renewed: bool
    var busy: bool
    var freed: Option<nat>
    var credential: string
    var channels: seq<bool>
    var flights: seq<Flight>

    function State(): Shared
      reads this
    {
      Shared(refreshes, runs, inFlight, renewed, busy, freed, credential, channels, flights)
    }

    predicate Valid()
      reads this
    {
      State().WellFormed()
    }

    constructor ()
      ensures Valid() && State() == Fresh
    {
      refreshes, runs, inFlight, renewed := 0, 0, None, false;
      busy, freed, credential, channels, flights := false, None, "", [], [];
    }

    method ReadGeneration() returns (now: Generation)
      ensures now == State().Current()
    {
      now := Generation(refreshes, runs);
    }

    /** One pass of the loop in `take`; None when the turn was taken. */
    method TryTake(signer: bool) returns (wait: Option<Wait>)
      requires Valid()
      modifies this
      ensures Valid() && (State(), wait) == Tried(old(State()), signer)
      ensures wait.None? <==> !old(busy) && !(signer && old(inFlight).Some?)
      ensures wait.None? ==> busy && freed == old(freed) && channels == old(channels)
      ensures wait.Some? && !busy ==> inFlight.Some?
      ensures wait.Some? ==>
                && busy == old(busy)
                && wait.value == (if busy && freed.Some? then OnFreed(freed.value) else OnDone(inFlight.value))
                && (busy ==> freed.Some? && freed.value < |channels| && old(channels) <= channels)
                && (busy && old(freed).None? ==> freed.value == |old(channels)| && channels == old(channels) + [false])
                && (!busy || old(freed).Some? ==> freed == old(freed) && channels == old(channels))
      ensures State().(busy := false, freed := None, channels := []) ==
              old(State()).(busy := false, freed := None, channels := [])
    {
      if busy || (signer && inFlight.Some?) {
        if busy {
          if freed.None? {
            freed := Some(|channels|);
            channels := channels + [false];
          }
          wait := Some(OnFreed(freed.value));
        } else {
          wait := Some(OnDone(inFlight.value));
        }
        return;
      }
      busy := true;
      wait := None;
    }

    method Give()
      requires Valid()
      modifies this
      ensures Valid() && State() == Given(old(State()))
      ensures !busy && freed == None && |channels| == |old(channels)|
      ensures forall c :: 0 <= c < |channels| ==> channels[c] == (old(channels)[c] || old(freed) == Some(c))
      ensures unchanged(`refreshes, `runs, `inFlight, `renewed, `credential, `flights)
    {
      busy := false;
      if freed.Some? {
        channels := channels[freed.value := true];
        freed := None;
      }
    }

    /** The second locked stretch of `sign`, once the strategy has come back. */
    method FinishSigning(named: string, failed: bool) returns (signedUnder: Generation)
      requires Valid()
      modifies this
      ensures Valid() && State() == Given(Counted(old(State()), named, failed))
      ensures signedUnder == Generation(refreshes, runs)
      ensures
        var other := !failed && named != "" && old(credential) != "" && named != old(credential);
        refreshes == old(refreshes) + (if other then 1 else 0) && runs == old(runs) + (if other then 1 else 0)
      ensures credential == if !failed && named != "" then named else old(credential)
      ensures !busy && freed == None && unchanged(`inFlight, `renewed, `flights)
    {
      if !failed && named != "" && named != credential {
        if credential != "" {
          refreshes := refreshes + 1;
          runs := runs + 1;
        }
        credential := named;
      }
      signedUnder := Generation(refreshes, runs);
      Give();
    }

    /** The locked stretch of `answer`. */
    method Look(signedUnder: Generation) returns (verdict: Verdict)
      requires Valid()
      modifies this
      ensures Valid() && (State(), verdict) == Looked(old(State()), signedUnder)
      ensures old(refreshes) != signedUnder.refreshes ==> verdict == Tell(true)
      ensures old(refreshes) == signedUnder.refreshes && old(inFlight).Some? ==> verdict == Await(old(inFlight).value)
      ensures old(refreshes) == signedUnder.refreshes && old(inFlight).None? && old(runs) != signedUnder.runs ==>
                verdict == Tell(old(renewed))
      ensures if old(refreshes) == signedUnder.refreshes && old(inFlight).None? && old(runs) == signedUnder.runs then
                && verdict == Launch(|old(flights)|) && inFlight == Some(|old(flights)|)
                && flights == old(flights) + [Flight(signedUnder, false, false)]
              else inFlight == old(inFlight) && flights == old(flights)
      ensures unchanged(`refreshes, `runs, `renewed, `busy, `freed, `credential, `channels)
    {
      if refreshes != signedUnder.refreshes {
        return Tell(true);
      }
      if inFlight.None? {
        if runs != signedUnder.runs {
          return Tell(renewed);
        }
        inFlight := Some(|flights|);
        flights := flights + [Flight(signedUnder, false, false)];
        return Launch(inFlight.value);
      }
      return Await(inFlight.value);
    }

    method GiveUp()
      requires Valid()
      modifies this`inFlight
      ensures Valid() && State() == GivenUp(old(State()))
      ensures inFlight == None
    {
      inFlight := None;
    }

    /** What a refresh does on getting the turn; true when the renewal must run. */
    method BeginRun(flight: nat) returns (renew: bool)
      requires Valid() && flight < |flights|
      modifies this
      ensures Valid() && renew == StillStale(old(State()), flight)
      ensures State() == if renew then old(State()) else Forestalled(old(State()))
      ensures renew <==> refreshes == flights[flight].from.refreshes
      ensures renew ==> unchanged(this)
      ensures !renew ==> inFlight == None && !busy && freed == None
      ensures unchanged(`refreshes, `runs, `renewed, `credential, `flights)
    {
      renew := refreshes == flights[flight].from.refreshes;
      if !renew {
        inFlight := None;
        Give();
      }
    }

    method FinishRun(succeeded: bool)
      requires Valid()
      modifies this
      ensures Valid() && State() == Finished(old(State()), succeeded)
      ensures refreshes == old(refreshes) + (if succeeded then 1 else 0) && runs == old(runs) + 1
      ensures credential == (if succeeded then "" else old(credential)) && renewed == succeeded
      ensures inFlight == None && !busy && freed == None && flights == old(flights)
    {
      if succeeded {
        refreshes := refreshes + 1;
        credential := "";
      }
      runs := runs + 1;
      renewed := succeeded;
      inFlight := None;
      Give();
    }

    method Announce(flight: nat, succeeded: bool)
      requires Valid() && flight < |flights|
      modifies this`flights
      ensures Valid() && State() == Announced(old(State()), flight, succeeded)
      ensures flights == old(flights)[flight := Flight(old(flights)[flight].from, succeeded, true)]
    {
      flights := flights[flight := flights[flight].(renewed := succeeded)];
      flights := flights[flight := flights[flight].(done := true)];
    }
  }
}
