/** What the bulkhead permits promise over every run. */
module PermitsTheorems {
  import opened Wrappers
  import opened Permits
  import opened PermitsInvariant

  /** Whether `actions` is a run from an initial state to `s`. */
  predicate RunsTo(max: nat, start: State, actions: seq<Action>, s: State) {
    Initial(start) && Possible(max, start, actions) && After(max, start, actions) == s
  }

  ghost predicate Reachable(max: nat, s: State) {
    exists start, actions :: RunsTo(max, start, actions, s)
  }

  lemma ReachableInv(max: nat, s: State)
    requires Reachable(max, s)
    ensures Inv(max, s)
  {
    var start, actions :| RunsTo(max, start, actions, s);
    AfterKeeps(max, start, actions);
  }

  // ---- slots ----

  /** The slots in use are the releases pending, active and in some goroutine's hands, never too many. */
  lemma SlotsAreConserved(max: nat, s: State, b: nat)
    requires Reachable(max, s) && b < |s.slots|
    ensures s.slots[b] == |ParkedOf(s.pending, b)| + |ParkedOf(s.active, b)| + |HandsOf(s.operations, b)|
    ensures s.slots[b] <= max
  {
    ReachableInv(max, s);
    assert Balanced(max, s, b);
  }

  predicate Done(o: Operation) {
    o.stage.Ended? || o.stage.Refused?
  }

  /** Once every operation has ended or been refused, every slot is free and both maps are empty. */
  lemma EverythingComesBack(max: nat, s: State)
    requires Reachable(max, s)
    requires forall t :: 0 <= t < |s.operations| ==> Done(s.operations[t])
    ensures s.pending == map[] && s.active == map[]
    ensures forall b :: 0 <= b < |s.slots| ==> s.slots[b] == 0
    ensures forall k :: 0 <= k < |s.runs| ==> s.runs[k] == 1
  {
    ReachableInv(max, s);
    assert forall t :: 0 <= t < |s.operations| ==> !AwaitsPending(s.operations[t]) && !s.operations[t].stage.Running?;
    assert s.pending.Keys == s.active.Keys == {};
    forall b | 0 <= b < |s.slots| ensures s.slots[b] == 0 {
      assert Balanced(max, s, b);
      assert ParkedOf(s.pending, b) == ParkedOf(s.active, b) == HandsOf(s.operations, b) == {};
    }
    forall k | 0 <= k < |s.runs| ensures s.runs[k] == 1 {
      assert IsPlaced(s, k, s.places[k]);
    }
  }

  // ---- releases ----

  /** A release is in one place at a time; it has run once when that place is none, and never before. */
  lemma ReleasedOnce(max: nat, s: State, k: nat, place: Place)
    requires Reachable(max, s) && k < |s.places|
    ensures k < |s.runs| && s.runs[k] <= 1
    ensures !place.Run? ==> (IsPlaced(s, k, place) <==> s.places[k] == place)
    ensures s.runs[k] == 1 <==> forall p: Place :: IsPlaced(s, k, p) ==> p.Run?
  {
    ReachableInv(max, s);
    assert IsPlaced(s, k, s.places[k]);
    forall p: Place | IsPlaced(s, k, p) && !p.Run? ensures s.places[k] == p {
    }
  }

  /** An operation that comes for its release finds it, and its own. */
  lemma NoReleaseIsLost(max: nat, s: State, t: nat)
    requires Reachable(max, s) && t < |s.operations|
    ensures AwaitsPending(s.operations[t]) ==>
              var id := s.operations[t].context.pending;
              id.Some? && id.value in s.pending && id.value in s.owners && s.owners[id.value] == t
    ensures s.operations[t].stage.Running? ==>
              var id := s.operations[t].context.active;
              id.Some? && id.value in s.active && id.value in s.owners && s.owners[id.value] == t
  {
    ReachableInv(max, s);
  }

  /** The operation an action is of; an arrival is of none yet. */
  predicate Of(a: Action, t: nat) {
    !a.Arrive? && a.operation == t
  }

  /** How many more steps an operation can take. */
  function Remaining(stage: Stage): nat {
    match stage
    case Arriving => 9
    case Missed => 8
    case Got(_) => 7
    case Holding(_) => 6
    case Numbered(_, _) => 5
    case Gated => 4
    case Limited => 3
    case Starting(_, _) => 3
    case Dropping(_) => 2
    case Running => 2
    case Closing(_) => 1
    case Ended => 0
    case Refused => 0
  }

  /** The next thing an operation can do. */
  function Next(max: nat, s: State, t: nat): Action
    requires t < |s.operations|
  {
    match s.operations[t].stage
    case Arriving => LookUp(t)
    case Missed => Create(t)
    case Got(b) => if b < |s.slots| && s.slots[b] < max then Acquire(t) else GiveUp(t)
    case Holding(_) => Number(t)
    case Numbered(_, _) => Park(t)
    case Gated => Start(t)
    case Limited => Drop(t)
    case Starting(_, _) => Activate(t)
    case Dropping(_) => Free(t)
    case Running => End(t)
    case Closing(_) => Free(t)
    case Ended => End(t)
    case Refused => End(t)
  }

  /** No operation gets stuck, and a release always has a slot to give back. */
  lemma NoOperationIsStuck(max: nat, s: State, t: nat)
    requires Reachable(max, s) && t < |s.operations| && !Done(s.operations[t])
    ensures Of(Next(max, s, t), t) && Enabled(max, s, Next(max, s, t))
  {
    ReachableInv(max, s);
    var stage := s.operations[t].stage;
    if stage.Dropping? || stage.Closing? {
      assert t in HandsOf(s.operations, stage.release.bulkhead);
      assert Balanced(max, s, stage.release.bulkhead);
    }
  }

  /** An operation takes no more steps than it has left, whatever the others do meanwhile. */
  lemma {:induction false} OperationsFinish(max: nat, s: State, actions: seq<Action>, t: nat)
    requires Possible(max, s, actions) && t < |s.operations|
    ensures
      var later := After(max, s, actions);
      && t < |later.operations|
      && OwnSteps(actions, t) + Remaining(later.operations[t].stage) <= Remaining(s.operations[t].stage)
    decreases |actions|
  {
    if |actions| > 0 {
      if Of(actions[0], t) {
        if Leaves(actions[0]) || Counts(actions[0]) {
          StepRunsDown(max, s, actions[0]);
        } else if Parks(actions[0]) {
          ParkingRunsDown(max, s, actions[0]);
        } else {
          FetchingRunsDown(max, s, actions[0]);
        }
      } else {
        OthersStay(max, s, actions[0], t);
      }
      OperationsFinish(max, Apply(max, s, actions[0]), actions[1..], t);
    }
  }

  function OwnSteps(actions: seq<Action>, t: nat): nat {
    if |actions| == 0 then 0 else (if Of(actions[0], t) then 1 else 0) + OwnSteps(actions[1..], t)
  }

  lemma StepRunsDown(max: nat, s: State, a: Action)
    requires Enabled(max, s, a) && (Leaves(a) || Counts(a)) && !a.Arrive?
    ensures |Apply(max, s, a).operations| == |s.operations|
    ensures Remaining(Apply(max, s, a).operations[a.operation].stage) < Remaining(s.operations[a.operation].stage)
  {
  }

  lemma ParkingRunsDown(max: nat, s: State, a: Action)
    requires Enabled(max, s, a) && Parks(a)
    ensures |Apply(max, s, a).operations| == |s.operations|
    ensures Remaining(Apply(max, s, a).operations[a.operation].stage) < Remaining(s.operations[a.operation].stage)
  {
  }

  lemma FetchingRunsDown(max: nat, s: State, a: Action)
    requires Enabled(max, s, a) && (a.Drop? || a.Start? || a.End?)
    ensures |Apply(max, s, a).operations| == |s.operations|
    ensures Remaining(Apply(max, s, a).operations[a.operation].stage) < Remaining(s.operations[a.operation].stage)
  {
  }

  lemma OthersStay(max: nat, s: State, a: Action, t: nat)
    requires Enabled(max, s, a) && t < |s.operations| && !Of(a, t)
    ensures t < |Apply(max, s, a).operations| && Apply(max, s, a).operations[t] == s.operations[t]
  {
  }

  // ---- what an operation comes by ----

  /** A bulkhead gives out a slot exactly while fewer than it has are out. */
  lemma TakenExactly(max: nat, s: State, t: nat, b: nat)
    requires Reachable(max, s) && t < |s.operations| && s.operations[t].stage == Got(b)
    ensures b < |s.slots|
    ensures Enabled(max, s, Acquire(t)) <==>
            |ParkedOf(s.pending, b)| + |ParkedOf(s.active, b)| + |HandsOf(s.operations, b)| < max
  {
    ReachableInv(max, s);
    assert Balanced(max, s, b);
  }

  lemma TwoSteps(max: nat, s: State, first: Action, second: Action)
    requires Enabled(max, s, first) && Enabled(max, Apply(max, s, first), second)
    ensures Possible(max, s, [first, second])
    ensures After(max, s, [first, second]) == Apply(max, Apply(max, s, first), second)
  {
    assert [first, second][1..] == [second] && [second][1..] == [];
    assert Possible(max, Apply(max, s, first), [second]);
    assert After(max, Apply(max, s, first), [second]) == Apply(max, Apply(max, s, first), second);
  }

  lemma ThreeSteps(max: nat, s: State, first: Action, second: Action, third: Action)
    requires Enabled(max, s, first) && Enabled(max, Apply(max, s, first), second)
    requires Enabled(max, Apply(max, Apply(max, s, first), second), third)
    ensures Possible(max, s, [first, second, third])
    ensures After(max, s, [first, second, third]) == Apply(max, Apply(max, Apply(max, s, first), second), third)
  {
    assert [first, second, third][1..] == [second, third];
    TwoSteps(max, Apply(max, s, first), second, third);
  }

  /** An arriving operation is handed its scope's bulkhead: the one there is, or a new one of no slots in use. */
  lemma BulkheadIsFound(max: nat, s: State, t: nat)
    requires t < |s.operations| && s.operations[t].stage.Arriving?
    ensures
      var scope := s.operations[t].scope;
      if scope in s.registry then
        && Enabled(max, s, LookUp(t))
        && Apply(max, s, LookUp(t)) == s.(operations := To(s, t, Got(s.registry[scope])))
      else
        && Possible(max, s, [LookUp(t), Create(t)])
        && var later := After(max, s, [LookUp(t), Create(t)]);
        && later.operations == To(s, t, Got(|s.slots|))
        && later.registry == s.registry[scope := |s.slots|] && later.slots == s.slots + [0]
  {
    if s.operations[t].scope !in s.registry {
      TwoSteps(max, s, LookUp(t), Create(t));
    }
  }

  /** An operation that gets a slot takes one, and parks its release under the number it then carries. */
  lemma SlotIsTaken(max: nat, s: State, t: nat, b: nat)
    requires t < |s.operations| && s.operations[t].stage == Got(b) && b < |s.slots| && s.slots[b] < max
    ensures Possible(max, s, [Acquire(t), Number(t), Park(t)])
    ensures
      var later, release := After(max, s, [Acquire(t), Number(t), Park(t)]), Release(b, |s.places|);
      && later.slots == s.slots[b := s.slots[b] + 1]
      && later.pending == s.pending[s.counter + 1 := release] && later.active == s.active
      && later.operations == s.operations[t :=
           Operation(s.operations[t].scope, s.operations[t].context.(pending := Some(s.counter + 1)), Gated)]
  {
    ThreeSteps(max, s, Acquire(t), Number(t), Park(t));
  }

  /** An admitted operation starts: its release moves over under the same number, and its slot stays taken. */
  lemma OperationStarts(max: nat, s: State, t: nat)
    requires Reachable(max, s) && t < |s.operations| && s.operations[t].stage.Gated?
    ensures Possible(max, s, [Start(t), Activate(t)])
    ensures
      var later, id := After(max, s, [Start(t), Activate(t)]), s.operations[t].context.pending;
      && id.Some? && id.value in s.pending
      && later.pending == s.pending - {id.value} && later.active == s.active[id.value := s.pending[id.value]]
      && later.slots == s.slots
      && later.operations == s.operations[t :=
           Operation(s.operations[t].scope, s.operations[t].context.(active := id), Running)]
  {
    NoReleaseIsLost(max, s, t);
    TwoSteps(max, s, Start(t), Activate(t));
  }

  /** A running operation ends: its release is gone from the map, and its bulkhead has one slot more to give. */
  lemma OperationEnds(max: nat, s: State, t: nat)
    requires Reachable(max, s) && t < |s.operations| && s.operations[t].stage.Running?
    ensures Possible(max, s, [End(t), Free(t)])
    ensures
      var later, id := After(max, s, [End(t), Free(t)]), s.operations[t].context.active;
      && id.Some? && id.value in s.active && s.active[id.value].bulkhead < |s.slots|
      && var b := s.active[id.value].bulkhead;
      && later.active == s.active - {id.value} && later.pending == s.pending
      && |later.slots| == |s.slots| && later.slots == s.slots[b := later.slots[b]]
      && later.slots[b] + 1 == s.slots[b]
      && later.operations == s.operations[t := s.operations[t].(stage := Ended)]
  {
    NoReleaseIsLost(max, s, t);
    ReachableInv(max, s);
    var id := s.operations[t].context.active.value;
    assert id in ParkedOf(s.active, s.active[id].bulkhead);
    assert Balanced(max, s, s.active[id].bulkhead);
    TwoSteps(max, s, End(t), Free(t));
  }

  /** An operation the rate limiter refuses gives back the slot it took and leaves nothing parked. */
  lemma RefusedGivesBack(max: nat, s: State, t: nat)
    requires Reachable(max, s) && t < |s.operations| && s.operations[t].stage.Gated?
    ensures Possible(max, s, [Limit(t), Drop(t), Free(t)])
    ensures
      var later, id := After(max, s, [Limit(t), Drop(t), Free(t)]), s.operations[t].context.pending;
      && id.Some? && id.value in s.pending && s.pending[id.value].bulkhead < |s.slots|
      && var b := s.pending[id.value].bulkhead;
      && later.pending == s.pending - {id.value} && later.active == s.active
      && |later.slots| == |s.slots| && later.slots == s.slots[b := later.slots[b]]
      && later.slots[b] + 1 == s.slots[b]
      && later.operations == s.operations[t := s.operations[t].(stage := Refused)]
  {
    NoReleaseIsLost(max, s, t);
    ReachableInv(max, s);
    var id := s.operations[t].context.pending.value;
    assert id in ParkedOf(s.pending, s.pending[id].bulkhead);
    assert Balanced(max, s, s.pending[id].bulkhead);
    ThreeSteps(max, s, Limit(t), Drop(t), Free(t));
  }

  /** An operation begun inside a running one starts from its context; any other from an empty one. */
  lemma ContextIsInherited(max: nat, s: State, scope: string, parent: Option<nat>)
    requires parent.Some? ==> parent.value < |s.operations| && s.operations[parent.value].stage.Running?
    ensures Enabled(max, s, Arrive(scope, parent))
    ensures
      var context := if parent.Some? then s.operations[parent.value].context else Context(None, None);
      Apply(max, s, Arrive(scope, parent)) == s.(operations := s.operations + [Operation(scope, context, Arriving)])
  {
  }

  // ---- bulkheads ----

  /** A scope keeps the bulkhead the registry first gave it. */
  lemma {:induction false} RegistryOnlyGrows(max: nat, s: State, actions: seq<Action>, scope: string)
    requires Possible(max, s, actions) && scope in s.registry
    ensures
      var later := After(max, s, actions);
      scope in later.registry && later.registry[scope] == s.registry[scope]
    decreases |actions|
  {
    if |actions| > 0 {
      RegistryOnlyGrows(max, Apply(max, s, actions[0]), actions[1..], scope);
    }
  }

  /** Two operations, however far apart, are handed one bulkhead exactly when they are of one scope. */
  lemma OneBulkheadPerScope(max: nat, s: State, actions: seq<Action>, t: nat, u: nat)
    requires Reachable(max, s) && Possible(max, s, actions)
    requires t < |s.operations| && s.operations[t].stage.Got?
    requires u < |After(max, s, actions).operations| && After(max, s, actions).operations[u].stage.Got?
    ensures
      var first, second := s.operations[t], After(max, s, actions).operations[u];
      first.scope == second.scope <==> first.stage.bulkhead == second.stage.bulkhead
  {
    ReachableInv(max, s);
    AfterKeeps(max, s, actions);
    RegistryOnlyGrows(max, s, actions, s.operations[t].scope);
  }
}
