/** Every step of the permit protocol keeps its invariant. */
module PermitsInvariant {
  import opened Wrappers
  import opened Permits

  /** The actions that leave every release where it is. */
  predicate Leaves(a: Action) {
    a.Arrive? || a.CircuitOpen? || a.LookUp? || a.Create? || a.GiveUp? || a.Number? || a.Limit?
  }

  /** The actions that take a slot or give one back. */
  predicate Counts(a: Action) {
    a.Acquire? || a.Free?
  }

  /** The actions that put a release into a map. */
  predicate Parks(a: Action) {
    a.Park? || a.Activate?
  }

  // ---- where releases are ----

  lemma RegistryKept(max: nat, s: State, a: Action)
    requires RegistryInv(s.registry, |s.slots|)
    requires Enabled(max, s, a)
    ensures RegistryInv(Apply(max, s, a).registry, |Apply(max, s, a).slots|)
  {
  }

  lemma GotKeptByArriving(max: nat, s: State, a: Action)
    requires RegistryInv(s.registry, |s.slots|) && GotInv(s.registry, s.operations)
    requires Enabled(max, s, a) && (a.Arrive? || a.CircuitOpen? || a.LookUp? || a.Create?)
    ensures GotInv(Apply(max, s, a).registry, Apply(max, s, a).operations)
  {
  }

  lemma GotKept(max: nat, s: State, a: Action)
    requires GotInv(s.registry, s.operations)
    requires Enabled(max, s, a) && (a.GiveUp? || a.Number? || a.Limit? || Counts(a))
    ensures GotInv(Apply(max, s, a).registry, Apply(max, s, a).operations)
  {
  }

  lemma GotKeptByParking(max: nat, s: State, a: Action)
    requires GotInv(s.registry, s.operations)
    requires Enabled(max, s, a) && Parks(a)
    ensures GotInv(Apply(max, s, a).registry, Apply(max, s, a).operations)
  {
  }

  lemma GotKeptByFetching(max: nat, s: State, a: Action)
    requires GotInv(s.registry, s.operations)
    requires Enabled(max, s, a) && (a.Drop? || a.Start? || a.End?)
    ensures GotInv(Apply(max, s, a).registry, Apply(max, s, a).operations)
  {
  }

  lemma HandsKept(max: nat, s: State, a: Action)
    requires HandsInv(s)
    requires Enabled(max, s, a) && (Leaves(a) || Counts(a) || Parks(a))
    ensures HandsInv(Apply(max, s, a))
  {
  }

  lemma HandsKeptByDrop(max: nat, s: State, a: Action)
    requires HandsInv(s) && MapsInv(s)
    requires Enabled(max, s, a) && a.Drop?
    ensures HandsInv(Apply(max, s, a))
  {
  }

  lemma HandsKeptByStart(max: nat, s: State, a: Action)
    requires HandsInv(s) && MapsInv(s)
    requires Enabled(max, s, a) && a.Start?
    ensures HandsInv(Apply(max, s, a))
  {
  }

  lemma HandsKeptByEnd(max: nat, s: State, a: Action)
    requires HandsInv(s) && MapsInv(s)
    requires Enabled(max, s, a) && a.End?
    ensures HandsInv(Apply(max, s, a))
  {
  }

  lemma MapsKept(max: nat, s: State, a: Action)
    requires HandsInv(s) && MapsInv(s)
    requires Enabled(max, s, a) && (Leaves(a) || Counts(a))
    ensures MapsInv(Apply(max, s, a))
  {
  }

  lemma MapsKeptByParking(max: nat, s: State, a: Action)
    requires HandsInv(s) && MapsInv(s)
    requires Enabled(max, s, a) && Parks(a)
    ensures MapsInv(Apply(max, s, a))
  {
  }

  lemma MapsKeptByDrop(max: nat, s: State, a: Action)
    requires MapsInv(s)
    requires Enabled(max, s, a) && a.Drop?
    ensures MapsInv(Apply(max, s, a))
  {
  }

  lemma MapsKeptByStart(max: nat, s: State, a: Action)
    requires MapsInv(s)
    requires Enabled(max, s, a) && a.Start?
    ensures MapsInv(Apply(max, s, a))
  {
  }

  lemma MapsKeptByEnd(max: nat, s: State, a: Action)
    requires MapsInv(s)
    requires Enabled(max, s, a) && a.End?
    ensures MapsInv(Apply(max, s, a))
  {
  }

  lemma ParkedKeptByArriving(max: nat, s: State, a: Action)
    requires ParkedInv(s) && NumbersInv(s)
    requires Enabled(max, s, a) && (a.Arrive? || a.CircuitOpen? || a.LookUp? || a.Create?)
    ensures ParkedInv(Apply(max, s, a))
  {
  }

  lemma ParkedKept(max: nat, s: State, a: Action)
    requires ParkedInv(s) && NumbersInv(s)
    requires Enabled(max, s, a) && (a.GiveUp? || a.Number? || a.Limit?)
    ensures ParkedInv(Apply(max, s, a))
  {
  }

  lemma ParkedKeptByCounting(max: nat, s: State, a: Action)
    requires ParkedInv(s) && NumbersInv(s)
    requires Enabled(max, s, a) && Counts(a)
    ensures ParkedInv(Apply(max, s, a))
  {
  }

  lemma ParkedKeptByParking(max: nat, s: State, a: Action)
    requires ParkedInv(s) && NumbersInv(s)
    requires Enabled(max, s, a) && Parks(a)
    ensures ParkedInv(Apply(max, s, a))
  {
  }

  lemma ParkedKeptByDrop(max: nat, s: State, a: Action)
    requires ParkedInv(s) && OperationsInv(s) && NumbersInv(s)
    requires Enabled(max, s, a) && a.Drop?
    ensures ParkedInv(Apply(max, s, a))
  {
  }

  lemma ParkedKeptByStart(max: nat, s: State, a: Action)
    requires ParkedInv(s) && OperationsInv(s) && NumbersInv(s)
    requires Enabled(max, s, a) && a.Start?
    ensures ParkedInv(Apply(max, s, a))
  {
  }

  lemma ParkedKeptByEnd(max: nat, s: State, a: Action)
    requires ParkedInv(s) && OperationsInv(s) && NumbersInv(s)
    requires Enabled(max, s, a) && a.End?
    ensures ParkedInv(Apply(max, s, a))
  {
  }

  lemma OperationsKept(max: nat, s: State, a: Action)
    requires OperationsInv(s)
    requires Enabled(max, s, a) && (Leaves(a) || Counts(a))
    ensures OperationsInv(Apply(max, s, a))
  {
  }

  lemma OperationsKeptByParking(max: nat, s: State, a: Action)
    requires OperationsInv(s) && NumbersInv(s)
    requires Enabled(max, s, a) && Parks(a)
    ensures OperationsInv(Apply(max, s, a))
  {
  }

  lemma OperationsKeptByFetching(max: nat, s: State, a: Action)
    requires OperationsInv(s) && NumbersInv(s)
    requires Enabled(max, s, a) && (a.Drop? || a.Start? || a.End?)
    ensures OperationsInv(Apply(max, s, a))
  {
  }

  lemma NumbersKept(max: nat, s: State, a: Action)
    requires NumbersInv(s) && OperationsInv(s)
    requires Enabled(max, s, a) && (Leaves(a) || Counts(a))
    ensures NumbersInv(Apply(max, s, a))
  {
  }

  lemma NumbersKeptByMoving(max: nat, s: State, a: Action)
    requires NumbersInv(s) && OperationsInv(s)
    requires Enabled(max, s, a) && !(Leaves(a) || Counts(a))
    ensures NumbersInv(Apply(max, s, a))
  {
  }

  lemma PlacesKept(max: nat, s: State, a: Action)
    requires PlacesInv(s)
    requires Enabled(max, s, a) && Leaves(a)
    ensures PlacesInv(Apply(max, s, a))
  {
  }

  lemma PlacesKeptByCounting(max: nat, s: State, a: Action)
    requires HandsInv(s) && PlacesInv(s)
    requires Enabled(max, s, a) && Counts(a)
    ensures PlacesInv(Apply(max, s, a))
  {
  }

  lemma PlacesKeptByPark(max: nat, s: State, a: Action)
    requires HandsInv(s) && ParkedInv(s) && NumbersInv(s) && PlacesInv(s)
    requires Enabled(max, s, a) && a.Park?
    ensures PlacesInv(Apply(max, s, a))
  {
  }

  lemma PlacesKeptByActivate(max: nat, s: State, a: Action)
    requires HandsInv(s) && ParkedInv(s) && NumbersInv(s) && PlacesInv(s)
    requires Enabled(max, s, a) && a.Activate?
    ensures PlacesInv(Apply(max, s, a))
  {
  }

  lemma PlacesKeptByDrop(max: nat, s: State, a: Action)
    requires MapsInv(s) && OperationsInv(s) && PlacesInv(s)
    requires Enabled(max, s, a) && a.Drop?
    ensures PlacesInv(Apply(max, s, a))
  {
  }

  lemma PlacesKeptByStart(max: nat, s: State, a: Action)
    requires MapsInv(s) && OperationsInv(s) && PlacesInv(s)
    requires Enabled(max, s, a) && a.Start?
    ensures PlacesInv(Apply(max, s, a))
  {
  }

  lemma PlacesKeptByEnd(max: nat, s: State, a: Action)
    requires MapsInv(s) && OperationsInv(s) && PlacesInv(s)
    requires Enabled(max, s, a) && a.End?
    ensures PlacesInv(Apply(max, s, a))
  {
  }

  // ---- the slots in use ----

  function One(b: bool): nat {
    if b then 1 else 0
  }

  lemma HandsUpdated(operations: seq<Operation>, t: nat, o: Operation, b: nat)
    requires t < |operations|
    ensures |HandsOf(operations[t := o], b)| + One(Holds(operations[t], b)) == |HandsOf(operations, b)| + One(Holds(o, b))
  {
    var others := HandsOf(operations, b) - {t};
    assert HandsOf(operations, b) == others + if Holds(operations[t], b) then {t} else {};
    assert HandsOf(operations[t := o], b) == others + if Holds(o, b) then {t} else {};
  }

  lemma ParkedAdded(releases: map<nat, Release>, id: nat, r: Release, b: nat)
    requires id !in releases
    ensures |ParkedOf(releases[id := r], b)| == |ParkedOf(releases, b)| + One(r.bulkhead == b)
  {
    assert ParkedOf(releases[id := r], b) == ParkedOf(releases, b) + if r.bulkhead == b then {id} else {};
  }

  lemma ParkedRemoved(releases: map<nat, Release>, id: nat, b: nat)
    requires id in releases
    ensures |ParkedOf(releases - {id}, b)| + One(releases[id].bulkhead == b) == |ParkedOf(releases, b)|
  {
    assert ParkedOf(releases, b) == ParkedOf(releases - {id}, b) + if releases[id].bulkhead == b then {id} else {};
  }

  /** No release is parked under a number before its operation parks it. */
  lemma NumberIsFree(max: nat, s: State, a: Action)
    requires ParkedInv(s) && NumbersInv(s) && Enabled(max, s, a) && Parks(a)
    ensures a.Park? ==> s.operations[a.operation].stage.id !in s.pending
    ensures a.Activate? ==> s.operations[a.operation].stage.id !in s.active
  {
    assert OwnNumber(s.operations[a.operation]) == Some(s.operations[a.operation].stage.id);
  }

  lemma BalanceKeptByArriving(max: nat, s: State, a: Action, b: nat)
    requires CountInv(max, s) && HandsInv(s) && MapsInv(s)
    requires Enabled(max, s, a) && (a.Arrive? || a.Create?) && b < |Apply(max, s, a).slots|
    ensures Balanced(max, Apply(max, s, a), b)
  {
    var s' := Apply(max, s, a);
    if a.Arrive? {
      assert HandsOf(s'.operations, b) == HandsOf(s.operations, b);
    } else {
      HandsUpdated(s.operations, a.operation, s'.operations[a.operation], b);
    }
    if b == |s.slots| {
      assert ParkedOf(s.pending, b) == ParkedOf(s.active, b) == HandsOf(s.operations, b) == {};
    } else {
      assert Balanced(max, s, b);
    }
  }

  lemma BalanceKeptByCounting(max: nat, s: State, a: Action, b: nat)
    requires CountInv(max, s) && b < |s.slots|
    requires Enabled(max, s, a) && (Leaves(a) || Counts(a)) && !a.Arrive? && !a.Create?
    ensures Balanced(max, Apply(max, s, a), b)
  {
    assert Balanced(max, s, b);
    HandsUpdated(s.operations, a.operation, Apply(max, s, a).operations[a.operation], b);
  }

  lemma BalanceKeptByParking(max: nat, s: State, a: Action, b: nat)
    requires CountInv(max, s) && ParkedInv(s) && NumbersInv(s) && b < |s.slots|
    requires Enabled(max, s, a) && Parks(a)
    ensures Balanced(max, Apply(max, s, a), b)
  {
    assert Balanced(max, s, b);
    NumberIsFree(max, s, a);
    var stage := s.operations[a.operation].stage;
    HandsUpdated(s.operations, a.operation, Apply(max, s, a).operations[a.operation], b);
    ParkedAdded(if a.Park? then s.pending else s.active, stage.id, stage.release, b);
  }

  lemma BalanceKeptByFetching(max: nat, s: State, a: Action, b: nat)
    requires CountInv(max, s) && OperationsInv(s) && b < |s.slots|
    requires Enabled(max, s, a) && (a.Drop? || a.Start? || a.End?)
    ensures Balanced(max, Apply(max, s, a), b)
  {
    assert Balanced(max, s, b);
    var o := s.operations[a.operation];
    HandsUpdated(s.operations, a.operation, Apply(max, s, a).operations[a.operation], b);
    ParkedRemoved(if a.End? then s.active else s.pending, OwnNumber(o).value, b);
  }

  lemma CountKept(max: nat, s: State, a: Action)
    requires Inv(max, s) && Enabled(max, s, a)
    ensures CountInv(max, Apply(max, s, a))
  {
    forall b | 0 <= b < |Apply(max, s, a).slots| ensures Balanced(max, Apply(max, s, a), b) {
      if a.Arrive? || a.Create? {
        BalanceKeptByArriving(max, s, a, b);
      } else if Leaves(a) || Counts(a) {
        BalanceKeptByCounting(max, s, a, b);
      } else if Parks(a) {
        BalanceKeptByParking(max, s, a, b);
      } else {
        BalanceKeptByFetching(max, s, a, b);
      }
    }
  }

  // ---- all of it ----

  lemma LeavingKeeps(max: nat, s: State, a: Action)
    requires Inv(max, s) && Enabled(max, s, a) && (Leaves(a) || Counts(a))
    ensures Inv(max, Apply(max, s, a))
  {
    RegistryKept(max, s, a);
    if a.Arrive? || a.CircuitOpen? || a.LookUp? || a.Create? {
      GotKeptByArriving(max, s, a);
      ParkedKeptByArriving(max, s, a);
    } else {
      GotKept(max, s, a);
      if Leaves(a) {
        ParkedKept(max, s, a);
      } else {
        ParkedKeptByCounting(max, s, a);
      }
    }
    HandsKept(max, s, a);
    MapsKept(max, s, a);
    OperationsKept(max, s, a);
    NumbersKept(max, s, a);
    if Leaves(a) {
      PlacesKept(max, s, a);
    } else {
      PlacesKeptByCounting(max, s, a);
    }
    CountKept(max, s, a);
  }

  lemma MovingKeeps(max: nat, s: State, a: Action)
    requires Inv(max, s) && Enabled(max, s, a) && !(Leaves(a) || Counts(a))
    ensures Inv(max, Apply(max, s, a))
  {
    RegistryKept(max, s, a);
    NumbersKeptByMoving(max, s, a);
    CountKept(max, s, a);
    if Parks(a) {
      GotKeptByParking(max, s, a);
      HandsKept(max, s, a);
      MapsKeptByParking(max, s, a);
      ParkedKeptByParking(max, s, a);
      OperationsKeptByParking(max, s, a);
    } else {
      GotKeptByFetching(max, s, a);
      OperationsKeptByFetching(max, s, a);
    }
    match a
    case Park(_) =>
      PlacesKeptByPark(max, s, a);
    case Activate(_) =>
      PlacesKeptByActivate(max, s, a);
    case Drop(_) =>
      HandsKeptByDrop(max, s, a);
      MapsKeptByDrop(max, s, a);
      ParkedKeptByDrop(max, s, a);
      PlacesKeptByDrop(max, s, a);
    case Start(_) =>
      HandsKeptByStart(max, s, a);
      MapsKeptByStart(max, s, a);
      ParkedKeptByStart(max, s, a);
      PlacesKeptByStart(max, s, a);
    case End(_) =>
      HandsKeptByEnd(max, s, a);
      MapsKeptByEnd(max, s, a);
      ParkedKeptByEnd(max, s, a);
      PlacesKeptByEnd(max, s, a);
  }

  /** Every step keeps the invariant. */
  lemma ApplyKeeps(max: nat, s: State, a: Action)
    requires Inv(max, s) && Enabled(max, s, a)
    ensures Inv(max, Apply(max, s, a))
  {
    if Leaves(a) || Counts(a) {
      LeavingKeeps(max, s, a);
    } else {
      MovingKeeps(max, s, a);
    }
  }

  /** Whether the actions can happen one after another from `s`. */
  predicate Possible(max: nat, s: State, actions: seq<Action>)
    decreases |actions|
  {
    |actions| > 0 ==>
      Enabled(max, s, actions[0]) && Possible(max, Apply(max, s, actions[0]), actions[1..])
  }

  function After(max: nat, s: State, actions: seq<Action>): State
    requires Possible(max, s, actions)
    decreases |actions|
  {
    if |actions| == 0 then s else After(max, Apply(max, s, actions[0]), actions[1..])
  }

  /** So does every run. */
  lemma {:induction false} AfterKeeps(max: nat, s: State, actions: seq<Action>)
    requires Inv(max, s) && Possible(max, s, actions)
    ensures Inv(max, After(max, s, actions))
    decreases |actions|
  {
    if |actions| > 0 {
      ApplyKeeps(max, s, actions[0]);
      AfterKeeps(max, Apply(max, s, actions[0]), actions[1..]);
    }
  }
}
