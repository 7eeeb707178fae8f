/**
 The bulkhead permits of any number of concurrent operations, nested ones included: taken at the
 gate, parked in one map until the operation starts and in another until it ends, and released.

 An action is one operation on shared memory: the registry under its lock, the semaphore, the
 counter, or one of the two maps. Contexts are inherited: an operation begun inside another
 starts from the context that one runs under.
 */
module Permits {
  import opened Wrappers

  /** A release closure: the bulkhead it frees a slot of, and which acquisition made it. */
  datatype Release = Release(bulkhead: nat, serial: nat)

  /** The two values the hooks keep in a context. */
  datatype Context = Context(pending: Option<nat>, active: Option<nat>)

  datatype Stage =
    | Arriving
    | Missed                                // the registry had no bulkhead under the read lock
    | Got(bulkhead: nat)
    | Holding(release: Release)
    | Numbered(id: nat, release: Release)
    | Gated                                 // the release is parked as pending
    | Limited                               // the rate limiter refused
    | Dropping(release: Release)
    | Starting(id: nat, release: Release)
    | Running                               // the release is parked as active
    | Closing(release: Release)
    | Ended
    | Refused

  datatype Operation = Operation(scope: string, context: Context, stage: Stage)

  /** Where the release of one acquisition is; nothing in the protocol reads it. */
  datatype Place = InHand(operation: nat) | InPending(id: nat) | InActive(id: nat) | Run

  datatype State = State(
    registry: map<string, nat>,
    slots: seq<nat>,                // by bulkhead, the semaphore's count
    counter: nat,
    pending: map<nat, Release>,
    active: map<nat, Release>,
    operations: seq<Operation>,
    places: seq<Place>,             // by acquisition
    runs: seq<nat>,                 // by acquisition, how often its release ran
    owners: map<nat, nat>)          // by number handed out, the operation it was handed to

  datatype Action =
    | Arrive(scope: string, parent: Option<nat>)
    | CircuitOpen(operation: nat)
    | LookUp(operation: nat)
    | Create(operation: nat)
    | Acquire(operation: nat)
    | GiveUp(operation: nat)
    | Number(operation: nat)
    | Park(operation: nat)
    | Limit(operation: nat)
    | Drop(operation: nat)
    | Start(operation: nat)
    | Activate(operation: nat)
    | End(operation: nat)
    | Free(operation: nat)          // the release runs

  predicate Initial(s: State) {
    && s.registry == map[] && |s.slots| == 0 && s.counter == 0
    && s.pending == map[] && s.active == map[]
    && |s.operations| == |s.places| == |s.runs| == 0
    && s.owners == map[]
  }

  function Hand(stage: Stage): Option<Release> {
    match stage
    case Holding(r) => Some(r)
    case Numbered(_, r) => Some(r)
    case Dropping(r) => Some(r)
    case Starting(_, r) => Some(r)
    case Closing(r) => Some(r)
    case _ => None
  }

  predicate Enabled(max: nat, s: State, a: Action) {
    match a
    case Arrive(_, parent) =>
      parent.Some? ==> parent.value < |s.operations| && s.operations[parent.value].stage.Running?
    case CircuitOpen(t) => t < |s.operations| && s.operations[t].stage.Arriving?
    case LookUp(t) => t < |s.operations| && s.operations[t].stage.Arriving?
    case Create(t) => t < |s.operations| && s.operations[t].stage.Missed?
    case Acquire(t) =>
      && t < |s.operations| && s.operations[t].stage.Got?
      && s.operations[t].stage.bulkhead < |s.slots| && s.slots[s.operations[t].stage.bulkhead] < max
    case GiveUp(t) => t < |s.operations| && s.operations[t].stage.Got?
    case Number(t) => t < |s.operations| && s.operations[t].stage.Holding?
    case Park(t) => t < |s.operations| && s.operations[t].stage.Numbered?
    case Limit(t) => t < |s.operations| && s.operations[t].stage.Gated?
    case Drop(t) => t < |s.operations| && s.operations[t].stage.Limited?
    case Start(t) => t < |s.operations| && s.operations[t].stage.Gated?
    case Activate(t) => t < |s.operations| && s.operations[t].stage.Starting?
    case End(t) => t < |s.operations| && s.operations[t].stage.Running?
    case Free(t) =>
      && t < |s.operations| && (s.operations[t].stage.Dropping? || s.operations[t].stage.Closing?)
      && var r := s.operations[t].stage.release;
      && r.bulkhead < |s.slots| && s.slots[r.bulkhead] > 0
      && r.serial < |s.places| && r.serial < |s.runs|
  }

  function To(s: State, t: nat, stage: Stage): seq<Operation>
    requires t < |s.operations|
  {
    s.operations[t := s.operations[t].(stage := stage)]
  }

  function Placed(s: State, release: Release, place: Place): seq<Place> {
    if release.serial < |s.places| then s.places[release.serial := place] else s.places
  }

  function Apply(max: nat, s: State, a: Action): State
    requires Enabled(max, s, a)
  {
    match a
    case Arrive(scope, parent) =>
      var context := if parent.Some? then s.operations[parent.value].context else Context(None, None);
      s.(operations := s.operations + [Operation(scope, context, Arriving)])
    case CircuitOpen(t) => s.(operations := To(s, t, Refused))
    case LookUp(t) =>
      var scope := s.operations[t].scope;
      s.(operations := To(s, t, if scope in s.registry then Got(s.registry[scope]) else Missed))
    case Create(t) =>
      var scope := s.operations[t].scope;
      if scope in s.registry then s.(operations := To(s, t, Got(s.registry[scope])))
      else s.(registry := s.registry[scope := |s.slots|], slots := s.slots + [0],
              operations := To(s, t, Got(|s.slots|)))
    case Acquire(t) =>
      var bulkhead := s.operations[t].stage.bulkhead;
      s.(slots := s.slots[bulkhead := s.slots[bulkhead] + 1],
         operations := To(s, t, Holding(Release(bulkhead, |s.places|))),
         places := s.places + [InHand(t)], runs := s.runs + [0])
    case GiveUp(t) => s.(operations := To(s, t, Refused))
    case Number(t) =>
      s.(counter := s.counter + 1,
         operations := To(s, t, Numbered(s.counter + 1, s.operations[t].stage.release)),
         owners := s.owners[s.counter + 1 := t])
    case Park(t) =>
      var Numbered(id, release) := s.operations[t].stage;
      var context := s.operations[t].context.(pending := Some(id));
      s.(pending := s.pending[id := release],
         operations := s.operations[t := s.operations[t].(context := context, stage := Gated)],
         places := Placed(s, release, InPending(id)))
    case Limit(t) => s.(operations := To(s, t, Limited))
    case Drop(t) =>
      var id := s.operations[t].context.pending;
      if id.Some? && id.value in s.pending then
        s.(pending := s.pending - {id.value},
           operations := To(s, t, Dropping(s.pending[id.value])),
           places := Placed(s, s.pending[id.value], InHand(t)))
      else s.(operations := To(s, t, Refused))
    case Start(t) =>
      var id := s.operations[t].context.pending;
      if id.Some? && id.value in s.pending then
        s.(pending := s.pending - {id.value},
           operations := To(s, t, Starting(id.value, s.pending[id.value])),
           places := Placed(s, s.pending[id.value], InHand(t)))
      else s.(operations := To(s, t, Running))
    case Activate(t) =>
      var Starting(id, release) := s.operations[t].stage;
      var context := s.operations[t].context.(active := Some(id));
      s.(active := s.active[id := release],
         operations := s.operations[t := s.operations[t].(context := context, stage := Running)],
         places := Placed(s, release, InActive(id)))
    case End(t) =>
      var id := s.operations[t].context.active;
      if id.Some? && id.value in s.active then
        s.(active := s.active - {id.value},
           operations := To(s, t, Closing(s.active[id.value])),
           places := Placed(s, s.active[id.value], InHand(t)))
      else s.(operations := To(s, t, Ended))
    case Free(t) =>
      var r := s.operations[t].stage.release;
      s.(slots := s.slots[r.bulkhead := s.slots[r.bulkhead] - 1],
         operations := To(s, t, if s.operations[t].stage.Dropping? then Refused else Ended),
         places := Placed(s, r, Run),
         runs := s.runs[r.serial := s.runs[r.serial] + 1])
  }

  // ---- the invariant ----

  /** No two scopes share a bulkhead. */
  predicate RegistryInv(registry: map<string, nat>, bulkheads: nat) {
    && (forall scope :: scope in registry ==> registry[scope] < bulkheads)
    && (forall a, b :: a in registry && b in registry && registry[a] == registry[b] ==> a == b)
  }

  /** Every operation that was handed a bulkhead has the one the registry names for its scope. */
  predicate GotInv(registry: map<string, nat>, operations: seq<Operation>) {
    forall t :: 0 <= t < |operations| && operations[t].stage.Got? ==>
      operations[t].scope in registry && operations[t].stage.bulkhead == registry[operations[t].scope]
  }

  /** Whether a release frees a bulkhead there is, and is where its acquisition says it is. */
  predicate Rightful(s: State, release: Release, place: Place) {
    release.bulkhead < |s.slots| && release.serial < |s.places| && s.places[release.serial] == place
  }

  predicate HandsInv(s: State) {
    forall t :: 0 <= t < |s.operations| && Hand(s.operations[t].stage).Some? ==>
      Rightful(s, Hand(s.operations[t].stage).value, InHand(t))
  }

  predicate MapsInv(s: State) {
    && (forall id :: id in s.pending ==> Rightful(s, s.pending[id], InPending(id)))
    && (forall id :: id in s.active ==> Rightful(s, s.active[id], InActive(id)))
  }

  /** The number of the release an operation holds or will come for. */
  function OwnNumber(o: Operation): Option<nat> {
    match o.stage
    case Numbered(id, _) => Some(id)
    case Starting(id, _) => Some(id)
    case Gated => o.context.pending
    case Limited => o.context.pending
    case Running => o.context.active
    case _ => None
  }

  predicate AwaitsPending(o: Operation) {
    o.stage.Gated? || o.stage.Limited?
  }

  /** A parked release belongs to an operation that is yet to come for it. */
  predicate ParkedInv(s: State) {
    && (forall id :: id in s.pending ==>
          && id in s.owners && s.owners[id] < |s.operations|
          && AwaitsPending(s.operations[s.owners[id]])
          && OwnNumber(s.operations[s.owners[id]]) == Some(id))
    && (forall id :: id in s.active ==>
          && id in s.owners && s.owners[id] < |s.operations|
          && s.operations[s.owners[id]].stage.Running?
          && OwnNumber(s.operations[s.owners[id]]) == Some(id))
  }

  /** An operation finds its own release parked whenever it comes for it. */
  predicate OperationsInv(s: State) {
    && (forall t :: 0 <= t < |s.operations| && AwaitsPending(s.operations[t]) ==>
          OwnNumber(s.operations[t]).Some? && OwnNumber(s.operations[t]).value in s.pending)
    && (forall t :: 0 <= t < |s.operations| && s.operations[t].stage.Running? ==>
          OwnNumber(s.operations[t]).Some? && OwnNumber(s.operations[t]).value in s.active)
  }

  /** A number belongs to the operation it was handed to, and numbers are not handed out twice. */
  predicate NumbersInv(s: State) {
    && (forall id :: id in s.owners ==> 0 < id <= s.counter && s.owners[id] < |s.operations|)
    && (forall t :: 0 <= t < |s.operations| && OwnNumber(s.operations[t]).Some? ==>
          OwnNumber(s.operations[t]).value in s.owners && s.owners[OwnNumber(s.operations[t]).value] == t)
  }

  /** Whether the release of acquisition `k` is where it is said to be. */
  predicate IsPlaced(s: State, k: nat, place: Place) {
    match place
    case InHand(t) =>
      t < |s.operations| && Hand(s.operations[t].stage).Some? && Hand(s.operations[t].stage).value.serial == k
    case InPending(id) => id in s.pending && s.pending[id].serial == k
    case InActive(id) => id in s.active && s.active[id].serial == k
    case Run => true
  }

  /** Each acquisition's release is in one place, and has run once exactly when that place is `Run`. */
  predicate PlacesInv(s: State) {
    && |s.runs| == |s.places|
    && forall k :: 0 <= k < |s.places| ==>
         IsPlaced(s, k, s.places[k]) && s.runs[k] == (if s.places[k].Run? then 1 else 0)
  }

  /** The numbers under which a map holds a release of the bulkhead. */
  function ParkedOf(releases: map<nat, Release>, bulkhead: nat): set<nat> {
    set id | id in releases && releases[id].bulkhead == bulkhead
  }

  predicate Holds(o: Operation, bulkhead: nat) {
    Hand(o.stage).Some? && Hand(o.stage).value.bulkhead == bulkhead
  }

  /** The operations whose goroutine has a release of the bulkhead in its hands. */
  function HandsOf(operations: seq<Operation>, bulkhead: nat): set<nat> {
    set t | 0 <= t < |operations| && Holds(operations[t], bulkhead)
  }

  /** A bulkhead's slots in use are its releases pending, active and in hands, and no more than it has. */
  predicate Balanced(max: nat, s: State, b: nat)
    requires b < |s.slots|
  {
    && s.slots[b] == |ParkedOf(s.pending, b)| + |ParkedOf(s.active, b)| + |HandsOf(s.operations, b)|
    && s.slots[b] <= max
  }

  predicate CountInv(max: nat, s: State) {
    forall b :: 0 <= b < |s.slots| ==> Balanced(max, s, b)
  }

  predicate Inv(max: nat, s: State) {
    && RegistryInv(s.registry, |s.slots|) && GotInv(s.registry, s.operations)
    && HandsInv(s) && MapsInv(s) && ParkedInv(s) && OperationsInv(s) && NumbersInv(s) && PlacesInv(s)
    && CountInv(max, s)
  }
}
