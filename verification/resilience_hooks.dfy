/**
 The three hooks that carry a permit, each run by itself: what it does to the semaphores and the
 two maps. How they interleave is Permits' business.
 */
module ResilienceHooks {
  import opened Wrappers
  import opened Permits
  import opened PermitsInvariant

  /** The slots of a scope's bulkhead in use; a scope without one has none. */
  function InUse(registry: map<string, nat>, slots: seq<nat>, scope: string): nat {
    if scope in registry && registry[scope] < |slots| then slots[registry[scope]] else 0
  }

  class Hooks {
    const max: nat
    var registry: map<string, nat>
    var slots: seq<nat>
    var counter: nat
    var pending: map<nat, Release>
    var active: map<nat, Release>
    var acquired: nat                  // names the release closures apart

    ghost predicate Valid()
      reads this
    {
      && RegistryInv(registry, |slots|)
      && (forall id :: id in pending ==> id <= counter && pending[id].bulkhead < |slots|)
      && (forall id :: id in active ==> id <= counter && active[id].bulkhead < |slots|)
      && pending.Keys !! active.Keys
      && (forall b :: 0 <= b < |slots| ==> slots[b] == |ParkedOf(pending, b)| + |ParkedOf(active, b)| <= max)
    }

    constructor (max: nat)
      ensures Valid() && this.max == max
      ensures registry == map[] && pending == map[] && active == map[]
    {
      this.max := max;
      registry, slots, counter, pending, active, acquired := map[], [], 0, map[], map[], 0;
    }

    /** Looks the scope's bulkhead up, under the read lock. */
    method Find(scope: string) returns (bulkhead: Option<nat>)
      ensures bulkhead == if scope in registry then Some(registry[scope]) else None
    {
      return if scope in registry then Some(registry[scope]) else None;
    }

    /** Looks again under the write lock, and makes a bulkhead only if there still is none. */
    method FindOrCreate(scope: string) returns (bulkhead: nat)
      requires Valid()
      modifies this`registry, this`slots
      ensures Valid()
      ensures scope in registry && registry[scope] == bulkhead < |slots|
      ensures scope in old(registry) ==> registry == old(registry)
      ensures forall other :: other != scope ==> InUse(registry, slots, other) == old(InUse(registry, slots, other))
      ensures slots[bulkhead] == old(InUse(registry, slots, scope))
    {
      if scope in registry {
        return registry[scope];
      }
      bulkhead := |slots|;
      assert ParkedOf(pending, bulkhead) == ParkedOf(active, bulkhead) == {};
      slots := slots + [0];
      registry := registry[scope := bulkhead];
    }

    /** Gives the scope's bulkhead. */
    method Get(scope: string) returns (bulkhead: nat)
      requires Valid()
      modifies this`registry, this`slots
      ensures Valid()
      ensures scope in registry && registry[scope] == bulkhead < |slots|
      ensures scope in old(registry) ==> bulkhead == old(registry[scope])
      ensures forall other :: other != scope ==> InUse(registry, slots, other) == old(InUse(registry, slots, other))
      ensures slots[bulkhead] == old(InUse(registry, slots, scope))
    {
      var found := Find(scope);
      if found.Some? {
        return found.value;
      }
      bulkhead := FindOrCreate(scope);
    }

    /** Takes a slot, if one comes free in time, and parks its release under a new number. */
    method Take(bulkhead: nat, inTime: bool) returns (id: Option<nat>)
      requires Valid() && bulkhead < |slots|
      modifies this`slots, this`counter, this`pending, this`acquired
      ensures Valid()
      ensures id.Some? <==> inTime && old(slots[bulkhead]) < max
      ensures id.None? ==> slots == old(slots) && pending == old(pending)
      ensures id.Some? ==>
                && id.value == counter > old(counter) && counter !in old(pending)
                && pending == old(pending)[counter := Release(bulkhead, old(acquired))] && acquired == old(acquired) + 1
                && slots == old(slots)[bulkhead := old(slots[bulkhead]) + 1]
    {
      if !inTime || slots[bulkhead] >= max {
        return None;
      }
      slots := slots[bulkhead := slots[bulkhead] + 1];
      var release := Release(bulkhead, acquired);
      acquired := acquired + 1;
      counter := counter + 1;
      forall b | 0 <= b < |slots|
        ensures |ParkedOf(pending[counter := release], b)| == |ParkedOf(pending, b)| + One(b == bulkhead)
      {
        ParkedAdded(pending, counter, release, b);
      }
      pending := pending[counter := release];
      return Some(counter);
    }

    /** Takes a parked release back out and runs it. */
    method LetGo(id: nat)
      requires Valid()
      modifies this`slots, this`pending
      ensures Valid()
      ensures id !in old(pending) ==> slots == old(slots) && pending == old(pending)
      ensures id in old(pending) ==>
                var b := old(pending)[id].bulkhead;
                && pending == old(pending) - {id}
                && b < |old(slots)| == |slots| && slots == old(slots)[b := slots[b]] && slots[b] + 1 == old(slots)[b]
    {
      if id in pending {
        var release := pending[id];
        forall b | 0 <= b < |slots|
          ensures |ParkedOf(pending - {id}, b)| + One(b == release.bulkhead) == |ParkedOf(pending, b)|
        {
          ParkedRemoved(pending, id, b);
        }
        pending := pending - {id};
        slots := slots[release.bulkhead := slots[release.bulkhead] - 1];
      }
    }

    /**
     Lets an operation through, or not: by the breaker, by the bulkhead if a slot comes free in
     time, and by the rate limiter. A refused operation takes nothing.
     */
    method OnOperationGate(context: Context, scope: string, closed: bool, inTime: bool, within: bool)
      returns (inner: Context, admitted: bool)
      requires Valid()
      modifies this
      ensures Valid() && active == old(active)
      ensures admitted <==> closed && inTime && within && old(InUse(registry, slots, scope)) < max
      ensures forall other :: other != scope ==> InUse(registry, slots, other) == old(InUse(registry, slots, other))
      ensures InUse(registry, slots, scope) == old(InUse(registry, slots, scope)) + One(admitted)
      ensures !admitted ==> pending == old(pending)
      ensures admitted ==>
                && inner == context.(pending := Some(counter)) && counter > old(counter)
                && pending.Keys == old(pending.Keys) + {counter} && pending - {counter} == old(pending)
                && scope in registry && pending[counter].bulkhead == registry[scope]
    {
      inner, admitted := context, false;
      if !closed {
        return;
      }
      var bulkhead := Get(scope);
      var id := Take(bulkhead, inTime);
      if id.None? {
        return;
      }
      inner := inner.(pending := id);
      assert pending - {counter} == old(pending);
      if !within {
        if inner.pending.Some? {
          LetGo(inner.pending.value);
        }
        return;
      }
      admitted := true;
    }

    /** Moves the release of an admitted operation over; without one, changes nothing. */
    method OnOperationStart(context: Context) returns (inner: Context)
      requires Valid()
      modifies this`pending, this`active
      ensures Valid()
      ensures
        if context.pending.Some? && context.pending.value in old(pending) then
          var id := context.pending.value;
          && pending == old(pending) - {id} && active == old(active)[id := old(pending)[id]]
          && inner == context.(active := Some(id))
        else pending == old(pending) && active == old(active) && inner == context
    {
      inner := context;
      if context.pending.Some? && context.pending.value in pending {
        var id := context.pending.value;
        var release := pending[id];
        forall b | 0 <= b < |slots|
          ensures |ParkedOf(pending - {id}, b)| + |ParkedOf(active[id := release], b)| ==
                  |ParkedOf(pending, b)| + |ParkedOf(active, b)|
        {
          ParkedRemoved(pending, id, b);
          ParkedAdded(active, id, release, b);
        }
        pending := pending - {id};
        active := active[id := release];
        inner := inner.(active := Some(id));
      }
    }

    /** Frees the slot of an operation that started with one; ended twice, it frees no second slot. */
    method OnOperationEnd(context: Context)
      requires Valid()
      modifies this`active, this`slots
      ensures Valid() && |slots| == |old(slots)|
      ensures
        if context.active.Some? && context.active.value in old(active) then
          var b := old(active)[context.active.value].bulkhead;
          && active == old(active) - {context.active.value}
          && b < |old(slots)| && slots == old(slots)[b := slots[b]] && slots[b] + 1 == old(slots)[b]
        else active == old(active) && slots == old(slots)
    {
      if context.active.Some? && context.active.value in active {
        var id := context.active.value;
        var release := active[id];
        forall b | 0 <= b < |slots|
          ensures |ParkedOf(active - {id}, b)| + One(b == release.bulkhead) == |ParkedOf(active, b)|
        {
          ParkedRemoved(active, id, b);
        }
        active := active - {id};
        slots := slots[release.bulkhead := slots[release.bulkhead] - 1];
      }
    }

    /** An operation let through, started and ended leaves the bulkhead and both maps as they were. */
    method RunOperation(context: Context, scope: string, closed: bool, inTime: bool, within: bool)
      returns (admitted: bool)
      requires Valid()
      modifies this
      ensures admitted <==> closed && inTime && within && old(InUse(registry, slots, scope)) < max
      ensures admitted ==> counter > old(counter)
      ensures Valid() && pending == old(pending) && active == old(active)
      ensures forall other :: InUse(registry, slots, other) == old(InUse(registry, slots, other))
    {
      var inner: Context;
      inner, admitted := OnOperationGate(context, scope, closed, inTime, within);
      if admitted {
        var running := OnOperationStart(inner);
        assert active - {counter} == old(active);
        OnOperationEnd(running);
      }
    }
  }
}
