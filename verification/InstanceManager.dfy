/** The instance manager: its memory of instances, and optimistic updates. */
module InstanceManager {
  import opened Basics
  import opened InstanceStore

  type Id(==, !new, 00)

  class WorkflowInstance {
    const id: Id
    var data: Data
    var updatedAt: nat
    var version: Option<int>

    constructor (id: Id, data: Data, updatedAt: nat, version: Option<int>)
      ensures this.id == id && Is(Snapshot(data, updatedAt, version))
    {
      this.id, this.data, this.updatedAt, this.version := id, data, updatedAt, version;
    }

    predicate Is(s: Snapshot)
      reads this
    {
      data == s.data && updatedAt == s.updatedAt && version == s.version
    }
  }

  // The stored record of one instance, and what happens around each call.
  class Storage {
    const env: Environment
    var world: World

    constructor (env: Environment, stored: Option<Snapshot>)
      ensures this.env == env && world == World(stored, [], 0)
    {
      this.env, world := env, World(stored, [], 0);
    }

    method CasUpdate(s: Snapshot) returns (answer: Answer<bool>)
      modifies this
      ensures (world, answer) == Cas(env, old(world), s)
    {
      var r := Cas(env, world, s);
      world := r.0;
      return r.1;
    }

    method LoadInstance() returns (answer: Answer<Option<Snapshot>>)
      modifies this
      ensures (world, answer) == Load(env, old(world))
    {
      var r := Load(env, world);
      world := r.0;
      return r.1;
    }
  }

  class Manager {
    var instances: map<Id, WorkflowInstance>
    const storage: Option<Storage>

    // Every instance is in memory under its own id.
    ghost predicate Valid()
      reads this
    {
      forall id :: id in instances ==> instances[id].id == id
    }

    constructor (storage: Option<Storage>)
      ensures this.storage == storage && instances == map[] && Valid()
    {
      this.storage, instances := storage, map[];
    }

    method ReplaceInstance(instance: WorkflowInstance)
      requires Valid()
      modifies this
      ensures Valid()
      ensures instances == old(instances)[instance.id := instance]
    {
      instances := instances[instance.id := instance];
    }

    // What memory has under an id is the instance with that id.
    method GetInstance(id: Id) returns (found: Option<WorkflowInstance>)
      requires Valid()
      ensures found.Some? <==> id in instances
      ensures found.Some? ==> found.value == instances[id] && found.value.id == id
    {
      return if id in instances then Some(instances[id]) else None;
    }

    // Stores the instance in memory, and with optimistic retries in storage.
    // What is left in memory is the write that was stored, or what storage
    // held at the last reload, or the caller's own object.
    method UpdateInstance(instance: WorkflowInstance, maxRetries: int, now: nat) returns (exit: Option<Exit>)
      requires Valid()
      modifies this, instance, if storage.Some? then {storage.value} else {}
      ensures Valid()
      ensures instance.data == old(instance.data) && instance.updatedAt == now
      ensures storage.None? <==> exit.None?
      ensures storage.Some? ==>
                var s := old(storage.value.world);
                var r := Attempts(storage.value.env, s, instance.data, now,
                                  if old(instance.version).Some? then old(instance.version).value else 1,
                                  maxRetries, None);
                storage.value.world == r.0 && exit == Some(r.1)
      ensures instances.Keys == old(instances).Keys + {instance.id}
      ensures forall id :: id in old(instances) && id != instance.id ==> instances[id] == old(instances)[id]
      ensures var kept := instances[instance.id];
              if exit.Some? && exit.value.Updated? then
                instance.version == Some(exit.value.version) && fresh(kept) && kept.id == instance.id &&
                kept.Is(Snapshot(instance.data, now, Some(exit.value.version)))
              else if exit.Some? && exit.value.Conflict? && exit.value.lastGood.Some? then
                instance.version == old(instance.version) && fresh(kept) && kept.id == instance.id &&
                kept.Is(exit.value.lastGood.value)
              else instance.version == old(instance.version) && kept == instance
    {
      instance.updatedAt := now;
      instances := instances[instance.id := instance];
      if storage.None? { return None; }
      var store := storage.value;
      var retries := maxRetries;
      var currentVersion := if instance.version.Some? then instance.version.value else 1;
      var lastKnownGood: Option<Snapshot> := None;
      ghost var start := store.world;
      ghost var first := currentVersion;
      while retries > 0
        invariant instance.data == old(instance.data) && instance.updatedAt == now &&
                  instance.version == old(instance.version)
        invariant instances == old(instances)[instance.id := instance]
        invariant Attempts(store.env, start, instance.data, now, first, maxRetries, None)
                  == Attempts(store.env, store.world, instance.data, now, currentVersion, retries, lastKnownGood)
        decreases retries
      {
        hide Cas, Load;
        ghost var round := OneRound(store.env, store.world, instance.data, now, currentVersion, lastKnownGood);
        retries := retries - 1;
        var success := store.CasUpdate(Snapshot(instance.data, now, Some(currentVersion)));
        if success.Thrown? { return Some(StorageFailed); }
        if success.value {
          var candidate := new WorkflowInstance(instance.id, instance.data, now, Some(currentVersion + 1));
          instance.version := Some(currentVersion + 1);
          instances := instances[instance.id := candidate];
          return Some(Updated(currentVersion + 1));
        }
        var loaded := store.LoadInstance();
        if loaded.Thrown? { return Some(StorageFailed); }
        if loaded.value.Some? {
          lastKnownGood := loaded.value;
          currentVersion := VersionOf(loaded.value.value);
        }
      }
      if lastKnownGood.Some? {
        var good := new WorkflowInstance(instance.id, lastKnownGood.value.data, lastKnownGood.value.updatedAt,
                                         lastKnownGood.value.version);
        instances := instances[instance.id := good];
      }
      return Some(Conflict(lastKnownGood));
    }
  }
}
