/** The task queue manager, each method against its step. */
module TaskQueueManager {
  import opened Basics
  import opened TaskQueue
  import Steps = TaskQueue

  class Manager {
    var queues: set<Name>
    var pending: map<Name, PendingList>
    var routing: map<Name, Routing>
    var workers: seq<Worker>
    var registrations: map<nat, Registration>
    var settlements: set<Id>
    var slots: map<nat, Slot>
    var nextKey: nat
    var log: seq<Settlement>
    ghost var submitted: set<Id>
    ghost var home: map<Id, Place>
    ghost var arrived: map<nat, seq<Task>>
    ghost var started: map<nat, seq<Task>>

    ghost function Abstract(): State
      reads this
    {
      State(queues, pending, routing, workers, registrations, settlements, slots, nextKey, submitted, log, home,
            arrived, started)
    }

    constructor ()
      ensures Abstract() == Initial()
    {
      queues, pending, routing, workers, registrations := {}, map[], map[], [], map[];
      settlements, slots, nextKey, log := {}, map[], 0, [];
      submitted, home, arrived, started := {}, map[], map[], map[];
    }

    method SetEmptyList(q: Name)
      modifies this
      ensures Abstract() == NewList(old(Abstract()), q)
    {
      pending := pending[q := PendingList(nextKey, [])];
      arrived, started := arrived[nextKey := []], started[nextKey := []];
      nextKey := nextKey + 1;
    }

    method CreateQueue(q: Name, route: Option<Routing>)
      modifies this
      ensures Abstract() == Steps.CreateQueue(old(Abstract()), q, route)
    {
      queues := queues + {q};
      SetEmptyList(q);
      if route.Some? { routing := routing[q := route.value]; }
    }

    method DeleteQueue(q: Name)
      modifies this
      ensures Abstract() == Steps.DeleteQueue(old(Abstract()), q)
    {
      if q !in queues { return; }
      var tasks := if q in pending then pending[q].tasks else [];
      RejectPending(tasks);
      queues, pending, routing := queues - {q}, pending - {q}, routing - {q};
    }

    method RejectPending(tasks: seq<Task>)
      modifies this
      ensures var r := RejectAll(old(settlements), old(log), tasks);
              Abstract() == old(Abstract()).(settlements := r.0, log := r.1)
    {
      hide Settled;
      var i := 0;
      while i < |tasks|
        invariant 0 <= i <= |tasks|
        invariant Abstract() == old(Abstract()).(settlements := settlements, log := log)
        invariant (settlements, log) == RejectAll(old(settlements), old(log), tasks[..i])
      {
        assert tasks[..i+1][..i] == tasks[..i];
        if tasks[i].id in settlements { SettleTask(tasks[i].id, QueueDeleted); }
        i := i + 1;
      }
      assert tasks[..i] == tasks;
    }

    method Push(target: Name, id: Id)
      modifies this
      ensures Abstract() == Put(old(Abstract()), target, id)
    {
      if target !in pending { SetEmptyList(target); }
      AppendTask(target, id);
    }

    method AppendTask(target: Name, id: Id)
      requires target in pending
      modifies this
      ensures Abstract() == Append(old(Abstract()), target, id)
    {
      var l := pending[target];
      arrived := Appended(arrived, l.identity, Task(id, target));
      home := home[id := Waiting(target)];
      pending := pending[target := PendingList(l.identity, l.tasks + [Task(id, target)])];
    }

    // Puts a task into a queue; a submitted one is awaited before a worker can
    // take it.
    method Enqueue(q: Name, payload: Payload, id: Id, awaited: bool) returns (found: bool)
      modifies this
      ensures found <==> q in old(queues)
      ensures Abstract() == Or(if awaited then Steps.Submit(old(Abstract()), q, payload, id)
                               else Steps.Enqueue(old(Abstract()), q, payload, id), old(Abstract()))
    {
      hide Dispatch, Put;
      if q !in queues { return false; }
      var target := if q in routing then routing[q](payload) else q;
      Push(target, id);
      if awaited { settlements, submitted := settlements + {id}, submitted + {id}; }
      DispatchTask(target);
      return true;
    }

    predicate CanTake(w: Worker, q: Name)
      reads this
      ensures CanTake(w, q) <==> Serves(Abstract(), w, q)
    {
      w.registration in registrations && q in registrations[w.registration].queueNames &&
      registrations[w.registration].activeCount < registrations[w.registration].maxConcurrent
    }

    method FindWorker(q: Name) returns (registration: Option<nat>)
      ensures registration == FirstServing(Abstract(), q, 0)
    {
      hide Serves, CanTake;
      var i := 0;
      while i < |workers|
        invariant 0 <= i <= |workers|
        invariant FirstServing(Abstract(), q, i) == FirstServing(Abstract(), q, 0)
      {
        if CanTake(workers[i], q) { return Some(workers[i].registration); }
        i := i + 1;
      }
      return None;
    }

    // Starts the first task of a queue at the first worker that is free.
    method DispatchTask(q: Name)
      modifies this
      ensures Abstract() == Dispatch(old(Abstract()), q)
    {
      hide FirstServing, Start;
      if q !in queues || q !in pending || pending[q].tasks == [] { return; }
      var registration := FindWorker(q);
      FirstServingServes(Abstract(), q, 0);
      if registration.Some? { StartTask(q, registration.value); }
    }

    method StartTask(q: Name, registration: nat)
      requires q in pending && pending[q].tasks != [] && registration in registrations
      modifies this
      ensures Abstract() == Start(old(Abstract()), q, registration)
    {
      hide Appended;
      var l, r := pending[q], registrations[registration];
      var task := l.tasks[0];
      pending := pending[q := PendingList(l.identity, l.tasks[1..])];
      registrations := registrations[registration := r.(activeCount := r.activeCount + 1)];
      slots := slots[nextKey := Slot(task, q, l.identity, registration, task.id in settlements)];
      home := home[task.id := Running(nextKey)];
      started := Appended(started, l.identity, task);
      nextKey := nextKey + 1;
    }

    // What follows when the worker of a running task returns or throws.
    method Resume(k: nat, ok: bool)
      requires k in slots
      modifies this
      ensures Abstract() == Complete(old(Abstract()), k, ok)
    {
      hide Dispatch, PutBack, Free, Settled;
      var slot := slots[k];
      if slot.awaited {
        SettleTask(slot.task.id, if ok then Resolved else Rejected);
      } else if !ok {
        Unshift(slot);
      }
      EndTask(k);
      DispatchTask(slot.queue);
    }

    method SettleTask(id: Id, outcome: Outcome)
      modifies this
      ensures var r := Settled(old(settlements), old(log), id, outcome);
              Abstract() == old(Abstract()).(settlements := r.0, log := r.1)
    {
      settlements := settlements - {id};
      log := log + [Settlement(id, outcome)];
    }

    method Unshift(slot: Slot)
      modifies this
      ensures Abstract() == PutBack(old(Abstract()), slot) && slots == old(slots)
    {
      if slot.queue in pending && pending[slot.queue].identity == slot.list {
        pending := pending[slot.queue := PendingList(slot.list, [slot.task] + pending[slot.queue].tasks)];
        home := home[slot.task.id := Waiting(slot.queue)];
      }
    }

    method EndTask(k: nat)
      requires k in slots
      modifies this
      ensures Abstract() == Free(old(Abstract()), k)
    {
      var registration := slots[k].registration;
      slots := slots - {k};
      if registration in registrations {
        registrations := registrations[registration :=
          registrations[registration].(activeCount := registrations[registration].activeCount - 1)];
      }
    }

    method RegisterWorker(w: WorkerId, names: seq<Name>, maxConcurrent: int)
      modifies this
      ensures Abstract() == Register(old(Abstract()), w, names, maxConcurrent)
    {
      hide Steps.CreateQueue, SetWorker;
      registrations := registrations[nextKey := Registration(names, maxConcurrent, 0)];
      workers := SetWorker(workers, Worker(w, nextKey));
      nextKey := nextKey + 1;
      ghost var added := Abstract();
      assert added == AddRegistration(old(Abstract()), w, names, maxConcurrent);
      hide AddRegistration;
      CreateMissingQueues(names);
    }

    method CreateMissingQueues(names: seq<Name>)
      modifies this
      ensures Abstract() == CreateMissing(old(Abstract()), names)
    {
      hide Steps.CreateQueue;
      ghost var before := Abstract();
      var i := 0;
      while i < |names|
        invariant 0 <= i <= |names| && Abstract() == CreateMissing(before, names[..i])
      {
        assert names[..i+1][..i] == names[..i];
        if names[i] !in queues { CreateQueue(names[i], None); }
        i := i + 1;
      }
      assert names[..i] == names;
    }

    method UnregisterWorker(w: WorkerId)
      modifies this
      ensures Abstract() == Unregister(old(Abstract()), w)
    {
      workers := RemoveWorker(workers, w);
    }
  }
}
