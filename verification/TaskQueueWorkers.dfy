/**
 Which queues, routings and workers a run has, where its tasks go, and which
 worker takes them: what the steps of the run say, not the fields.
 */
module TaskQueueWorkers {
  import opened Basics
  import opened TaskQueue

  // ---------------------------------------------------------------- queues

  // The queue was made, and not deleted since.
  predicate QueueMade(steps: seq<Step>, q: Name)
    decreases |steps|
  {
    steps != [] &&
    var front := steps[..|steps|-1];
    match steps[|steps|-1]
    case CreateStep(x, _) => x == q || QueueMade(front, q)
    case RegisterStep(_, names, _) => q in names || QueueMade(front, q)
    case DeleteStep(x) => x != q && QueueMade(front, q)
    case _ => QueueMade(front, q)
  }

  // The routing given last since the queue was last deleted.
  function RoutingGiven(steps: seq<Step>, q: Name): Option<Routing>
    decreases |steps|
  {
    if steps == [] then None
    else
      var front := steps[..|steps|-1];
      match steps[|steps|-1]
      case CreateStep(x, routing) => if x == q && routing.Some? then routing else RoutingGiven(front, q)
      case DeleteStep(x) => if x == q then None else RoutingGiven(front, q)
      case _ => RoutingGiven(front, q)
  }

  // Only queues that exist are routed.
  predicate RoutedExist(s: State) {
    forall q :: q in s.routing ==> q in s.queues
  }

  ghost predicate SameQueues(s: State, t: State) {
    t.queues == s.queues && t.routing == s.routing && t.workers == s.workers &&
    forall r :: r in s.registrations ==>
      r in t.registrations && t.registrations[r].queueNames == s.registrations[r].queueNames &&
      t.registrations[r].maxConcurrent == s.registrations[r].maxConcurrent
  }

  lemma DispatchSame(s: State, q: Name)
    ensures SameQueues(s, Dispatch(s, q))
  {}

  lemma EnterSame(s: State, q: Name, payload: Payload, id: Id)
    ensures SameQueues(s, Or(Enqueue(s, q, payload, id), s)) && SameQueues(s, Or(Submit(s, q, payload, id), s))
  {
    hide SameQueues;
    if q in s.queues {
      var target := Target(s, q, payload);
      PutSame(s, target, id);
      DispatchSame(Put(s, target, id), target);
      DispatchSame(Await(Put(s, target, id), id), target);
      hide Dispatch, Put;
      SameTwice(s, Put(s, target, id), Dispatch(Put(s, target, id), target));
      SameTwice(s, Await(Put(s, target, id), id), Dispatch(Await(Put(s, target, id), id), target));
    } else {
      SameAsIs(s);
    }
  }

  lemma SameTwice(s: State, t: State, u: State)
    requires SameQueues(s, t) && SameQueues(t, u)
    ensures SameQueues(s, u)
  {}

  lemma SameAsIs(s: State)
    ensures SameQueues(s, s)
  {}

  lemma PutSame(s: State, q: Name, id: Id)
    ensures SameQueues(s, Put(s, q, id)) && SameQueues(s, Await(Put(s, q, id), id))
  {}

  lemma CompleteSame(s: State, k: nat, ok: bool)
    requires k in s.slots
    ensures SameQueues(s, Complete(s, k, ok))
  {
    hide SameQueues;
    FinishSame(s, k, ok);
    DispatchSame(Finish(s, k, ok), s.slots[k].queue);
    hide Dispatch, Finish;
    SameTwice(s, Finish(s, k, ok), Complete(s, k, ok));
  }

  lemma FinishSame(s: State, k: nat, ok: bool)
    requires k in s.slots
    ensures SameQueues(s, Finish(s, k, ok))
  {
    var slot := s.slots[k];
    PutBackSame(s, slot);
    FreeSame(PutBack(s, slot), k);
    FreeSame(s, k);
    var r := Settled(s.settlements, s.log, slot.task.id, if ok then Resolved else Rejected);
    var t := s.(settlements := r.0, log := r.1);
    FreeSame(t, k);
    assert SameQueues(s, t);
    hide PutBack, Free, SameQueues;
    SameTwice(s, PutBack(s, slot), Free(PutBack(s, slot), k));
    SameTwice(s, t, Free(t, k));
  }

  lemma PutBackSame(s: State, slot: Slot)
    ensures SameQueues(s, PutBack(s, slot)) && PutBack(s, slot).slots == s.slots
  {}

  lemma FreeSame(s: State, k: nat)
    requires k in s.slots
    ensures SameQueues(s, Free(s, k))
  {}

  lemma {:induction false} MissingQueues(s: State, names: seq<Name>)
    ensures var t := CreateMissing(s, names);
            t.routing == s.routing && t.workers == s.workers && t.registrations == s.registrations &&
            forall q :: q in t.queues <==> q in s.queues || q in names
    decreases |names|
  {
    if names != [] {
      var front := names[..|names|-1];
      MissingQueues(s, front);
      assert names == front + [names[|names|-1]];
    }
  }

  // The queues and routings of a run are those its steps give.
  lemma {:induction false} QueuesAreGiven(steps: seq<Step>)
    ensures var s := After(steps);
            RoutedExist(s) && (forall q :: q in s.queues <==> QueueMade(steps, q)) &&
            forall q :: (if q in s.routing then Some(s.routing[q]) else None) == RoutingGiven(steps, q)
    decreases |steps|
  {
    hide Enqueue, Submit, Complete, CreateMissing;
    if steps != [] {
      var front := steps[..|steps|-1];
      var s := After(front);
      QueuesAreGiven(front);
      match steps[|steps|-1]
      case EnqueueStep(q, payload, id) => EnterSame(s, q, payload, id);
      case SubmitStep(q, payload, id) => EnterSame(s, q, payload, id);
      case CompleteStep(k, ok) => if k in s.slots { CompleteSame(s, k, ok); }
      case RegisterStep(w, names, maxConcurrent) => MissingQueues(AddRegistration(s, w, names, maxConcurrent), names);
      case _ =>
    }
  }

  // ------------------------------------------------------- where tasks arrive

  // The task waits in that queue, or a worker has it from there.
  ghost predicate IsIn(s: State, id: Id, q: Name) {
    || (q in s.pending && Task(id, q) in s.pending[q].tasks)
    || (exists k :: k in s.slots && s.slots[k].task == Task(id, q) && s.slots[k].queue == q)
  }

  // A task goes to the queue that the routing given for its queue chooses, or
  // else to that queue itself.
  lemma TasksArrive(steps: seq<Step>, q: Name, payload: Payload, id: Id, step: Step)
    requires QueueMade(steps, q)
    requires step == EnqueueStep(q, payload, id) || step == SubmitStep(q, payload, id)
    ensures var routing := RoutingGiven(steps, q);
            IsIn(After(steps + [step]), id, if routing.Some? then routing.value(payload) else q)
  {
    var s := After(steps);
    QueuesAreGiven(steps);
    assert (steps + [step])[..|steps|] == steps;
    var target := Target(s, q, payload);
    PutIsIn(s, target, id);
    DispatchIsIn(Put(s, target, id), target, id);
    DispatchIsIn(Await(Put(s, target, id), id), target, id);
    hide Dispatch, Put, IsIn, QueueMade, RoutingGiven;
  }

  lemma PutIsIn(s: State, q: Name, id: Id)
    ensures IsIn(Put(s, q, id), id, q) && IsIn(Await(Put(s, q, id), id), id, q)
    ensures q in Put(s, q, id).pending && Task(id, q) in Put(s, q, id).pending[q].tasks
  {}

  lemma DispatchIsIn(s: State, q: Name, id: Id)
    requires q in s.pending && Task(id, q) in s.pending[q].tasks
    ensures IsIn(Dispatch(s, q), id, q)
  {
    var tasks := s.pending[q].tasks;
    var t := Dispatch(s, q);
    if t != s {
      if tasks[0] == Task(id, q) {
        assert t.slots[s.nextKey].task == Task(id, q) && t.slots[s.nextKey].queue == q;
      } else {
        var i :| 0 <= i < |tasks| && tasks[i] == Task(id, q);
        assert t.pending[q].tasks == tasks[1..] && tasks[1..][i-1] == Task(id, q);
      }
    }
  }

  // ------------------------------------------------------------------ workers

  // What a worker was registered with last, unless it was unregistered since.
  function RegistrationGiven(steps: seq<Step>, w: WorkerId): Option<(seq<Name>, int)>
    decreases |steps|
  {
    if steps == [] then None
    else
      var front := steps[..|steps|-1];
      match steps[|steps|-1]
      case RegisterStep(x, names, maxConcurrent) =>
        if x == w then Some((names, maxConcurrent)) else RegistrationGiven(front, w)
      case UnregisterStep(x) => if x == w then None else RegistrationGiven(front, w)
      case _ => RegistrationGiven(front, w)
  }

  function Ids(workers: seq<Worker>): (ids: seq<WorkerId>)
    ensures |ids| == |workers| && forall i :: 0 <= i < |ids| ==> ids[i] == workers[i].id
  {
    seq(|workers|, i requires 0 <= i < |workers| => workers[i].id)
  }

  // The workers in the order in which they were first registered since they
  // were last unregistered.
  function WorkersGiven(steps: seq<Step>): seq<WorkerId>
    decreases |steps|
  {
    if steps == [] then []
    else
      var front := WorkersGiven(steps[..|steps|-1]);
      match steps[|steps|-1]
      case RegisterStep(w, _, _) => if w in front then front else front + [w]
      case UnregisterStep(w) => Others(front, w)
      case _ => front
  }

  function Others(ids: seq<WorkerId>, w: WorkerId): seq<WorkerId> {
    if ids == [] then [] else (if ids[0] == w then [] else [ids[0]]) + Others(ids[1..], w)
  }

  predicate DistinctIds(ids: seq<WorkerId>) {
    forall i, j :: 0 <= i < j < |ids| ==> ids[i] != ids[j]
  }

  lemma IdsTail(workers: seq<Worker>)
    requires workers != []
    ensures Ids(workers[1..]) == Ids(workers)[1..] && Ids(workers) == [workers[0].id] + Ids(workers[1..])
    ensures DistinctIds(Ids(workers)) ==>
              DistinctIds(Ids(workers[1..])) && forall x :: x in workers[1..] ==> x.id != workers[0].id
  {
    if DistinctIds(Ids(workers)) {
      forall x | x in workers[1..]
        ensures x.id != workers[0].id
      {
        var i :| 0 <= i < |workers[1..]| && workers[1..][i] == x;
        assert Ids(workers)[i+1] == x.id;
      }
    }
  }

  lemma IdsCons(x: Worker, rest: seq<Worker>)
    ensures Ids([x] + rest) == [x.id] + Ids(rest)
  {}

  lemma {:induction false} SetWorkerIds(workers: seq<Worker>, w: Worker)
    ensures Ids(SetWorker(workers, w)) == if w.id in Ids(workers) then Ids(workers) else Ids(workers) + [w.id]
    decreases |workers|
  {
    hide DistinctIds, Ids;
    if workers == [] {
      IdsCons(w, []);
      NoWorkers();
      assert [w] + [] == [w];
    } else {
      var x, rest := workers[0], workers[1..];
      assert workers == [x] + rest;
      IdsCons(x, rest);
      SetWorkerIds(rest, w);
      IdsCons(x, SetWorker(rest, w));
      IdsCons(w, rest);
      var ids := Ids(rest);
      assert ([x.id] + ids) + [w.id] == [x.id] + (ids + [w.id]);
      assert w.id in [x.id] + ids <==> w.id == x.id || w.id in ids;
    }
  }

  lemma NoWorkers()
    ensures Ids([]) == [] && DistinctIds([])
  {}

  lemma {:induction false} SetWorkerMembers(workers: seq<Worker>, w: Worker)
    requires DistinctIds(Ids(workers))
    ensures forall x :: x in SetWorker(workers, w) ==> x == w || (x in workers && x.id != w.id)
    decreases |workers|
  {
    if workers != [] {
      IdsTail(workers);
      hide Ids, DistinctIds;
      SetWorkerMembers(workers[1..], w);
    }
  }

  lemma {:induction false} RemoveWorkerIds(workers: seq<Worker>, w: WorkerId)
    requires DistinctIds(Ids(workers))
    ensures var t := RemoveWorker(workers, w);
            Ids(t) == Others(Ids(workers), w) && DistinctIds(Ids(t)) && forall x :: x in t ==> x in workers && x.id != w
    decreases |workers|
  {
    if workers != [] {
      var rest := workers[1..];
      IdsTail(workers);
      RemoveWorkerIds(rest, w);
      if workers[0].id == w {
        NobodyToRemove(rest, w);
      } else {
        assert RemoveWorker(workers, w) == [workers[0]] + RemoveWorker(rest, w);
        assert Ids(RemoveWorker(workers, w)) == [workers[0].id] + Ids(RemoveWorker(rest, w));
      }
    }
  }

  lemma {:induction false} NobodyToRemove(workers: seq<Worker>, w: WorkerId)
    requires forall x :: x in workers ==> x.id != w
    ensures Others(Ids(workers), w) == Ids(workers)
    decreases |workers|
  {
    if workers != [] {
      assert workers[0] in workers;
      NobodyToRemove(workers[1..], w);
      assert Ids(workers) == [workers[0].id] + Ids(workers[1..]);
    }
  }

  // A worker has the queues and the maximum it was registered with.
  ghost predicate WorkerIs(s: State, x: Worker, given: Option<(seq<Name>, int)>) {
    given.Some? && x.registration in s.registrations &&
    s.registrations[x.registration].queueNames == given.value.0 &&
    s.registrations[x.registration].maxConcurrent == given.value.1
  }

  // The workers of a run are those its steps give, in their order, each with
  // the queues and the maximum of its last registration.
  lemma {:induction false} WorkersAreGiven(steps: seq<Step>)
    requires Legal(steps)
    ensures var s := After(steps);
            Ids(s.workers) == WorkersGiven(steps) && DistinctIds(WorkersGiven(steps)) &&
            forall x :: x in s.workers ==> WorkerIs(s, x, RegistrationGiven(steps, x.id))
    decreases |steps|
  {
    hide Enqueue, Submit, Complete, CreateMissing, Inv, SetWorker, RemoveWorker, Ids, DistinctIds, Enabled;
    if steps != [] {
      var front := steps[..|steps|-1];
      var s := After(front);
      LegalInv(front);
      WorkersAreGiven(front);
      match steps[|steps|-1]
      case EnqueueStep(q, payload, id) => EnterSame(s, q, payload, id);
      case SubmitStep(q, payload, id) => EnterSame(s, q, payload, id);
      case CompleteStep(k, ok) => if k in s.slots { CompleteSame(s, k, ok); }
      case RegisterStep(w, names, maxConcurrent) => RegisterGives(front, w, names, maxConcurrent);
      case UnregisterStep(w) => RemoveWorkerIds(s.workers, w);
      case _ =>
    } else {
      NoWorkers();
    }
  }

  lemma RegisterGives(front: seq<Step>, w: WorkerId, names: seq<Name>, maxConcurrent: int)
    requires Inv(After(front))
    requires var s := After(front);
             Ids(s.workers) == WorkersGiven(front) && DistinctIds(WorkersGiven(front)) &&
             forall x :: x in s.workers ==> WorkerIs(s, x, RegistrationGiven(front, x.id))
    ensures var s, t := After(front), Register(After(front), w, names, maxConcurrent);
            Ids(t.workers) == (if w in WorkersGiven(front) then WorkersGiven(front) else WorkersGiven(front) + [w]) &&
            DistinctIds(Ids(t.workers)) &&
            forall x :: x in t.workers ==>
              WorkerIs(t, x, if x.id == w then Some((names, maxConcurrent)) else RegistrationGiven(front, x.id))
  {
    hide Inv, After, RegistrationGiven, WorkersGiven, Ids, SetWorker, CreateMissing;
    var s := After(front);
    CountsBelow(s);
    SetWorkerIds(s.workers, Worker(w, s.nextKey));
    SetWorkerMembers(s.workers, Worker(w, s.nextKey));
    MissingQueues(AddRegistration(s, w, names, maxConcurrent), names);
  }

  lemma CountsBelow(s: State)
    requires Inv(s)
    ensures forall r :: r in s.registrations ==> r < s.nextKey
  {
    assert CountsOk(s);
    forall r | r in s.registrations
      ensures r < s.nextKey
    {
      assert CountOk(s, r, s.registrations[r]);
    }
  }

  // ----------------------------------------------------------------- dispatch

  // The worker is registered for the queue and runs fewer tasks than it may.
  ghost predicate HasRoom(s: State, x: Worker, q: Name) {
    x.registration in s.registrations && q in s.registrations[x.registration].queueNames &&
    |SlotsOf(s, x.registration)| < s.registrations[x.registration].maxConcurrent
  }

  lemma ServesIff(s: State, x: Worker, q: Name)
    requires Inv(s)
    ensures Serves(s, x, q) <==> HasRoom(s, x, q)
  {
    assert CountsOk(s);
    if x.registration in s.registrations { assert CountOk(s, x.registration, s.registrations[x.registration]); }
    hide Inv, CountsOk;
  }

  lemma {:induction false} FirstServingIs(s: State, q: Name, i: nat)
    requires Inv(s) && i <= |s.workers|
    ensures match FirstServing(s, q, i)
            case None => forall j :: i <= j < |s.workers| ==> !HasRoom(s, s.workers[j], q)
            case Some(r) =>
              exists j :: i <= j < |s.workers| && HasRoom(s, s.workers[j], q) && s.workers[j].registration == r &&
                          forall h :: i <= h < j ==> !HasRoom(s, s.workers[h], q)
    decreases |s.workers| - i
  {
    hide Inv, Serves, HasRoom;
    if i < |s.workers| {
      ServesIff(s, s.workers[i], q);
      if !Serves(s, s.workers[i], q) { FirstServingIs(s, q, i + 1); }
    }
  }

  // The worker takes the first pending task of the queue.
  ghost predicate Takes(s: State, t: State, q: Name, x: Worker) {
    q in s.pending && s.pending[q].tasks != [] && q in t.pending &&
    t.pending[q].tasks == s.pending[q].tasks[1..] &&
    (forall p :: p in s.pending && p != q ==> p in t.pending && t.pending[p] == s.pending[p]) &&
    s.nextKey in t.slots && t.slots == s.slots[s.nextKey := t.slots[s.nextKey]] &&
    t.slots[s.nextKey].task == s.pending[q].tasks[0] && t.slots[s.nextKey].queue == q &&
    t.slots[s.nextKey].registration == x.registration && t.log == s.log && t.settlements == s.settlements
  }

  lemma StartTakes(s: State, q: Name, x: Worker)
    requires q in s.pending && s.pending[q].tasks != [] && x.registration in s.registrations
    ensures Takes(s, Start(s, q, x.registration), q, x)
  {}

  // Dispatch gives the first pending task to the first worker with room for
  // it, and does nothing else; without such a worker it does nothing.
  lemma FirstWorkerTakes(s: State, q: Name)
    requires Inv(s) && q in s.queues && Tasks(s, q) != []
    ensures var t := Dispatch(s, q);
            if forall i :: 0 <= i < |s.workers| ==> !HasRoom(s, s.workers[i], q) then t == s
            else
              exists i :: 0 <= i < |s.workers| && HasRoom(s, s.workers[i], q) &&
                          (forall j :: 0 <= j < i ==> !HasRoom(s, s.workers[j], q)) && Takes(s, t, q, s.workers[i])
  {
    hide Inv, Takes, Start, FirstServing;
    FirstServingIs(s, q, 0);
    var r := FirstServing(s, q, 0);
    if r.Some? {
      var i :| 0 <= i < |s.workers| && HasRoom(s, s.workers[i], q) && s.workers[i].registration == r.value &&
               forall h :: 0 <= h < i ==> !HasRoom(s, s.workers[h], q);
      assert s.workers[i].registration in s.registrations;
      hide HasRoom;
      StartTakes(s, q, s.workers[i]);
    }
  }
}
