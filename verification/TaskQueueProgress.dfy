/**
 Progress of the task queues: after which steps a task may be left pending
 although a worker that serves its queue is free.
 */
module TaskQueueProgress {
  import opened Basics
  import opened TaskQueue

  ghost predicate CanServe(s: State, q: Name) {
    exists w :: w in s.workers && Serves(s, w, q)
  }

  // No queue has both a pending task and a free worker that serves it.
  ghost predicate Progressing(s: State) {
    forall q :: q in s.queues && Tasks(s, q) != [] ==> !CanServe(s, q)
  }

  // A worker now registered has all the tasks it may have.
  ghost predicate FullWorker(s: State, r: nat) {
    r in s.registrations && s.registrations[r].activeCount >= s.registrations[r].maxConcurrent &&
    exists w :: w in s.workers && w.registration == r
  }

  // The place of the task that ends goes to the next task of the same queue.
  predicate Refilled(s: State, k: nat, ok: bool)
    requires k in s.slots
  {
    var u, q := Finish(s, k, ok), s.slots[k].queue;
    q in u.queues && Tasks(u, q) != [] && FirstServing(u, q, 0) == Some(s.slots[k].registration)
  }

  predicate Pends(s: State, names: seq<Name>, except: Option<Name>) {
    exists q :: q in names && Some(q) != except && q in s.queues && Tasks(s, q) != []
  }

  // The steps that leave a task pending with a free worker: a registration for
  // a queue with pending tasks, and the end of a task of a full worker that
  // serves another queue with pending tasks, unless its place is filled again.
  ghost predicate Strands(s: State, step: Step) {
    match step
    case RegisterStep(_, names, maxConcurrent) => maxConcurrent > 0 && Pends(s, names, None)
    case CompleteStep(k, ok) =>
      k in s.slots &&
      var slot := s.slots[k];
      FullWorker(s, slot.registration) && !Refilled(s, k, ok) &&
      Pends(s, s.registrations[slot.registration].queueNames, Some(slot.queue))
    case _ => false
  }

  lemma {:induction false} FirstServingFinds(s: State, q: Name, i: nat)
    ensures var r := FirstServing(s, q, i);
            if r.Some?
            then exists j :: i <= j < |s.workers| && Serves(s, s.workers[j], q) && s.workers[j].registration == r.value
            else forall j :: i <= j < |s.workers| ==> !Serves(s, s.workers[j], q)
    decreases |s.workers| - i
  {
    if i < |s.workers| && !Serves(s, s.workers[i], q) { FirstServingFinds(s, q, i + 1); }
  }

  // ------------------------------------------------------------- dispatching

  lemma StartFewer(s: State, q: Name, r: nat)
    requires q in s.pending && s.pending[q].tasks != [] && r in s.registrations
    ensures var t := Start(s, q, r);
            t.workers == s.workers && t.queues == s.queues && Tasks(t, q) == Tasks(s, q)[1..] &&
            (forall p :: p != q ==> Tasks(t, p) == Tasks(s, p)) && forall p :: CanServe(t, p) ==> CanServe(s, p)
  {
    var t := Start(s, q, r);
    forall w, p | Serves(t, w, p)
      ensures Serves(s, w, p)
    {}
  }

  // At most one task of the queue can be dispatched, and of no other queue.
  lemma DispatchProgresses(s: State, q: Name)
    requires forall p :: p != q && p in s.queues && Tasks(s, p) != [] ==> !CanServe(s, p)
    requires q in s.queues && CanServe(s, q) ==> |Tasks(s, q)| <= 1
    ensures Progressing(Dispatch(s, q))
  {
    FirstServingFinds(s, q, 0);
    var r := FirstServing(s, q, 0);
    hide FirstServing;
    if q in s.queues && Tasks(s, q) != [] && r.Some? {
      FirstIsServing(s, q);
      StartFewer(s, q, r.value);
    }
    hide Start, Serves;
  }

  lemma FirstIsServing(s: State, q: Name)
    ensures FirstServing(s, q, 0).Some? ==> CanServe(s, q) && FirstServing(s, q, 0).value in s.registrations
  {
    FirstServingFinds(s, q, 0);
    hide FirstServing;
    if FirstServing(s, q, 0).Some? {
      var j :| 0 <= j < |s.workers| && Serves(s, s.workers[j], q) &&
        s.workers[j].registration == FirstServing(s, q, 0).value;
      assert s.workers[j] in s.workers;
    }
  }

  lemma EnterProgresses(s: State, q: Name, id: Id, awaited: bool)
    requires Progressing(s)
    ensures var u := Put(s, q, id); Progressing(Dispatch(if awaited then Await(u, id) else u, q))
  {
    var p := Put(s, q, id);
    var u := if awaited then Await(p, id) else p;
    PutTasks(s, q, id, awaited);
    hide Put, Await, Dispatch;
    DispatchProgresses(u, q);
  }

  lemma PutTasks(s: State, q: Name, id: Id, awaited: bool)
    ensures var p := Put(s, q, id); var u := if awaited then Await(p, id) else p;
            u.queues == s.queues && |Tasks(u, q)| == |Tasks(s, q)| + 1 &&
            (forall x :: x != q ==> Tasks(u, x) == Tasks(s, x)) && forall x :: CanServe(u, x) <==> CanServe(s, x)
  {
    var p := Put(s, q, id);
    var u := if awaited then Await(p, id) else p;
    assert u.workers == s.workers && u.registrations == s.registrations;
    forall w, x
      ensures Serves(u, w, x) <==> Serves(s, w, x)
    {}
  }

  // --------------------------------------------------------------- completion

  // The end of a task gives its registration a place, and may put the task back.
  ghost predicate Ends(s: State, u: State, q: Name, r: nat) {
    u.workers == s.workers && u.queues == s.queues && r in s.registrations &&
    u.registrations == s.registrations[r := s.registrations[r].(activeCount := s.registrations[r].activeCount - 1)] &&
    |Tasks(s, q)| <= |Tasks(u, q)| <= |Tasks(s, q)| + 1 && forall p :: p != q ==> Tasks(u, p) == Tasks(s, p)
  }

  lemma FinishEnds(s: State, k: nat, ok: bool)
    requires k in s.slots && s.slots[k].registration in s.registrations
    ensures Ends(s, Finish(s, k, ok), s.slots[k].queue, s.slots[k].registration)
  {}

  lemma SlotCounted(s: State, k: nat)
    requires Inv(s) && k in s.slots
    ensures s.slots[k].registration in s.registrations
    ensures var r := s.registrations[s.slots[k].registration]; r.activeCount <= r.maxConcurrent
  {
    var r := s.slots[k].registration;
    assert SlotOk(s, k, s.slots[k]);
    assert CountOk(s, r, s.registrations[r]);
    assert k in SlotsOf(s, r);
    hide ListsOk, SlotsOk, AllPlaced, LedgerOk, OrderOk;
  }

  lemma EndsServing(s: State, u: State, q: Name, r: nat, p: Name)
    requires Ends(s, u, q, r)
    ensures CanServe(s, p) ==> CanServe(u, p)
    ensures CanServe(u, p) ==> CanServe(s, p) || (FullWorker(s, r) && p in s.registrations[r].queueNames)
  {
    if CanServe(s, p) {
      var w :| w in s.workers && Serves(s, w, p);
      assert Serves(u, w, p);
    }
    if CanServe(u, p) {
      var w :| w in u.workers && Serves(u, w, p);
      if w.registration != r { assert Serves(s, w, p); }
    }
  }

  lemma CompleteProgresses(s: State, k: nat, ok: bool)
    requires Inv(s) && Progressing(s) && k in s.slots && !Strands(s, CompleteStep(k, ok))
    ensures Progressing(Complete(s, k, ok))
  {
    var u, q, r := Finish(s, k, ok), s.slots[k].queue, s.slots[k].registration;
    SlotCounted(s, k);
    FinishEnds(s, k, ok);
    hide Inv, Finish;
    if FullWorker(s, r) && Refilled(s, k, ok) {
      RefilledProgresses(s, u, q, r);
    } else {
      forall p | p in s.queues && Tasks(s, p) != [] && p != q
        ensures !CanServe(u, p)
      {
        EndsServing(s, u, q, r, p);
      }
      if q in s.queues && CanServe(u, q) && Tasks(s, q) != [] {
        OnlyFreed(s, u, q, r);
        assert false;
      }
      hide Dispatch, Refilled;
      DispatchProgresses(u, q);
    }
  }

  // A task that was pending can only go to the place that became free.
  lemma OnlyFreed(s: State, u: State, q: Name, r: nat)
    requires Progressing(s) && Ends(s, u, q, r) && q in s.queues && Tasks(s, q) != [] && CanServe(u, q)
    ensures FullWorker(s, r) && FirstServing(u, q, 0) == Some(r)
  {
    EndsServing(s, u, q, r, q);
    FirstServingFinds(u, q, 0);
    hide FirstServing;
    var w :| w in u.workers && Serves(u, w, q);
    var i :| 0 <= i < |u.workers| && u.workers[i] == w;
    assert FirstServing(u, q, 0).Some?;
    var j :| 0 <= j < |u.workers| && Serves(u, u.workers[j], q) &&
      u.workers[j].registration == FirstServing(u, q, 0).value;
    assert u.workers[j] in s.workers && !Serves(s, u.workers[j], q);
  }

  lemma RefilledProgresses(s: State, u: State, q: Name, r: nat)
    requires Progressing(s) && Ends(s, u, q, r) && q in u.queues && Tasks(u, q) != [] &&
             FirstServing(u, q, 0) == Some(r)
    ensures Progressing(Dispatch(u, q))
  {
    var t := Start(u, q, r);
    assert Dispatch(u, q) == t;
    assert t.registrations == s.registrations;
    StartFewer(u, q, r);
    hide FirstServing, Start;
    forall p
      ensures CanServe(t, p) ==> CanServe(s, p)
    {
      if CanServe(t, p) {
        var w :| w in t.workers && Serves(t, w, p);
        assert Serves(s, w, p);
      }
    }
  }

  lemma CompleteStrands(s: State, k: nat, ok: bool)
    requires Inv(s) && Progressing(s) && k in s.slots && Strands(s, CompleteStep(k, ok))
    ensures !Progressing(Complete(s, k, ok))
  {
    var u, q, r := Finish(s, k, ok), s.slots[k].queue, s.slots[k].registration;
    SlotCounted(s, k);
    FinishEnds(s, k, ok);
    hide Inv, Finish, Dispatch, FirstServing, Serves;
    var p :| p in s.registrations[r].queueNames && Some(p) != Some(q) && p in s.queues && Tasks(s, p) != [];
    PlaceFreed(s, u, q, r, p);
    var w :| w in u.workers && w.registration == r && Serves(u, w, p);
    DispatchElsewhere(u, q, w, p);
    assert CanServe(Complete(s, k, ok), p);
  }

  // A worker to which nothing is dispatched stays as free as it was.
  lemma DispatchElsewhere(u: State, q: Name, w: Worker, p: Name)
    requires w in u.workers && Serves(u, w, p) && p != q
    requires q in u.queues && Tasks(u, q) != [] ==> FirstServing(u, q, 0) != Some(w.registration)
    ensures var t := Dispatch(u, q);
            t.queues == u.queues && w in t.workers && Serves(t, w, p) && Tasks(t, p) == Tasks(u, p)
  {
    var first := FirstServing(u, q, 0);
    FirstIsServing(u, q);
    hide FirstServing, Start;
    if q in u.queues && Tasks(u, q) != [] && first.Some? {
      StartFewer(u, q, first.value);
      OtherRegistration(u, q, first.value, w.registration);
    }
  }

  lemma PlaceFreed(s: State, u: State, q: Name, r: nat, p: Name)
    requires Ends(s, u, q, r) && FullWorker(s, r) && p in s.registrations[r].queueNames
    requires s.registrations[r].activeCount <= s.registrations[r].maxConcurrent
    ensures exists w :: w in u.workers && w.registration == r && Serves(u, w, p)
  {
    var w :| w in s.workers && w.registration == r;
    assert Serves(u, w, p);
  }

  lemma OtherRegistration(s: State, q: Name, r: nat, other: nat)
    requires q in s.pending && s.pending[q].tasks != [] && r in s.registrations && other in s.registrations &&
             other != r
    ensures other in Start(s, q, r).registrations && Start(s, q, r).registrations[other] == s.registrations[other]
  {}

  // ------------------------------------------------------------------ workers

  lemma {:induction false} SetWorkerMembers(workers: seq<Worker>, w: Worker)
    ensures w in SetWorker(workers, w) && forall x :: x in SetWorker(workers, w) ==> x in workers || x == w
    decreases |workers|
  {
    if workers != [] && workers[0].id != w.id {
      SetWorkerMembers(workers[1..], w);
      assert workers == [workers[0]] + workers[1..];
    }
  }

  lemma {:induction false} RemoveWorkerMembers(workers: seq<Worker>, w: WorkerId)
    ensures forall x :: x in RemoveWorker(workers, w) ==> x in workers
    decreases |workers|
  {
    if workers != [] && workers[0].id != w {
      RemoveWorkerMembers(workers[1..], w);
      assert workers == [workers[0]] + workers[1..];
    }
  }

  lemma RegisterProgressIff(s: State, w: WorkerId, names: seq<Name>, maxConcurrent: int)
    requires Inv(s) && Progressing(s)
    ensures Progressing(Register(s, w, names, maxConcurrent)) <==> !(maxConcurrent > 0 && Pends(s, names, None))
  {
    FreshRegistration(s);
    hide Inv;
    var t := Register(s, w, names, maxConcurrent);
    Registered(s, w, names, maxConcurrent);
    hide Register;
    if maxConcurrent > 0 && Pends(s, names, None) {
      var q :| q in names && q in s.queues && Tasks(s, q) != [];
      assert Serves(t, Worker(w, s.nextKey), q);
      assert CanServe(t, q);
    } else {
      forall q | q in t.queues && Tasks(t, q) != []
        ensures !CanServe(t, q)
      {
        NotServed(s, t, names, maxConcurrent, q);
      }
    }
  }

  lemma NotServed(s: State, t: State, names: seq<Name>, maxConcurrent: int, q: Name)
    requires !CanServe(s, q) && (q in names ==> maxConcurrent <= 0)
    requires forall x :: x in t.workers ==> x in s.workers || x.registration == s.nextKey
    requires t.registrations == s.registrations[s.nextKey := Registration(names, maxConcurrent, 0)]
    ensures !CanServe(t, q)
  {
    forall x | x in t.workers
      ensures !Serves(t, x, q)
    {
      if x.registration != s.nextKey { assert Serves(t, x, q) ==> Serves(s, x, q); }
    }
  }

  lemma Registered(s: State, w: WorkerId, names: seq<Name>, maxConcurrent: int)
    ensures var t, worker := Register(s, w, names, maxConcurrent), Worker(w, s.nextKey);
            worker in t.workers && (forall x :: x in t.workers ==> x in s.workers || x == worker) &&
            t.registrations == s.registrations[s.nextKey := Registration(names, maxConcurrent, 0)] &&
            s.queues <= t.queues && (forall q :: q in s.queues ==> Tasks(t, q) == Tasks(s, q)) &&
            forall q :: q in t.queues && q !in s.queues ==> Tasks(t, q) == []
  {
    var added := AddRegistration(s, w, names, maxConcurrent);
    SetWorkerMembers(s.workers, Worker(w, s.nextKey));
    MissingTasks(added, names);
    hide CreateMissing, SetWorker;
    assert forall q :: Tasks(added, q) == Tasks(s, q);
  }

  lemma FreshRegistration(s: State)
    requires Inv(s)
    ensures s.nextKey !in s.registrations
  {
    hide ListsOk, SlotsOk, AllPlaced, LedgerOk, OrderOk;
    forall r | r in s.registrations
      ensures r < s.nextKey
    {
      assert CountOk(s, r, s.registrations[r]);
    }
  }

  // ------------------------------------------------------------------ results

  lemma QuietProgresses(s: State, step: Step)
    requires Progressing(s) && (step.CreateStep? || step.DeleteStep? || step.UnregisterStep?)
    ensures Progressing(Next(s, step))
  {
    hide RejectAll, RemoveWorker;
    var t := Next(s, step);
    if step.UnregisterStep? { RemoveWorkerMembers(s.workers, step.worker); }
    forall q | q in t.queues && Tasks(t, q) != []
      ensures !CanServe(t, q)
    {
      assert q in s.queues && Tasks(s, q) == Tasks(t, q);
      forall w | w in t.workers
        ensures !Serves(t, w, q)
      {
        assert Serves(t, w, q) ==> w in s.workers && Serves(s, w, q);
      }
    }
  }

  // One step.
  lemma ProgressIff(s: State, step: Step)
    requires Inv(s) && Progressing(s)
    ensures Progressing(Next(s, step)) <==> !Strands(s, step)
  {
    hide Inv, Progressing, Refilled, FullWorker, Pends, Complete, Register, Put, Await, Dispatch, Target;
    match step
    case EnqueueStep(q, payload, id) => EnterProgresses(s, Target(s, q, payload), id, false);
    case SubmitStep(q, payload, id) => EnterProgresses(s, Target(s, q, payload), id, true);
    case CompleteStep(k, ok) =>
      if k in s.slots {
        if Strands(s, step) { CompleteStrands(s, k, ok); } else { CompleteProgresses(s, k, ok); }
      }
    case RegisterStep(w, names, maxConcurrent) => RegisterProgressIff(s, w, names, maxConcurrent);
    case _ => QuietProgresses(s, step);
  }

  ghost predicate AlwaysProgressing(steps: seq<Step>) {
    Progressing(After(steps)) && (steps == [] || AlwaysProgressing(steps[..|steps|-1]))
  }

  ghost predicate NeverStrands(steps: seq<Step>) {
    steps == [] || (NeverStrands(steps[..|steps|-1]) && !Strands(After(steps[..|steps|-1]), steps[|steps|-1]))
  }

  // Over whole runs: no task is ever left pending beside a free worker that
  // serves its queue exactly when no worker registers for a queue with pending
  // tasks, and no full worker ends a task while another queue it serves has
  // pending tasks, unless its place is filled again.
  lemma {:induction false} AlwaysProgressingIff(steps: seq<Step>)
    requires Legal(steps)
    ensures AlwaysProgressing(steps) <==> NeverStrands(steps)
    decreases |steps|
  {
    hide Inv, Progressing, Strands, Enabled, Next;
    if steps == [] {
      InitialProgressing();
    } else {
      var before := steps[..|steps|-1];
      AlwaysProgressingIff(before);
      if AlwaysProgressing(before) {
        LegalInv(before);
        assert Progressing(After(before));
        ProgressIff(After(before), steps[|steps|-1]);
      }
    }
  }

  lemma InitialProgressing()
    ensures Progressing(Initial())
  {}

  // A run that strands a task: its caller waits, and the worker registered for
  // its queue is free.
  lemma RegistrationStrands(q: Name, payload: Payload, id: Id, w: WorkerId)
    ensures var s := After([CreateStep(q, None), SubmitStep(q, payload, id), RegisterStep(w, [q], 1)]);
            Reachable(s) && id in s.settlements && Tasks(s, q) == [Task(id, q)] && q in s.queues &&
            FirstServing(s, q, 0).Some? && !Progressing(s)
  {
    var two := [CreateStep(q, None), SubmitStep(q, payload, id)];
    var step := RegisterStep(w, [q], 1);
    var steps := two + [step];
    assert steps[..2] == two && steps == [CreateStep(q, None), SubmitStep(q, payload, id), step];
    var s := CreatedSubmitted(q, payload, id);
    assert [q][..0] == [];
    assert CreateMissing(AddRegistration(s, w, [q], 1), [q]) == AddRegistration(s, w, [q], 1);
    var t := AddRegistration(s, w, [q], 1);
    assert After(steps) == t && Legal(steps);
    assert t.workers == [Worker(w, s.nextKey)];
    assert Serves(t, t.workers[0], q) && CanServe(t, q);
    assert Reachable(After(steps));
  }

  lemma CreatedSubmitted(q: Name, payload: Payload, id: Id) returns (s: State)
    ensures var steps := [CreateStep(q, None), SubmitStep(q, payload, id)];
            s == After(steps) && Legal(steps) && s.queues == {q} && s.workers == [] && s.registrations == map[] &&
            id in s.settlements && Tasks(s, q) == [Task(id, q)]
  {
    var first := [CreateStep(q, None)];
    var steps := [CreateStep(q, None), SubmitStep(q, payload, id)];
    assert steps[..1] == first && first[..0] == [];
    assert Legal([]) && After([]) == Initial();
    assert Legal(first) && After(first) == CreateQueue(Initial(), q, None);
    s := After(steps);
  }
}
