/**
 When a caller can wait for a task that is nowhere: a queue is created over
 pending tasks, by name or by the registration of a worker.
 */
module TaskQueueLosses {
  import opened Basics
  import opened TaskQueue

  // The caller of the task waits, and no pending list or worker has it.
  ghost predicate Lost(s: State, id: Id) {
    id in s.settlements && forall spot :: !At(s, id, spot)
  }

  ghost predicate NoneLost(s: State) {
    forall id :: !Lost(s, id)
  }

  lemma InvNoneLost(s: State)
    requires Inv(s)
    ensures NoneLost(s)
  {
    hide Inv;
    forall id
      ensures !Lost(s, id)
    {
      if id in s.settlements { var spot := PlacedSpot(s, id); }
    }
  }

  // A new empty list in the place of one with an awaited task.
  lemma EmptiedLoses(s: State, t: State, q: Name, i: nat)
    requires Inv(s) && i < |Tasks(s, q)| && Tasks(s, q)[i].id in s.settlements
    requires t.settlements == s.settlements && t.slots == s.slots && Tasks(t, q) == []
    requires forall p :: Tasks(t, p) == Tasks(s, p) || Tasks(t, p) == []
    ensures Lost(t, Tasks(s, q)[i].id)
  {
    var id := Tasks(s, q)[i].id;
    assert At(s, id, InList(q, i));
    hide Inv;
    forall spot
      ensures !At(t, id, spot)
    {
      if At(t, id, spot) {
        AtBefore(s, t, id, spot);
        OneSpot(s, id, spot, InList(q, i));
      }
    }
  }

  lemma AtBefore(s: State, t: State, id: Id, spot: Spot)
    requires t.slots == s.slots && At(t, id, spot)
    requires forall p :: Tasks(t, p) == Tasks(s, p) || Tasks(t, p) == []
    ensures At(s, id, spot)
  {
    if spot.InList? { assert Tasks(t, spot.queue) != []; }
  }

  lemma CreateLosesIff(s: State, q: Name, routing: Option<Routing>)
    requires Inv(s)
    ensures NoneLost(CreateQueue(s, q, routing)) <==> NobodyWaits(s, q)
  {
    var t := CreateQueue(s, q, routing);
    if NobodyWaits(s, q) {
      CreateKeepsIff(s, q, routing);
      hide Inv, CreateQueue, NoneLost;
      InvNoneLost(t);
    } else {
      hide Inv;
      var i :| 0 <= i < |Tasks(s, q)| && Tasks(s, q)[i].id in s.settlements;
      EmptiedLoses(s, t, q, i);
    }
  }

  lemma RegisterLosesIff(s: State, w: WorkerId, names: seq<Name>, maxConcurrent: int)
    requires Inv(s)
    ensures NoneLost(Register(s, w, names, maxConcurrent)) <==> NobodyWaitsMissing(s, names)
  {
    hide Inv;
    var t := Register(s, w, names, maxConcurrent);
    if NobodyWaitsMissing(s, names) {
      RegisterKeepsIff(s, w, names, maxConcurrent);
      hide Register, NoneLost;
      InvNoneLost(t);
    } else {
      var j :| 0 <= j < |names| && names[j] !in s.queues && !NobodyWaits(s, names[j]);
      var i :| 0 <= i < |Tasks(s, names[j])| && Tasks(s, names[j])[i].id in s.settlements;
      MissingTasks(AddRegistration(s, w, names, maxConcurrent), names);
      hide CreateMissing, SetWorker;
      assert forall p :: Tasks(AddRegistration(s, w, names, maxConcurrent), p) == Tasks(s, p);
      EmptiedLoses(s, t, names[j], i);
    }
  }

  // ------------------------------------------------------------------ results

  // Fresh ids, and only running tasks end; any queue may be created, any
  // worker registered, and tasks may be routed anywhere.
  ghost predicate AllSound(steps: seq<Step>) {
    steps == [] || (AllSound(steps[..|steps|-1]) && Sound(After(steps[..|steps|-1]), steps[|steps|-1]))
  }

  ghost predicate NeverLost(steps: seq<Step>) {
    NoneLost(After(steps)) && (steps == [] || NeverLost(steps[..|steps|-1]))
  }

  ghost predicate AlwaysInv(steps: seq<Step>) {
    Inv(After(steps)) && (steps == [] || AlwaysInv(steps[..|steps|-1]))
  }

  // A sound step loses a task exactly when it creates a queue, or registers a
  // worker for a name without queue, where somebody waits for a pending task.
  lemma StepLosesIff(s: State, step: Step)
    requires Inv(s) && Sound(s, step)
    ensures NoneLost(Next(s, step)) <==> Enabled(s, step)
    ensures Inv(Next(s, step)) <==> Enabled(s, step)
  {
    hide Inv, NoneLost, CreateQueue, Register, NobodyWaits, NobodyWaitsMissing, DeleteQueue, Unregister, Complete,
      Enqueue, Submit;
    if Enabled(s, step) {
      StepKeeps(s, step);
      InvNoneLost(Next(s, step));
    } else if step.CreateStep? {
      CreateLosesIff(s, step.queue, step.routing);
      CreateKeepsIff(s, step.queue, step.routing);
    } else {
      RegisterLosesIff(s, step.worker, step.names, step.maxConcurrent);
      RegisterKeepsIff(s, step.worker, step.names, step.maxConcurrent);
    }
  }

  // Over whole runs: no caller is ever left waiting for a task that is nowhere
  // exactly when the run is legal, and then only does the invariant hold
  // throughout.
  lemma {:induction false} NeverLostIff(steps: seq<Step>)
    requires AllSound(steps)
    ensures NeverLost(steps) <==> Legal(steps)
    ensures AlwaysInv(steps) <==> Legal(steps)
    decreases |steps|
  {
    hide Inv, NoneLost, Enabled, Sound, Next;
    if steps == [] {
      InitialInv();
      InvNoneLost(Initial());
    } else {
      var before := steps[..|steps|-1];
      NeverLostIff(before);
      if Legal(before) {
        LegalInv(before);
        StepLosesIff(After(before), steps[|steps|-1]);
      }
    }
  }

  // Routes every payload to one name.
  function To(p: Name): Routing {
    (x: Payload) => p
  }

  // The second way to lose a task: it is routed to a name without a queue, and
  // a worker is registered for that name.
  lemma RoutedTaskLost(q: Name, p: Name, payload: Payload, id: Id, w: WorkerId)
    requires p != q
    ensures var two := [CreateStep(q, Some(To(p))), SubmitStep(q, payload, id)];
            var steps := two + [RegisterStep(w, [p], 1)];
            Legal(two) && AllSound(steps) && Lost(After(steps), id)
  {
    var two := [CreateStep(q, Some(To(p))), SubmitStep(q, payload, id)];
    var steps := two + [RegisterStep(w, [p], 1)];
    var s := RoutedAway(q, p, payload, id);
    LegalInv(two);
    assert steps[..2] == two;
    hide Inv, Register, Legal;
    RegisterAway(s, w, p);
    hide Next;
    assert AllSound(steps) && After(steps) == Next(s, RegisterStep(w, [p], 1));
  }

  lemma RoutedAway(q: Name, p: Name, payload: Payload, id: Id) returns (s: State)
    requires p != q
    ensures var two := [CreateStep(q, Some(To(p))), SubmitStep(q, payload, id)];
            Legal(two) && AllSound(two) && s == After(two) &&
            Tasks(s, p) == [Task(id, p)] && id in s.settlements && p !in s.queues
  {
    var one := [CreateStep(q, Some(To(p)))];
    var two := [CreateStep(q, Some(To(p))), SubmitStep(q, payload, id)];
    assert two[..1] == one && one[..0] == [];
    var none: seq<Step> := [];
    assert Legal(none) && AllSound(none) && After(none) == Initial();
    var a := CreateQueue(Initial(), q, Some(To(p)));
    assert After(one) == a && Legal(one) && AllSound(one);
    s := After(two);
    assert Target(a, q, payload) == p;
    assert s == Dispatch(Await(Put(a, p, id), id), p);
  }

  lemma RegisterAway(s: State, w: WorkerId, p: Name)
    requires Inv(s) && |Tasks(s, p)| == 1 && Tasks(s, p)[0].id in s.settlements && p !in s.queues
    ensures Lost(Next(s, RegisterStep(w, [p], 1)), Tasks(s, p)[0].id)
  {
    hide Inv;
    MissingTasks(AddRegistration(s, w, [p], 1), [p]);
    hide CreateMissing, SetWorker;
    assert forall x :: Tasks(AddRegistration(s, w, [p], 1), x) == Tasks(s, x);
    EmptiedLoses(s, Register(s, w, [p], 1), p, 0);
  }
}
