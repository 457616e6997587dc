/** What the callers of submitted tasks are told, over whole runs. */
module TaskQueueOutcomes {
  import opened Basics
  import opened TaskQueue

  // Step i submits the task to an existing queue.
  ghost predicate Submits(steps: seq<Step>, i: int, id: Id) {
    0 <= i < |steps| && steps[i].SubmitStep? && steps[i].id == id && steps[i].queue in After(steps[..i]).queues
  }

  // Step i is the return (or the throw) of the worker that has the task.
  ghost predicate Ends(steps: seq<Step>, i: int, id: Id, ok: bool) {
    0 <= i < |steps| && steps[i].CompleteStep? && steps[i].ok == ok &&
    steps[i].slot in After(steps[..i]).slots && After(steps[..i]).slots[steps[i].slot].task.id == id
  }

  // Step i deletes the queue in which the task is pending.
  ghost predicate Deletes(steps: seq<Step>, i: int, id: Id) {
    0 <= i < |steps| && steps[i].DeleteStep? && steps[i].queue in After(steps[..i]).queues &&
    HasTask(Tasks(After(steps[..i]), steps[i].queue), id)
  }

  // A step tells the caller that waits for a task an outcome.
  ghost predicate Tells(s: State, step: Step, e: Settlement) {
    e.id in s.submitted &&
    match e.outcome
    case Resolved => step.CompleteStep? && step.ok && step.slot in s.slots && s.slots[step.slot].task.id == e.id
    case Rejected => step.CompleteStep? && !step.ok && step.slot in s.slots && s.slots[step.slot].task.id == e.id
    case QueueDeleted => step.DeleteStep? && step.queue in s.queues && HasTask(Tasks(s, step.queue), e.id)
  }

  lemma DispatchQuiet(s: State, q: Name)
    ensures Dispatch(s, q).log == s.log && Dispatch(s, q).submitted == s.submitted
  {}

  lemma {:induction false} CreateMissingQuiet(s: State, names: seq<Name>)
    ensures CreateMissing(s, names).log == s.log && CreateMissing(s, names).submitted == s.submitted
    decreases |names|
  {
    if names != [] { CreateMissingQuiet(s, names[..|names|-1]); }
  }

  lemma FinishTells(s: State, k: nat, ok: bool, e: Settlement)
    requires Inv(s) && k in s.slots
    ensures e in Finish(s, k, ok).log <==> e in s.log || Tells(s, CompleteStep(k, ok), e)
    ensures Finish(s, k, ok).submitted == s.submitted
  {
    assert SlotOk(s, k, s.slots[k]);
    PutBackQuiet(s, s.slots[k]);
    hide Inv, PutBack, SlotOk;
  }

  lemma PutBackQuiet(s: State, slot: Slot)
    ensures PutBack(s, slot).log == s.log && PutBack(s, slot).submitted == s.submitted
    ensures PutBack(s, slot).slots == s.slots
  {}

  // Which settlements a deletion makes.
  lemma {:induction false} RejectAllTells(settlements: set<Id>, log: seq<Settlement>, tasks: seq<Task>, e: Settlement)
    ensures var r := RejectAll(settlements, log, tasks);
            (e in r.1 <==> e in log || (e.outcome.QueueDeleted? && e.id in settlements && HasTask(tasks, e.id))) &&
            forall id :: id in r.0 <==> id in settlements && !HasTask(tasks, id)
    decreases |tasks|
  {
    if tasks != [] {
      var front, last := tasks[..|tasks|-1], tasks[|tasks|-1];
      RejectAllTells(settlements, log, front, e);
      hide RejectAll;
      forall id
        ensures HasTask(tasks, id) <==> HasTask(front, id) || last.id == id
      {
        HasTaskLast(tasks, id);
      }
      assert RejectAll(settlements, log, tasks) ==
             (var r := RejectAll(settlements, log, front); Settle(r.0, r.1, last.id, QueueDeleted)) by {
        RejectAllStep(settlements, log, tasks);
      }
    }
  }

  lemma RejectAllStep(settlements: set<Id>, log: seq<Settlement>, tasks: seq<Task>)
    requires tasks != []
    ensures RejectAll(settlements, log, tasks) ==
            var r := RejectAll(settlements, log, tasks[..|tasks|-1]);
            Settle(r.0, r.1, tasks[|tasks|-1].id, QueueDeleted)
  {}

  lemma HasTaskLast(tasks: seq<Task>, id: Id)
    requires tasks != []
    ensures HasTask(tasks, id) <==> HasTask(tasks[..|tasks|-1], id) || tasks[|tasks|-1].id == id
  {
    var front := tasks[..|tasks|-1];
    if HasTask(front, id) {
      var i :| 0 <= i < |front| && front[i].id == id;
      assert tasks[i].id == id;
    }
    if HasTask(tasks, id) {
      var i :| 0 <= i < |tasks| && tasks[i].id == id;
      if i < |front| { assert front[i].id == id; }
    }
  }

  lemma DeleteTells(s: State, q: Name, e: Settlement)
    requires Inv(s)
    ensures e in DeleteQueue(s, q).log <==> e in s.log || Tells(s, DeleteStep(q), e)
  {
    RejectAllTells(s.settlements, s.log, Tasks(s, q), e);
    hide RejectAll;
    if q in s.queues && HasTask(Tasks(s, q), e.id) && e.id in s.submitted {
      assert ListOk(s, q, s.pending[q]);
    }
  }

  lemma EnterQuiet(s: State, q: Name, payload: Payload, id: Id)
    ensures Or(Enqueue(s, q, payload, id), s).log == s.log && Or(Enqueue(s, q, payload, id), s).submitted == s.submitted
    ensures var t := Or(Submit(s, q, payload, id), s);
            t.log == s.log && t.submitted == if q in s.queues then s.submitted + {id} else s.submitted
  {
    if q in s.queues {
      var target := Target(s, q, payload);
      DispatchQuiet(Put(s, target, id), target);
      DispatchQuiet(Await(Put(s, target, id), id), target);
      hide Dispatch;
    }
  }

  // One step: the settlements it makes are those it tells.
  lemma StepTells(s: State, step: Step, e: Settlement)
    requires Inv(s) && Enabled(s, step)
    ensures e in Next(s, step).log <==> e in s.log || Tells(s, step, e)
    ensures Next(s, step).submitted ==
            if step.SubmitStep? && step.queue in s.queues then s.submitted + {step.id} else s.submitted
  {
    hide Inv, Enqueue, Submit, Dispatch, Finish, CreateMissing, DeleteQueue;
    match step
    case EnqueueStep(q, payload, id) => EnterQuiet(s, q, payload, id);
    case SubmitStep(q, payload, id) => EnterQuiet(s, q, payload, id);
    case CompleteStep(k, ok) =>
      if k in s.slots {
        FinishTells(s, k, ok, e);
        DispatchQuiet(Finish(s, k, ok), s.slots[k].queue);
      }
    case DeleteStep(q) => DeleteTells(s, q, e); DeleteQuiet(s, q);
    case RegisterStep(w, names, maxConcurrent) =>
      CreateMissingQuiet(AddRegistration(s, w, names, maxConcurrent), names);
    case _ =>
  }

  lemma DeleteQuiet(s: State, q: Name)
    ensures DeleteQueue(s, q).submitted == s.submitted
  {}

  // A step of a run is one of its front or the last one.
  lemma SubmitsLast(steps: seq<Step>, id: Id)
    requires steps != []
    ensures var front := steps[..|steps|-1];
            (exists i :: Submits(steps, i, id)) <==>
            (exists i :: Submits(front, i, id)) || Submits(steps, |front|, id)
  {
    var front := steps[..|steps|-1];
    forall i | 0 <= i < |front|
      ensures Submits(steps, i, id) <==> Submits(front, i, id)
    {
      assert front[..i] == steps[..i];
    }
  }

  lemma {:induction false} SubmittedIff(steps: seq<Step>, id: Id)
    requires Legal(steps)
    ensures id in After(steps).submitted <==> exists i :: Submits(steps, i, id)
    decreases |steps|
  {
    hide Inv, Next, Enabled, Submit, Enqueue;
    if steps != [] {
      var front := steps[..|steps|-1];
      SubmittedIff(front, id);
      SubmitsLast(steps, id);
      LegalInv(front);
      StepTells(After(front), steps[|front|], Settlement(id, Resolved));
      assert steps[..|front|] == front;
    }
  }

  ghost predicate TellsAt(steps: seq<Step>, j: int, e: Settlement) {
    0 <= j < |steps| && Tells(After(steps[..j]), steps[j], e)
  }

  lemma TellsLast(steps: seq<Step>, e: Settlement)
    requires steps != []
    ensures var front := steps[..|steps|-1];
            (exists j :: TellsAt(steps, j, e)) <==>
            (exists j :: TellsAt(front, j, e)) || Tells(After(front), steps[|front|], e)
  {
    hide Tells;
    var front := steps[..|steps|-1];
    forall j | 0 <= j < |front|
      ensures TellsAt(steps, j, e) <==> TellsAt(front, j, e)
    {
      assert front[..j] == steps[..j];
    }
    assert TellsAt(steps, |front|, e) <==> Tells(After(front), steps[|front|], e);
  }

  lemma {:induction false} LoggedIffTold(steps: seq<Step>, e: Settlement)
    requires Legal(steps)
    ensures e in After(steps).log <==> exists j :: TellsAt(steps, j, e)
    decreases |steps|
  {
    hide Inv, Next, Enabled, Tells;
    if steps != [] {
      hide TellsAt;
      var front := steps[..|steps|-1];
      LoggedIffTold(front, e);
      TellsLast(steps, e);
      LegalInv(front);
      StepTells(After(front), steps[|front|], e);
    }
  }

  // The task was submitted before step j.
  ghost predicate SubmittedBefore(steps: seq<Step>, j: int, id: Id) {
    exists i :: i < j && Submits(steps, i, id)
  }

  lemma {:induction false} LegalFront(steps: seq<Step>, j: nat)
    requires Legal(steps) && j <= |steps|
    ensures Legal(steps[..j])
    decreases |steps|
  {
    if j == |steps| {
      assert steps[..j] == steps;
    } else {
      LegalFront(steps[..|steps|-1], j);
      assert steps[..|steps|-1][..j] == steps[..j];
    }
  }

  lemma SubmittedBeforeIff(steps: seq<Step>, j: nat, id: Id)
    requires Legal(steps) && j < |steps|
    ensures id in After(steps[..j]).submitted <==> SubmittedBefore(steps, j, id)
  {
    LegalFront(steps, j);
    SubmittedIff(steps[..j], id);
    forall i | 0 <= i < j
      ensures Submits(steps, i, id) <==> Submits(steps[..j], i, id)
    {
      assert steps[..j][..i] == steps[..i];
    }
  }

  // Over every legal run the caller of a submitted task is told the return of
  // its worker exactly as a result, the throw exactly as an error, and the
  // deletion of the queue exactly when the task was pending there then.
  lemma CallersAreTold(steps: seq<Step>, id: Id)
    requires Legal(steps)
    ensures Settlement(id, Resolved) in After(steps).log <==>
            exists j :: Ends(steps, j, id, true) && SubmittedBefore(steps, j, id)
    ensures Settlement(id, Rejected) in After(steps).log <==>
            exists j :: Ends(steps, j, id, false) && SubmittedBefore(steps, j, id)
    ensures Settlement(id, QueueDeleted) in After(steps).log <==>
            exists j :: Deletes(steps, j, id) && SubmittedBefore(steps, j, id)
  {
    hide Legal, SubmittedBefore, HasTask;
    forall j | 0 <= j < |steps|
      ensures id in After(steps[..j]).submitted <==> SubmittedBefore(steps, j, id)
    {
      SubmittedBeforeIff(steps, j, id);
    }
    ToldAt(steps, id);
    LoggedIffTold(steps, Settlement(id, Resolved));
    LoggedIffTold(steps, Settlement(id, Rejected));
    LoggedIffTold(steps, Settlement(id, QueueDeleted));
    hide TellsAt, Ends, Deletes, After;
  }

  lemma ToldAt(steps: seq<Step>, id: Id)
    requires forall j :: 0 <= j < |steps| ==>
               (id in After(steps[..j]).submitted <==> SubmittedBefore(steps, j, id))
    ensures forall j :: TellsAt(steps, j, Settlement(id, Resolved)) <==>
                        Ends(steps, j, id, true) && SubmittedBefore(steps, j, id)
    ensures forall j :: TellsAt(steps, j, Settlement(id, Rejected)) <==>
                        Ends(steps, j, id, false) && SubmittedBefore(steps, j, id)
    ensures forall j :: TellsAt(steps, j, Settlement(id, QueueDeleted)) <==>
                        Deletes(steps, j, id) && SubmittedBefore(steps, j, id)
  {
    hide After, SubmittedBefore, HasTask;
  }
}
