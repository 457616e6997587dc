/**
 When a delivery is posted again: no sooner than its retry is due, and never
 after an answer that it was received, unless a crash comes before that was
 saved.
 */
module WebhookRetries {
  import opened Basics
  import opened WebhookDelivery

  // The record is due no sooner than that; None is never.
  predicate Due(d: Delivery, due: Option<nat>) {
    due.Some? && d.nextAttemptAt.Some? && due.value <= d.nextAttemptAt.value
  }

  predicate Holds(d: Delivery, due: Option<nat>) {
    Terminal(d) || Due(d, due)
  }

  predicate WorkHeld(w: Work, due: Option<nat>) {
    if w.Saving? then Terminal(w.delivery) else w.SavingToSchedule? && Due(w.delivery, due)
  }

  // Nothing under way could post the delivery sooner, unless the process
  // restarts.
  ghost predicate HeldNow(s: State, id: Id, due: Option<nat>) {
    && id in s.home
    && (id in s.timers ==> due.Some? && due.value <= s.timers[id])
    && (forall k :: k in s.work && s.work[k].id == id ==> WorkHeld(s.work[k], due))
    && (id in s.deliveries ==> Holds(s.deliveries[id], due))
  }

  ghost predicate StoredHolds(s: State, id: Id, due: Option<nat>) {
    id in s.stored ==> Holds(s.stored[id], due)
  }

  ghost predicate Held(s: State, id: Id, due: Option<nat>) {
    HeldNow(s, id, due) && StoredHolds(s, id, due)
  }

  // A step that is no timer of the delivery and no retry of it by hand.
  ghost predicate Leaves(s: State, step: Step, id: Id) {
    Enabled(s, step) && !(step.RetryStep? && step.id == id) && !(step.FireStep? && step.id == id)
  }

  ghost predicate Waits(s: State, steps: seq<Step>, id: Id)
    decreases |steps|
  {
    steps != [] ==> Leaves(s, steps[0], id) && Waits(Next(s, steps[0]), steps[1..], id)
  }

  // The timer of the delivery does not fire sooner.
  ghost predicate NotYet(s: State, id: Id, due: Option<nat>) {
    forall active, now :: Enabled(s, FireStep(id, active, now)) ==> due.Some? && due.value <= now
  }

  // However the run goes on.
  ghost predicate NotSooner(s: State, id: Id, due: Option<nat>) {
    forall steps :: Waits(s, steps, id) ==> NotYet(After(s, steps), id, due)
  }

  // The process does not restart before the call has gone on with its save.
  ghost predicate Survives(s: State, steps: seq<Step>, key: nat)
    decreases |steps|
  {
    steps != [] ==> (steps[0].RestartStep? ==> key !in s.work) && Survives(Next(s, steps[0]), steps[1..], key)
  }

  ghost predicate NotSoonerIfSaved(s: State, id: Id, due: Option<nat>, key: nat) {
    forall steps :: Waits(s, steps, id) && Survives(s, steps, key) ==> NotYet(After(s, steps), id, due)
  }

  // ---------------------------------------------------------------- one step

  lemma EnqueueHolds(s: State, x: Id, webhook: WebhookId, now: nat, id: Id, due: Option<nat>)
    requires HeldNow(s, id, due) && x !in s.home
    ensures HeldNow(Enqueue(s, x, webhook, now), id, due) && Enqueue(s, x, webhook, now).stored == s.stored
  {}

  lemma LandHolds(s: State, k: nat, now: nat, id: Id, due: Option<nat>)
    requires HeldNow(s, id, due) && k in s.work && !s.work[k].Posting?
    ensures HeldNow(Land(s, k, now), id, due)
    ensures StoredHolds(s, id, due) || s.work[k].id == id ==> StoredHolds(Land(s, k, now), id, due)
  {
    var w := s.work[k];
    var t := s.(stored := s.stored[w.id := w.delivery], work := s.work - {k});
    assert WorkHeld(w, due) <== w.id == id;
    assert HeldNow(t, id, due) by { hide WorkHeld, Holds; }
    if w.SavingToSchedule? {
      ScheduleHolds(t, w.id, w.delivery, now, id, due);
    }
    hide HeldNow, Schedule;
  }

  lemma ScheduleHolds(s: State, x: Id, d: Delivery, now: nat, id: Id, due: Option<nat>)
    requires HeldNow(s, id, due) && (x == id ==> Due(d, due))
    ensures HeldNow(Schedule(s, x, d, now), id, due)
  {
    hide WorkHeld, Holds;
  }

  lemma FireHolds(s: State, x: Id, active: bool, now: nat, id: Id, due: Option<nat>)
    requires HeldNow(s, id, due) && x != id
    ensures HeldNow(Fire(s, x, active, now), id, due) && Fire(s, x, active, now).stored == s.stored
  {
    var t := s.(timers := s.timers - {x});
    assert HeldNow(t, id, due);
    if x in s.deliveries {
      SaveHolds(t, x, s.deliveries[x].(status := Failed, updatedAt := now), false, id, due);
      PostHolds(t, x, id, due);
    }
    hide HeldNow, Save, Post;
  }

  lemma SaveHolds(s: State, x: Id, d: Delivery, schedule: bool, id: Id, due: Option<nat>)
    requires HeldNow(s, id, due) && x != id
    ensures HeldNow(Save(s, x, d, schedule), id, due) && Save(s, x, d, schedule).stored == s.stored
  {
    hide Holds, WorkHeld;
  }

  lemma PostHolds(s: State, x: Id, id: Id, due: Option<nat>)
    requires HeldNow(s, id, due) && x != id && x in s.deliveries
    ensures HeldNow(Post(s, x), id, due) && Post(s, x).stored == s.stored
  {
    hide Holds, WorkHeld;
  }

  lemma AnswerHolds(s: State, k: nat, ok: bool, now: nat, id: Id, due: Option<nat>)
    requires HeldNow(s, id, due) && k in s.work && s.work[k].Posting?
    ensures HeldNow(Answer(s, k, ok, now), id, due) && Answer(s, k, ok, now).stored == s.stored
  {
    assert WorkHeld(s.work[k], due) <== s.work[k].id == id;
    hide AfterSuccess, AfterFailure;
  }

  lemma RemoveHolds(s: State, c: nat, id: Id, due: Option<nat>)
    requires HeldNow(s, id, due) && c in s.cleanups && s.cleanups[c] != []
    ensures HeldNow(RemoveFirst(s, c), id, due)
    ensures StoredHolds(s, id, due) ==> StoredHolds(RemoveFirst(s, c), id, due)
  {
    hide Holds, WorkHeld;
  }

  lemma ResumeHolds(s: State, now: nat, id: Id, due: Option<nat>)
    requires HeldNow(s, id, due)
    ensures HeldNow(Resume(s, now), id, due) && Resume(s, now).stored == s.stored
  {}

  lemma RetryHolds(s: State, x: Id, now: nat, id: Id, due: Option<nat>)
    requires HeldNow(s, id, due) && x != id
    ensures HeldNow(Retry(s, x, now), id, due) && Retry(s, x, now).stored == s.stored
  {}

  lemma RestartHolds(s: State, id: Id, due: Option<nat>)
    requires Held(s, id, due)
    ensures Held(Restart(s), id, due)
  {}

  // Without a restart what is held stays so; with one, if storage holds it too.
  lemma StepHolds(s: State, step: Step, id: Id, due: Option<nat>)
    requires HeldNow(s, id, due) && Leaves(s, step, id)
    requires step.RestartStep? ==> StoredHolds(s, id, due)
    ensures HeldNow(Next(s, step), id, due)
    ensures StoredHolds(s, id, due) || (step.LandStep? && s.work[step.key].id == id) ==>
              StoredHolds(Next(s, step), id, due)
  {
    hide HeldNow, Enqueue, Land, Fire, Answer, RemoveFirst, Restart, Resume, Retry;
    match step
    case EnqueueStep(x, webhook, now) => EnqueueHolds(s, x, webhook, now, id, due);
    case LandStep(k, now) => LandHolds(s, k, now, id, due);
    case FireStep(x, active, now) => FireHolds(s, x, active, now, id, due);
    case AnswerStep(k, ok, now) => AnswerHolds(s, k, ok, now, id, due);
    case CleanupStep(ids, _) => assert HeldNow(BeginCleanup(s, ids), id, due) by { CleanupHolds(s, ids, id, due); }
    case RemoveStep(c) => RemoveHolds(s, c, id, due);
    case RestartStep => RestartHolds(s, id, due);
    case ResumeStep(now) => ResumeHolds(s, now, id, due);
    case RetryStep(x, now) => RetryHolds(s, x, now, id, due);
  }

  lemma CleanupHolds(s: State, ids: seq<Id>, id: Id, due: Option<nat>)
    requires HeldNow(s, id, due)
    ensures HeldNow(BeginCleanup(s, ids), id, due)
  {}

  // -------------------------------------------------------------- whole runs

  lemma {:induction false} HeldWaits(s: State, steps: seq<Step>, id: Id, due: Option<nat>)
    requires Held(s, id, due) && Waits(s, steps, id)
    ensures Held(After(s, steps), id, due)
    decreases |steps|
  {
    hide HeldNow, StoredHolds, Leaves, Next;
    if steps != [] {
      StepHolds(s, steps[0], id, due);
      HeldWaits(Next(s, steps[0]), steps[1..], id, due);
    }
  }

  lemma HeldNotSooner(s: State, id: Id, due: Option<nat>)
    requires Held(s, id, due)
    ensures NotSooner(s, id, due)
  {
    hide Waits, After;
    forall steps | Waits(s, steps, id)
      ensures NotYet(After(s, steps), id, due)
    {
      HeldWaits(s, steps, id, due);
    }
  }

  // The call of this key has still to save a record of the delivery, or else
  // what storage has of it holds.
  ghost predicate SaveAhead(s: State, id: Id, due: Option<nat>, key: nat) {
    key < s.nextKey &&
    if key in s.work then s.work[key].id == id && !s.work[key].Posting? else StoredHolds(s, id, due)
  }

  lemma SaveAheadStep(s: State, step: Step, id: Id, due: Option<nat>, key: nat)
    requires HeldNow(s, id, due) && SaveAhead(s, id, due, key) && Leaves(s, step, id)
    requires step.RestartStep? ==> key !in s.work
    ensures HeldNow(Next(s, step), id, due) && SaveAhead(Next(s, step), id, due, key)
  {
    hide HeldNow, StoredHolds;
    StepHolds(s, step, id, due);
    WorkStaysStep(s, step, key);
    hide Next, Leaves;
  }

  // Keys are new, and what is under way stays as it is while it is there.
  ghost predicate WorkSame(s: State, t: State, key: nat) {
    s.nextKey <= t.nextKey && (key in t.work ==> key in s.work && t.work[key] == s.work[key])
  }

  ghost predicate WorkStays(s: State, t: State, key: nat) {
    WorkSame(s, t, key) && (key in s.work && !s.work[key].Posting? ==> key in t.work)
  }

  lemma SaveWork(s: State, id: Id, d: Delivery, schedule: bool, key: nat)
    requires key < s.nextKey
    ensures WorkStays(s, Save(s, id, d, schedule), key)
  {}

  lemma FireWork(s: State, id: Id, active: bool, now: nat, key: nat)
    requires key < s.nextKey
    ensures WorkStays(s, Fire(s, id, active, now), key)
  {}

  lemma AnswerWork(s: State, k: nat, ok: bool, now: nat, key: nat)
    requires key < s.nextKey && k in s.work && s.work[k].Posting?
    ensures WorkStays(s, Answer(s, k, ok, now), key)
  {
    hide AfterSuccess, AfterFailure;
  }

  lemma LandWork(s: State, k: nat, now: nat, key: nat)
    requires key < s.nextKey && k in s.work && !s.work[k].Posting?
    ensures WorkSame(s, Land(s, k, now), key) && (key in s.work && key != k ==> key in Land(s, k, now).work)
  {
    hide DueAt;
  }

  // Work that is not being posted stays until it lands or is lost.
  lemma WorkStaysStep(s: State, step: Step, key: nat)
    requires Enabled(s, step) && key < s.nextKey
    ensures WorkSame(s, Next(s, step), key)
    ensures step.RestartStep? || (step.LandStep? && step.key == key) || WorkStays(s, Next(s, step), key)
  {
    hide Save, Land, Fire, Answer, OnTimers, DueTimes, NewDelivery, Reopened;
    match step
    case EnqueueStep(id, webhook, now) => SaveWork(s, id, NewDelivery(webhook, now), true, key);
    case LandStep(k, now) => LandWork(s, k, now, key);
    case FireStep(id, active, now) => FireWork(s, id, active, now, key);
    case AnswerStep(k, ok, now) => AnswerWork(s, k, ok, now, key);
    case RetryStep(id, now) =>
      if id in s.deliveries {
        SaveWork(s.(retried := s.retried + {id}), id, Reopened(s.deliveries[id], now), true, key);
      }
    case _ =>
  }

  lemma {:induction false} SavedWaits(s: State, steps: seq<Step>, id: Id, due: Option<nat>, key: nat)
    requires HeldNow(s, id, due) && SaveAhead(s, id, due, key) && Waits(s, steps, id) && Survives(s, steps, key)
    ensures HeldNow(After(s, steps), id, due)
    decreases |steps|
  {
    hide HeldNow, SaveAhead, Leaves, Next;
    if steps != [] {
      SaveAheadStep(s, steps[0], id, due, key);
      SavedWaits(Next(s, steps[0]), steps[1..], id, due, key);
    }
  }

  lemma SavedNotSooner(s: State, id: Id, due: Option<nat>, key: nat)
    requires HeldNow(s, id, due) && SaveAhead(s, id, due, key)
    ensures NotSoonerIfSaved(s, id, due, key)
  {
    hide Waits, Survives, After, SaveAhead;
    forall steps | Waits(s, steps, id) && Survives(s, steps, key)
      ensures NotYet(After(s, steps), id, due)
    {
      SavedWaits(s, steps, id, due, key);
    }
  }

  // What a crash brings back when an unfinished record is stored that is due
  // sooner.
  lemma CrashPostsSooner(s: State, id: Id, due: Option<nat>)
    requires id in s.stored && !Holds(s.stored[id], due) && RecordOk(s.stored[id])
    ensures !NotSooner(s, id, due)
  {
    CrashTimer(s, id);
    hide Restart, Resume, RecordOk;
    var u := Resume(Restart(s), 0);
    var steps := [RestartStep, ResumeStep(0)];
    CrashRun(s, id);
    assert Enabled(u, FireStep(id, true, u.timers[id]));
    assert !NotYet(u, id, due);
  }

  lemma CrashTimer(s: State, id: Id)
    requires id in s.stored && !Terminal(s.stored[id]) && RecordOk(s.stored[id])
    ensures var u := Resume(Restart(s), 0);
            id in u.timers && s.stored[id].nextAttemptAt == Some(u.timers[id])
  {}

  lemma CrashRun(s: State, id: Id)
    ensures var steps := [RestartStep, ResumeStep(0)];
            Waits(s, steps, id) && After(s, steps) == Resume(Restart(s), 0)
  {
    var steps := [RestartStep, ResumeStep(0)];
    var t, u := Restart(s), Resume(Restart(s), 0);
    assert t.loading;
    hide Restart, Resume;
    assert steps[1..] == [ResumeStep(0)] && steps[1..][1..] == [];
    assert After(u, []) == u && Waits(u, [], id);
    assert After(t, steps[1..]) == u && Waits(t, steps[1..], id);
  }

  // ------------------------------------------------------------------ results

  // An answer: what becomes of the record, and when its retry is due, if any.
  lemma AnswerOutcome(s: State, k: nat, ok: bool, now: nat)
    requires Inv(s) && k in s.work && s.work[k].Posting?
    ensures var id, n, t := s.work[k].id, s.work[k].delivery.attemptCount + 1, Answer(s, k, ok, now);
            id in t.deliveries && t.deliveries[id].attemptCount == n && t.deliveries[id].updatedAt == now &&
            if ok then t.deliveries[id].status.Success?
            else if n == 5 then t.deliveries[id].status.DeadLettered?
            else t.deliveries[id].status.RetryScheduled? && t.deliveries[id].nextAttemptAt == Some(now + Wait(n))
  {
    hide Inv, RetryDelay, Wait;
    WorkTaken(s, k);
    DelayIsWait(s.work[k].delivery.attemptCount + 1);
  }

  // When the retry after an answer is due: never after a success, nor after the
  // fifth failure.
  function RetryDue(attempts: nat, ok: bool, now: nat): Option<nat> {
    if ok || attempts == 5 then None else Some(now + Wait(attempts))
  }

  lemma AnswerHeld(s: State, k: nat, ok: bool, now: nat)
    requires Inv(s) && k in s.work && s.work[k].Posting?
    ensures var id, t := s.work[k].id, Answer(s, k, ok, now);
            var due := RetryDue(s.work[k].delivery.attemptCount + 1, ok, now);
            HeldNow(t, id, due) && t.stored == s.stored && SaveAhead(t, id, due, s.nextKey)
  {
    hide RetryDelay, Wait, Inv;
    WorkTaken(s, k);
    DelayIsWait(s.work[k].delivery.attemptCount + 1);
    var id := s.work[k].id;
    var t := s.(work := s.work - {k});
    forall j | j in t.work && t.work[j].id == id
      ensures t.work[j].Saving? && Terminal(t.work[j].delivery)
    {
      assert WorkOk(t, j, t.work[j]);
    }
    hide Detached;
  }

  // After an answer no timer of the delivery fires before its retry is due, and
  // never again if none is, whatever else happens short of a retry by hand,
  // exactly if storage has no unfinished record of it that is due sooner.
  lemma RetriesInTimeIff(s: State, k: nat, ok: bool, now: nat)
    requires Reachable(s) && k in s.work && s.work[k].Posting?
    ensures var id, due := s.work[k].id, RetryDue(s.work[k].delivery.attemptCount + 1, ok, now);
            NotSooner(Answer(s, k, ok, now), id, due) <==> (id in s.stored ==> Holds(s.stored[id], due))
  {
    ReachableInv(s);
    hide Reachable, NotSooner, Holds, HeldNow;
    var id, t := s.work[k].id, Answer(s, k, ok, now);
    var due := RetryDue(s.work[k].delivery.attemptCount + 1, ok, now);
    AnswerHeld(s, k, ok, now);
    hide Answer, RetryDue;
    if id in s.stored && !Holds(s.stored[id], due) {
      CrashPostsSooner(t, id, due);
    } else {
      HeldNotSooner(t, id, due);
    }
  }

  // And always if the process does not restart before the record is saved.
  lemma SavedRetriesInTime(s: State, k: nat, ok: bool, now: nat)
    requires Reachable(s) && k in s.work && s.work[k].Posting?
    ensures var id, due := s.work[k].id, RetryDue(s.work[k].delivery.attemptCount + 1, ok, now);
            NotSoonerIfSaved(Answer(s, k, ok, now), id, due, s.nextKey)
  {
    ReachableInv(s);
    hide Reachable, NotSoonerIfSaved, HeldNow, SaveAhead;
    AnswerHeld(s, k, ok, now);
    hide Answer, RetryDue;
    var due := RetryDue(s.work[k].delivery.attemptCount + 1, ok, now);
    SavedNotSooner(Answer(s, k, ok, now), s.work[k].id, due, s.nextKey);
  }

  // The waits in milliseconds, and at what time a scheduled retry is due.
  lemma RetryDelays(s: State, id: Id)
    requires Reachable(s) && id in s.deliveries && s.deliveries[id].status.RetryScheduled?
    ensures Wait(1) == 1000 && Wait(2) == 2000 && Wait(3) == 4000 && Wait(4) == 8000
    ensures var d := s.deliveries[id];
            1 <= d.attemptCount <= 4 && d.nextAttemptAt == Some(d.updatedAt + Wait(d.attemptCount)) &&
            (id in s.timers ==> d.nextAttemptAt.value <= s.timers[id])
  {
    ReachableInv(s);
    hide Reachable, Wait;
    assert DeliveryOk(s, id, s.deliveries[id]);
    FirstWaits();
  }

  lemma FirstWaits()
    ensures Wait(1) == 1000 && Wait(2) == 2000 && Wait(3) == 4000 && Wait(4) == 8000
  {
    assert Wait(2) == 2000;
    assert Wait(3) == 4000;
  }

  // A timer of a delivery whose webhook is active begins a request; otherwise
  // the delivery is given up without one.
  lemma FireOutcome(s: State, id: Id, active: bool, now: nat)
    requires Reachable(s) && id in s.timers && id in s.deliveries
    ensures var t := Fire(s, id, active, now);
            id !in t.timers && id in t.deliveries && id in s.begun && id in t.begun &&
            (PostingFor(t, id) <==> active) && t.begun[id] == s.begun[id] + (if active then 1 else 0) &&
            t.deliveries[id].attemptCount == s.deliveries[id].attemptCount &&
            t.deliveries[id].status == if active then s.deliveries[id].status else Failed
  {
    ReachableInv(s);
    hide Reachable;
    TimerTaken(s, id);
    assert DeliveryOk(s, id, s.deliveries[id]);
    hide Inv, DeliveryOk;
    var t := Fire(s, id, active, now);
    if active { assert t.work[s.nextKey].Posting? && t.work[s.nextKey].id == id; }
  }

  // When a record that is to be scheduled is saved, and for every unfinished one
  // when loading ends, the timer is set to when it is due, or to now if that is
  // past.
  lemma TimersOnTime(s: State, k: nat, now: nat, id: Id)
    requires Reachable(s)
    ensures k in s.work && s.work[k].SavingToSchedule? ==>
              s.work[k].delivery.nextAttemptAt.Some? && s.work[k].id in Land(s, k, now).timers &&
              var due := s.work[k].delivery.nextAttemptAt.value;
              Land(s, k, now).timers[s.work[k].id] == if due <= now then now else due
    ensures s.loading && id in s.deliveries && !Terminal(s.deliveries[id]) ==>
              s.deliveries[id].nextAttemptAt.Some? && id in Resume(s, now).timers &&
              var due := s.deliveries[id].nextAttemptAt.value;
              Resume(s, now).timers[id] == if due <= now then now else due
  {
    ReachableInv(s);
    hide Reachable, Wait;
    if k in s.work { assert WorkOk(s, k, s.work[k]); }
    if id in s.deliveries { assert DeliveryOk(s, id, s.deliveries[id]); }
    hide Inv;
  }
}
