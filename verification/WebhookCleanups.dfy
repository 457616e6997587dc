/**
 Retries by hand beside cleanups: when a cleanup that has listed its records
 removes only such as are terminal.
 */
module WebhookCleanups {
  import opened Basics
  import opened WebhookDelivery

  // No unfinished cleanup lists the delivery.
  ghost predicate Unlisted(s: State, id: Id) {
    forall c :: c in s.cleanups ==> id !in s.cleanups[c]
  }

  // A careful step that retries no delivery an unfinished cleanup lists.
  ghost predicate Orderly(s: State, step: Step) {
    Careful(s, step) && (step.RetryStep? && step.id in s.deliveries ==> Unlisted(s, step.id))
  }

  // The next removal of some cleanup takes a record that is not terminal.
  ghost predicate TakesUnfinished(s: State) {
    exists c :: c in s.cleanups && HeadUnfinished(s, s.cleanups[c])
  }

  ghost predicate HeadUnfinished(s: State, ids: seq<Id>) {
    ids != [] && ids[0] in s.deliveries && !Terminal(s.deliveries[ids[0]])
  }

  // --------------------------------------------------------------- invariant

  ghost predicate ListTerminal(s: State, ids: seq<Id>) {
    forall i :: 0 <= i < |ids| && ids[i] in s.deliveries ==> Terminal(s.deliveries[ids[i]])
  }

  ghost predicate ListsTerminal(s: State) {
    forall c :: c in s.cleanups ==> ListTerminal(s, s.cleanups[c])
  }

  // What is scheduled or posted later has its record in memory.
  ghost predicate WorkRecorded(s: State) {
    forall k :: k in s.work && !s.work[k].Saving? ==> s.work[k].id in s.deliveries
  }

  ghost predicate Clean(s: State) {
    Inv(s) && ListsTerminal(s) && WorkRecorded(s)
  }

  // Lists stay terminal while what is not terminal is unlisted.
  lemma ListsSame(s: State, t: State)
    requires ListsTerminal(s) && t.cleanups == s.cleanups
    requires forall id :: id in t.deliveries && !Terminal(t.deliveries[id]) ==>
               Unlisted(s, id) || (id in s.deliveries && !Terminal(s.deliveries[id]))
    ensures ListsTerminal(t)
  {
    forall c | c in t.cleanups
      ensures ListTerminal(t, t.cleanups[c])
    {
      assert ListTerminal(s, s.cleanups[c]);
    }
  }

  // What is not terminal is unlisted.
  lemma UnfinishedUnlisted(s: State, id: Id)
    requires ListsTerminal(s) && id in s.deliveries && !Terminal(s.deliveries[id])
    ensures Unlisted(s, id)
  {
    forall c | c in s.cleanups
      ensures id !in s.cleanups[c]
    {
      assert ListTerminal(s, s.cleanups[c]);
    }
  }

  // A new id is in no list.
  lemma NewUnlisted(s: State, id: Id)
    requires Inv(s) && id !in s.home
    ensures Unlisted(s, id)
  {
    forall c | c in s.cleanups
      ensures id !in s.cleanups[c]
    {
      assert CleanupOk(s, s.cleanups[c]);
    }
  }

  // Putting a record in memory, with its work.
  lemma SaveClean(s: State, id: Id, d: Delivery, schedule: bool)
    requires ListsTerminal(s) && WorkRecorded(s) && (Terminal(d) || Unlisted(s, id))
    ensures ListsTerminal(Save(s, id, d, schedule)) && WorkRecorded(Save(s, id, d, schedule))
  {
    ListsSame(s, Save(s, id, d, schedule));
  }

  lemma LandClean(s: State, k: nat, now: nat)
    requires ListsTerminal(s) && WorkRecorded(s) && k in s.work && !s.work[k].Posting?
    ensures ListsTerminal(Land(s, k, now)) && WorkRecorded(Land(s, k, now))
  {
    ListsSame(s, Land(s, k, now));
  }

  lemma FireClean(s: State, id: Id, active: bool, now: nat)
    requires ListsTerminal(s) && WorkRecorded(s)
    ensures ListsTerminal(Fire(s, id, active, now)) && WorkRecorded(Fire(s, id, active, now))
  {
    hide ListsTerminal, ListTerminal;
    ListsSame(s, Fire(s, id, active, now));
  }

  lemma AnswerClean(s: State, k: nat, ok: bool, now: nat)
    requires Clean(s) && k in s.work && s.work[k].Posting?
    ensures ListsTerminal(Answer(s, k, ok, now)) && WorkRecorded(Answer(s, k, ok, now))
  {
    WorkTaken(s, k);
    var w := s.work[k];
    assert w.id in s.deliveries && !Terminal(s.deliveries[w.id]);
    UnfinishedUnlisted(s, w.id);
    hide Inv, RetryDelay, ListTerminal, Detached, RecordOk, DeliveryOk;
    var t := s.(work := s.work - {k});
    ListsSame(s, t);
    SaveClean(t, w.id, if ok then AfterSuccess(w.delivery, now) else AfterFailure(w.delivery, now),
              (if ok then AfterSuccess(w.delivery, now) else AfterFailure(w.delivery, now)).status.RetryScheduled?);
  }

  lemma BeginClean(s: State, ids: seq<Id>, cutoff: nat)
    requires ListsTerminal(s) && WorkRecorded(s) && Enabled(s, CleanupStep(ids, cutoff))
    ensures ListsTerminal(BeginCleanup(s, ids)) && WorkRecorded(BeginCleanup(s, ids))
  {
    var t := BeginCleanup(s, ids);
    forall c | c in t.cleanups
      ensures ListTerminal(t, t.cleanups[c])
    {
      if c != s.nextKey { assert ListTerminal(s, s.cleanups[c]); }
    }
  }

  lemma RemoveClean(s: State, c: nat)
    requires Clean(s) && c in s.cleanups && s.cleanups[c] != []
    ensures ListsTerminal(RemoveFirst(s, c)) && WorkRecorded(RemoveFirst(s, c))
  {
    var id, t := s.cleanups[c][0], RemoveFirst(s, c);
    assert ListTerminal(s, s.cleanups[c]);
    forall b | b in t.cleanups
      ensures ListTerminal(t, t.cleanups[b])
    {
      assert ListTerminal(s, s.cleanups[b]);
    }
    forall k | k in t.work && !t.work[k].Saving?
      ensures t.work[k].id in t.deliveries
    {
      WorkTaken(s, k);
      assert WorkOk(s, k, s.work[k]);
      hide Inv, Detached;
    }
  }

  lemma RetryClean(s: State, id: Id, now: nat)
    requires ListsTerminal(s) && WorkRecorded(s) && (id in s.deliveries ==> Unlisted(s, id))
    ensures ListsTerminal(Retry(s, id, now)) && WorkRecorded(Retry(s, id, now))
  {
    if id in s.deliveries {
      var t := s.(retried := s.retried + {id});
      ListsSame(s, t);
      SaveClean(t, id, Reopened(s.deliveries[id], now), true);
    }
  }

  lemma StepClean(s: State, step: Step)
    requires Clean(s) && Enabled(s, step) && Orderly(s, step)
    ensures Clean(Next(s, step))
  {
    StepKeeps(s, step);
    hide Inv, Enqueue, Land, Fire, Answer, BeginCleanup, RemoveFirst, Restart, Resume, Retry, ListsTerminal,
      WorkRecorded;
    match step
    case EnqueueStep(id, webhook, now) => EnqueueClean(s, id, webhook, now);
    case LandStep(k, now) => LandClean(s, k, now);
    case FireStep(id, active, now) => FireClean(s, id, active, now);
    case AnswerStep(k, ok, now) => AnswerClean(s, k, ok, now);
    case CleanupStep(ids, cutoff) => BeginClean(s, ids, cutoff);
    case RemoveStep(c) => RemoveClean(s, c);
    case RestartStep => RestartClean(s);
    case ResumeStep(now) => ResumeClean(s, now);
    case RetryStep(id, now) => RetryClean(s, id, now);
  }

  lemma EnqueueClean(s: State, id: Id, webhook: WebhookId, now: nat)
    requires Clean(s) && id !in s.home
    ensures ListsTerminal(Enqueue(s, id, webhook, now)) && WorkRecorded(Enqueue(s, id, webhook, now))
  {
    NewUnlisted(s, id);
    hide Inv;
    SaveClean(s, id, NewDelivery(webhook, now), true);
    ListsSame(Save(s, id, NewDelivery(webhook, now), true), Enqueue(s, id, webhook, now));
  }

  lemma RestartClean(s: State)
    ensures ListsTerminal(Restart(s)) && WorkRecorded(Restart(s))
  {}

  lemma ResumeClean(s: State, now: nat)
    requires ListsTerminal(s) && WorkRecorded(s)
    ensures ListsTerminal(Resume(s, now)) && WorkRecorded(Resume(s, now))
  {
    ListsSame(s, Resume(s, now));
  }

  // -------------------------------------------------------------------- runs

  ghost predicate AllOrderly(s: State, steps: seq<Step>)
    decreases |steps|
  {
    steps == [] || (Orderly(s, steps[0]) && AllOrderly(Next(s, steps[0]), steps[1..]))
  }

  lemma {:induction false} RunClean(s: State, steps: seq<Step>)
    requires Clean(s) && Legal(s, steps) && AllOrderly(s, steps)
    ensures Clean(After(s, steps))
    decreases |steps|
  {
    hide Clean, Enabled, Next, Orderly;
    if steps != [] {
      StepClean(s, steps[0]);
      RunClean(Next(s, steps[0]), steps[1..]);
    }
  }

  // Reachable by orderly steps.
  ghost predicate ReachedOrderly(s: State) {
    exists steps :: Legal(Initial(), steps) && AllOrderly(Initial(), steps) && s == After(Initial(), steps)
  }

  lemma ReachedClean(s: State)
    requires ReachedOrderly(s)
    ensures Clean(s)
  {
    hide Legal, After, AllOrderly;
    var steps :| Legal(Initial(), steps) && AllOrderly(Initial(), steps) && s == After(Initial(), steps);
    RunClean(Initial(), steps);
  }

  // No orderly run from here has a cleanup take a record that is not terminal.
  ghost predicate KeepsUnfinished(s: State) {
    forall steps :: Legal(s, steps) && AllOrderly(s, steps) ==> !TakesUnfinished(After(s, steps))
  }

  lemma CleanTakesNone(s: State)
    requires Clean(s)
    ensures !TakesUnfinished(s)
  {
    hide Inv;
    forall c | c in s.cleanups
      ensures !HeadUnfinished(s, s.cleanups[c])
    {
      assert ListTerminal(s, s.cleanups[c]);
    }
  }

  lemma CleanKeepsUnfinished(s: State)
    requires Clean(s)
    ensures KeepsUnfinished(s)
  {
    hide Clean, Legal, After, AllOrderly, TakesUnfinished;
    forall steps | Legal(s, steps) && AllOrderly(s, steps)
      ensures !TakesUnfinished(After(s, steps))
    {
      RunClean(s, steps);
      CleanTakesNone(After(s, steps));
    }
  }

  // The cleanup removes what it lists first, until it comes to the record.
  lemma {:induction false} ListedIsTaken(s: State, c: nat, id: Id)
    requires c in s.cleanups && id in s.cleanups[c] && id in s.deliveries && !Terminal(s.deliveries[id])
    ensures !KeepsUnfinished(s)
    decreases if c in s.cleanups then |s.cleanups[c]| else 0
  {
    var ids := s.cleanups[c];
    if ids[0] == id {
      var none: seq<Step> := [];
      assert HeadUnfinished(s, s.cleanups[c]);
      assert Legal(s, none) && AllOrderly(s, none) && After(s, none) == s;
    } else {
      var t := RemoveFirst(s, c);
      assert ids == [ids[0]] + ids[1..];
      ListedIsTaken(t, c, id);
      TakenLater(s, RemoveStep(c));
    }
  }

  lemma TakenLater(s: State, step: Step)
    requires Enabled(s, step) && Orderly(s, step) && !KeepsUnfinished(Next(s, step))
    ensures !KeepsUnfinished(s)
  {
    hide Enabled, Next, Orderly, TakesUnfinished;
    var t := Next(s, step);
    var steps :| Legal(t, steps) && AllOrderly(t, steps) && TakesUnfinished(After(t, steps));
    var all := [step] + steps;
    assert all[0] == step && all[1..] == steps;
    assert Legal(s, all) && AllOrderly(s, all) && After(s, all) == After(t, steps);
  }

  // ------------------------------------------------------------------ results

  lemma RetryTakenIff(s: State, id: Id, now: nat)
    requires Clean(s) && SafeRetry(s, id)
    ensures Unlisted(s, id) <==> KeepsUnfinished(Retry(s, id, now))
  {
    hide Inv, KeepsUnfinished, ListsTerminal, WorkRecorded;
    var t := Retry(s, id, now);
    if Unlisted(s, id) {
      RetryKeeps(s, id, now);
      RetryClean(s, id, now);
      CleanKeepsUnfinished(t);
    } else {
      var c :| c in s.cleanups && id in s.cleanups[c];
      ListedIsTaken(t, c, id);
    }
  }

  // After a safe retry no orderly run has a cleanup remove an unfinished
  // delivery exactly when no unfinished cleanup lists the one retried.
  lemma RemovalSafeIff(s: State, id: Id, now: nat)
    requires ReachedOrderly(s) && SafeRetry(s, id)
    ensures Unlisted(s, id) <==> KeepsUnfinished(Retry(s, id, now))
  {
    ReachedClean(s);
    hide ReachedOrderly;
    RetryTakenIff(s, id, now);
  }

  // So only cleanups remove records in orderly runs, and only terminal ones.
  lemma RemovedIsTerminal(s: State, step: Step, id: Id)
    requires ReachedOrderly(s) && Enabled(s, step) && !step.RestartStep? && id in s.deliveries
    requires id !in Next(s, step).deliveries
    ensures step.RemoveStep? && s.cleanups[step.key][0] == id && Terminal(s.deliveries[id])
  {
    ReachedClean(s);
    CleanTakesNone(s);
    hide ReachedOrderly, Clean, TakesUnfinished;
    OnlyRemovalRemoves(s, step, id);
    var c := step.key;
    assert !HeadUnfinished(s, s.cleanups[c]) by { NotTaken(s, c); }
  }

  lemma NotTaken(s: State, c: nat)
    requires !TakesUnfinished(s) && c in s.cleanups
    ensures !HeadUnfinished(s, s.cleanups[c])
  {}

  lemma OnlyRemovalRemoves(s: State, step: Step, id: Id)
    requires Enabled(s, step) && !step.RestartStep? && id in s.deliveries && id !in Next(s, step).deliveries
    ensures step.RemoveStep? && step.key in s.cleanups && s.cleanups[step.key] != [] && s.cleanups[step.key][0] == id
  {
    hide Enqueue, Land, Fire, Answer, BeginCleanup, Resume, Retry;
    match step
    case EnqueueStep(x, webhook, now) => EnqueueGrows(s, x, webhook, now);
    case LandStep(k, now) => LandStays(s, k, now);
    case FireStep(x, active, now) => FireGrows(s, x, active, now);
    case AnswerStep(k, ok, now) => AnswerGrows(s, k, ok, now);
    case CleanupStep(ids, _) => CleanupStays(s, ids);
    case RemoveStep(c) =>
    case RestartStep =>
    case ResumeStep(now) => ResumeStays(s, now);
    case RetryStep(x, now) => RetryGrows(s, x, now);
  }

  lemma EnqueueGrows(s: State, id: Id, webhook: WebhookId, now: nat)
    ensures s.deliveries.Keys <= Enqueue(s, id, webhook, now).deliveries.Keys
  {}

  lemma FireGrows(s: State, id: Id, active: bool, now: nat)
    ensures s.deliveries.Keys <= Fire(s, id, active, now).deliveries.Keys
  {}

  lemma AnswerGrows(s: State, k: nat, ok: bool, now: nat)
    requires k in s.work && s.work[k].Posting?
    ensures s.deliveries.Keys <= Answer(s, k, ok, now).deliveries.Keys
  {
    hide RetryDelay;
  }

  lemma RetryGrows(s: State, id: Id, now: nat)
    ensures s.deliveries.Keys <= Retry(s, id, now).deliveries.Keys
  {}

  // --------------------------------------------------------------- whole runs

  // Every orderly run from here keeps to the maximum of attempts, and its
  // cleanups remove nothing unfinished.
  ghost predicate Kept(s: State) {
    forall steps :: Legal(s, steps) && AllOrderly(s, steps) ==>
      Bounded(After(s, steps)) && !TakesUnfinished(After(s, steps))
  }

  ghost predicate KeptThroughout(s: State, steps: seq<Step>)
    decreases |steps|
  {
    Kept(s) && (steps == [] || KeptThroughout(Next(s, steps[0]), steps[1..]))
  }

  ghost predicate UnfinishedKeptThroughout(s: State, steps: seq<Step>)
    decreases |steps|
  {
    KeepsUnfinished(s) && (steps == [] || UnfinishedKeptThroughout(Next(s, steps[0]), steps[1..]))
  }

  lemma CleanKept(s: State)
    requires Clean(s)
    ensures Kept(s)
  {
    hide Clean, Legal, After, AllOrderly, TakesUnfinished, Bounded;
    forall steps | Legal(s, steps) && AllOrderly(s, steps)
      ensures Bounded(After(s, steps)) && !TakesUnfinished(After(s, steps))
    {
      RunClean(s, steps);
      CleanTakesNone(After(s, steps));
      CleanBounded(After(s, steps));
    }
  }

  lemma CleanBounded(s: State)
    requires Clean(s)
    ensures Bounded(s)
  {
    forall id | id in s.deliveries
      ensures s.deliveries[id].attemptCount <= s.deliveries[id].maxAttempts
    {
      assert DeliveryOk(s, id, s.deliveries[id]);
    }
  }

  lemma {:induction false} QuietOrderly(s: State, steps: seq<Step>)
    requires Quiet(steps)
    ensures AllOrderly(s, steps)
    decreases |steps|
  {
    hide Next, SafeRetry;
    if steps != [] {
      assert !steps[0].EnqueueStep? && !steps[0].RetryStep?;
      QuietOrderly(Next(s, steps[0]), steps[1..]);
    }
  }

  lemma ExceedsIsNotKept(s: State)
    requires CanExceed(s)
    ensures !Kept(s)
  {
    hide Legal, AllOrderly, Quiet, Bounded, After, TakesUnfinished;
    var steps :| Legal(s, steps) && Quiet(steps) && !Bounded(After(s, steps));
    QuietOrderly(s, steps);
  }

  lemma TakenIsNotKept(s: State)
    requires !KeepsUnfinished(s)
    ensures !Kept(s)
  {
    hide Legal, AllOrderly, Bounded, After, TakesUnfinished;
  }

  // A step that is not orderly can be followed by a run that is not kept.
  lemma DisorderlyIsNotKept(s: State, step: Step)
    requires Clean(s) && Enabled(s, step) && !Orderly(s, step)
    ensures !Kept(Next(s, step))
  {
    hide Inv, Kept, CanExceed, KeepsUnfinished, Enqueue, Retry, ListsTerminal, WorkRecorded;
    if step.EnqueueStep? {
      EarlyTriggerExceeds(s, step.id, step.webhook, step.now);
      ExceedsIsNotKept(Next(s, step));
    } else if !SafeRetry(s, step.id) {
      UnsafeRetryExceeds(s, step.id, step.now);
      ExceedsIsNotKept(Next(s, step));
    } else {
      RetryTakenIff(s, step.id, step.now);
      TakenIsNotKept(Next(s, step));
    }
  }

  lemma {:induction false} KeptIffOrderly(s: State, steps: seq<Step>)
    requires Clean(s) && Legal(s, steps)
    ensures KeptThroughout(s, steps) <==> AllOrderly(s, steps)
    decreases |steps|
  {
    hide Clean, Enabled, Kept, Orderly, Next;
    CleanKept(s);
    if steps != [] {
      if Orderly(s, steps[0]) {
        StepClean(s, steps[0]);
        KeptIffOrderly(Next(s, steps[0]), steps[1..]);
      } else {
        DisorderlyIsNotKept(s, steps[0]);
      }
    }
  }

  // Over whole runs: attempts stay bounded and cleanups remove nothing
  // unfinished, in every state and whatever may follow, exactly when every
  // trigger came after loading, every retry was safe, and no retry was of a
  // delivery that an unfinished cleanup listed.
  lemma RunsKeptIff(steps: seq<Step>)
    requires Legal(Initial(), steps)
    ensures KeptThroughout(Initial(), steps) <==> AllOrderly(Initial(), steps)
  {
    hide KeptThroughout, AllOrderly, Legal;
    KeptIffOrderly(Initial(), steps);
  }

  lemma {:induction false} UnfinishedKeptIffOrderly(s: State, steps: seq<Step>)
    requires Clean(s) && Legal(s, steps) && AllCareful(s, steps)
    ensures UnfinishedKeptThroughout(s, steps) <==> AllOrderly(s, steps)
    decreases |steps|
  {
    hide Clean, Enabled, KeepsUnfinished, SafeRetry, Unlisted;
    CleanKeepsUnfinished(s);
    if steps != [] {
      var step := steps[0];
      if Orderly(s, step) {
        StepClean(s, step);
        UnfinishedKeptIffOrderly(Next(s, step), steps[1..]);
      } else {
        RetryTakenIff(s, step.id, step.now);
        hide Retry;
      }
    }
  }

  // For cleanups alone, over whole runs with safe retries.
  lemma CleanupsTakeTerminalIff(steps: seq<Step>)
    requires Legal(Initial(), steps) && AllCareful(Initial(), steps)
    ensures UnfinishedKeptThroughout(Initial(), steps) <==> AllOrderly(Initial(), steps)
  {
    hide UnfinishedKeptThroughout, AllOrderly, Legal, AllCareful;
    UnfinishedKeptIffOrderly(Initial(), steps);
  }
}
