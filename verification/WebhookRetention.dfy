/** How long finished deliveries are kept: a cleanup removes none that is newer than its cutoff. */
module WebhookRetention {
  import opened Basics
  import opened WebhookDelivery
  import opened WebhookCleanups

  // What the cleanup still lists was last changed before its cutoff.
  ghost predicate ListedOld(s: State, c: nat, cutoff: nat) {
    c < s.nextKey &&
    (c in s.cleanups ==>
       forall i :: 0 <= i < |s.cleanups[c]| && s.cleanups[c][i] in s.deliveries ==>
         s.deliveries[s.cleanups[c][i]].updatedAt < cutoff)
  }

  // It stays so while records that are changed or added are unlisted.
  lemma OldSame(s: State, t: State, c: nat, cutoff: nat)
    requires ListedOld(s, c, cutoff) && s.nextKey <= t.nextKey
    requires c in t.cleanups ==> c in s.cleanups && t.cleanups[c] == s.cleanups[c]
    requires forall id :: id in t.deliveries ==>
               (id in s.deliveries && t.deliveries[id] == s.deliveries[id]) || Unlisted(s, id)
    ensures ListedOld(t, c, cutoff)
  {}

  lemma FireOld(s: State, id: Id, active: bool, now: nat, c: nat, cutoff: nat)
    requires Clean(s) && id in s.timers && ListedOld(s, c, cutoff)
    ensures ListedOld(Fire(s, id, active, now), c, cutoff)
  {
    TimerTaken(s, id);
    if id in s.deliveries { UnfinishedUnlisted(s, id); }
    hide Clean, Detached, DeliveryOk, ListedOld, Unlisted;
    OldSame(s, Fire(s, id, active, now), c, cutoff);
  }

  lemma AnswerOld(s: State, k: nat, ok: bool, now: nat, c: nat, cutoff: nat)
    requires Clean(s) && k in s.work && s.work[k].Posting? && ListedOld(s, c, cutoff)
    ensures ListedOld(Answer(s, k, ok, now), c, cutoff)
  {
    WorkTaken(s, k);
    var w := s.work[k];
    assert w.id in s.deliveries && !Terminal(s.deliveries[w.id]);
    UnfinishedUnlisted(s, w.id);
    hide Clean, Detached, DeliveryOk, ListedOld, Unlisted, AfterSuccess, AfterFailure;
    OldSame(s, Answer(s, k, ok, now), c, cutoff);
  }

  lemma RemoveOld(s: State, b: nat, c: nat, cutoff: nat)
    requires ListedOld(s, c, cutoff) && b in s.cleanups && s.cleanups[b] != []
    ensures ListedOld(RemoveFirst(s, b), c, cutoff)
  {}

  lemma BeginOld(s: State, ids: seq<Id>, c: nat, cutoff: nat)
    requires ListedOld(s, c, cutoff)
    ensures ListedOld(BeginCleanup(s, ids), c, cutoff)
  {}

  lemma RetryOld(s: State, id: Id, now: nat, c: nat, cutoff: nat)
    requires ListedOld(s, c, cutoff) && (id in s.deliveries ==> Unlisted(s, id))
    ensures ListedOld(Retry(s, id, now), c, cutoff)
  {
    hide Unlisted;
    OldSame(s, Retry(s, id, now), c, cutoff);
  }

  lemma EnqueueOld(s: State, id: Id, webhook: WebhookId, now: nat, c: nat, cutoff: nat)
    requires Inv(s) && id !in s.home && ListedOld(s, c, cutoff)
    ensures ListedOld(Enqueue(s, id, webhook, now), c, cutoff)
  {
    NewUnlisted(s, id);
    hide Inv, Unlisted;
    OldSame(s, Enqueue(s, id, webhook, now), c, cutoff);
  }

  lemma LandOld(s: State, k: nat, now: nat, c: nat, cutoff: nat)
    requires ListedOld(s, c, cutoff) && k in s.work && !s.work[k].Posting?
    ensures ListedOld(Land(s, k, now), c, cutoff)
  {}

  lemma StepOld(s: State, step: Step, c: nat, cutoff: nat)
    requires Clean(s) && Enabled(s, step) && Orderly(s, step) && ListedOld(s, c, cutoff)
    ensures ListedOld(Next(s, step), c, cutoff)
  {
    hide Inv, ListsTerminal, WorkRecorded, Enqueue, Land, Fire, Answer, BeginCleanup, RemoveFirst, Retry, Unlisted;
    match step
    case EnqueueStep(id, webhook, now) => EnqueueOld(s, id, webhook, now, c, cutoff);
    case LandStep(k, now) => LandOld(s, k, now, c, cutoff);
    case FireStep(id, active, now) => FireOld(s, id, active, now, c, cutoff);
    case AnswerStep(k, ok, now) => AnswerOld(s, k, ok, now, c, cutoff);
    case CleanupStep(ids, _) => BeginOld(s, ids, c, cutoff);
    case RemoveStep(b) => RemoveOld(s, b, c, cutoff);
    case RetryStep(id, now) => RetryOld(s, id, now, c, cutoff);
    case _ =>
  }

  lemma {:induction false} RunOld(s: State, steps: seq<Step>, c: nat, cutoff: nat)
    requires Clean(s) && Legal(s, steps) && AllOrderly(s, steps) && ListedOld(s, c, cutoff)
    ensures Clean(After(s, steps)) && ListedOld(After(s, steps), c, cutoff)
    decreases |steps|
  {
    hide Clean, Enabled, Orderly, Next, ListedOld;
    if steps != [] {
      StepClean(s, steps[0]);
      StepOld(s, steps[0], c, cutoff);
      RunOld(Next(s, steps[0]), steps[1..], c, cutoff);
    }
  }

  lemma BegunOld(s: State, ids: seq<Id>, cutoff: nat)
    requires Enabled(s, CleanupStep(ids, cutoff))
    ensures ListedOld(BeginCleanup(s, ids), s.nextKey, cutoff) && Listed(s, ids, cutoff)
  {
    hide Inv;
  }

  // Finished, and last changed before that time.
  predicate FinishedBefore(d: Delivery, cutoff: nat) {
    !d.status.Pending? && !d.status.RetryScheduled? && d.updatedAt < cutoff
  }

  predicate Listed(s: State, ids: seq<Id>, cutoff: nat) {
    forall i :: 0 <= i < |ids| ==> ids[i] in s.deliveries && FinishedBefore(s.deliveries[ids[i]], cutoff)
  }

  // The delivery a cleanup comes to next.
  predicate HeadFinishedBefore(u: State, c: nat, cutoff: nat) {
    c in u.cleanups && u.cleanups[c] != [] && u.cleanups[c][0] in u.deliveries ==>
      FinishedBefore(u.deliveries[u.cleanups[c][0]], cutoff)
  }

  lemma OldHead(u: State, c: nat, cutoff: nat)
    requires Clean(u) && ListedOld(u, c, cutoff)
    ensures HeadFinishedBefore(u, c, cutoff)
  {
    hide Inv;
    if c in u.cleanups { assert ListTerminal(u, u.cleanups[c]); }
  }

  // A cleanup lists only what is finished and was last changed before its
  // cutoff, and what it removes, however much later, still is so then.
  lemma RecentIsKept(s: State, ids: seq<Id>, cutoff: nat, steps: seq<Step>)
    requires ReachedOrderly(s) && Enabled(s, CleanupStep(ids, cutoff))
    requires var t := Next(s, CleanupStep(ids, cutoff)); Legal(t, steps) && AllOrderly(t, steps)
    ensures Listed(s, ids, cutoff)
    ensures HeadFinishedBefore(After(Next(s, CleanupStep(ids, cutoff)), steps), s.nextKey, cutoff)
  {
    ReachedClean(s);
    BegunOld(s, ids, cutoff);
    hide ReachedOrderly, Clean, ListedOld, Listed, HeadFinishedBefore, Enabled;
    StepClean(s, CleanupStep(ids, cutoff));
    var t := BeginCleanup(s, ids);
    RunOld(t, steps, s.nextKey, cutoff);
    OldHead(After(t, steps), s.nextKey, cutoff);
  }
}
