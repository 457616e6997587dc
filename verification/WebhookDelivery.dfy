/**
 Webhook deliveries as a step machine: a step is what runs between two awaits.
 Storage holds what was saved; a crash loses everything else.
 */
module WebhookDelivery {
  import opened Basics

  type Id(==, !new, 00)

  type WebhookId(==, !new, 00)

  datatype Status = Pending | RetryScheduled | Success | Failed | DeadLettered

  datatype Delivery = Delivery(
    webhook: WebhookId,
    status: Status,
    attemptCount: nat,
    maxAttempts: nat,
    updatedAt: nat,
    nextAttemptAt: Option<nat>)

  const MAX_DELIVERY_ATTEMPTS: nat := 5
  const MAX_RETRY_DELAY_MS: nat := 30000

  // What a suspended call goes on with: a record being saved that is to be
  // scheduled or not, or a request being posted for the delivery it read.
  datatype Work =
    | SavingToSchedule(id: Id, delivery: Delivery)
    | Saving(id: Id, delivery: Delivery)
    | Posting(id: Id, delivery: Delivery)

  datatype Place = Unscheduled | OnTimer | InFlight(key: nat) | Done

  // Histories: where each delivery stands, how many requests were begun, and
  // what was retried by hand.
  datatype State = State(
    deliveries: map<Id, Delivery>,
    timers: map<Id, nat>,
    work: map<nat, Work>,
    cleanups: map<nat, seq<Id>>,
    stored: map<Id, Delivery>,
    loading: bool,
    nextKey: nat,
    home: map<Id, Place>,
    begun: map<Id, nat>,
    retried: set<Id>)

  predicate Terminal(d: Delivery) {
    d.status.Success? || d.status.Failed? || d.status.DeadLettered?
  }

  function Power2(n: nat): nat {
    if n == 0 then 1 else 2 * Power2(n - 1)
  }

  function RetryDelay(attemptCount: nat): nat {
    var delay := Power2(if attemptCount <= 1 then 0 else attemptCount - 1) * 1000;
    if delay <= MAX_RETRY_DELAY_MS then delay else MAX_RETRY_DELAY_MS
  }

  // ------------------------------------------------------------------- steps

  // saveDelivery: in memory at once, in storage when the work goes on.
  function Save(s: State, id: Id, d: Delivery, schedule: bool): State {
    s.(deliveries := s.deliveries[id := d],
       work := s.work[s.nextKey := if schedule then SavingToSchedule(id, d) else Saving(id, d)],
       home := s.home[id := if schedule then InFlight(s.nextKey) else Done],
       nextKey := s.nextKey + 1)
  }

  function NewDelivery(webhook: WebhookId, now: nat): Delivery {
    Delivery(webhook, Pending, 0, MAX_DELIVERY_ATTEMPTS, now, Some(now))
  }

  function Enqueue(s: State, id: Id, webhook: WebhookId, now: nat): State {
    Save(s, id, NewDelivery(webhook, now), true).(begun := s.begun[id := 0])
  }

  function DueAt(d: Delivery, now: nat): nat {
    Max(now, if d.nextAttemptAt.Some? then d.nextAttemptAt.value else now)
  }

  function Schedule(s: State, id: Id, d: Delivery, now: nat): State {
    s.(timers := s.timers[id := DueAt(d, now)], home := s.home[id := OnTimer])
  }

  // A save reaches storage, and its call goes on.
  function Land(s: State, k: nat, now: nat): State
    requires k in s.work && !s.work[k].Posting?
  {
    var w := s.work[k];
    var t := s.(stored := s.stored[w.id := w.delivery], work := s.work - {k});
    if w.SavingToSchedule? then Schedule(t, w.id, w.delivery, now) else t
  }

  function Post(s: State, id: Id): State
    requires id in s.deliveries
  {
    s.(work := s.work[s.nextKey := Posting(id, s.deliveries[id])],
       home := s.home[id := InFlight(s.nextKey)],
       begun := s.begun[id := (if id in s.begun then s.begun[id] else 0) + 1],
       nextKey := s.nextKey + 1)
  }

  // A timer fires: the delivery is posted if its webhook is active.
  function Fire(s: State, id: Id, active: bool, now: nat): State {
    var t := s.(timers := s.timers - {id});
    if id !in s.deliveries then t
    else if !active then Save(t, id, s.deliveries[id].(status := Failed, updatedAt := now), false)
    else Post(t, id)
  }

  function AfterSuccess(d: Delivery, now: nat): Delivery {
    d.(status := Success, attemptCount := d.attemptCount + 1, updatedAt := now, nextAttemptAt := None)
  }

  function AfterFailure(d: Delivery, now: nat): Delivery {
    var n := d.attemptCount + 1;
    if n < d.maxAttempts then
      d.(status := RetryScheduled, attemptCount := n, updatedAt := now, nextAttemptAt := Some(now + RetryDelay(n)))
    else d.(status := DeadLettered, attemptCount := n, updatedAt := now, nextAttemptAt := None)
  }

  // The request is answered or fails.
  function Answer(s: State, k: nat, ok: bool, now: nat): State
    requires k in s.work && s.work[k].Posting?
  {
    var w := s.work[k];
    var d := if ok then AfterSuccess(w.delivery, now) else AfterFailure(w.delivery, now);
    Save(s.(work := s.work - {k}), w.id, d, d.status.RetryScheduled?)
  }

  predicate Expired(d: Delivery, cutoff: nat) {
    Terminal(d) && d.updatedAt < cutoff
  }

  // A cleanup lists what is expired now, and removes it one by one later.
  function BeginCleanup(s: State, ids: seq<Id>): State {
    s.(cleanups := s.cleanups[s.nextKey := ids], nextKey := s.nextKey + 1)
  }

  function RemoveFirst(s: State, c: nat): State
    requires c in s.cleanups && s.cleanups[c] != []
  {
    var id := s.cleanups[c][0];
    var t := s.(cleanups := s.cleanups[c := s.cleanups[c][1..]]);
    if id !in s.deliveries then t
    else t.(deliveries := t.deliveries - {id}, timers := t.timers - {id}, stored := t.stored - {id})
  }

  // The process restarts and loads what was saved.
  function Restart(s: State): State {
    s.(deliveries := s.stored, timers := map[], work := map[], cleanups := map[], loading := true,
       home := s.home + (map id | id in s.stored :: if Terminal(s.stored[id]) then Done else Unscheduled),
       begun := s.begun + (map id | id in s.stored :: s.stored[id].attemptCount))
  }

  function Unfinished(deliveries: map<Id, Delivery>, among: set<Id>): set<Id> {
    set id | id in among && id in deliveries && !Terminal(deliveries[id])
  }

  function DueTimes(timers: map<Id, nat>, deliveries: map<Id, Delivery>, among: set<Id>, now: nat): map<Id, nat> {
    map id | id in timers.Keys + Unfinished(deliveries, among) ::
      if id in Unfinished(deliveries, among) then DueAt(deliveries[id], now) else timers[id]
  }

  function OnTimers(home: map<Id, Place>, deliveries: map<Id, Delivery>, among: set<Id>): map<Id, Place> {
    map id | id in home.Keys + Unfinished(deliveries, among) ::
      if id in Unfinished(deliveries, among) then OnTimer else home[id]
  }

  // Every delivery still to be made gets its timer, and triggers are accepted.
  function Resume(s: State, now: nat): State {
    s.(timers := DueTimes(s.timers, s.deliveries, s.deliveries.Keys, now),
       home := OnTimers(s.home, s.deliveries, s.deliveries.Keys),
       loading := false)
  }

  function Reopened(d: Delivery, now: nat): Delivery {
    d.(status := Pending, updatedAt := now, nextAttemptAt := Some(now))
  }

  // A retry by hand: whatever its status, the record is made pending with the
  // attempts it has, saved and scheduled.  An unknown id is an error.
  function Retry(s: State, id: Id, now: nat): State {
    if id !in s.deliveries then s
    else Save(s.(retried := s.retried + {id}), id, Reopened(s.deliveries[id], now), true)
  }

  datatype Step =
    | EnqueueStep(id: Id, webhook: WebhookId, now: nat)
    | LandStep(key: nat, now: nat)
    | FireStep(id: Id, active: bool, now: nat)
    | AnswerStep(key: nat, ok: bool, now: nat)
    | CleanupStep(ids: seq<Id>, cutoff: nat)
    | RemoveStep(key: nat)
    | RestartStep
    | ResumeStep(now: nat)
    | RetryStep(id: Id, now: nat)

  // New ids are fresh, timers fire when due, and a cleanup lists what is
  // expired.  Triggers and retries are accepted at any time.
  ghost predicate Enabled(s: State, step: Step) {
    match step
    case EnqueueStep(id, _, _) => id !in s.home
    case LandStep(k, _) => k in s.work && !s.work[k].Posting?
    case FireStep(id, _, now) => id in s.timers && s.timers[id] <= now
    case AnswerStep(k, _, _) => k in s.work && s.work[k].Posting?
    case CleanupStep(ids, cutoff) =>
      forall i :: 0 <= i < |ids| ==> ids[i] in s.deliveries && Expired(s.deliveries[ids[i]], cutoff)
    case RemoveStep(c) => c in s.cleanups && s.cleanups[c] != []
    case RestartStep => true
    case ResumeStep(_) => s.loading
    case RetryStep(_, _) => true
  }

  function Next(s: State, step: Step): State {
    match step
    case EnqueueStep(id, webhook, now) => Enqueue(s, id, webhook, now)
    case LandStep(k, now) => if k in s.work && !s.work[k].Posting? then Land(s, k, now) else s
    case FireStep(id, active, now) => Fire(s, id, active, now)
    case AnswerStep(k, ok, now) => if k in s.work && s.work[k].Posting? then Answer(s, k, ok, now) else s
    case CleanupStep(ids, _) => BeginCleanup(s, ids)
    case RemoveStep(c) => if c in s.cleanups && s.cleanups[c] != [] then RemoveFirst(s, c) else s
    case RestartStep => Restart(s)
    case ResumeStep(now) => Resume(s, now)
    case RetryStep(id, now) => Retry(s, id, now)
  }

  function Initial(): State {
    State(map[], map[], map[], map[], map[], false, 0, map[], map[], {})
  }

  // -------------------------------------------------------------- invariants

  // How long to wait after so many attempts: a second, twice as long each time,
  // but no longer than half a minute.
  function Wait(attempts: nat): nat {
    if attempts <= 1 then 1000 else if 2 * Wait(attempts - 1) <= 30000 then 2 * Wait(attempts - 1) else 30000
  }

  // The attempts made fit the status, and so does the time of the next one.
  predicate RecordOk(d: Delivery) {
    d.maxAttempts == 5 &&
    match d.status
    case Pending => d.attemptCount < d.maxAttempts && d.nextAttemptAt == Some(d.updatedAt)
    case RetryScheduled =>
      0 < d.attemptCount < d.maxAttempts && d.nextAttemptAt == Some(d.updatedAt + Wait(d.attemptCount))
    case Success => 0 < d.attemptCount <= d.maxAttempts && d.nextAttemptAt.None?
    case Failed => d.attemptCount < d.maxAttempts
    case DeadLettered => d.attemptCount == d.maxAttempts && d.nextAttemptAt.None?
  }

  // Work that will schedule or post the delivery it holds.
  ghost predicate Busy(s: State, k: nat, id: Id, d: Delivery) {
    k in s.work && s.work[k].id == id && !s.work[k].Saving? && s.work[k].delivery == d
  }

  // A delivery still to be made has a timer or is in flight, and not both; one
  // that was made or given up has neither.
  ghost predicate DeliveryOk(s: State, id: Id, d: Delivery) {
    && RecordOk(d) && id in s.home && id in s.begun
    && (Terminal(d) <==> s.home[id].Done?)
    && (s.home[id].Unscheduled? <==> s.loading && !Terminal(d))
    && (s.home[id].OnTimer? <==> id in s.timers)
    && (s.home[id].InFlight? ==> Busy(s, s.home[id].key, id, d))
    && s.begun[id] == d.attemptCount + if s.home[id].InFlight? && s.work[s.home[id].key].Posting? then 1 else 0
  }

  ghost predicate DeliveriesOk(s: State) {
    forall id :: id in s.deliveries ==> DeliveryOk(s, id, s.deliveries[id])
  }

  // No timer fires before the next attempt is due.
  ghost predicate TimersOk(s: State) {
    forall id :: id in s.timers ==>
      id in s.home && s.home[id].OnTimer? &&
      (id in s.deliveries && s.deliveries[id].nextAttemptAt.Some? ==>
       s.deliveries[id].nextAttemptAt.value <= s.timers[id])
  }

  // A record can be removed under its work only if it was retried.
  ghost predicate WorkOk(s: State, k: nat, w: Work) {
    k < s.nextKey && w.id in s.home && RecordOk(w.delivery) &&
    if w.Saving? then Terminal(w.delivery)
    else
      !Terminal(w.delivery) && s.home[w.id] == InFlight(k) && (w.id in s.deliveries || w.id in s.retried) &&
      w.id in s.begun && s.begun[w.id] == w.delivery.attemptCount + if w.Posting? then 1 else 0
  }

  ghost predicate AllWorkOk(s: State) {
    forall k :: k in s.work ==> WorkOk(s, k, s.work[k])
  }

  ghost predicate StoredOk(s: State) {
    forall id :: id in s.stored ==> id in s.home && RecordOk(s.stored[id])
  }

  // What a cleanup lists stays terminal, unless it is retried.
  ghost predicate CleanupOk(s: State, ids: seq<Id>) {
    forall i :: 0 <= i < |ids| ==>
      ids[i] in s.home && (ids[i] in s.deliveries ==> Terminal(s.deliveries[ids[i]]) || ids[i] in s.retried)
  }

  ghost predicate CleanupsOk(s: State) {
    forall c :: c in s.cleanups ==> CleanupOk(s, s.cleanups[c])
  }

  ghost predicate Inv(s: State) {
    DeliveriesOk(s) && TimersOk(s) && AllWorkOk(s) && StoredOk(s) && CleanupsOk(s) &&
      (s.loading ==> s.timers == map[] && s.work == map[])
  }

  // Putting a record in memory, for a delivery no other work or timer has.
  lemma SaveKeeps(s: State, id: Id, d: Delivery, schedule: bool, begun: map<Id, nat>)
    requires Detached(s, id) && RecordOk(d) && (Terminal(d) <==> !schedule)
    requires id in begun && begun[id] == d.attemptCount &&
             (forall x :: x in s.begun && x != id ==> x in begun && begun[x] == s.begun[x])
    requires id in s.home ==> id in s.retried || (id in s.deliveries && !Terminal(s.deliveries[id]))
    ensures Inv(Save(s, id, d, schedule).(begun := begun))
  {
    var t := Save(s, id, d, schedule).(begun := begun);
    SaveDeliveries(s, id, d, schedule, begun);
    SaveWork(s, id, d, schedule, begun);
    CleanupsSame(s, t);
    SaveRest(s, id, d, schedule, begun);
    hide DeliveriesOk, AllWorkOk, CleanupsOk, TimersOk, StoredOk, RecordOk, DeliveryOk;
  }

  lemma SaveRest(s: State, id: Id, d: Delivery, schedule: bool, begun: map<Id, nat>)
    requires Detached(s, id)
    ensures var t := Save(s, id, d, schedule).(begun := begun); TimersOk(t) && StoredOk(t)
  {}

  lemma SaveWork(s: State, id: Id, d: Delivery, schedule: bool, begun: map<Id, nat>)
    requires Detached(s, id) && RecordOk(d) && (Terminal(d) <==> !schedule)
    requires id in begun && begun[id] == d.attemptCount &&
             (forall x :: x in s.begun && x != id ==> x in begun && begun[x] == s.begun[x])
    ensures AllWorkOk(Save(s, id, d, schedule).(begun := begun))
  {
    hide CleanupsOk, TimersOk, StoredOk, DeliveryOk, RecordOk;
    var t := Save(s, id, d, schedule).(begun := begun);
    forall k | k in t.work
      ensures WorkOk(t, k, t.work[k])
    {
      if k != s.nextKey { assert WorkOk(s, k, s.work[k]); }
    }
  }

  lemma SaveDeliveries(s: State, id: Id, d: Delivery, schedule: bool, begun: map<Id, nat>)
    requires Detached(s, id) && RecordOk(d) && (Terminal(d) <==> !schedule)
    requires id in begun && begun[id] == d.attemptCount &&
             (forall x :: x in s.begun && x != id ==> x in begun && begun[x] == s.begun[x])
    ensures DeliveriesOk(Save(s, id, d, schedule).(begun := begun))
  {
    var t := Save(s, id, d, schedule).(begun := begun);
    hide CleanupsOk, TimersOk, StoredOk;
    forall k | k in s.work
      ensures k < s.nextKey
    {
      assert WorkOk(s, k, s.work[k]);
    }
    hide AllWorkOk;
    forall x | x in t.deliveries
      ensures DeliveryOk(t, x, t.deliveries[x])
    {
      if x != id { assert DeliveryOk(s, x, s.deliveries[x]); }
    }
  }

  // The invariant, but for this delivery, which no timer or other work has.
  ghost predicate Detached(s: State, id: Id) {
    && (forall x :: x in s.deliveries && x != id ==> DeliveryOk(s, x, s.deliveries[x]))
    && TimersOk(s) && id !in s.timers && AllWorkOk(s)
    && (forall k :: k in s.work && s.work[k].id == id ==> s.work[k].Saving?)
    && StoredOk(s) && CleanupsOk(s) && !s.loading
  }

  // Taking the work or the timer away from a delivery leaves it detached.
  lemma WorkTaken(s: State, k: nat)
    requires Inv(s) && k in s.work && !s.work[k].Saving?
    ensures Detached(s.(work := s.work - {k}), s.work[k].id)
    ensures WorkOk(s, k, s.work[k])
    ensures var w := s.work[k]; w.id in s.deliveries ==> s.deliveries[w.id] == w.delivery
  {
    var w := s.work[k];
    var t := s.(work := s.work - {k});
    assert WorkOk(s, k, w);
    if w.id in s.deliveries { assert DeliveryOk(s, w.id, s.deliveries[w.id]); }
    forall j | j in t.work
      ensures WorkOk(t, j, t.work[j]) && (t.work[j].id == w.id ==> t.work[j].Saving?)
    {
      assert WorkOk(s, j, s.work[j]);
    }
    forall x | x in t.deliveries && x != w.id
      ensures DeliveryOk(t, x, t.deliveries[x])
    {
      assert DeliveryOk(s, x, s.deliveries[x]);
    }
    assert w.id !in t.timers by { assert TimersOk(s); }
    assert CleanupsOk(t) by { CleanupsSame(s, t); }
  }

  lemma TimerTaken(s: State, id: Id)
    requires Inv(s) && id in s.timers
    ensures Detached(s.(timers := s.timers - {id}), id)
    ensures id in s.home && s.home[id].OnTimer?
    ensures id in s.deliveries ==> DeliveryOk(s, id, s.deliveries[id]) && !Terminal(s.deliveries[id])
  {
    var t := s.(timers := s.timers - {id});
    if id in s.deliveries { assert DeliveryOk(s, id, s.deliveries[id]); }
    forall j | j in t.work
      ensures WorkOk(t, j, t.work[j]) && (t.work[j].id == id ==> t.work[j].Saving?)
    {
      assert WorkOk(s, j, s.work[j]);
    }
    forall x | x in t.deliveries && x != id
      ensures DeliveryOk(t, x, t.deliveries[x])
    {
      assert DeliveryOk(s, x, s.deliveries[x]);
    }
    assert CleanupsOk(t) by { CleanupsSame(s, t); }
  }

  // Cleanup lists stay as they are while terminal records do, or are retried.
  lemma CleanupsSame(s: State, t: State)
    requires CleanupsOk(s) && t.cleanups == s.cleanups && s.retried <= t.retried
    requires forall id :: id in s.home ==> id in t.home
    requires forall id :: id in t.deliveries && id in s.home ==>
               id in t.retried || (id in s.deliveries && (Terminal(s.deliveries[id]) ==> Terminal(t.deliveries[id])))
    ensures CleanupsOk(t)
  {}

  lemma EnqueueKeeps(s: State, id: Id, webhook: WebhookId, now: nat)
    requires Inv(s) && id !in s.home && !s.loading
    ensures Inv(Enqueue(s, id, webhook, now))
  {
    forall x | x in s.deliveries
      ensures x != id
    {
      assert DeliveryOk(s, x, s.deliveries[x]);
    }
    forall k | k in s.work
      ensures s.work[k].id != id
    {
      assert WorkOk(s, k, s.work[k]);
    }
    assert Detached(s, id);
    hide Inv, Detached, Save;
    SaveKeeps(s, id, NewDelivery(webhook, now), true, s.begun[id := 0]);
  }

  lemma ScheduleKeeps(s: State, id: Id, d: Delivery, now: nat, stored: map<Id, Delivery>)
    requires Detached(s, id) && id in s.home && RecordOk(d) && !Terminal(d)
    requires id in s.begun && s.begun[id] == d.attemptCount && (id in s.deliveries ==> s.deliveries[id] == d)
    requires forall x :: x in stored ==> x in s.home && RecordOk(stored[x])
    ensures Inv(Schedule(s.(stored := stored), id, d, now))
  {
    var t := Schedule(s.(stored := stored), id, d, now);
    assert DeliveriesOk(t) by {
      forall x | x in t.deliveries
        ensures DeliveryOk(t, x, t.deliveries[x])
      {
        if x != id { assert DeliveryOk(s, x, s.deliveries[x]); }
      }
    }
    assert AllWorkOk(t) by {
      forall k | k in t.work
        ensures WorkOk(t, k, t.work[k])
      {
        assert WorkOk(s, k, s.work[k]);
      }
    }
    assert CleanupsOk(t) by { CleanupsSame(s, t); }
  }

  lemma LandKeeps(s: State, k: nat, now: nat)
    requires Inv(s) && k in s.work && !s.work[k].Posting?
    ensures Inv(Land(s, k, now))
  {
    var w := s.work[k];
    if w.SavingToSchedule? {
      WorkTaken(s, k);
      Parts(s);
      hide Inv, Detached, Schedule;
      var t := s.(work := s.work - {k});
      ScheduleKeeps(t, w.id, w.delivery, now, s.stored[w.id := w.delivery]);
      assert t.(stored := s.stored[w.id := w.delivery])
          == s.(stored := s.stored[w.id := w.delivery], work := s.work - {k});
    } else {
      LandSaved(s, k, now);
    }
  }

  lemma Parts(s: State)
    requires Inv(s)
    ensures StoredOk(s)
  {}

  lemma LandSaved(s: State, k: nat, now: nat)
    requires Inv(s) && k in s.work && s.work[k].Saving?
    ensures Inv(Land(s, k, now))
  {
    var t := Land(s, k, now);
    assert WorkOk(s, k, s.work[k]);
    assert DeliveriesOk(t) by {
      forall x | x in t.deliveries
        ensures DeliveryOk(t, x, t.deliveries[x])
      {
        assert DeliveryOk(s, x, s.deliveries[x]);
      }
    }
    assert AllWorkOk(t) by {
      forall j | j in t.work
        ensures WorkOk(t, j, t.work[j])
      {
        assert WorkOk(s, j, s.work[j]);
      }
    }
    assert CleanupsOk(t) by { CleanupsSame(s, t); }
  }

  lemma FireKeeps(s: State, id: Id, active: bool, now: nat)
    requires Inv(s) && id in s.timers && !s.loading
    ensures Inv(Fire(s, id, active, now))
  {
    TimerTaken(s, id);
    var t := s.(timers := s.timers - {id});
    hide Save, Post;
    if id !in s.deliveries {
      assert Inv(t);
    } else {
      hide Inv, Detached;
      if active { PostKeeps(t, id); } else { SkipKeeps(t, id, now); }
    }
  }

  lemma SkipKeeps(s: State, id: Id, now: nat)
    requires Detached(s, id) && id in s.deliveries && RecordOk(s.deliveries[id]) && !Terminal(s.deliveries[id])
    requires id in s.begun && s.begun[id] == s.deliveries[id].attemptCount
    ensures Inv(Save(s, id, s.deliveries[id].(status := Failed, updatedAt := now), false))
  {
    hide Inv, Detached, Save;
    var d := s.deliveries[id].(status := Failed, updatedAt := now);
    SaveKeeps(s, id, d, false, s.begun);
    SaveBegun(s, id, d, false);
  }

  lemma SaveBegun(s: State, id: Id, d: Delivery, schedule: bool)
    ensures Save(s, id, d, schedule).(begun := s.begun) == Save(s, id, d, schedule)
  {}

  lemma PostKeeps(s: State, id: Id)
    requires Detached(s, id) && id in s.deliveries && RecordOk(s.deliveries[id]) && !Terminal(s.deliveries[id]) &&
             id in s.home
    requires id in s.begun && s.begun[id] == s.deliveries[id].attemptCount
    ensures Inv(Post(s, id))
  {
    PostDeliveries(s, id);
    PostWork(s, id);
    CleanupsSame(s, Post(s, id));
    hide DeliveriesOk, AllWorkOk, CleanupsOk, DeliveryOk, RecordOk;
  }

  lemma PostDeliveries(s: State, id: Id)
    requires Detached(s, id) && id in s.deliveries && RecordOk(s.deliveries[id]) && !Terminal(s.deliveries[id]) &&
             id in s.home
    requires id in s.begun && s.begun[id] == s.deliveries[id].attemptCount
    ensures DeliveriesOk(Post(s, id))
  {
    hide CleanupsOk, TimersOk, StoredOk;
    var t := Post(s, id);
    forall k | k in s.work
      ensures k < s.nextKey
    {
      assert WorkOk(s, k, s.work[k]);
    }
    hide AllWorkOk, RecordOk;
    forall x | x in t.deliveries
      ensures DeliveryOk(t, x, t.deliveries[x])
    {
      if x != id { assert DeliveryOk(s, x, s.deliveries[x]); }
    }
  }

  lemma PostWork(s: State, id: Id)
    requires Detached(s, id) && id in s.deliveries && RecordOk(s.deliveries[id]) && !Terminal(s.deliveries[id])
    requires id in s.begun && s.begun[id] == s.deliveries[id].attemptCount
    ensures AllWorkOk(Post(s, id))
  {
    hide CleanupsOk, TimersOk, StoredOk, DeliveryOk, RecordOk;
    var t := Post(s, id);
    forall k | k in t.work
      ensures WorkOk(t, k, t.work[k])
    {
      if k != s.nextKey { assert WorkOk(s, k, s.work[k]); }
    }
  }

  // The powers of the source give the doubling delays.
  lemma {:induction false} DelayIsWait(n: nat)
    ensures RetryDelay(n) == Wait(n)
    decreases n
  {
    if n > 1 { DelayIsWait(n - 1); }
  }

  lemma AnsweredOk(d: Delivery, ok: bool, now: nat)
    requires RecordOk(d) && !Terminal(d)
    ensures var t := if ok then AfterSuccess(d, now) else AfterFailure(d, now);
            RecordOk(t) && (Terminal(t) <==> !t.status.RetryScheduled?) && t.attemptCount == d.attemptCount + 1
  {
    DelayIsWait(d.attemptCount + 1);
    hide Wait, RetryDelay;
  }

  lemma AnswerKeeps(s: State, k: nat, ok: bool, now: nat)
    requires Inv(s) && k in s.work && s.work[k].Posting?
    ensures Inv(Answer(s, k, ok, now))
  {
    WorkTaken(s, k);
    hide Inv, Detached, Save, RetryDelay;
    var w := s.work[k];
    var t := s.(work := s.work - {k});
    var d := if ok then AfterSuccess(w.delivery, now) else AfterFailure(w.delivery, now);
    AnsweredOk(w.delivery, ok, now);
    assert s.begun[w.id] == d.attemptCount;
    hide AfterSuccess, AfterFailure, RecordOk;
    SaveKeeps(t, w.id, d, d.status.RetryScheduled?, s.begun[w.id := d.attemptCount]);
    assert s.begun[w.id := d.attemptCount] == s.begun;
    SaveBegun(t, w.id, d, d.status.RetryScheduled?);
  }

  // A retry is safe for a record at rest that has attempts left, once loading
  // is done.
  ghost predicate SafeRetry(s: State, id: Id) {
    id in s.deliveries && Terminal(s.deliveries[id]) && s.deliveries[id].attemptCount < s.deliveries[id].maxAttempts &&
      !s.loading
  }

  lemma RetryKeeps(s: State, id: Id, now: nat)
    requires Inv(s) && SafeRetry(s, id)
    ensures Inv(Retry(s, id, now))
  {
    AtRest(s, id);
    var t := s.(retried := s.retried + {id});
    hide Inv, Detached, Save;
    SaveKeeps(t, id, Reopened(s.deliveries[id], now), true, s.begun);
    SaveBegun(t, id, Reopened(s.deliveries[id], now), true);
  }

  lemma AtRest(s: State, id: Id)
    requires Inv(s) && id in s.deliveries && Terminal(s.deliveries[id]) && !s.loading
    ensures Detached(s.(retried := s.retried + {id}), id) && id !in s.timers
    ensures RecordOk(s.deliveries[id]) && id in s.begun && s.begun[id] == s.deliveries[id].attemptCount
  {
    var t := s.(retried := s.retried + {id});
    assert DeliveryOk(s, id, s.deliveries[id]);
    forall k | k in t.work
      ensures WorkOk(t, k, t.work[k]) && (t.work[k].id == id ==> t.work[k].Saving?)
    {
      assert WorkOk(s, k, s.work[k]);
    }
    forall x | x in t.deliveries && x != id
      ensures DeliveryOk(t, x, t.deliveries[x])
    {
      assert DeliveryOk(s, x, s.deliveries[x]);
    }
    assert CleanupsOk(t) by { CleanupsSame(s, t); }
  }

  lemma CleanupKeeps(s: State, ids: seq<Id>, cutoff: nat)
    requires Inv(s) && Enabled(s, CleanupStep(ids, cutoff))
    ensures Inv(BeginCleanup(s, ids))
  {
    var t := BeginCleanup(s, ids);
    forall id | id in t.deliveries
      ensures DeliveryOk(t, id, t.deliveries[id])
    {
      assert DeliveryOk(s, id, s.deliveries[id]);
    }
    forall k | k in t.work
      ensures WorkOk(t, k, t.work[k])
    {
      assert WorkOk(s, k, s.work[k]);
    }
    forall c | c in t.cleanups
      ensures CleanupOk(t, t.cleanups[c])
    {
      if c != s.nextKey { assert CleanupOk(s, s.cleanups[c]); }
    }
  }

  lemma RemoveKeeps(s: State, c: nat)
    requires Inv(s) && c in s.cleanups && s.cleanups[c] != []
    ensures Inv(RemoveFirst(s, c))
  {
    RemoveDeliveries(s, c);
    RemoveWork(s, c);
    RemoveCleanups(s, c);
    RemoveRest(s, c);
    hide DeliveriesOk, AllWorkOk, CleanupsOk, TimersOk, StoredOk;
  }

  lemma RemoveRest(s: State, c: nat)
    requires Inv(s) && c in s.cleanups && s.cleanups[c] != []
    ensures TimersOk(RemoveFirst(s, c)) && StoredOk(RemoveFirst(s, c))
  {
    hide DeliveriesOk, AllWorkOk, CleanupsOk, RecordOk;
  }

  lemma RemovedTerminal(s: State, c: nat)
    requires Inv(s) && c in s.cleanups && s.cleanups[c] != []
    ensures var id := s.cleanups[c][0]; id in s.deliveries ==> Terminal(s.deliveries[id]) || id in s.retried
  {}

  lemma RemoveDeliveries(s: State, c: nat)
    requires DeliveriesOk(s) && c in s.cleanups && s.cleanups[c] != []
    ensures DeliveriesOk(RemoveFirst(s, c))
  {
    hide RecordOk, Terminal;
    var t := RemoveFirst(s, c);
    forall x | x in t.deliveries
      ensures DeliveryOk(t, x, t.deliveries[x])
    {
      assert DeliveryOk(s, x, s.deliveries[x]);
    }
  }

  lemma RemoveWork(s: State, c: nat)
    requires Inv(s) && c in s.cleanups && s.cleanups[c] != []
    ensures AllWorkOk(RemoveFirst(s, c))
  {
    RemovedTerminal(s, c);
    var id := s.cleanups[c][0];
    var t := RemoveFirst(s, c);
    hide CleanupsOk, TimersOk, StoredOk, RecordOk;
    forall k | k in t.work
      ensures WorkOk(t, k, t.work[k])
    {
      assert WorkOk(s, k, s.work[k]);
      if s.work[k].id == id && id in s.deliveries { assert DeliveryOk(s, id, s.deliveries[id]); }
    }
  }

  lemma RemoveCleanups(s: State, c: nat)
    requires CleanupsOk(s) && c in s.cleanups && s.cleanups[c] != []
    ensures CleanupsOk(RemoveFirst(s, c))
  {
    var t := RemoveFirst(s, c);
    forall b | b in t.cleanups
      ensures CleanupOk(t, t.cleanups[b])
    {
      assert CleanupOk(s, s.cleanups[b]);
    }
  }

  lemma RestartKeeps(s: State)
    requires StoredOk(s)
    ensures Inv(Restart(s))
  {}

  lemma ResumeKeeps(s: State, now: nat)
    requires Inv(s) && s.loading
    ensures Inv(Resume(s, now))
  {}

  // A step is careful unless it is an unsafe retry, or a trigger that comes
  // before loading is done.
  ghost predicate Careful(s: State, step: Step) {
    && (step.EnqueueStep? ==> !s.loading)
    && (step.RetryStep? && step.id in s.deliveries ==> SafeRetry(s, step.id))
  }

  lemma StepKeeps(s: State, step: Step)
    requires Inv(s) && Enabled(s, step) && Careful(s, step)
    ensures Inv(Next(s, step))
  {
    hide Inv, Enqueue, Land, Fire, Answer, BeginCleanup, RemoveFirst, Restart, Resume, SafeRetry;
    match step
    case EnqueueStep(id, webhook, now) => EnqueueKeeps(s, id, webhook, now);
    case LandStep(k, now) => LandKeeps(s, k, now);
    case FireStep(id, active, now) => NotLoading(s, id); FireKeeps(s, id, active, now);
    case AnswerStep(k, ok, now) => AnswerKeeps(s, k, ok, now);
    case CleanupStep(ids, cutoff) => CleanupKeeps(s, ids, cutoff);
    case RemoveStep(c) => RemoveKeeps(s, c);
    case RestartStep => Parts(s); RestartKeeps(s);
    case ResumeStep(now) => ResumeKeeps(s, now);
    case RetryStep(id, now) => if id in s.deliveries { RetryKeeps(s, id, now); }
  }

  lemma NotLoading(s: State, id: Id)
    requires Inv(s) && id in s.timers
    ensures !s.loading
  {}

  // ------------------------------------------------------------------- runs

  function After(s: State, steps: seq<Step>): State
    decreases |steps|
  {
    if steps == [] then s else After(Next(s, steps[0]), steps[1..])
  }

  ghost predicate Legal(s: State, steps: seq<Step>)
    decreases |steps|
  {
    steps == [] || (Enabled(s, steps[0]) && Legal(Next(s, steps[0]), steps[1..]))
  }

  ghost predicate AllCareful(s: State, steps: seq<Step>)
    decreases |steps|
  {
    steps == [] || (Careful(s, steps[0]) && AllCareful(Next(s, steps[0]), steps[1..]))
  }

  lemma {:induction false} RunKeeps(s: State, steps: seq<Step>)
    requires Inv(s) && Legal(s, steps) && AllCareful(s, steps)
    ensures Inv(After(s, steps))
    decreases |steps|
  {
    hide Inv, Enabled, Next, Careful;
    if steps != [] {
      StepKeeps(s, steps[0]);
      RunKeeps(Next(s, steps[0]), steps[1..]);
    }
  }

  // Reachable without unsafe retries and early triggers.
  ghost predicate Reachable(s: State) {
    exists steps :: Legal(Initial(), steps) && AllCareful(Initial(), steps) && s == After(Initial(), steps)
  }

  lemma ReachableInv(s: State)
    requires Reachable(s)
    ensures Inv(s)
  {
    hide Legal, After, AllCareful;
    var steps :| Legal(Initial(), steps) && AllCareful(Initial(), steps) && s == After(Initial(), steps);
    RunKeeps(Initial(), steps);
  }

  // ---------------------------------------------------------------- results

  // What is in flight for a delivery, other than saving its last record.
  ghost predicate InFlightFor(s: State, id: Id) {
    exists k :: k in s.work && s.work[k].id == id && !s.work[k].Saving?
  }

  ghost predicate PostingFor(s: State, id: Id) {
    exists k :: k in s.work && s.work[k].Posting? && s.work[k].id == id
  }

  // In every reachable state the attempts of a delivery are bounded and fit its
  // status, and it has a timer or is in flight, not both, exactly while it is
  // not terminal (and, after a restart, once loading is done).
  lemma DeliveryLifecycle(s: State, id: Id)
    requires Reachable(s) && id in s.deliveries
    ensures var d := s.deliveries[id];
            d.attemptCount <= d.maxAttempts == 5 &&
            (d.status.Pending? || d.status.Failed? ==> d.attemptCount < d.maxAttempts) &&
            (d.status.RetryScheduled? ==> 0 < d.attemptCount < d.maxAttempts) &&
            (d.status.DeadLettered? ==> d.attemptCount == d.maxAttempts)
    ensures !(id in s.timers && InFlightFor(s, id))
    ensures id in s.timers || InFlightFor(s, id) <==> !Terminal(s.deliveries[id]) && !s.loading
  {
    ReachableInv(s);
    hide Reachable;
    assert DeliveryOk(s, id, s.deliveries[id]);
    forall k | k in s.work && s.work[k].id == id && !s.work[k].Saving?
      ensures s.home[id] == InFlight(k)
    {
      assert WorkOk(s, k, s.work[k]);
    }
    hide DeliveriesOk, AllWorkOk, TimersOk, StoredOk, CleanupsOk;
    if s.home[id].InFlight? {
      var k := s.home[id].key;
      assert k in s.work && s.work[k].id == id && !s.work[k].Saving?;
    }
  }

  // No two suspended calls hold the same delivery.
  lemma OneInFlight(s: State, j: nat, k: nat)
    requires Reachable(s)
    requires j in s.work && k in s.work && !s.work[j].Saving? && !s.work[k].Saving? && s.work[j].id == s.work[k].id
    ensures j == k
  {
    ReachableInv(s);
    hide Reachable;
    assert WorkOk(s, j, s.work[j]) && WorkOk(s, k, s.work[k]);
  }

  // A terminal record is changed only by a retry of its own; a record is
  // removed only by a cleanup that comes to it in its list, from storage too
  // and with its timer, and was retried if it is not terminal then.  A restart
  // goes back to what was saved.
  lemma TerminalStays(s: State, step: Step, id: Id)
    requires Reachable(s) && Enabled(s, step) && id in s.deliveries
    requires !step.RestartStep? && !(step.RetryStep? && step.id == id)
    ensures var t := Next(s, step);
            if id in t.deliveries then Terminal(s.deliveries[id]) ==> t.deliveries[id] == s.deliveries[id]
            else
              step.RemoveStep? && s.cleanups[step.key][0] == id && (Terminal(s.deliveries[id]) || id in s.retried) &&
              id !in t.timers && id !in t.stored
  {
    ReachableInv(s);
    hide Reachable, Inv, Enqueue, Land, Fire, Answer, BeginCleanup, RemoveFirst, Resume, Retry, Terminal;
    match step
    case EnqueueStep(x, webhook, now) => InHome(s, id); EnqueueStays(s, x, webhook, now, id);
    case LandStep(k, now) => LandStays(s, k, now);
    case FireStep(x, active, now) => FireStays(s, x, active, now, id);
    case AnswerStep(k, ok, now) => AnswerStays(s, k, ok, now, id);
    case CleanupStep(ids, _) => CleanupStays(s, ids);
    case RemoveStep(c) => RemoveStays(s, c, id);
    case RestartStep =>
    case ResumeStep(now) => ResumeStays(s, now);
    case RetryStep(x, now) => RetryStays(s, x, now, id);
  }

  lemma EnqueueStays(s: State, x: Id, webhook: WebhookId, now: nat, id: Id)
    requires id in s.deliveries && id != x
    ensures var t := Enqueue(s, x, webhook, now); id in t.deliveries && t.deliveries[id] == s.deliveries[id]
  {}

  lemma LandStays(s: State, k: nat, now: nat)
    requires k in s.work && !s.work[k].Posting?
    ensures Land(s, k, now).deliveries == s.deliveries
  {}

  lemma FireStays(s: State, x: Id, active: bool, now: nat, id: Id)
    requires Inv(s) && id in s.deliveries && x in s.timers
    ensures var t := Fire(s, x, active, now);
            id in t.deliveries && (Terminal(s.deliveries[id]) ==> t.deliveries[id] == s.deliveries[id])
  {
    TimerTaken(s, x);
    hide Inv, Detached, DeliveryOk;
  }

  lemma AnswerStays(s: State, k: nat, ok: bool, now: nat, id: Id)
    requires Inv(s) && id in s.deliveries && k in s.work && s.work[k].Posting?
    ensures var t := Answer(s, k, ok, now);
            id in t.deliveries && (Terminal(s.deliveries[id]) ==> t.deliveries[id] == s.deliveries[id])
  {
    WorkTaken(s, k);
    hide Inv, Detached, RetryDelay, RecordOk;
  }

  lemma CleanupStays(s: State, ids: seq<Id>)
    ensures BeginCleanup(s, ids).deliveries == s.deliveries
  {}

  lemma RemoveStays(s: State, c: nat, id: Id)
    requires Inv(s) && id in s.deliveries && c in s.cleanups && s.cleanups[c] != []
    ensures var t := RemoveFirst(s, c);
            if id in t.deliveries then t.deliveries[id] == s.deliveries[id]
            else s.cleanups[c][0] == id && (Terminal(s.deliveries[id]) || id in s.retried)
  {
    RemovedTerminal(s, c);
    hide Inv;
  }

  lemma ResumeStays(s: State, now: nat)
    ensures Resume(s, now).deliveries == s.deliveries
  {}

  lemma RetryStays(s: State, x: Id, now: nat, id: Id)
    requires id in s.deliveries && id != x
    ensures var t := Retry(s, x, now); id in t.deliveries && t.deliveries[id] == s.deliveries[id]
  {}

  lemma InHome(s: State, id: Id)
    requires Inv(s) && id in s.deliveries
    ensures id in s.home
  {}

  // Since the delivery was created or loaded, as many requests were begun as
  // attempts are counted, and one more while one is being posted: never more
  // than the maximum.
  lemma AttemptsAreRequests(s: State, id: Id)
    requires Reachable(s) && id in s.deliveries
    ensures id in s.begun && s.begun[id] <= s.deliveries[id].maxAttempts
    ensures s.begun[id] == s.deliveries[id].attemptCount + if PostingFor(s, id) then 1 else 0
  {
    ReachableInv(s);
    hide Reachable;
    var d := s.deliveries[id];
    assert DeliveryOk(s, id, d);
    forall k | k in s.work && s.work[k].Posting? && s.work[k].id == id
      ensures s.home[id] == InFlight(k)
    {
      assert WorkOk(s, k, s.work[k]);
    }
    if s.home[id].InFlight? { assert Busy(s, s.home[id].key, id, d); }
  }

  // --------------------------------------------------------- retries by hand

  ghost predicate Bounded(s: State) {
    forall id :: id in s.deliveries ==> s.deliveries[id].attemptCount <= s.deliveries[id].maxAttempts
  }

  // No careful run from here makes more attempts than the maximum.
  ghost predicate StaysBounded(s: State) {
    forall steps :: Legal(s, steps) && AllCareful(s, steps) ==> Bounded(After(s, steps))
  }

  ghost predicate StaysBoundedThroughout(s: State, steps: seq<Step>)
    decreases |steps|
  {
    StaysBounded(s) && (steps == [] || StaysBoundedThroughout(Next(s, steps[0]), steps[1..]))
  }

  lemma InvStaysBounded(s: State)
    requires Inv(s)
    ensures StaysBounded(s)
  {
    hide After, Legal, AllCareful;
    forall steps | Legal(s, steps) && AllCareful(s, steps)
      ensures Bounded(After(s, steps))
    {
      RunKeeps(s, steps);
      var t := After(s, steps);
      assert DeliveriesOk(t);
      forall id | id in t.deliveries
        ensures t.deliveries[id].attemptCount <= t.deliveries[id].maxAttempts
      {
        assert DeliveryOk(t, id, t.deliveries[id]);
      }
    }
  }

  // Some run without further triggers and retries makes more attempts than
  // the maximum.
  ghost predicate CanExceed(s: State) {
    exists steps :: Legal(s, steps) && Quiet(steps) && !Bounded(After(s, steps))
  }

  predicate Quiet(steps: seq<Step>) {
    forall i :: 0 <= i < |steps| ==> !steps[i].EnqueueStep? && !steps[i].RetryStep?
  }

  lemma {:induction false} QuietCareful(s: State, steps: seq<Step>)
    requires Quiet(steps)
    ensures AllCareful(s, steps)
    decreases |steps|
  {
    hide Next, SafeRetry;
    if steps != [] {
      assert !steps[0].EnqueueStep? && !steps[0].RetryStep?;
      QuietCareful(Next(s, steps[0]), steps[1..]);
    }
  }

  lemma ExceedsIsUnbounded(s: State)
    requires CanExceed(s)
    ensures !StaysBounded(s)
  {
    hide Legal, AllCareful, Quiet, Bounded, After;
    var steps :| Legal(s, steps) && Quiet(steps) && !Bounded(After(s, steps));
    QuietCareful(s, steps);
  }

  lemma ExceedsNow(s: State, id: Id)
    requires id in s.deliveries && s.deliveries[id].attemptCount > s.deliveries[id].maxAttempts
    ensures CanExceed(s)
  {
    var none: seq<Step> := [];
    assert Legal(s, none) && Quiet(none) && !Bounded(After(s, none));
  }

  lemma ExceedsLater(s: State, step: Step)
    requires Enabled(s, step) && !step.RetryStep? && !step.EnqueueStep? && CanExceed(Next(s, step))
    ensures CanExceed(s)
  {
    hide Enabled, Next, Bounded;
    var t := Next(s, step);
    var steps :| Legal(t, steps) && Quiet(steps) && !Bounded(After(t, steps));
    var all := [step] + steps;
    assert all[0] == step && all[1..] == steps;
    assert Legal(s, all) && Quiet(all) && After(s, all) == After(t, steps);
  }

  // A save that will schedule the delivery once more, beside what else it has.
  ghost predicate Spare(s: State, id: Id, k: nat) {
    id in s.deliveries && k in s.work && s.work[k].SavingToSchedule? && s.work[k].id == id && k < s.nextKey
  }

  // With no attempts left, the spare save leads to one too many.
  lemma SpareAtMaximum(s: State, id: Id, k: nat)
    requires Spare(s, id, k) && s.deliveries[id].attemptCount >= s.deliveries[id].maxAttempts
    ensures CanExceed(s)
  {
    hide CanExceed, RetryDelay, Max;
    var landed := Land(s, k, 0);
    var due := landed.timers[id];
    var posting := Fire(landed, id, true, due);
    var answered := Answer(posting, landed.nextKey, false, 0);
    ExceedsNow(answered, id);
    ExceedsLater(posting, AnswerStep(landed.nextKey, false, 0));
    ExceedsLater(landed, FireStep(id, true, due));
    ExceedsLater(s, LandStep(k, 0));
  }

  // With attempts left, failures use them up beside the spare save.
  lemma SpareBesidePosting(s: State, id: Id, k: nat, j: nat)
    requires Spare(s, id, k) && j in s.work && s.work[j].Posting? && s.work[j].id == id
    requires s.work[j].delivery.attemptCount < s.work[j].delivery.maxAttempts
    ensures CanExceed(s)
    decreases s.work[j].delivery.maxAttempts - s.work[j].delivery.attemptCount, 0
  {
    hide CanExceed, RetryDelay;
    var answered := Answer(s, j, false, 0);
    if answered.deliveries[id].status.RetryScheduled? {
      SpareBesideSaving(answered, id, k, s.nextKey);
    } else {
      SpareAtMaximum(answered, id, k);
    }
    ExceedsLater(s, AnswerStep(j, false, 0));
  }

  lemma SpareBesideSaving(s: State, id: Id, k: nat, j: nat)
    requires Spare(s, id, k) && j in s.work && s.work[j].SavingToSchedule? && s.work[j].id == id && j != k
    requires s.deliveries[id].attemptCount < s.deliveries[id].maxAttempts
    ensures CanExceed(s)
    decreases s.deliveries[id].maxAttempts - s.deliveries[id].attemptCount, 2
  {
    hide CanExceed, Max;
    SpareBesideTimer(Land(s, j, 0), id, k);
    ExceedsLater(s, LandStep(j, 0));
  }

  lemma SpareBesideTimer(s: State, id: Id, k: nat)
    requires Spare(s, id, k) && id in s.timers
    requires s.deliveries[id].attemptCount < s.deliveries[id].maxAttempts
    ensures CanExceed(s)
    decreases s.deliveries[id].maxAttempts - s.deliveries[id].attemptCount, 1
  {
    hide CanExceed;
    var due := s.timers[id];
    SpareBesidePosting(Fire(s, id, true, due), id, k, s.nextKey);
    ExceedsLater(s, FireStep(id, true, due));
  }

  // A retry while the delivery is still to be made, or with no attempts left,
  // or before loading is done, can end in too many attempts.
  lemma UnsafeRetryExceeds(s: State, id: Id, now: nat)
    requires Inv(s) && id in s.deliveries && !SafeRetry(s, id)
    ensures CanExceed(Retry(s, id, now))
  {
    var d := s.deliveries[id];
    assert DeliveryOk(s, id, d);
    hide CanExceed, DeliveriesOk, TimersOk, AllWorkOk, StoredOk, CleanupsOk;
    var k := s.nextKey;
    var t := Retry(s, id, now);
    if d.attemptCount >= d.maxAttempts {
      SpareAtMaximum(t, id, k);
    } else if s.loading {
      SpareBesideTimer(Resume(t, now), id, k);
      ExceedsLater(t, ResumeStep(now));
    } else if s.home[id].OnTimer? {
      SpareBesideTimer(t, id, k);
    } else {
      BusyKey(s, id);
      var j := s.home[id].key;
      if s.work[j].Posting? { SpareBesidePosting(t, id, k, j); } else { SpareBesideSaving(t, id, k, j); }
    }
  }

  // A trigger before loading is done can end so too: the new delivery is
  // given a timer while it is being saved.
  lemma EarlyTriggerExceeds(s: State, id: Id, webhook: WebhookId, now: nat)
    requires Inv(s) && s.loading && id !in s.home
    ensures CanExceed(Enqueue(s, id, webhook, now))
  {
    hide CanExceed, Inv;
    var t := Enqueue(s, id, webhook, now);
    SpareBesideTimer(Resume(t, now), id, s.nextKey);
    ExceedsLater(t, ResumeStep(now));
  }

  lemma TriggerBoundedIff(s: State, id: Id, webhook: WebhookId, now: nat)
    requires Inv(s) && id !in s.home
    ensures !s.loading <==> StaysBounded(Enqueue(s, id, webhook, now))
  {
    hide Inv, Enqueue;
    if s.loading {
      EarlyTriggerExceeds(s, id, webhook, now);
      ExceedsIsUnbounded(Enqueue(s, id, webhook, now));
    } else {
      EnqueueKeeps(s, id, webhook, now);
      InvStaysBounded(Enqueue(s, id, webhook, now));
    }
  }

  // After a trigger no careful run makes more attempts than the maximum
  // exactly when loading was done.
  lemma TriggerSafeIff(s: State, id: Id, webhook: WebhookId, now: nat)
    requires Reachable(s) && id !in s.home
    ensures !s.loading <==> StaysBounded(Enqueue(s, id, webhook, now))
  {
    ReachableInv(s);
    hide Reachable;
    TriggerBoundedIff(s, id, webhook, now);
  }

  lemma BusyKey(s: State, id: Id)
    requires Inv(s) && id in s.deliveries && id in s.home && s.home[id].InFlight?
    ensures Busy(s, s.home[id].key, id, s.deliveries[id]) && s.home[id].key < s.nextKey
  {
    assert DeliveryOk(s, id, s.deliveries[id]);
    var k := s.home[id].key;
    assert WorkOk(s, k, s.work[k]);
  }

  // After a retry no careful run makes more attempts than the maximum exactly
  // when the retry is safe: the record was terminal, which means it had no timer
  // and nothing in flight, had attempts left, and loading was done.
  lemma RetrySafeIff(s: State, id: Id, now: nat)
    requires Reachable(s) && id in s.deliveries
    ensures SafeRetry(s, id) <==> StaysBounded(Retry(s, id, now))
  {
    ReachableInv(s);
    hide Reachable;
    RetryBoundedIff(s, id, now);
  }

  lemma RetryBoundedIff(s: State, id: Id, now: nat)
    requires Inv(s) && id in s.deliveries
    ensures SafeRetry(s, id) <==> StaysBounded(Retry(s, id, now))
  {
    hide Inv, Retry;
    if SafeRetry(s, id) {
      RetryKeeps(s, id, now);
      InvStaysBounded(Retry(s, id, now));
    } else {
      UnsafeRetryExceeds(s, id, now);
      ExceedsIsUnbounded(Retry(s, id, now));
    }
  }

  // Over whole runs: every state of a run stays bounded exactly when every
  // retry of the run was safe, and no trigger came before loading was done.
  lemma AttemptsBoundedIff(steps: seq<Step>)
    requires Legal(Initial(), steps)
    ensures StaysBoundedThroughout(Initial(), steps) <==> AllCareful(Initial(), steps)
  {
    hide StaysBoundedThroughout, AllCareful, Legal;
    BoundedIffCareful(Initial(), steps);
  }

  lemma {:induction false} BoundedIffCareful(s: State, steps: seq<Step>)
    requires Inv(s) && Legal(s, steps)
    ensures StaysBoundedThroughout(s, steps) <==> AllCareful(s, steps)
    decreases |steps|
  {
    hide Inv, StaysBounded, SafeRetry, Retry, Enqueue, Land, Fire, Answer, BeginCleanup, RemoveFirst, Restart,
      Resume;
    InvStaysBounded(s);
    if steps != [] {
      var step := steps[0];
      if Careful(s, step) {
        StepKeeps(s, step);
        BoundedIffCareful(Next(s, step), steps[1..]);
      } else if step.EnqueueStep? {
        assert Enabled(s, step);
        TriggerBoundedIff(s, step.id, step.webhook, step.now);
      } else {
        RetryBoundedIff(s, step.id, step.now);
      }
    }
  }

  lemma OneMore(s: State, step: Step)
    requires Reachable(s) && Enabled(s, step) && Careful(s, step)
    ensures Reachable(Next(s, step))
  {
    hide Enabled, Next, Careful;
    var steps :| Legal(Initial(), steps) && AllCareful(Initial(), steps) && s == After(Initial(), steps);
    AppendStep(Initial(), steps, step);
  }

  lemma {:induction false} AppendStep(s: State, steps: seq<Step>, step: Step)
    requires Legal(s, steps) && AllCareful(s, steps)
    requires Enabled(After(s, steps), step) && Careful(After(s, steps), step)
    ensures Legal(s, steps + [step]) && AllCareful(s, steps + [step])
    ensures After(s, steps + [step]) == Next(After(s, steps), step)
    decreases |steps|
  {
    hide Enabled, Next, Careful;
    var all := steps + [step];
    if steps == [] {
      assert all[1..] == [] && all[0] == step;
    } else {
      AppendStep(Next(s, steps[0]), steps[1..], step);
      assert all[0] == steps[0] && all[1..] == steps[1..] + [step];
    }
  }

  // One such input: a delivery whose first request is being posted, with all
  // its attempts left.
  lemma RetryWhilePosting(id: Id, webhook: WebhookId, now: nat) returns (s: State)
    ensures Reachable(s) && PostingFor(s, id) && id in s.deliveries
    ensures s.deliveries[id].attemptCount < s.deliveries[id].maxAttempts
    ensures CanExceed(Retry(s, id, now))
  {
    hide CanExceed;
    s := Posted(id, webhook, true);
    assert s.work[1].Posting?;
    ReachableInv(s);
    hide Reachable, Inv;
    UnsafeRetryExceeds(s, id, now);
  }

  // The other: a delivery triggered while a new process is loading, with no
  // retry at all.
  lemma TriggerWhileLoading(id: Id, webhook: WebhookId, now: nat) returns (s: State)
    ensures Reachable(s) && s.loading && id !in s.home && Enabled(s, EnqueueStep(id, webhook, now))
    ensures CanExceed(Enqueue(s, id, webhook, now))
  {
    hide CanExceed;
    InitialReachable();
    s := Restart(Initial());
    hide Reachable;
    OneMore(Initial(), RestartStep);
    ReachableInv(s);
    hide Inv;
    EarlyTriggerExceeds(s, id, webhook, now);
  }

  lemma Posted(id: Id, webhook: WebhookId, active: bool) returns (s: State)
    ensures Reachable(s)
    ensures var d := NewDelivery(webhook, 0);
            s.deliveries == map[id := if active then d else d.(status := Failed)] && s.nextKey == 2 && !s.loading &&
            s.work == map[1 := if active then Posting(id, d) else Saving(id, d.(status := Failed))] &&
            s.cleanups == map[]
  {
    var b := Timed(id, webhook);
    hide Reachable;
    s := Fire(b, id, active, 0);
    OneMore(b, FireStep(id, active, 0));
  }

  lemma Timed(id: Id, webhook: WebhookId) returns (s: State)
    ensures Reachable(s)
    ensures s.deliveries == map[id := NewDelivery(webhook, 0)] && s.timers == map[id := 0] && s.work == map[]
    ensures s.nextKey == 1 && !s.loading && s.cleanups == map[]
  {
    var a := Enqueue(Initial(), id, webhook, 0);
    InitialReachable();
    hide Reachable;
    OneMore(Initial(), EnqueueStep(id, webhook, 0));
    assert a.work == map[0 := SavingToSchedule(id, NewDelivery(webhook, 0))];
    s := Land(a, 0, 0);
    OneMore(a, LandStep(0, 0));
  }

  lemma InitialReachable()
    ensures Reachable(Initial())
  {
    var none: seq<Step> := [];
    assert Legal(Initial(), none) && AllCareful(Initial(), none) && After(Initial(), none) == Initial();
  }

  // And what a cleanup listed can be retried and still be removed: a pending
  // delivery, whose save is in flight, is lost.
  lemma CleanupTakesRetried(id: Id, webhook: WebhookId) returns (s: State, c: nat)
    ensures Reachable(s) && Enabled(s, RemoveStep(c))
    ensures id in s.deliveries && s.deliveries[id].status.Pending? && id !in Next(s, RemoveStep(c)).deliveries
  {
    var a := Posted(id, webhook, false);
    hide Reachable;
    c := a.nextKey;
    var b := BeginCleanup(a, [id]);
    assert Enabled(a, CleanupStep([id], 1)) && Next(a, CleanupStep([id], 1)) == b;
    OneMore(a, CleanupStep([id], 1));
    s := Retry(b, id, 1);
    assert SafeRetry(b, id) && Next(b, RetryStep(id, 1)) == s;
    hide Next, Enabled;
    assert Enabled(b, RetryStep(id, 1)) by { AlwaysEnabled(b, id, 1); }
    OneMore(b, RetryStep(id, 1));
    RemovesListed(s, id, c);
  }

  lemma AlwaysEnabled(s: State, id: Id, now: nat)
    ensures Enabled(s, RetryStep(id, now))
  {}

  lemma RemovesListed(s: State, id: Id, c: nat)
    requires c in s.cleanups && s.cleanups[c] == [id] && id in s.deliveries
    ensures Enabled(s, RemoveStep(c)) && id !in Next(s, RemoveStep(c)).deliveries
  {}
}
