/** The delivery half of the webhook manager, each method against its step. */
module WebhookManager {
  import opened Basics
  import opened WebhookDelivery
  import Steps = WebhookDelivery

  class Manager {
    var deliveries: map<Id, Delivery>
    var deliveryTimers: map<Id, nat>
    var work: map<nat, Work>
    var cleanups: map<nat, seq<Id>>
    var stored: map<Id, Delivery>
    var loading: bool
    var nextKey: nat
    ghost var home: map<Id, Place>
    ghost var begun: map<Id, nat>
    ghost var retried: set<Id>

    ghost function Abstract(): State
      reads this
    {
      State(deliveries, deliveryTimers, work, cleanups, stored, loading, nextKey, home, begun, retried)
    }

    constructor ()
      ensures Abstract() == Initial()
    {
      deliveries, deliveryTimers, work, cleanups, stored := map[], map[], map[], map[], map[];
      loading, nextKey, home, begun, retried := false, 0, map[], map[], {};
    }

    method SaveDelivery(id: Id, d: Delivery, schedule: bool)
      modifies this
      ensures Abstract() == Save(old(Abstract()), id, d, schedule)
    {
      deliveries := deliveries[id := d];
      work := work[nextKey := if schedule then SavingToSchedule(id, d) else Saving(id, d)];
      home := home[id := if schedule then InFlight(nextKey) else Done];
      nextKey := nextKey + 1;
    }

    method EnqueueDelivery(id: Id, webhook: WebhookId, now: nat)
      modifies this
      ensures Abstract() == Enqueue(old(Abstract()), id, webhook, now)
    {
      SaveDelivery(id, Delivery(webhook, Pending, 0, MAX_DELIVERY_ATTEMPTS, now, Some(now)), true);
      begun := begun[id := 0];
    }

    method ScheduleDelivery(id: Id, d: Delivery, now: nat)
      modifies `deliveryTimers, `home
      ensures deliveryTimers == old(deliveryTimers)[id := DueAt(d, now)] && home == old(home)[id := OnTimer]
    {
      var dueAt := if d.nextAttemptAt.Some? then d.nextAttemptAt.value else now;
      var delay := if dueAt > now then dueAt - now else 0;
      deliveryTimers := deliveryTimers[id := now + delay];
      home := home[id := OnTimer];
    }

    // A save reaches storage, and the call that waited for it goes on.
    method SaveLanded(k: nat, now: nat)
      requires k in work && !work[k].Posting?
      modifies this
      ensures Abstract() == Land(old(Abstract()), k, now)
    {
      var w := work[k];
      stored := stored[w.id := w.delivery];
      work := work - {k};
      if w.SavingToSchedule? { ScheduleDelivery(w.id, w.delivery, now); }
    }

    // A timer fires.
    method ProcessDelivery(id: Id, active: bool, now: nat)
      modifies this
      ensures Abstract() == Fire(old(Abstract()), id, active, now)
    {
      hide Save;
      deliveryTimers := deliveryTimers - {id};
      if id !in deliveries { return; }
      if !active {
        SaveDelivery(id, deliveries[id].(status := Failed, updatedAt := now), false);
        return;
      }
      work := work[nextKey := Posting(id, deliveries[id])];
      home := home[id := InFlight(nextKey)];
      begun := begun[id := (if id in begun then begun[id] else 0) + 1];
      nextKey := nextKey + 1;
    }

    // The posted request is answered, or fails.
    method RequestDone(k: nat, ok: bool, now: nat)
      requires k in work && work[k].Posting?
      modifies this
      ensures Abstract() == Answer(old(Abstract()), k, ok, now)
    {
      hide Save, RetryDelay;
      var id, delivery := work[k].id, work[k].delivery;
      var attemptCount := delivery.attemptCount + 1;
      work := work - {k};
      if ok {
        SaveDelivery(id,
                     delivery.(status := Success, attemptCount := attemptCount, updatedAt := now,
                               nextAttemptAt := None), false);
      } else if attemptCount < delivery.maxAttempts {
        var retryDelayMs := RetryDelay(attemptCount);
        SaveDelivery(id, delivery.(status := RetryScheduled, attemptCount := attemptCount, updatedAt := now,
                                   nextAttemptAt := Some(now + retryDelayMs)), true);
      } else {
        SaveDelivery(id,
                     delivery.(status := DeadLettered, attemptCount := attemptCount, updatedAt := now,
                               nextAttemptAt := None), false);
      }
    }

    // A retry by hand, whatever the status of the record; false for an unknown id.
    method RetryDelivery(id: Id, now: nat) returns (found: bool)
      modifies this
      ensures Abstract() == Retry(old(Abstract()), id, now)
      ensures found == (id in old(deliveries))
    {
      hide Save;
      found := id in deliveries;
      if found {
        retried := retried + {id};
        SaveDelivery(id, deliveries[id].(status := Pending, updatedAt := now, nextAttemptAt := Some(now)), true);
      }
    }

    // Lists what is expired, each once, for a cleanup to remove later.
    method BeginCleanup(cutoff: nat) returns (ids: seq<Id>)
      modifies this
      ensures Abstract() == Steps.BeginCleanup(old(Abstract()), ids)
      ensures forall id :: id in ids <==>
                id in deliveries && deliveries[id].status in {Success, Failed, DeadLettered} &&
                deliveries[id].updatedAt < cutoff
      ensures forall i, j :: 0 <= i < j < |ids| ==> ids[i] != ids[j]
    {
      ids := [];
      var rest := deliveries.Keys;
      while rest != {}
        invariant rest <= deliveries.Keys && Abstract() == old(Abstract())
        invariant forall id :: id in ids <==> id in deliveries && id !in rest && Expired(deliveries[id], cutoff)
        invariant forall i, j :: 0 <= i < j < |ids| ==> ids[i] != ids[j]
        decreases |rest|
      {
        var id :| id in rest;
        if Expired(deliveries[id], cutoff) { ids := ids + [id]; }
        rest := rest - {id};
      }
      cleanups := cleanups[nextKey := ids];
      nextKey := nextKey + 1;
    }

    method DeleteNext(c: nat)
      requires c in cleanups && cleanups[c] != []
      modifies this
      ensures Abstract() == RemoveFirst(old(Abstract()), c)
    {
      var id := cleanups[c][0];
      cleanups := cleanups[c := cleanups[c][1..]];
      if id !in deliveries { return; }
      deliveryTimers, deliveries, stored := deliveryTimers - {id}, deliveries - {id}, stored - {id};
    }

    // A new process loads what the last one saved.
    method LoadFromStorage()
      modifies this
      ensures Abstract() == Restart(old(Abstract()))
    {
      home := home + map id | id in stored :: if Terminal(stored[id]) then Done else Unscheduled;
      begun := begun + map id | id in stored :: stored[id].attemptCount;
      deliveries, deliveryTimers, work, cleanups := stored, map[], map[], map[];
      loading := true;
    }

    method ResumePendingDeliveries(now: nat)
      modifies `deliveryTimers, `home, `loading
      ensures Abstract() == Resume(old(Abstract()), now)
    {
      SetTimers(now);
      loading := false;
    }

    method SetTimers(now: nat)
      modifies `deliveryTimers, `home
      ensures deliveryTimers == DueTimes(old(deliveryTimers), deliveries, deliveries.Keys, now)
      ensures home == OnTimers(old(home), deliveries, deliveries.Keys)
    {
      hide DueTimes, OnTimers, DueAt;
      ghost var done: set<Id> := {};
      var rest := deliveries.Keys;
      TimedNone(deliveries, deliveryTimers, home, now);
      while rest != {}
        invariant rest <= deliveries.Keys && done == deliveries.Keys - rest
        invariant deliveryTimers == DueTimes(old(deliveryTimers), deliveries, done, now)
        invariant home == OnTimers(old(home), deliveries, done)
        decreases |rest|
      {
        var id :| id in rest;
        if deliveries[id].status.Pending? || deliveries[id].status.RetryScheduled? {
          TimedOne(deliveries, old(deliveryTimers), old(home), done, id, now);
          ScheduleDelivery(id, deliveries[id], now);
        } else {
          TimedTerminal(deliveries, old(deliveryTimers), old(home), done, id, now);
        }
        rest := rest - {id};
        done := done + {id};
      }
      assert done == deliveries.Keys;
    }
  }

  lemma TimedNone(deliveries: map<Id, Delivery>, timers: map<Id, nat>, home: map<Id, Place>, now: nat)
    ensures DueTimes(timers, deliveries, {}, now) == timers && OnTimers(home, deliveries, {}) == home
  {}

  lemma TimedOne(deliveries: map<Id, Delivery>, timers: map<Id, nat>, home: map<Id, Place>, done: set<Id>, id: Id,
                 now: nat)
    requires id in deliveries && !Terminal(deliveries[id])
    ensures DueTimes(timers, deliveries, done + {id}, now)
            == DueTimes(timers, deliveries, done, now)[id := DueAt(deliveries[id], now)]
    ensures OnTimers(home, deliveries, done + {id}) == OnTimers(home, deliveries, done)[id := OnTimer]
  {}

  lemma TimedTerminal(deliveries: map<Id, Delivery>, timers: map<Id, nat>, home: map<Id, Place>, done: set<Id>, id: Id,
                      now: nat)
    requires id in deliveries && Terminal(deliveries[id])
    ensures DueTimes(timers, deliveries, done + {id}, now) == DueTimes(timers, deliveries, done, now)
    ensures OnTimers(home, deliveries, done + {id}) == OnTimers(home, deliveries, done)
  {}
}
