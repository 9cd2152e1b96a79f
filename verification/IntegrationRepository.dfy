/** The integration repository and the delivery service's bookkeeping, changing the tables in place. */
module IntegrationRepository {
  import opened Options
  import opened IntegrationTables

  class Repository {
    var connections: map<Id, Connection>
    var subscriptions: map<(Id, Id), Subscription>
    var events: map<Id, Event>
    var deliveries: map<Id, Delivery>
    const max: nat  // integration_max_retries

    function State(): Tables
      reads this
    {
      Tables(connections, subscriptions, events, deliveries)
    }

    constructor (max: nat)
      ensures State() == EMPTY && this.max == max
    {
      connections, subscriptions, events, deliveries := map[], map[], map[], map[];
      this.max := max;
    }

    // -------------------------------------------------------------- outbox events

    method ClaimOutboxEvent(e: Id, now: Time) returns (claimed: bool)
      modifies this`events
      ensures claimed <==> e in old(events) && EventIsReady(old(events)[e], now, max)
      ensures claimed <==> && e in old(events) && old(events)[e].status in {EventStatus.Pending, EventStatus.Failed}
                           && old(events)[e].availableAt <= now && old(events)[e].attempts < max
      ensures claimed ==> && e in events && SameEventBut(old(events)[e], events[e]) && events[e].status.Processing?
                          && events[e].attempts == old(events)[e].attempts + 1
      ensures events == if claimed then old(events)[e := ClaimedEvent(old(events)[e], now)] else old(events)
    {
      if e !in events { return false; }
      var event := events[e];
      if !(event.status.Pending? || event.status.Failed?) || event.availableAt > now || event.attempts >= max { return false; }
      event := event.(status := EventStatus.Processing);
      event := event.(attempts := event.attempts + 1);
      events := events[e := event.(updatedAt := now)];
      return true;
    }

    /** The queries and the loop of `create_deliveries`, up to the rows that it will add. */
    method CollectTargets(e: Event) returns (targets: set<Id>)
      ensures targets == Targets(State(), State(), e)
      ensures forall c :: c in targets <==>
                && Subscribed(State(), c, e.workspace, e.kind)
                && forall d <- deliveries ::
                     !(deliveries[d].connection == c && deliveries[d].kind == e.kind && deliveries[d].subject == e.subject)
    {
      var rows := Eligible(State(), e);
      var existing := Existing(State(), e);
      var left := rows;
      targets := {};
      while left != {}
        invariant left <= rows
        invariant targets == (rows - left) - existing
        decreases left
      {
        var c :| c in left;
        left := left - {c};
        if c in existing {
          continue;
        }
        targets := targets + {c};
      }
      forall c ensures c in targets <==> Subscribed(State(), c, e.workspace, e.kind) && c !in existing {
        EligibleAreSubscribed(State(), e, c);
      }
    }

    /** Adds the rows, marks the event processed, and commits; a second delivery for a target rolls everything back. */
    method CommitDeliveries(e: Id, ids: map<Id, Id>, now: Time) returns (committed: bool)
      requires e in events && forall d <- ids :: d !in deliveries
      modifies this`events, this`deliveries
      ensures committed <==> UniqueDeliveries(old(deliveries) + NewDeliveries(old(events)[e], ids, now))
      ensures deliveries == if committed then old(deliveries) + NewDeliveries(old(events)[e], ids, now) else old(deliveries)
      ensures events == if committed then old(events)[e := ProcessedEvent(old(events)[e], now)] else old(events)
      ensures committed ==> forall d <- ids ::
                && d in deliveries
                && deliveries[d] == Delivery(ids[d], events[e].kind, events[e].subject, DeliveryStatus.Pending, 0, Some(now), None, now)
      ensures committed ==> && SameEventBut(old(events)[e], events[e]) && events[e].attempts == old(events)[e].attempts
                            && events[e].status.Processed? && events[e].processedAt == Some(now)
    {
      var before, event := deliveries, events[e];
      var left := ids.Keys;
      while left != {}
        invariant left <= ids.Keys
        invariant events == old(events) && deliveries == before + NewDeliveries(event, ids - left, now)
        decreases left
      {
        var d :| d in left;
        AddOne(before, event, ids, left, d, now);
        deliveries := deliveries[d := NewDelivery(ids[d], event, now)];
        left := left - {d};
      }
      assert ids - left == ids;
      if UniqueDeliveries(deliveries) {
        events := events[e := event.(status := EventStatus.Processed, processedAt := Some(now), updatedAt := now)];
        return true;
      }
      deliveries := before;
      return false;
    }

    method MarkOutboxFailed(e: Id, availableAt: Time, now: Time)
      modifies this`events
      ensures events == if e in old(events) then old(events)[e := FailedEvent(old(events)[e], availableAt, now)] else old(events)
      ensures events ==
        if e in old(events) && old(events)[e].status in {EventStatus.Pending, EventStatus.Processing, EventStatus.Failed}
        then old(events)[e := old(events)[e].(status := EventStatus.Failed, availableAt := availableAt, updatedAt := now)]
        else old(events)
    {
      if e !in events || events[e].status.Processed? {
        assert e in events ==> events[e := events[e]] == events;
        return;
      }
      events := events[e := events[e].(status := EventStatus.Failed, availableAt := availableAt, updatedAt := now)];
    }

    // -------------------------------------------------------------- deliveries

    method ClaimDelivery(d: Id, now: Time) returns (claimed: bool)
      modifies this`deliveries
      ensures claimed <==> d in old(deliveries) && DeliveryIsReady(old(deliveries)[d], now)
      ensures claimed <==> && d in old(deliveries)
                           && old(deliveries)[d].status in {DeliveryStatus.Pending, DeliveryStatus.RetryScheduled}
                           && (old(deliveries)[d].nextRetryAt.Some? ==> old(deliveries)[d].nextRetryAt.value <= now)
      ensures claimed ==> && d in deliveries && SameTarget(old(deliveries)[d], deliveries[d]) && deliveries[d].status.Delivering?
                          && deliveries[d].attempts == old(deliveries)[d].attempts + 1 && deliveries[d].nextRetryAt.None?
                          && deliveries[d].deliveredAt == old(deliveries)[d].deliveredAt
      ensures deliveries == if claimed then old(deliveries)[d := ClaimedDelivery(old(deliveries)[d], now)] else old(deliveries)
    {
      if d !in deliveries { return false; }
      var delivery := deliveries[d];
      if !(delivery.status.Pending? || delivery.status.RetryScheduled?) { return false; }
      if delivery.nextRetryAt.Some? && delivery.nextRetryAt.value > now { return false; }
      delivery := delivery.(status := DeliveryStatus.Delivering);
      delivery := delivery.(attempts := delivery.attempts + 1);
      deliveries := deliveries[d := delivery.(nextRetryAt := None, updatedAt := now)];
      return true;
    }

    method MarkDeliveryDelivered(d: Id, now: Time)
      modifies this`deliveries
      ensures deliveries == if d in old(deliveries) then old(deliveries)[d := DeliveredDelivery(old(deliveries)[d], now)]
                            else old(deliveries)
      ensures d in old(deliveries) ==>
        && d in deliveries && SameTarget(old(deliveries)[d], deliveries[d]) && deliveries[d].status.Delivered?
        && deliveries[d].deliveredAt == Some(now) && deliveries[d].nextRetryAt.None?
        && deliveries[d].attempts == old(deliveries)[d].attempts
    {
      if d !in deliveries { return; }
      deliveries := deliveries[d := deliveries[d].(status := DeliveryStatus.Delivered, deliveredAt := Some(now),
                                                   nextRetryAt := None, updatedAt := now)];
    }

    method ScheduleDeliveryRetry(d: Id, retryAt: Time, now: Time)
      modifies this`deliveries
      ensures deliveries ==
        if d in old(deliveries) && !old(deliveries)[d].status.Delivered?
        then old(deliveries)[d := old(deliveries)[d].(status := DeliveryStatus.RetryScheduled, nextRetryAt := Some(retryAt), updatedAt := now)]
        else old(deliveries)
    {
      if d !in deliveries || deliveries[d].status.Delivered? { return; }
      deliveries := deliveries[d := deliveries[d].(status := DeliveryStatus.RetryScheduled, nextRetryAt := Some(retryAt), updatedAt := now)];
    }

    method MarkDeliveryFailed(d: Id, now: Time)
      modifies this`deliveries
      ensures deliveries ==
        if d in old(deliveries) && !old(deliveries)[d].status.Delivered?
        then old(deliveries)[d := old(deliveries)[d].(status := DeliveryStatus.Failed, nextRetryAt := None, updatedAt := now)]
        else old(deliveries)
    {
      if d !in deliveries || deliveries[d].status.Delivered? { return; }
      deliveries := deliveries[d := deliveries[d].(status := DeliveryStatus.Failed, nextRetryAt := None, updatedAt := now)];
    }

    /** `record_delivery_error`; returns the number of attempts that the worker compares with the limit. */
    method RecordDeliveryError(d: Id, retryAt: Time, now: Time) returns (attempts: nat)
      modifies this`deliveries
      ensures attempts == if d in old(deliveries) then old(deliveries)[d].attempts else max
      ensures deliveries == if d in old(deliveries) then old(deliveries)[d := ErroredDelivery(old(deliveries)[d], retryAt, now, max)]
                            else old(deliveries)
      ensures d in old(deliveries) ==>
        && d in deliveries && SameTarget(old(deliveries)[d], deliveries[d]) && deliveries[d].attempts == old(deliveries)[d].attempts
        && (old(deliveries)[d].status.Delivered? ==> deliveries[d] == old(deliveries)[d])
        && (!old(deliveries)[d].status.Delivered? && old(deliveries)[d].attempts >= max ==> deliveries[d].status.Failed?)
        && (!old(deliveries)[d].status.Delivered? && old(deliveries)[d].attempts < max ==>
              deliveries[d].status.RetryScheduled? && deliveries[d].nextRetryAt == Some(retryAt))
    {
      if d !in deliveries { return max; }
      attempts := deliveries[d].attempts;
      assert deliveries[d := deliveries[d]] == deliveries;
      if attempts >= max {
        MarkDeliveryFailed(d, now);
      } else {
        ScheduleDeliveryRetry(d, retryAt, now);
      }
    }

    // -------------------------------------------------------------- recovery

    /** Gives every stale claim back, and counts what was stale. */
    method RecoverStaleClaims(staleBefore: Time, availableAt: Time, now: Time) returns (eventCount: nat, deliveryCount: nat)
      modifies this`events, this`deliveries
      ensures events == map e <- old(events) :: RecoveredEvent(old(events)[e], staleBefore, availableAt, now)
      ensures deliveries == map d <- old(deliveries) :: RecoveredDelivery(old(deliveries)[d], staleBefore, availableAt, now, max)
      ensures forall e <- events :: events[e] ==
                if old(events)[e].status.Processing? && old(events)[e].updatedAt <= staleBefore
                then old(events)[e].(status := EventStatus.Failed, availableAt := availableAt, updatedAt := now) else old(events)[e]
      ensures forall d <- deliveries :: GivenBack(old(deliveries)[d], deliveries[d], staleBefore, availableAt, max)
      ensures eventCount == |StaleEvents(old(events), staleBefore)|
      ensures deliveryCount == |StaleDeliveries(old(deliveries), staleBefore)|
    {
      var staleEvents := StaleEvents(events, staleBefore);
      var staleDeliveries := StaleDeliveries(deliveries, staleBefore);
      var left := staleEvents;
      while left != {}
        invariant left <= staleEvents
        invariant events.Keys == old(events).Keys && deliveries == old(deliveries)
        invariant forall e <- events :: events[e] == if e in left then old(events)[e]
                                                      else RecoveredEvent(old(events)[e], staleBefore, availableAt, now)
        decreases left
      {
        var e :| e in left;
        events := events[e := events[e].(status := EventStatus.Failed, availableAt := availableAt, updatedAt := now)];
        left := left - {e};
      }
      ghost var recovered := events;
      left := staleDeliveries;
      while left != {}
        invariant left <= staleDeliveries
        invariant deliveries.Keys == old(deliveries).Keys && events == recovered
        invariant forall d <- deliveries :: deliveries[d] == if d in left then old(deliveries)[d]
                                                              else RecoveredDelivery(old(deliveries)[d], staleBefore, availableAt, now, max)
        decreases left
      {
        var d :| d in left;
        if deliveries[d].attempts >= max {
          deliveries := deliveries[d := deliveries[d].(status := DeliveryStatus.Failed, nextRetryAt := None, updatedAt := now)];
        } else {
          deliveries := deliveries[d := deliveries[d].(status := DeliveryStatus.RetryScheduled, nextRetryAt := Some(availableAt),
                                                       updatedAt := now)];
        }
        left := left - {d};
      }
      return |staleEvents|, |staleDeliveries|;
    }
  }

  /** The same event, whatever became of its progress. */
  predicate SameEventBut(a: Event, b: Event) {
    b.workspace == a.workspace && b.kind == a.kind && b.subject == a.subject && b.availableAt == a.availableAt
  }

  /** A stale claim goes back to retry, or fails when its attempts are spent; any other row stays as it is. */
  predicate GivenBack(a: Delivery, b: Delivery, staleBefore: Time, availableAt: Time, max: nat) {
    if a.status == DeliveryStatus.Delivering && a.updatedAt <= staleBefore then
      && SameTarget(a, b) && b.attempts == a.attempts && b.deliveredAt == a.deliveredAt
      && if a.attempts < max then b.status.RetryScheduled? && b.nextRetryAt == Some(availableAt)
         else b.status.Failed? && b.nextRetryAt.None?
    else b == a
  }

  function StaleEvents(events: map<Id, Event>, staleBefore: Time): set<Id> {
    set e <- events | events[e].status.Processing? && events[e].updatedAt <= staleBefore
  }

  function StaleDeliveries(deliveries: map<Id, Delivery>, staleBefore: Time): set<Id> {
    set d <- deliveries | deliveries[d].status.Delivering? && deliveries[d].updatedAt <= staleBefore
  }

  lemma AddOne(before: map<Id, Delivery>, e: Event, ids: map<Id, Id>, left: set<Id>, d: Id, now: Time)
    requires d in left && left <= ids.Keys
    ensures before + NewDeliveries(e, ids - (left - {d}), now)
         == (before + NewDeliveries(e, ids - left, now))[d := NewDelivery(ids[d], e, now)]
  {
  }
}
