/** The outbox and delivery tables of the integrations, and what each repository call does to them. */
module IntegrationTables {
  import opened Options

  type Id = nat
  type Time = nat

  datatype EventStatus = Pending | Processing | Processed | Failed

  datatype DeliveryStatus = Pending | Delivering | RetryScheduled | Delivered | Failed

  datatype Connection = Connection(workspace: Id, active: bool)

  datatype Subscription = Subscription(enabled: bool, destination: Option<string>)

  /** An outbox row; `kind` and `subject` are its `event_type` and `event_id`. */
  datatype Event = Event(
    workspace: Id, kind: Id, subject: Id, status: EventStatus, attempts: nat,
    availableAt: Time, processedAt: Option<Time>, updatedAt: Time)

  datatype Delivery = Delivery(
    connection: Id, kind: Id, subject: Id, status: DeliveryStatus, attempts: nat,
    nextRetryAt: Option<Time>, deliveredAt: Option<Time>, updatedAt: Time)

  datatype Tables = Tables(
    connections: map<Id, Connection>,
    subscriptions: map<(Id, Id), Subscription>,  // (connection, kind)
    events: map<Id, Event>,
    deliveries: map<Id, Delivery>)

  const EMPTY := Tables(map[], map[], map[], map[])

  // ---------------------------------------------------------------- keys

  ghost predicate UniqueEvents(events: map<Id, Event>) {
    forall e <- events, f <- events :: events[e].kind == events[f].kind && events[e].subject == events[f].subject ==> e == f
  }

  predicate SameTarget(a: Delivery, b: Delivery) {
    a.connection == b.connection && a.kind == b.kind && a.subject == b.subject
  }

  predicate UniqueDeliveries(deliveries: map<Id, Delivery>) {
    forall d <- deliveries, f <- deliveries :: SameTarget(deliveries[d], deliveries[f]) ==> d == f
  }

  predicate HasDelivery(deliveries: map<Id, Delivery>, connection: Id, kind: Id, subject: Id) {
    exists d <- deliveries ::
      deliveries[d].connection == connection && deliveries[d].kind == kind && deliveries[d].subject == subject
  }

  // ---------------------------------------------------------------- outbox

  predicate EventIsReady(e: Event, now: Time, max: nat) {
    (e.status.Pending? || e.status.Failed?) && e.availableAt <= now && e.attempts < max
  }

  /** `claim_outbox_event` on a ready row. */
  function ClaimedEvent(e: Event, now: Time): Event {
    e.(status := EventStatus.Processing, attempts := e.attempts + 1, updatedAt := now)
  }

  /** `mark_outbox_failed`. */
  function FailedEvent(e: Event, availableAt: Time, now: Time): Event {
    if e.status.Processed? then e else e.(status := EventStatus.Failed, availableAt := availableAt, updatedAt := now)
  }

  function RecoveredEvent(e: Event, staleBefore: Time, availableAt: Time, now: Time): Event {
    if e.status.Processing? && e.updatedAt <= staleBefore
    then e.(status := EventStatus.Failed, availableAt := availableAt, updatedAt := now) else e
  }

  /** The connections that the first query of `create_deliveries` joins for an event. */
  function Eligible(t: Tables, e: Event): set<Id> {
    set c <- t.connections |
      && t.connections[c].workspace == e.workspace && t.connections[c].active
      && (c, e.kind) in t.subscriptions && t.subscriptions[(c, e.kind)].enabled && t.subscriptions[(c, e.kind)].destination.Some?
  }

  /** What the event's workspace has set up: connection `c` is active, and its subscription is enabled and has a destination. */
  ghost predicate Subscribed(t: Tables, c: Id, workspace: Id, kind: Id) {
    && c in t.connections && t.connections[c] == Connection(workspace, true)
    && (c, kind) in t.subscriptions
    && exists destination: string :: t.subscriptions[(c, kind)] == Subscription(true, Some(destination))
  }

  lemma EligibleAreSubscribed(t: Tables, e: Event, c: Id)
    ensures c in Eligible(t, e) <==> Subscribed(t, c, e.workspace, e.kind)
  {
    if c in Eligible(t, e) {
      assert t.subscriptions[(c, e.kind)] == Subscription(true, Some(t.subscriptions[(c, e.kind)].destination.value));
    }
  }

  /** The second query: connections that already have a delivery of the event. */
  function Existing(t: Tables, e: Event): set<Id> {
    set d <- t.deliveries | t.deliveries[d].kind == e.kind && t.deliveries[d].subject == e.subject :: t.deliveries[d].connection
  }

  /** The connections that the loop creates a delivery for; the two queries may see different tables. */
  function Targets(joined: Tables, known: Tables, e: Event): set<Id> {
    Eligible(joined, e) - Existing(known, e)
  }

  function NewDelivery(connection: Id, e: Event, now: Time): Delivery {
    Delivery(connection, e.kind, e.subject, DeliveryStatus.Pending, 0, Some(now), None, now)
  }

  /** `ids` gives each new row's identifier its connection. */
  function NewDeliveries(e: Event, ids: map<Id, Id>, now: Time): map<Id, Delivery> {
    map d <- ids :: NewDelivery(ids[d], e, now)
  }

  function ProcessedEvent(e: Event, now: Time): Event {
    e.(status := EventStatus.Processed, processedAt := Some(now), updatedAt := now)
  }

  // ---------------------------------------------------------------- deliveries

  predicate DeliveryIsReady(d: Delivery, now: Time) {
    (d.status.Pending? || d.status.RetryScheduled?) && (d.nextRetryAt.None? || d.nextRetryAt.value <= now)
  }

  /** `claim_delivery` on a ready row; the query does not look at the number of attempts. */
  function ClaimedDelivery(d: Delivery, now: Time): Delivery {
    d.(status := DeliveryStatus.Delivering, attempts := d.attempts + 1, nextRetryAt := None, updatedAt := now)
  }

  /** `mark_delivery_delivered`, whatever the status. */
  function DeliveredDelivery(d: Delivery, now: Time): Delivery {
    d.(status := DeliveryStatus.Delivered, deliveredAt := Some(now), nextRetryAt := None, updatedAt := now)
  }

  /** `record_delivery_error`: `mark_delivery_failed` once the attempts are spent, else `schedule_delivery_retry`. */
  function ErroredDelivery(d: Delivery, retryAt: Time, now: Time, max: nat): Delivery {
    if d.status.Delivered? then d
    else if d.attempts >= max then d.(status := DeliveryStatus.Failed, nextRetryAt := None, updatedAt := now)
    else d.(status := DeliveryStatus.RetryScheduled, nextRetryAt := Some(retryAt), updatedAt := now)
  }

  function RecoveredDelivery(d: Delivery, staleBefore: Time, availableAt: Time, now: Time, max: nat): Delivery {
    if d.status.Delivering? && d.updatedAt <= staleBefore then
      if d.attempts >= max then d.(status := DeliveryStatus.Failed, nextRetryAt := None, updatedAt := now)
      else d.(status := DeliveryStatus.RetryScheduled, nextRetryAt := Some(availableAt), updatedAt := now)
    else d
  }

  /** The write half of an error or a recovery, decided on the row as it was read and applied to the row as it is. */
  function LateWrite(read: Delivery, current: Delivery, retryAt: Time, now: Time, max: nat): Delivery {
    if read.attempts >= max then current.(status := DeliveryStatus.Failed, nextRetryAt := None, updatedAt := now)
    else current.(status := DeliveryStatus.RetryScheduled, nextRetryAt := Some(retryAt), updatedAt := now)
  }

  // ---------------------------------------------------------------- retry delays

  function PowerOfTwo(n: nat): (p: nat)
    ensures p >= 1
  {
    if n == 0 then 1 else 2 * PowerOfTwo(n - 1)
  }

  /** `retry_countdown`. */
  function RetryCountdown(base: nat, cap: nat, attempts: nat): nat {
    var delay := base * PowerOfTwo(if attempts > 0 then attempts - 1 else 0);
    if delay < cap then delay else cap
  }

  lemma {:induction false} PowersGrow(m: nat, n: nat)
    requires m <= n
    ensures PowerOfTwo(m) <= PowerOfTwo(n)
    decreases n
  {
    if m < n {
      PowersGrow(m, n - 1);
    }
  }

  /** Delays never shrink from one attempt to the next and stop at the cap. */
  lemma CountdownIsMonotone(base: nat, cap: nat, a: nat, b: nat)
    requires a <= b
    ensures RetryCountdown(base, cap, a) <= RetryCountdown(base, cap, b) <= cap
  {
    var m, n := if a > 0 then a - 1 else 0, if b > 0 then b - 1 else 0;
    PowersGrow(m, n);
    Scale(base, PowerOfTwo(m), PowerOfTwo(n));
  }

  /** Below the cap each delay is twice the one before it. */
  lemma CountdownDoubles(base: nat, cap: nat, a: nat)
    requires a >= 1 && RetryCountdown(base, cap, a + 1) < cap
    ensures RetryCountdown(base, cap, a + 1) == 2 * RetryCountdown(base, cap, a)
  {
    Double(base, PowerOfTwo(a - 1));
  }

  /** The delay after the first attempt is the base, after each further one twice as much, and never more than the cap. */
  lemma CountdownIs(base: nat, cap: nat, attempts: nat)
    ensures attempts <= 1 ==> RetryCountdown(base, cap, attempts) == if base <= cap then base else cap
    ensures attempts >= 1 ==>
      RetryCountdown(base, cap, attempts + 1) ==
        if 2 * RetryCountdown(base, cap, attempts) <= cap then 2 * RetryCountdown(base, cap, attempts) else cap
  {
    if attempts >= 1 {
      Double(base, PowerOfTwo(attempts - 1));
    } else {
      assert PowerOfTwo(0) == 1;
    }
  }

  lemma Scale(base: nat, p: nat, q: nat)
    requires p <= q
    ensures base * p <= base * q
  {
  }

  lemma Double(base: nat, p: nat)
    ensures base * (2 * p) == 2 * (base * p)
  {
  }
}
