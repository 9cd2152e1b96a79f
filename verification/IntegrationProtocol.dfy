/**
  Dispatchers, delivery workers and the recovery job, interleaved in any order.

  A claim hands its worker a token, the row's identifier and attempt number, which the worker keeps however long it
  takes, even after recovery has given the row to someone else.  Errors may be recorded for any row at any time.
 */
module IntegrationProtocol {
  import opened Options
  import opened IntegrationTables

  type Token = (Id, nat)

  /** A dispatcher holds a claimed event, then what its first query read, then what its second query read. */
  datatype Dispatch = Claimed | Joined(joined: Tables) | Planned(joined: Tables, known: Tables)

  /** A delivery worker has not sent its message yet, or has sent it and not marked the row. */
  datatype Claim = Holding | Sent

  /** `log` lists the messages sent and `changes` counts the status changes of each delivery. */
  datatype World = World(
    tables: Tables,
    dispatches: map<Token, Dispatch>,
    claims: map<Token, Claim>,
    log: seq<Token>,
    changes: map<Id, nat>)

  const INITIAL := World(EMPTY, map[], map[], [], map[])

  datatype Step =
    | SetConnection(c: Id, connection: Connection)
    | SetSubscription(c: Id, kind: Id, subscription: Subscription)
    | StageEvent(e: Id, workspace: Id, kind: Id, subject: Id, availableAt: Time, now: Time)
    | ClaimEvent(e: Id, now: Time)
    | ReadEligible(e: Id, n: nat)
    | ReadExisting(e: Id, n: nat)
    | CommitDeliveries(e: Id, n: nat, ids: map<Id, Id>, now: Time)
    | RecordEventError(e: Id, availableAt: Time, now: Time)
    | ClaimDelivery(d: Id, now: Time)
    | Send(d: Id, n: nat, succeeds: bool)
    | MarkDelivered(d: Id, n: nat, now: Time)
    | RecordDeliveryError(d: Id, retryAt: Time, now: Time)
    | Recover(staleBefore: Time, availableAt: Time, now: Time)

  // ---------------------------------------------------------------- steps

  function CountChanges(changes: map<Id, nat>, before: map<Id, Delivery>, after: map<Id, Delivery>): map<Id, nat> {
    map d <- after ::
      if d in before && d in changes then changes[d] + (if before[d].status == after[d].status then 0 else 1) else 0
  }

  function WithDeliveries(w: World, deliveries: map<Id, Delivery>): World {
    w.(tables := w.tables.(deliveries := deliveries), changes := CountChanges(w.changes, w.tables.deliveries, deliveries))
  }

  function WithEvents(w: World, events: map<Id, Event>): World {
    w.(tables := w.tables.(events := events))
  }

  /** New rows get new identifiers, one for each target. */
  predicate Assigns(ids: map<Id, Id>, targets: set<Id>, deliveries: map<Id, Delivery>) {
    && (forall d <- ids :: d !in deliveries && ids[d] in targets)
    && (forall c <- targets :: exists d <- ids :: ids[d] == c)
    && (forall d <- ids, f <- ids :: ids[d] == ids[f] ==> d == f)
  }

  /** A step that is not enabled leaves the world as it is; a rejected commit leaves the tables as they are. */
  function Next(max: nat, w: World, s: Step): World {
    var t := w.tables;
    match s
    case SetConnection(c, connection) => w.(tables := t.(connections := t.connections[c := connection]))
    case SetSubscription(c, kind, subscription) => w.(tables := t.(subscriptions := t.subscriptions[(c, kind) := subscription]))
    case StageEvent(e, workspace, kind, subject, availableAt, now) =>
      if e in t.events || (exists f <- t.events :: t.events[f].kind == kind && t.events[f].subject == subject) then w
      else WithEvents(w, t.events[e := Event(workspace, kind, subject, EventStatus.Pending, 0, availableAt, None, now)])
    case ClaimEvent(e, now) =>
      if e in t.events && EventIsReady(t.events[e], now, max) then
        WithEvents(w, t.events[e := ClaimedEvent(t.events[e], now)]).(dispatches := w.dispatches[(e, t.events[e].attempts + 1) := Claimed])
      else w
    case ReadEligible(e, n) =>
      if (e, n) in w.dispatches && w.dispatches[(e, n)].Claimed? then w.(dispatches := w.dispatches[(e, n) := Joined(t)]) else w
    case ReadExisting(e, n) =>
      if (e, n) in w.dispatches && w.dispatches[(e, n)].Joined? then
        w.(dispatches := w.dispatches[(e, n) := Planned(w.dispatches[(e, n)].joined, t)])
      else w
    case CommitDeliveries(e, n, ids, now) =>
      if (e, n) in w.dispatches && w.dispatches[(e, n)].Planned? && e in t.events
         && Assigns(ids, Targets(w.dispatches[(e, n)].joined, w.dispatches[(e, n)].known, t.events[e]), t.deliveries)
      then
        var done := w.(dispatches := w.dispatches - {(e, n)});
        var deliveries := t.deliveries + NewDeliveries(t.events[e], ids, now);
        if UniqueDeliveries(deliveries)
        then WithDeliveries(WithEvents(done, t.events[e := ProcessedEvent(t.events[e], now)]), deliveries)
        else done
      else w
    case RecordEventError(e, availableAt, now) =>
      if e in t.events then WithEvents(w, t.events[e := FailedEvent(t.events[e], availableAt, now)]) else w
    case ClaimDelivery(d, now) =>
      if d in t.deliveries && DeliveryIsReady(t.deliveries[d], now) then
        WithDeliveries(w, t.deliveries[d := ClaimedDelivery(t.deliveries[d], now)])
          .(claims := w.claims[(d, t.deliveries[d].attempts + 1) := Holding])
      else w
    case Send(d, n, succeeds) =>
      if (d, n) in w.claims && w.claims[(d, n)].Holding? then
        w.(log := w.log + [(d, n)], claims := if succeeds then w.claims[(d, n) := Sent] else w.claims - {(d, n)})
      else w
    case MarkDelivered(d, n, now) =>
      if (d, n) in w.claims && w.claims[(d, n)].Sent? && d in t.deliveries then
        WithDeliveries(w, t.deliveries[d := DeliveredDelivery(t.deliveries[d], now)]).(claims := w.claims - {(d, n)})
      else w
    case RecordDeliveryError(d, retryAt, now) =>
      if d in t.deliveries then WithDeliveries(w, t.deliveries[d := ErroredDelivery(t.deliveries[d], retryAt, now, max)]) else w
    case Recover(staleBefore, availableAt, now) =>
      WithDeliveries(
        WithEvents(w, map e <- t.events :: RecoveredEvent(t.events[e], staleBefore, availableAt, now)),
        map d <- t.deliveries :: RecoveredDelivery(t.deliveries[d], staleBefore, availableAt, now, max))
  }

  // ---------------------------------------------------------------- one delivery row

  /** Which attempt counts a status allows. */
  predicate InBounds(max: nat, d: Delivery) {
    match d.status
    case Pending => d.attempts == 0 < max
    case RetryScheduled => d.attempts < max
    case Delivering => 1 <= d.attempts <= max
    case Failed => d.attempts == max
    case Delivered => d.attempts <= max
  }

  /** Grows with every change of status. */
  function Potential(max: nat, d: Delivery): nat {
    match d.status
    case Pending => 0
    case RetryScheduled => 2 * d.attempts + 1
    case Delivering => 2 * d.attempts
    case Failed => 2 * max + 1
    case Delivered => 2 * max + 2
  }

  /** What no step does wrong to a delivery: `b` is `a` some time later. */
  predicate Moves(max: nat, a: Delivery, b: Delivery) {
    && SameTarget(a, b) && a.attempts <= b.attempts && InBounds(max, b)
    && (a.status.Delivered? ==> b.status.Delivered?)
    && Potential(max, a) + (if a.status == b.status then 0 else 1) <= Potential(max, b) <= 2 * max + 2
  }

  lemma ClaimMoves(max: nat, d: Delivery, now: Time)
    requires InBounds(max, d) && DeliveryIsReady(d, now)
    ensures Moves(max, d, ClaimedDelivery(d, now))
  {
  }

  lemma MarkMoves(max: nat, d: Delivery, now: Time)
    requires InBounds(max, d)
    ensures Moves(max, d, DeliveredDelivery(d, now))
  {
  }

  lemma ErrorMoves(max: nat, d: Delivery, retryAt: Time, now: Time)
    requires InBounds(max, d)
    ensures Moves(max, d, ErroredDelivery(d, retryAt, now, max))
  {
  }

  lemma RecoveryMoves(max: nat, d: Delivery, staleBefore: Time, availableAt: Time, now: Time)
    requires InBounds(max, d)
    ensures Moves(max, d, RecoveredDelivery(d, staleBefore, availableAt, now, max))
  {
  }

  // ---------------------------------------------------------------- reading and writing apart

  /**
    A worker that reads a row and writes later: the write is a legal move exactly when no delivered mark came between,
    and, unless the row as read had its attempts spent, no claim spent them in between.
   */
  lemma LateWriteMoves(max: nat, read: Delivery, current: Delivery, retryAt: Time, now: Time)
    requires InBounds(max, read) && InBounds(max, current) && read.attempts <= current.attempts && !read.status.Delivered?
    ensures Moves(max, current, LateWrite(read, current, retryAt, now, max))
       <==> !current.status.Delivered? && (read.attempts < max ==> current.attempts < max)
  {
  }

  /** When nothing came between, reading and writing apart is the single step of the protocol. */
  lemma PromptWriteIsTheStep(max: nat, d: Delivery, staleBefore: Time, retryAt: Time, now: Time)
    requires !d.status.Delivered?
    ensures LateWrite(d, d, retryAt, now, max) == ErroredDelivery(d, retryAt, now, max)
    ensures d.status.Delivering? && d.updatedAt <= staleBefore ==>
              LateWrite(d, d, retryAt, now, max) == RecoveredDelivery(d, staleBefore, retryAt, now, max)
  {
  }

  /** A mark between the two is lost: the delivered row is scheduled again. */
  lemma LateWriteLosesMark(max: nat, d: Delivery, retryAt: Time, now: Time)
    requires InBounds(max, d) && d.status.Delivering? && d.attempts < max
    ensures LateWrite(d, DeliveredDelivery(d, now), retryAt, now, max).status.RetryScheduled?
  {
  }

  // ---------------------------------------------------------------- the invariant

  ghost predicate RowsInBounds(max: nat, w: World) {
    && w.changes.Keys == w.tables.deliveries.Keys
    && (forall d <- w.tables.deliveries :: InBounds(max, w.tables.deliveries[d]))
    && (forall d <- w.changes :: w.changes[d] <= Potential(max, w.tables.deliveries[d]))
  }

  /** A token names an attempt that its row has counted. */
  predicate Counted(deliveries: map<Id, Delivery>, t: Token) {
    t.0 in deliveries && 1 <= t.1 <= deliveries[t.0].attempts
  }

  predicate WasSent(log: seq<Token>, d: Id) {
    exists i :: 0 <= i < |log| && log[i].0 == d
  }

  /** Each attempt sends at most once, and a delivered row was sent. */
  ghost predicate SendsInBounds(w: World) {
    && (forall t <- w.claims :: Counted(w.tables.deliveries, t) && (w.claims[t].Holding? <==> t !in w.log))
    && (forall t <- w.log :: Counted(w.tables.deliveries, t))
    && (forall i, j :: 0 <= i < j < |w.log| ==> w.log[i] != w.log[j])
    && (forall d <- w.tables.deliveries :: w.tables.deliveries[d].status.Delivered? ==> WasSent(w.log, d))
  }

  /** What a dispatcher found eligible it either targets or found delivered. */
  ghost predicate PlanCovers(deliveries: map<Id, Delivery>, joined: Tables, known: Tables, e: Event) {
    forall c <- Eligible(joined, e) :: c in Targets(joined, known, e) || HasDelivery(deliveries, c, e.kind, e.subject)
  }

  ghost predicate EventsInBounds(max: nat, w: World) {
    && (forall e <- w.tables.events :: w.tables.events[e].attempts <= max)
    && (forall k <- w.dispatches :: k.0 in w.tables.events)
    && (forall k <- w.dispatches :: w.dispatches[k].Planned? ==>
          PlanCovers(w.tables.deliveries, w.dispatches[k].joined, w.dispatches[k].known, w.tables.events[k.0]))
  }

  ghost predicate Inv(max: nat, w: World) {
    RowsInBounds(max, w) && SendsInBounds(w) && EventsInBounds(max, w)
    && UniqueDeliveries(w.tables.deliveries) && UniqueEvents(w.tables.events)
  }

  // ---------------------------------------------------------------- what deliveries do in one step

  /** Every delivery moves, and a row that becomes delivered was sent. */
  ghost predicate AllMove(max: nat, w: World, after: map<Id, Delivery>) {
    var before := w.tables.deliveries;
    && after.Keys == before.Keys
    && (forall d <- before :: Moves(max, before[d], after[d]))
    && (forall d <- before :: after[d].status.Delivered? && !before[d].status.Delivered? ==> WasSent(w.log, d))
  }

  lemma MovedRowsInBounds(max: nat, w: World, after: map<Id, Delivery>)
    requires RowsInBounds(max, w) && AllMove(max, w, after)
    ensures RowsInBounds(max, WithDeliveries(w, after))
  {
  }

  lemma MovedSendsInBounds(max: nat, w: World, after: map<Id, Delivery>)
    requires SendsInBounds(w) && AllMove(max, w, after)
    ensures SendsInBounds(WithDeliveries(w, after))
  {
  }

  lemma DeliveriesPersist(max: nat, w: World, after: map<Id, Delivery>, c: Id, kind: Id, subject: Id)
    requires AllMove(max, w, after) && HasDelivery(w.tables.deliveries, c, kind, subject)
    ensures HasDelivery(after, c, kind, subject)
  {
    var d :| d in w.tables.deliveries && w.tables.deliveries[d].connection == c
             && w.tables.deliveries[d].kind == kind && w.tables.deliveries[d].subject == subject;
    assert Moves(max, w.tables.deliveries[d], after[d]);
  }

  lemma MovedEventsInBounds(max: nat, w: World, after: map<Id, Delivery>)
    requires EventsInBounds(max, w) && AllMove(max, w, after)
    ensures EventsInBounds(max, WithDeliveries(w, after))
  {
    forall k | k in w.dispatches && w.dispatches[k].Planned?
      ensures PlanCovers(after, w.dispatches[k].joined, w.dispatches[k].known, w.tables.events[k.0])
    {
      var e := w.tables.events[k.0];
      var joined, known := w.dispatches[k].joined, w.dispatches[k].known;
      forall c | c in Eligible(joined, e) && c !in Targets(joined, known, e) ensures HasDelivery(after, c, e.kind, e.subject) {
        DeliveriesPersist(max, w, after, c, e.kind, e.subject);
      }
    }
  }

  lemma MovedKeepsInv(max: nat, w: World, after: map<Id, Delivery>)
    requires Inv(max, w) && AllMove(max, w, after)
    ensures Inv(max, WithDeliveries(w, after))
  {
    MovedRowsInBounds(max, w, after);
    MovedSendsInBounds(max, w, after);
    MovedEventsInBounds(max, w, after);
    forall d, f | d in after && f in after && SameTarget(after[d], after[f]) ensures d == f {
      assert SameTarget(w.tables.deliveries[d], w.tables.deliveries[f]);
    }
  }

  lemma OneMoves(max: nat, w: World, d: Id, row: Delivery)
    requires RowsInBounds(max, w) && d in w.tables.deliveries && Moves(max, w.tables.deliveries[d], row)
    requires row.status.Delivered? && !w.tables.deliveries[d].status.Delivered? ==> WasSent(w.log, d)
    ensures AllMove(max, w, w.tables.deliveries[d := row])
  {
    forall f | f in w.tables.deliveries && f != d ensures Moves(max, w.tables.deliveries[f], w.tables.deliveries[f]) {
      assert InBounds(max, w.tables.deliveries[f]);
    }
  }

  // ---------------------------------------------------------------- every step keeps the invariant

  lemma FreshAttempt(w: World, d: Id)
    requires SendsInBounds(w) && d in w.tables.deliveries
    ensures (d, w.tables.deliveries[d].attempts + 1) !in w.log
  {
    assert !Counted(w.tables.deliveries, (d, w.tables.deliveries[d].attempts + 1));
  }

  lemma ClaimDeliveryKeeps(max: nat, w: World, d: Id, now: Time)
    requires Inv(max, w)
    ensures Inv(max, Next(max, w, ClaimDelivery(d, now)))
  {
    hide SendsInBounds, EventsInBounds, AllMove, IntegrationTables.UniqueDeliveries, IntegrationTables.UniqueEvents, CountChanges,
         Potential;
    var rows := w.tables.deliveries;
    if d in rows && DeliveryIsReady(rows[d], now) {
      var row := ClaimedDelivery(rows[d], now);
      ClaimMoves(max, rows[d], now);
      OneMoves(max, w, d, row);
      MovedKeepsInv(max, w, rows[d := row]);
      FreshAttempt(w, d);
      HeldClaim(max, WithDeliveries(w, rows[d := row]), d, rows[d].attempts);
    }
  }

  /** Handing out the token of an attempt that was counted just now. */
  lemma HeldClaim(max: nat, moved: World, d: Id, before: nat)
    requires Inv(max, moved) && d in moved.tables.deliveries && moved.tables.deliveries[d].attempts == before + 1
    requires (d, before + 1) !in moved.log
    ensures Inv(max, moved.(claims := moved.claims[(d, before + 1) := Holding]))
  {
    assert Counted(moved.tables.deliveries, (d, before + 1));
  }

  lemma SendKeepsSends(w: World, t: Token, succeeds: bool)
    requires SendsInBounds(w) && t in w.claims && w.claims[t].Holding?
    ensures SendsInBounds(w.(log := w.log + [t], claims := if succeeds then w.claims[t := Sent] else w.claims - {t}))
  {
    var log := w.log + [t];
    forall f | f in w.tables.deliveries && w.tables.deliveries[f].status.Delivered? ensures WasSent(log, f) {
      var i :| 0 <= i < |w.log| && w.log[i].0 == f;
      assert log[i].0 == f;
    }
  }

  lemma SendKeeps(max: nat, w: World, d: Id, n: nat, succeeds: bool)
    requires Inv(max, w)
    ensures Inv(max, Next(max, w, Send(d, n, succeeds)))
  {
    hide SendsInBounds, InBounds, Potential;
    if (d, n) in w.claims && w.claims[(d, n)].Holding? {
      SendKeepsSends(w, (d, n), succeeds);
    }
  }

  lemma SentTokenWasSent(w: World, d: Id, n: nat)
    requires SendsInBounds(w) && (d, n) in w.claims && w.claims[(d, n)].Sent?
    ensures WasSent(w.log, d)
  {
    assert (d, n) in w.log;
    var i :| 0 <= i < |w.log| && w.log[i] == (d, n);
  }

  lemma DroppedClaimKeepsInv(max: nat, w: World, t: Token)
    requires Inv(max, w)
    ensures Inv(max, w.(claims := w.claims - {t}))
  {
  }

  lemma MarkDeliveredKeeps(max: nat, w: World, d: Id, n: nat, now: Time)
    requires Inv(max, w)
    ensures Inv(max, Next(max, w, MarkDelivered(d, n, now)))
  {
    hide SendsInBounds, EventsInBounds, AllMove, WasSent, IntegrationTables.UniqueDeliveries,
         IntegrationTables.UniqueEvents, CountChanges, Potential;
    var rows := w.tables.deliveries;
    if (d, n) in w.claims && w.claims[(d, n)].Sent? && d in rows {
      var row := DeliveredDelivery(rows[d], now);
      MarkMoves(max, rows[d], now);
      SentTokenWasSent(w, d, n);
      OneMoves(max, w, d, row);
      MovedKeepsInv(max, w, rows[d := row]);
      DroppedClaimKeepsInv(max, WithDeliveries(w, rows[d := row]), (d, n));
    }
  }

  lemma DeliveryErrorKeeps(max: nat, w: World, d: Id, retryAt: Time, now: Time)
    requires Inv(max, w)
    ensures Inv(max, Next(max, w, RecordDeliveryError(d, retryAt, now)))
  {
    var rows := w.tables.deliveries;
    if d in rows {
      ErrorMoves(max, rows[d], retryAt, now);
      OneMoves(max, w, d, ErroredDelivery(rows[d], retryAt, now, max));
      MovedKeepsInv(max, w, rows[d := ErroredDelivery(rows[d], retryAt, now, max)]);
    }
  }

  /** Events may change in any way that keeps their identity and their attempts in bounds. */
  lemma ChangedEventsKeepInv(max: nat, w: World, events: map<Id, Event>)
    requires Inv(max, w) && events.Keys == w.tables.events.Keys
    requires forall e <- events :: events[e].attempts <= max && SameEvent(events[e], w.tables.events[e])
    ensures Inv(max, WithEvents(w, events))
  {
    var next := WithEvents(w, events);
    forall k | k in w.dispatches && w.dispatches[k].Planned?
      ensures PlanCovers(next.tables.deliveries, w.dispatches[k].joined, w.dispatches[k].known, events[k.0])
    {
      assert PlanCovers(w.tables.deliveries, w.dispatches[k].joined, w.dispatches[k].known, w.tables.events[k.0]);
      SamePlan(w.tables.deliveries, w.dispatches[k].joined, w.dispatches[k].known, w.tables.events[k.0], events[k.0]);
    }
  }

  predicate SameEvent(a: Event, b: Event) {
    a.workspace == b.workspace && a.kind == b.kind && a.subject == b.subject
  }

  lemma SamePlan(deliveries: map<Id, Delivery>, joined: Tables, known: Tables, a: Event, b: Event)
    requires SameEvent(a, b) && PlanCovers(deliveries, joined, known, a)
    ensures PlanCovers(deliveries, joined, known, b) && Targets(joined, known, a) == Targets(joined, known, b)
  {
    assert Eligible(joined, a) == Eligible(joined, b);
    assert Existing(known, a) == Existing(known, b);
  }

  lemma AllRecover(max: nat, w: World, staleBefore: Time, availableAt: Time, now: Time)
    requires RowsInBounds(max, w)
    ensures AllMove(max, w, map d <- w.tables.deliveries :: RecoveredDelivery(w.tables.deliveries[d], staleBefore, availableAt, now, max))
  {
    forall d | d in w.tables.deliveries
      ensures Moves(max, w.tables.deliveries[d], RecoveredDelivery(w.tables.deliveries[d], staleBefore, availableAt, now, max))
    {
      RecoveryMoves(max, w.tables.deliveries[d], staleBefore, availableAt, now);
    }
  }

  lemma RecoverKeeps(max: nat, w: World, staleBefore: Time, availableAt: Time, now: Time)
    requires Inv(max, w)
    ensures Inv(max, Next(max, w, Recover(staleBefore, availableAt, now)))
  {
    hide SendsInBounds, RowsInBounds, AllMove, IntegrationTables.UniqueDeliveries, IntegrationTables.UniqueEvents,
         CountChanges, IntegrationTables.RecoveredDelivery, PlanCovers;
    var events := map e <- w.tables.events :: RecoveredEvent(w.tables.events[e], staleBefore, availableAt, now);
    var after := map d <- w.tables.deliveries :: RecoveredDelivery(w.tables.deliveries[d], staleBefore, availableAt, now, max);
    ChangedEventsKeepInv(max, w, events);
    AllRecover(max, WithEvents(w, events), staleBefore, availableAt, now);
    MovedKeepsInv(max, WithEvents(w, events), after);
  }

  /** A dispatcher's own record changes; what it has planned is covered. */
  lemma DispatchKeepsInv(max: nat, w: World, k: Token, d: Dispatch)
    requires Inv(max, w) && k.0 in w.tables.events
    requires d.Planned? ==> PlanCovers(w.tables.deliveries, d.joined, d.known, w.tables.events[k.0])
    ensures Inv(max, w.(dispatches := w.dispatches[k := d]))
  {
    hide InBounds, Potential, PlanCovers, Counted, WasSent;
  }

  lemma ClaimEventKeeps(max: nat, w: World, e: Id, now: Time)
    requires Inv(max, w)
    ensures Inv(max, Next(max, w, ClaimEvent(e, now)))
  {
    hide RowsInBounds, SendsInBounds, PlanCovers, IntegrationTables.UniqueDeliveries, IntegrationTables.UniqueEvents;
    var events := w.tables.events;
    if e in events && EventIsReady(events[e], now, max) {
      var claimed := events[e := ClaimedEvent(events[e], now)];
      ChangedEventsKeepInv(max, w, claimed);
      DispatchKeepsInv(max, WithEvents(w, claimed), (e, events[e].attempts + 1), Claimed);
    }
  }

  lemma EventErrorKeeps(max: nat, w: World, e: Id, availableAt: Time, now: Time)
    requires Inv(max, w)
    ensures Inv(max, Next(max, w, RecordEventError(e, availableAt, now)))
  {
    var events := w.tables.events;
    if e in events {
      ChangedEventsKeepInv(max, w, events[e := FailedEvent(events[e], availableAt, now)]);
    }
  }

  lemma NewEventKeepsEvents(max: nat, w: World, e: Id, row: Event)
    requires EventsInBounds(max, w) && e !in w.tables.events && row.attempts <= max
    ensures EventsInBounds(max, WithEvents(w, w.tables.events[e := row]))
  {
  }

  lemma NewEventIsUnique(events: map<Id, Event>, e: Id, row: Event)
    requires UniqueEvents(events) && e !in events
    requires forall f <- events :: !(events[f].kind == row.kind && events[f].subject == row.subject)
    ensures UniqueEvents(events[e := row])
  {
  }

  lemma StageKeeps(max: nat, w: World, e: Id, workspace: Id, kind: Id, subject: Id, availableAt: Time, now: Time)
    requires Inv(max, w)
    ensures Inv(max, Next(max, w, StageEvent(e, workspace, kind, subject, availableAt, now)))
  {
    hide EventsInBounds, IntegrationTables.UniqueEvents, IntegrationTables.UniqueDeliveries, InBounds, Potential;
    var events := w.tables.events;
    if e !in events && !(exists f <- events :: events[f].kind == kind && events[f].subject == subject) {
      var row := Event(workspace, kind, subject, EventStatus.Pending, 0, availableAt, None, now);
      NewEventKeepsEvents(max, w, e, row);
      NewEventIsUnique(events, e, row);
    }
  }

  lemma SettingsKeep(max: nat, w: World, s: Step)
    requires Inv(max, w) && (s.SetConnection? || s.SetSubscription?)
    ensures Inv(max, Next(max, w, s))
  {
  }

  /** When the second query is made, what was eligible is a target or has its delivery. */
  lemma ReadCovers(joined: Tables, known: Tables, e: Event)
    ensures PlanCovers(known.deliveries, joined, known, e)
  {
  }

  lemma ReadKeeps(max: nat, w: World, s: Step)
    requires Inv(max, w) && (s.ReadEligible? || s.ReadExisting?)
    ensures Inv(max, Next(max, w, s))
  {
    hide RowsInBounds, SendsInBounds, PlanCovers, IntegrationTables.UniqueDeliveries, IntegrationTables.UniqueEvents;
    var k := (s.e, s.n);
    if k in w.dispatches {
      match w.dispatches[k]
      case Claimed => DispatchKeepsInv(max, w, k, Joined(w.tables));
      case Joined(joined) =>
        ReadCovers(joined, w.tables, w.tables.events[s.e]);
        DispatchKeepsInv(max, w, k, Planned(joined, w.tables));
      case _ =>
    }
  }

  // ---------------------------------------------------------------- committing deliveries

  ghost predicate CanCommit(w: World, e: Id, n: nat, ids: map<Id, Id>) {
    && (e, n) in w.dispatches && w.dispatches[(e, n)].Planned? && e in w.tables.events
    && Assigns(ids, Targets(w.dispatches[(e, n)].joined, w.dispatches[(e, n)].known, w.tables.events[e]), w.tables.deliveries)
  }

  /** New pending rows next to the old ones. */
  lemma AddedRowsInBounds(max: nat, w: World, e: Event, ids: map<Id, Id>, now: Time)
    requires RowsInBounds(max, w) && max >= 1 && forall d <- ids :: d !in w.tables.deliveries
    ensures RowsInBounds(max, WithDeliveries(w, w.tables.deliveries + NewDeliveries(e, ids, now)))
  {
  }

  lemma AddedRowsAreUnsent(w: World, e: Event, ids: map<Id, Id>, now: Time)
    requires SendsInBounds(w) && forall d <- ids :: d !in w.tables.deliveries
    ensures SendsInBounds(WithDeliveries(w, w.tables.deliveries + NewDeliveries(e, ids, now)))
  {
    var after := w.tables.deliveries + NewDeliveries(e, ids, now);
    assert forall d <- w.tables.deliveries :: d in after && after[d] == w.tables.deliveries[d];
  }

  lemma AddedRowsCover(max: nat, w: World, e: Event, ids: map<Id, Id>, now: Time)
    requires EventsInBounds(max, w) && forall d <- ids :: d !in w.tables.deliveries
    ensures EventsInBounds(max, WithDeliveries(w, w.tables.deliveries + NewDeliveries(e, ids, now)))
  {
    var after := w.tables.deliveries + NewDeliveries(e, ids, now);
    assert forall d <- w.tables.deliveries :: d in after && after[d] == w.tables.deliveries[d];
    forall k | k in w.dispatches && w.dispatches[k].Planned?
      ensures PlanCovers(after, w.dispatches[k].joined, w.dispatches[k].known, w.tables.events[k.0])
    {
      MoreRowsCover(w.tables.deliveries, after, w.dispatches[k].joined, w.dispatches[k].known, w.tables.events[k.0]);
    }
  }

  /** New pending rows next to the old ones. */
  lemma AddedRowsKeepInv(max: nat, w: World, e: Event, ids: map<Id, Id>, now: Time)
    requires Inv(max, w) && max >= 1
    requires forall d <- ids :: d !in w.tables.deliveries
    requires UniqueDeliveries(w.tables.deliveries + NewDeliveries(e, ids, now))
    ensures Inv(max, WithDeliveries(w, w.tables.deliveries + NewDeliveries(e, ids, now)))
  {
    hide RowsInBounds, SendsInBounds, EventsInBounds, IntegrationTables.UniqueDeliveries, IntegrationTables.UniqueEvents,
         IntegrationTables.NewDeliveries, CountChanges;
    AddedRowsInBounds(max, w, e, ids, now);
    AddedRowsAreUnsent(w, e, ids, now);
    AddedRowsCover(max, w, e, ids, now);
  }

  lemma MoreRowsCover(rows: map<Id, Delivery>, after: map<Id, Delivery>, joined: Tables, known: Tables, e: Event)
    requires PlanCovers(rows, joined, known, e) && forall d <- rows :: d in after && after[d] == rows[d]
    ensures PlanCovers(after, joined, known, e)
  {
    forall c | c in Eligible(joined, e) && c !in Targets(joined, known, e) ensures HasDelivery(after, c, e.kind, e.subject) {
      var d :| d in rows && rows[d].connection == c && rows[d].kind == e.kind && rows[d].subject == e.subject;
      assert after[d].connection == c;
    }
  }

  lemma CommitKeeps(max: nat, w: World, e: Id, n: nat, ids: map<Id, Id>, now: Time)
    requires Inv(max, w) && max >= 1
    ensures Inv(max, Next(max, w, CommitDeliveries(e, n, ids, now)))
  {
    if CanCommit(w, e, n, ids) {
      var done := w.(dispatches := w.dispatches - {(e, n)});
      var row := w.tables.events[e];
      assert Inv(max, done);
      var events := w.tables.events[e := ProcessedEvent(row, now)];
      ChangedEventsKeepInv(max, done, events);
      if UniqueDeliveries(w.tables.deliveries + NewDeliveries(row, ids, now)) {
        AddedRowsKeepInv(max, WithEvents(done, events), row, ids, now);
      }
    }
  }

  lemma CommittedRowsCover(rows: map<Id, Delivery>, joined: Tables, known: Tables, e: Event, ids: map<Id, Id>, now: Time, c: Id)
    requires PlanCovers(rows, joined, known, e) && Assigns(ids, Targets(joined, known, e), rows) && c in Eligible(joined, e)
    ensures HasDelivery(rows + NewDeliveries(e, ids, now), c, e.kind, e.subject)
  {
    hide IntegrationTables.Eligible, IntegrationTables.Existing;
    var after := rows + NewDeliveries(e, ids, now);
    if c in Targets(joined, known, e) {
      var d :| d in ids && ids[d] == c;
      assert after[d] == NewDelivery(c, e, now);
    } else {
      var d :| d in rows && rows[d].connection == c && rows[d].kind == e.kind && rows[d].subject == e.subject;
      assert after[d] == rows[d];
    }
  }

  /**
    After a commit that is not rejected, every connection that was active, with an enabled subscription to the event's kind
    that has a destination, when the tables were joined has a delivery of the event.
   */
  lemma CommitCovers(max: nat, w: World, e: Id, n: nat, ids: map<Id, Id>, now: Time, c: Id)
    requires Inv(max, w) && CanCommit(w, e, n, ids)
    requires Subscribed(w.dispatches[(e, n)].joined, c, w.tables.events[e].workspace, w.tables.events[e].kind)
    requires UniqueDeliveries(w.tables.deliveries + NewDeliveries(w.tables.events[e], ids, now))
    ensures var after := Next(max, w, CommitDeliveries(e, n, ids, now)).tables.deliveries;
      exists d <- after :: after[d].connection == c && after[d].kind == w.tables.events[e].kind && after[d].subject == w.tables.events[e].subject
  {
    hide RowsInBounds, SendsInBounds, PlanCovers, Assigns, IntegrationTables.Eligible, IntegrationTables.Subscribed,
         IntegrationTables.Targets, IntegrationTables.UniqueDeliveries;
    EligibleAreSubscribed(w.dispatches[(e, n)].joined, w.tables.events[e], c);
    CommittedRowsCover(w.tables.deliveries, w.dispatches[(e, n)].joined, w.dispatches[(e, n)].known, w.tables.events[e], ids, now, c);
  }

  /**
    The converse: only a commit adds deliveries, each a pending one of its event, to a connection that was active and
    subscribed with a destination when the tables were joined and had no delivery of the event when they were read again.
   */
  lemma OnlySubscribersAreAdded(max: nat, w: World, s: Step, d: Id)
    requires d in Next(max, w, s).tables.deliveries && d !in w.tables.deliveries
    ensures s.CommitDeliveries? && (s.e, s.n) in w.dispatches && w.dispatches[(s.e, s.n)].Planned? && s.e in w.tables.events
    ensures var row := Next(max, w, s).tables.deliveries[d]; var event := w.tables.events[s.e]; var plan := w.dispatches[(s.e, s.n)];
      && row.kind == event.kind && row.subject == event.subject
      && row.status.Pending? && row.attempts == 0 && row.nextRetryAt == Some(s.now) && row.deliveredAt.None?
      && Subscribed(plan.joined, row.connection, event.workspace, event.kind)
      && (forall f <- plan.known.deliveries ::
            !(plan.known.deliveries[f].connection == row.connection && plan.known.deliveries[f].kind == event.kind
              && plan.known.deliveries[f].subject == event.subject))
  {
    hide IntegrationTables.UniqueDeliveries, CountChanges, IntegrationTables.Eligible, IntegrationTables.Subscribed,
         IntegrationTables.Existing;
    OnlyCommitsAdd(max, w, s, d);
    var plan := w.dispatches[(s.e, s.n)];
    EligibleAreSubscribed(plan.joined, w.tables.events[s.e], s.ids[d]);
    NotExisting(plan.known, w.tables.events[s.e], s.ids[d]);
  }

  lemma OnlyCommitsAdd(max: nat, w: World, s: Step, d: Id)
    requires d in Next(max, w, s).tables.deliveries && d !in w.tables.deliveries
    ensures s.CommitDeliveries? && CanCommit(w, s.e, s.n, s.ids) && d in s.ids
    ensures Next(max, w, s).tables.deliveries[d] == NewDelivery(s.ids[d], w.tables.events[s.e], s.now)
  {
    hide IntegrationTables.UniqueDeliveries, CountChanges, IntegrationTables.Targets, Assigns;
  }

  lemma NotExisting(known: Tables, e: Event, c: Id)
    ensures c !in Existing(known, e) <==> forall f <- known.deliveries ::
      !(known.deliveries[f].connection == c && known.deliveries[f].kind == e.kind && known.deliveries[f].subject == e.subject)
  {
  }

  lemma StepKeepsInv(max: nat, w: World, s: Step)
    requires Inv(max, w) && max >= 1
    ensures Inv(max, Next(max, w, s))
  {
    hide Inv, Next;
    match s
    case SetConnection(_, _) => SettingsKeep(max, w, s);
    case SetSubscription(_, _, _) => SettingsKeep(max, w, s);
    case StageEvent(e, workspace, kind, subject, availableAt, now) => StageKeeps(max, w, e, workspace, kind, subject, availableAt, now);
    case ClaimEvent(e, now) => ClaimEventKeeps(max, w, e, now);
    case ReadEligible(_, _) => ReadKeeps(max, w, s);
    case ReadExisting(_, _) => ReadKeeps(max, w, s);
    case CommitDeliveries(e, n, ids, now) => CommitKeeps(max, w, e, n, ids, now);
    case RecordEventError(e, availableAt, now) => EventErrorKeeps(max, w, e, availableAt, now);
    case ClaimDelivery(d, now) => ClaimDeliveryKeeps(max, w, d, now);
    case Send(d, n, succeeds) => SendKeeps(max, w, d, n, succeeds);
    case MarkDelivered(d, n, now) => MarkDeliveredKeeps(max, w, d, n, now);
    case RecordDeliveryError(d, retryAt, now) => DeliveryErrorKeeps(max, w, d, retryAt, now);
    case Recover(staleBefore, availableAt, now) => RecoverKeeps(max, w, staleBefore, availableAt, now);
  }
}
