/** What holds of every interleaving of dispatchers, delivery workers and recovery. */
module IntegrationRuns {
  import opened Options
  import opened IntegrationTables
  import opened IntegrationProtocol

  /** The world after the steps. */
  function RunFrom(max: nat, w: World, steps: seq<Step>): World
    decreases |steps|
  {
    if steps == [] then w else RunFrom(max, Next(max, w, steps[0]), steps[1..])
  }

  function Run(max: nat, steps: seq<Step>): World {
    RunFrom(max, INITIAL, steps)
  }

  lemma {:induction false} RunFromKeepsInv(max: nat, w: World, steps: seq<Step>)
    requires Inv(max, w) && max >= 1
    ensures Inv(max, RunFrom(max, w, steps))
    decreases |steps|
  {
    hide IntegrationProtocol.Inv, IntegrationProtocol.Next;
    if steps != [] {
      StepKeepsInv(max, w, steps[0]);
      RunFromKeepsInv(max, Next(max, w, steps[0]), steps[1..]);
    }
  }

  lemma ReachableKeepsInv(max: nat, steps: seq<Step>)
    requires max >= 1
    ensures Inv(max, Run(max, steps))
  {
    hide RunFrom, IntegrationProtocol.Next;
    RunFromKeepsInv(max, INITIAL, steps);
  }

  lemma {:induction false} RunAppends(max: nat, w: World, before: seq<Step>, after: seq<Step>)
    ensures RunFrom(max, w, before + after) == RunFrom(max, RunFrom(max, w, before), after)
    decreases |before|
  {
    hide IntegrationProtocol.Next;
    if before == [] {
      assert before + after == after;
    } else {
      assert (before + after)[1..] == before[1..] + after;
      RunAppends(max, Next(max, w, before[0]), before[1..], after);
    }
  }

  // ---------------------------------------------------------------- two states of a run

  /** No delivery disappears, goes back or loses its target. */
  ghost predicate DeliveriesMove(max: nat, a: World, b: World) {
    forall d <- a.tables.deliveries :: d in b.tables.deliveries && MovesOn(a.tables.deliveries[d], b.tables.deliveries[d])
  }

  predicate MovesOn(a: Delivery, b: Delivery) {
    SameTarget(a, b) && a.attempts <= b.attempts && (a.status.Delivered? ==> b.status.Delivered?)
  }

  /** No event disappears, changes its identity or becomes unprocessed. */
  ghost predicate EventsMove(a: World, b: World) {
    forall e <- a.tables.events :: e in b.tables.events && EventMovesOn(a.tables.events[e], b.tables.events[e])
  }

  predicate EventMovesOn(a: Event, b: Event) {
    SameEvent(a, b) && a.attempts <= b.attempts && (a.status.Processed? ==> b.status.Processed?)
  }

  lemma StepMovesDeliveries(max: nat, w: World, s: Step)
    requires Inv(max, w)
    ensures DeliveriesMove(max, w, Next(max, w, s))
  {
    hide IntegrationProtocol.SendsInBounds, IntegrationProtocol.EventsInBounds, IntegrationTables.UniqueDeliveries,
         IntegrationTables.UniqueEvents, IntegrationProtocol.Next, MovesOn;
    forall d | d in w.tables.deliveries
      ensures d in Next(max, w, s).tables.deliveries && MovesOn(w.tables.deliveries[d], Next(max, w, s).tables.deliveries[d])
    {
      OneDeliveryMoves(max, w, s, d);
    }
  }

  lemma OneDeliveryMoves(max: nat, w: World, s: Step, d: Id)
    requires d in w.tables.deliveries && InBounds(max, w.tables.deliveries[d])
    ensures d in Next(max, w, s).tables.deliveries && MovesOn(w.tables.deliveries[d], Next(max, w, s).tables.deliveries[d])
  {
    hide IntegrationTables.UniqueDeliveries, IntegrationProtocol.CountChanges, IntegrationTables.Targets;
  }

  lemma StepMovesEvents(max: nat, w: World, s: Step)
    requires Inv(max, w)
    ensures EventsMove(w, Next(max, w, s))
  {
    hide IntegrationProtocol.Inv, IntegrationTables.UniqueDeliveries, IntegrationProtocol.Assigns,
         IntegrationProtocol.CountChanges, IntegrationTables.Targets;
    forall e | e in w.tables.events
      ensures e in Next(max, w, s).tables.events && EventMovesOn(w.tables.events[e], Next(max, w, s).tables.events[e])
    {
    }
  }

  lemma {:induction false} RunMoves(max: nat, w: World, steps: seq<Step>)
    requires Inv(max, w) && max >= 1
    ensures DeliveriesMove(max, w, RunFrom(max, w, steps)) && EventsMove(w, RunFrom(max, w, steps))
    decreases |steps|
  {
    hide IntegrationProtocol.Inv, IntegrationProtocol.Next;
    if steps != [] {
      var next := Next(max, w, steps[0]);
      StepKeepsInv(max, w, steps[0]);
      StepMovesDeliveries(max, w, steps[0]);
      StepMovesEvents(max, w, steps[0]);
      RunMoves(max, next, steps[1..]);
    }
  }

  // ---------------------------------------------------------------- counting sends

  function SendsOf(log: seq<Token>, d: Id): nat {
    if log == [] then 0 else (if log[0].0 == d then 1 else 0) + SendsOf(log[1..], d)
  }

  function AttemptsSent(log: seq<Token>, d: Id): set<nat> {
    set i | 0 <= i < |log| && log[i].0 == d :: log[i].1
  }

  lemma {:induction false} SendsAreAttempts(log: seq<Token>, d: Id)
    requires forall i, j :: 0 <= i < j < |log| ==> log[i] != log[j]
    ensures SendsOf(log, d) == |AttemptsSent(log, d)|
  {
    if log == [] {
      assert AttemptsSent(log, d) == {};
    } else {
      SendsAreAttempts(log[1..], d);
      var rest := AttemptsSent(log[1..], d);
      forall n ensures n in AttemptsSent(log, d) <==> n in rest || (log[0].0 == d && n == log[0].1) {
        if n in AttemptsSent(log, d) {
          var i :| 0 <= i < |log| && log[i].0 == d && log[i].1 == n;
          assert i > 0 ==> log[1..][i - 1] == log[i];
        }
        if n in rest {
          var i :| 0 <= i < |log[1..]| && log[1..][i].0 == d && log[1..][i].1 == n;
          assert log[i + 1] == log[1..][i];
        }
      }
      if log[0].0 == d {
        assert log[0].1 !in rest;
        assert AttemptsSent(log, d) == rest + {log[0].1};
      } else {
        assert AttemptsSent(log, d) == rest;
      }
    }
  }

  lemma {:induction false} UpToSize(numbers: set<nat>, n: nat)
    requires forall k <- numbers :: 1 <= k <= n
    ensures |numbers| <= n
    decreases n
  {
    if n == 0 {
      assert numbers == {};
    } else {
      UpToSize(numbers - {n}, n - 1);
    }
  }

  lemma SendsAreCounted(w: World, d: Id)
    requires SendsInBounds(w) && d in w.tables.deliveries
    ensures SendsOf(w.log, d) <= w.tables.deliveries[d].attempts
  {
    SendsAreAttempts(w.log, d);
    forall n | n in AttemptsSent(w.log, d) ensures 1 <= n <= w.tables.deliveries[d].attempts {
      var i :| 0 <= i < |w.log| && w.log[i].0 == d && w.log[i].1 == n;
      assert w.log[i] in w.log;
    }
    UpToSize(AttemptsSent(w.log, d), w.tables.deliveries[d].attempts);
  }

  // ---------------------------------------------------------------- deliveries

  /**
    Under every interleaving: a row that can be claimed has attempts left, though the claim does not check; a failed row
    used all of them; messages sent never exceed attempts; a delivered row was sent; and a row changes its status at most
    2 * max + 2 times.
   */
  lemma DeliveryBounds(max: nat, steps: seq<Step>, d: Id)
    requires max >= 1 && d in Run(max, steps).tables.deliveries
    ensures var w := Run(max, steps); var row := w.tables.deliveries[d];
      && (row.status.Pending? || row.status.RetryScheduled? ==> row.attempts < max)
      && (row.status.Failed? ==> row.attempts == max)
      && SendsOf(w.log, d) <= row.attempts <= max
      && (row.status.Delivered? ==> WasSent(w.log, d))
      && d in w.changes && w.changes[d] <= 2 * max + 2
  {
    hide Run, IntegrationProtocol.EventsInBounds, IntegrationTables.UniqueDeliveries, IntegrationTables.UniqueEvents;
    ReachableKeepsInv(max, steps);
    var w := Run(max, steps);
    SendsAreCounted(w, d);
    assert InBounds(max, w.tables.deliveries[d]);
  }

  /** There is one delivery for a connection, event type and event, and whatever was delivered stays so. */
  lemma DeliveredForGood(max: nat, before: seq<Step>, after: seq<Step>, d: Id)
    requires max >= 1 && d in Run(max, before).tables.deliveries
    ensures var a := Run(max, before); var b := Run(max, before + after);
      && d in b.tables.deliveries && MovesOn(a.tables.deliveries[d], b.tables.deliveries[d])
      && UniqueDeliveries(b.tables.deliveries)
  {
    hide RunFrom, IntegrationProtocol.RowsInBounds, IntegrationProtocol.SendsInBounds, IntegrationProtocol.EventsInBounds;
    ReachableKeepsInv(max, before);
    ReachableKeepsInv(max, before + after);
    RunAppends(max, INITIAL, before, after);
    RunMoves(max, Run(max, before), after);
  }

  // ---------------------------------------------------------------- events

  /** Processed events stay processed, under one row for each type and event, and attempts stay within the limit. */
  lemma ProcessedForGood(max: nat, before: seq<Step>, after: seq<Step>, e: Id)
    requires max >= 1 && e in Run(max, before).tables.events
    ensures var a := Run(max, before); var b := Run(max, before + after);
      && e in b.tables.events && EventMovesOn(a.tables.events[e], b.tables.events[e])
      && b.tables.events[e].attempts <= max && UniqueEvents(b.tables.events)
  {
    hide RunFrom, IntegrationProtocol.RowsInBounds, IntegrationProtocol.SendsInBounds, IntegrationTables.UniqueDeliveries;
    ReachableKeepsInv(max, before);
    ReachableKeepsInv(max, before + after);
    RunAppends(max, INITIAL, before, after);
    RunMoves(max, Run(max, before), after);
  }

  ghost predicate Processes(w: World, next: World, e: Id) {
    && e in next.tables.events && next.tables.events[e].status.Processed?
    && !(e in w.tables.events && w.tables.events[e].status.Processed?)
  }

  /** Only a commit of a dispatcher that made both queries processes an event. */
  lemma OnlyCommitsProcess(max: nat, w: World, s: Step, e: Id)
    requires Processes(w, Next(max, w, s), e)
    ensures s.CommitDeliveries? && s.e == e && CanCommit(w, e, s.n, s.ids)
    ensures UniqueDeliveries(w.tables.deliveries + NewDeliveries(w.tables.events[e], s.ids, s.now))
  {
    hide IntegrationTables.UniqueDeliveries, IntegrationProtocol.Assigns, IntegrationProtocol.CountChanges,
         IntegrationTables.Targets, IntegrationTables.NewDeliveries;
  }

  /**
    The step that first marks an event processed leaves a delivery of it for every connection of its workspace that was
    active, with an enabled subscription to its kind that has a destination, when that dispatcher made its first query.
   */
  lemma FirstProcessingCovers(max: nat, steps: seq<Step>, s: Step, e: Id)
    requires max >= 1 && Processes(Run(max, steps), Next(max, Run(max, steps), s), e)
    ensures var w := Run(max, steps); var after := Next(max, w, s).tables.deliveries;
      && s.CommitDeliveries? && (e, s.n) in w.dispatches && w.dispatches[(e, s.n)].Planned? && e in w.tables.events
      && (var event := w.tables.events[e];
          forall c: Id :: Subscribed(w.dispatches[(e, s.n)].joined, c, event.workspace, event.kind) ==>
            exists d <- after :: after[d].connection == c && after[d].kind == event.kind && after[d].subject == event.subject)
  {
    hide Run, IntegrationProtocol.Next, IntegrationProtocol.Inv, IntegrationTables.Subscribed,
         IntegrationTables.UniqueDeliveries, IntegrationProtocol.Assigns, IntegrationTables.NewDeliveries;
    ReachableKeepsInv(max, steps);
    var w := Run(max, steps);
    OnlyCommitsProcess(max, w, s, e);
    var after, event := Next(max, w, s).tables.deliveries, w.tables.events[e];
    forall c: Id | Subscribed(w.dispatches[(e, s.n)].joined, c, event.workspace, event.kind)
      ensures exists d <- after :: after[d].connection == c && after[d].kind == event.kind && after[d].subject == event.subject
    {
      CommitCovers(max, w, e, s.n, s.ids, s.now, c);
    }
  }

  /** The tables as they were at some point of the run. */
  ghost predicate WereTables(max: nat, steps: seq<Step>, read: Tables) {
    exists k :: 0 <= k <= |steps| && Run(max, steps[..k]).tables == read
  }

  /** Everything a dispatch holds as read. */
  function ReadBy(d: Dispatch): set<Tables> {
    match d
    case Claimed => {}
    case Joined(joined) => {joined}
    case Planned(joined, known) => {joined, known}
  }

  /** What either query of a dispatcher read is what the tables were at some point of the run. */
  lemma {:induction false} ReadsAreReal(max: nat, steps: seq<Step>, k: Token, read: Tables)
    requires k in Run(max, steps).dispatches && read in ReadBy(Run(max, steps).dispatches[k])
    ensures WereTables(max, steps, read)
    decreases |steps|
  {
    hide IntegrationProtocol.Next, RunFrom, IntegrationProtocol.RowsInBounds, IntegrationProtocol.SendsInBounds;
    if steps == [] {
      EmptyRun(max);
    } else {
      var front, last := steps[..|steps| - 1], steps[|steps| - 1];
      assert steps == front + [last];
      LastStep(max, front, last);
      ReadComesFrom(max, Run(max, front), last, k, read);
      if Run(max, front).tables == read {
        assert steps[..|front|] == front;
      } else {
        ReadsAreReal(max, front, k, read);
        var j :| 0 <= j <= |front| && Run(max, front[..j]).tables == read;
        assert steps[..j] == front[..j];
      }
    }
  }

  lemma EmptyRun(max: nat)
    ensures Run(max, []) == INITIAL
  {
  }

  lemma LastStep(max: nat, front: seq<Step>, last: Step)
    ensures Run(max, front + [last]) == Next(max, Run(max, front), last)
  {
    hide IntegrationProtocol.Next;
    RunAppends(max, INITIAL, front, [last]);
    assert RunFrom(max, Run(max, front), [last]) == RunFrom(max, Next(max, Run(max, front), last), []);
  }

  lemma ReadComesFrom(max: nat, w: World, s: Step, k: Token, read: Tables)
    requires k in Next(max, w, s).dispatches && read in ReadBy(Next(max, w, s).dispatches[k])
    ensures read == w.tables || (k in w.dispatches && read in ReadBy(w.dispatches[k]))
  {
    hide IntegrationTables.UniqueDeliveries, IntegrationProtocol.Assigns, IntegrationProtocol.CountChanges,
         IntegrationTables.Targets, IntegrationTables.NewDeliveries;
  }

  // ---------------------------------------------------------------- where deliveries come from

  /** What a dispatcher has read holds its event, as it still is but for its progress. */
  ghost predicate JoinedEvent(w: World, k: Token)
    requires k in w.dispatches
  {
    && k.0 in w.tables.events
    && forall read <- ReadBy(w.dispatches[k]) :: k.0 in read.events && SameEvent(read.events[k.0], w.tables.events[k.0])
  }

  ghost predicate AllJoined(w: World) {
    forall k <- w.dispatches :: JoinedEvent(w, k)
  }

  lemma StepKeepsJoined(max: nat, w: World, s: Step, k: Token)
    requires Inv(max, w) && AllJoined(w) && k in Next(max, w, s).dispatches
    ensures JoinedEvent(Next(max, w, s), k)
  {
    hide IntegrationProtocol.Next, IntegrationProtocol.Inv;
    var next := Next(max, w, s);
    StepMovesEvents(max, w, s);
    DispatchesHaveEvents(max, w, s, k);
    forall read | read in ReadBy(next.dispatches[k]) ensures k.0 in read.events && SameEvent(read.events[k.0], next.tables.events[k.0]) {
      ReadComesFrom(max, w, s, k, read);
      if k in w.dispatches && read in ReadBy(w.dispatches[k]) {
        assert JoinedEvent(w, k);
      } else {
        ReadKeepsEvents(max, w, s, k, read);
      }
    }
  }

  lemma DispatchesHaveEvents(max: nat, w: World, s: Step, k: Token)
    requires Inv(max, w) && k in Next(max, w, s).dispatches
    ensures k.0 in Next(max, w, s).tables.events
  {
    hide IntegrationTables.UniqueDeliveries, IntegrationProtocol.Assigns, IntegrationProtocol.CountChanges,
         IntegrationTables.Targets, IntegrationTables.NewDeliveries, IntegrationProtocol.RowsInBounds, IntegrationProtocol.SendsInBounds,
         IntegrationProtocol.PlanCovers, IntegrationTables.UniqueEvents;
  }

  /** A query changes no event. */
  lemma ReadKeepsEvents(max: nat, w: World, s: Step, k: Token, read: Tables)
    requires k in Next(max, w, s).dispatches && read in ReadBy(Next(max, w, s).dispatches[k]) && read == w.tables
    requires !(k in w.dispatches && read in ReadBy(w.dispatches[k]))
    ensures Next(max, w, s).tables.events == w.tables.events && k in w.dispatches
  {
    hide IntegrationTables.UniqueDeliveries, IntegrationProtocol.Assigns, IntegrationProtocol.CountChanges,
         IntegrationTables.Targets, IntegrationTables.NewDeliveries;
  }

  lemma {:induction false} ReachableKeepsJoined(max: nat, steps: seq<Step>)
    requires max >= 1
    ensures AllJoined(Run(max, steps))
    decreases |steps|
  {
    hide RunFrom, IntegrationProtocol.Next, JoinedEvent;
    if steps == [] {
      EmptyRun(max);
    } else {
      var front, last := steps[..|steps| - 1], steps[|steps| - 1];
      assert steps == front + [last];
      LastStep(max, front, last);
      ReachableKeepsJoined(max, front);
      ReachableKeepsInv(max, front);
      forall k | k in Run(max, steps).dispatches ensures JoinedEvent(Run(max, steps), k) {
        StepKeepsJoined(max, Run(max, front), last, k);
      }
    }
  }

  /** After the first `k` steps the tables held an event of the delivery's, and its connection was active and subscribed to it. */
  ghost predicate WasSubscribedAt(max: nat, steps: seq<Step>, k: nat, e: Id, row: Delivery)
    requires k <= |steps|
  {
    var t := Run(max, steps[..k]).tables;
    && e in t.events && t.events[e].kind == row.kind && t.events[e].subject == row.subject
    && Subscribed(t, row.connection, t.events[e].workspace, row.kind)
  }

  ghost predicate WasSubscribed(max: nat, steps: seq<Step>, row: Delivery) {
    exists k: nat, e: Id :: k <= |steps| && WasSubscribedAt(max, steps, k, e, row)
  }

  lemma AddedWasSubscribed(max: nat, front: seq<Step>, s: Step, d: Id)
    requires max >= 1 && d !in Run(max, front).tables.deliveries && d in Next(max, Run(max, front), s).tables.deliveries
    ensures WasSubscribed(max, front, Next(max, Run(max, front), s).tables.deliveries[d])
  {
    hide Run, IntegrationProtocol.Next, IntegrationTables.Subscribed;
    var w := Run(max, front);
    var row := Next(max, w, s).tables.deliveries[d];
    OnlySubscribersAreAdded(max, w, s, d);
    var token := (s.e, s.n);
    var joined := w.dispatches[token].joined;
    ReachableKeepsJoined(max, front);
    assert JoinedEvent(w, token) && joined in ReadBy(w.dispatches[token]);
    ReadsAreReal(max, front, token, joined);
    var k: nat :| k <= |front| && Run(max, front[..k]).tables == joined;
    assert WasSubscribedAt(max, front, k, s.e, row);
  }

  lemma LongerRunsRemember(max: nat, front: seq<Step>, s: Step, row: Delivery, again: Delivery)
    requires WasSubscribed(max, front, row) && SameTarget(row, again)
    ensures WasSubscribed(max, front + [s], again)
  {
    hide Run;
    var k: nat, e: Id :| k <= |front| && WasSubscribedAt(max, front, k, e, row);
    assert (front + [s])[..k] == front[..k];
    assert WasSubscribedAt(max, front + [s], k, e, again);
  }

  /**
    No delivery goes astray: every delivery of a reachable state is of an event that was in the outbox at some earlier
    moment of the run, to a connection of that event's workspace that was active then and had subscribed to its kind with
    a destination.
   */
  lemma {:induction false} DeliveriesHadSubscribers(max: nat, steps: seq<Step>, d: Id)
    requires max >= 1 && d in Run(max, steps).tables.deliveries
    ensures WasSubscribed(max, steps, Run(max, steps).tables.deliveries[d])
    decreases |steps|
  {
    hide RunFrom, IntegrationProtocol.Next, WasSubscribed;
    if steps == [] {
      EmptyRun(max);
    } else {
      var front, last := steps[..|steps| - 1], steps[|steps| - 1];
      assert steps == front + [last];
      LastStep(max, front, last);
      var w, row := Run(max, front), Run(max, steps).tables.deliveries[d];
      if d in w.tables.deliveries {
        DeliveriesHadSubscribers(max, front, d);
        ReachableKeepsInv(max, front);
        StepMovesDeliveries(max, w, last);
        LongerRunsRemember(max, front, last, w.tables.deliveries[d], row);
      } else {
        AddedWasSubscribed(max, front, last, d);
        LongerRunsRemember(max, front, last, row, row);
      }
    }
  }

  /** Only staging adds outbox rows, each as it was staged, and at most one for each kind and subject. */
  lemma OnlyStagingAddsEvents(max: nat, w: World, s: Step, e: Id)
    requires e in Next(max, w, s).tables.events && e !in w.tables.events
    ensures s.StageEvent? && s.e == e
         && Next(max, w, s).tables.events[e]
              == Event(s.workspace, s.kind, s.subject, EventStatus.Pending, 0, s.availableAt, None, s.now)
         && forall f <- w.tables.events :: !(w.tables.events[f].kind == s.kind && w.tables.events[f].subject == s.subject)
  {
    hide IntegrationTables.UniqueDeliveries, IntegrationProtocol.Assigns, IntegrationProtocol.CountChanges,
         IntegrationTables.Targets, IntegrationTables.NewDeliveries;
  }
}
