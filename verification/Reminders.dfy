/**
  Reminder notifications: discovery, claims, late results and lease recovery, interleaved in any order.

  Nothing in the marking calls looks at the current status.  What keeps finished rows finished is the CHECK on the
  table, which rejects the commit of a result that comes too late.
 */
module Reminders {
  import opened Options

  type Id = nat
  type Time = nat

  datatype Status = Pending | Delivering | RetryScheduled | Delivered | Failed

  datatype Note = Note(
    key: string, recipient: Id, status: Status, attempts: nat, max: nat, availableAt: Time,
    startedAt: Option<Time>, deliveredAt: Option<Time>, failedAt: Option<Time>)

  type Notes = map<Id, Note>

  datatype Candidate = Candidate(key: string, recipient: Id)

  // ---------------------------------------------------------------- the table

  /** The CHECK constraints of a row. */
  predicate Checks(n: Note) {
    && n.max >= 1 && n.attempts <= n.max
    && match n.status
       case Delivered => n.deliveredAt.Some? && n.failedAt.None?
       case Failed => n.failedAt.Some? && n.deliveredAt.None?
       case _ => n.deliveredAt.None? && n.failedAt.None?
  }

  /** A commit of one changed row. */
  function Save(notes: Notes, id: Id, n: Note): Notes {
    if Checks(n) then notes[id := n] else notes
  }

  predicate HasKey(notes: Notes, key: string) {
    exists i <- notes :: notes[i].key == key
  }

  ghost predicate UniqueKeys(notes: Notes) {
    forall i <- notes, j <- notes :: notes[i].key == notes[j].key ==> i == j
  }

  /** `create_candidate`: `ON CONFLICT DO NOTHING` on the key; a clash of identifiers or a bad limit rejects the insert. */
  predicate Creates(notes: Notes, c: Candidate, id: Id, max: nat) {
    !HasKey(notes, c.key) && id !in notes && max >= 1
  }

  function NewNote(c: Candidate, max: nat, now: Time): Note {
    Note(c.key, c.recipient, Pending, 0, max, now, None, None, None)
  }

  predicate IsReady(n: Note, now: Time) {
    (n.status.Pending? || n.status.RetryScheduled?) && n.availableAt <= now && n.attempts < n.max
  }

  function Claimed(n: Note, now: Time): Note {
    n.(status := Delivering, attempts := n.attempts + 1, startedAt := Some(now))
  }

  function MarkedDelivered(n: Note, now: Time): Note {
    n.(status := Delivered, deliveredAt := Some(now), startedAt := None)
  }

  function Rescheduled(n: Note, availableAt: Time): Note {
    n.(status := RetryScheduled, availableAt := availableAt, startedAt := None)
  }

  function MarkedFailed(n: Note, now: Time): Note {
    n.(status := Failed, failedAt := Some(now), startedAt := None)
  }

  /** `_record_retry`. */
  function Retried(n: Note, availableAt: Time, now: Time): Note {
    if n.attempts >= n.max then MarkedFailed(n, now) else Rescheduled(n, availableAt)
  }

  predicate IsStale(n: Note, staleBefore: Time) {
    n.status.Delivering? && n.startedAt.Some? && n.startedAt.value < staleBefore && n.attempts < n.max
  }

  /** The UPDATE of `recover_stale_deliveries`. */
  function Recovered(notes: Notes, staleBefore: Time, availableAt: Time): Notes {
    map i <- notes :: if IsStale(notes[i], staleBefore) then Rescheduled(notes[i], availableAt) else notes[i]
  }

  // ---------------------------------------------------------------- workers

  type Token = (Id, nat)

  /** A worker has claimed a row, has sent its mail, or has an exception to record. */
  datatype Phase = Holding | Sent | Broken

  /** `published` lists the rows that discovery announced and `log` the mails sent. */
  datatype World = World(notes: Notes, workers: map<Token, Phase>, published: seq<Id>, log: seq<Token>)

  const INITIAL := World(map[], map[], [], [])

  datatype Step =
    | Create(c: Candidate, id: Id, max: nat, now: Time, publishes: bool)
    | Claim(id: Id, now: Time)
    | RecipientIsGone(id: Id, n: nat, now: Time)
    | Send(id: Id, n: nat, succeeds: bool)
    | MarkDelivered(id: Id, n: nat, now: Time)
    | RecordRetry(id: Id, n: nat, availableAt: Time, now: Time)
    | Recover(staleBefore: Time, availableAt: Time)

  predicate In(w: World, id: Id, n: nat, phase: Phase) {
    (id, n) in w.workers && w.workers[(id, n)] == phase && id in w.notes
  }

  /** A step that is not enabled does nothing; a rejected commit changes no row. */
  function Next(w: World, s: Step): World {
    match s
    case Create(c, id, max, now, publishes) =>
      if Creates(w.notes, c, id, max) then
        w.(notes := w.notes[id := NewNote(c, max, now)], published := if publishes then w.published + [id] else w.published)
      else w
    case Claim(id, now) =>
      if id in w.notes && IsReady(w.notes[id], now) then
        w.(notes := Save(w.notes, id, Claimed(w.notes[id], now)), workers := w.workers[(id, w.notes[id].attempts + 1) := Holding])
      else w
    case RecipientIsGone(id, n, now) =>
      if In(w, id, n, Holding) then
        w.(notes := Save(w.notes, id, MarkedFailed(w.notes[id], now)), workers := w.workers - {(id, n)})
      else w
    case Send(id, n, succeeds) =>
      if In(w, id, n, Holding) then
        w.(log := w.log + [(id, n)], workers := w.workers[(id, n) := if succeeds then Sent else Broken])
      else w
    case MarkDelivered(id, n, now) =>
      if In(w, id, n, Sent) then
        var row := MarkedDelivered(w.notes[id], now);
        w.(notes := Save(w.notes, id, row), workers := if Checks(row) then w.workers - {(id, n)} else w.workers[(id, n) := Broken])
      else w
    case RecordRetry(id, n, availableAt, now) =>
      if In(w, id, n, Broken) then
        w.(notes := Save(w.notes, id, Retried(w.notes[id], availableAt, now)), workers := w.workers - {(id, n)})
      else w
    case Recover(staleBefore, availableAt) => w.(notes := Recovered(w.notes, staleBefore, availableAt))
  }

  function RunFrom(w: World, steps: seq<Step>): World
    decreases |steps|
  {
    if steps == [] then w else RunFrom(Next(w, steps[0]), steps[1..])
  }

  function Run(steps: seq<Step>): World {
    RunFrom(INITIAL, steps)
  }

  // ---------------------------------------------------------------- one row

  /** The CHECKs, and what the calls add to them: a row waiting for a worker has attempts left. */
  predicate InBounds(n: Note) {
    && Checks(n)
    && (n.status.Pending? || n.status.RetryScheduled? ==> n.attempts < n.max)
    && (n.status.Delivering? ==> n.attempts >= 1)
  }

  /** `b` is `a` some time later: finished rows stay finished, and their timestamps stay of one kind. */
  predicate MovesOn(a: Note, b: Note) {
    && b.key == a.key && b.recipient == a.recipient && b.max == a.max && a.attempts <= b.attempts
    && (a.status.Delivered? ==> b.status.Delivered?) && (a.status.Failed? ==> b.status.Failed?)
  }

  predicate RowMoves(a: Note, b: Note) {
    InBounds(b) && MovesOn(a, b)
  }

  lemma ClaimMoves(n: Note, now: Time)
    requires InBounds(n) && IsReady(n, now)
    ensures RowMoves(n, Claimed(n, now))
  {
  }

  /** A late result on a finished row is rejected; on any other row it is in bounds. */
  lemma ResultsMove(n: Note, availableAt: Time, now: Time)
    requires InBounds(n)
    ensures Checks(MarkedDelivered(n, now)) <==> !n.status.Failed?
    ensures Checks(MarkedFailed(n, now)) <==> !n.status.Delivered?
    ensures Checks(Rescheduled(n, availableAt)) <==> !n.status.Delivered? && !n.status.Failed?
    ensures Checks(MarkedDelivered(n, now)) ==> RowMoves(n, MarkedDelivered(n, now))
    ensures Checks(MarkedFailed(n, now)) ==> RowMoves(n, MarkedFailed(n, now))
    ensures Checks(Retried(n, availableAt, now)) ==> RowMoves(n, Retried(n, availableAt, now))
  {
  }

  // ---------------------------------------------------------------- the invariant

  ghost predicate RowsInBounds(notes: Notes) {
    (forall i <- notes :: InBounds(notes[i])) && UniqueKeys(notes)
  }

  ghost predicate PublishedOnce(w: World) {
    && (forall i <- w.published :: i in w.notes)
    && (forall i, j :: 0 <= i < j < |w.published| ==> w.published[i] != w.published[j])
  }

  predicate Counted(notes: Notes, t: Token) {
    t.0 in notes && 1 <= t.1 <= notes[t.0].attempts
  }

  ghost predicate SentOnce(w: World) {
    && (forall t <- w.workers :: Counted(w.notes, t) && (w.workers[t].Holding? ==> t !in w.log))
    && (forall t <- w.log :: Counted(w.notes, t))
    && (forall i, j :: 0 <= i < j < |w.log| ==> w.log[i] != w.log[j])
  }

  ghost predicate Inv(w: World) {
    RowsInBounds(w.notes) && PublishedOnce(w) && SentOnce(w)
  }

  /** Rows move and may be joined by new ones. */
  ghost predicate AllMove(a: Notes, b: Notes) {
    forall i <- a :: i in b && RowMoves(a[i], b[i])
  }

  lemma SaveMoves(notes: Notes, id: Id, n: Note)
    requires RowsInBounds(notes) && id in notes && (Checks(n) ==> RowMoves(notes[id], n))
    ensures RowsInBounds(Save(notes, id, n)) && AllMove(notes, Save(notes, id, n)) && Save(notes, id, n).Keys == notes.Keys
  {
    assert forall i <- notes :: InBounds(notes[i]);
  }

  lemma MovedTokensStay(w: World, notes: Notes)
    requires SentOnce(w) && PublishedOnce(w) && AllMove(w.notes, notes)
    ensures SentOnce(w.(notes := notes)) && PublishedOnce(w.(notes := notes))
  {
  }

  lemma CreateKeeps(w: World, c: Candidate, id: Id, max: nat, now: Time, publishes: bool)
    requires Inv(w)
    ensures Inv(Next(w, Create(c, id, max, now, publishes)))
  {
    if Creates(w.notes, c, id, max) {
      var notes := w.notes[id := NewNote(c, max, now)];
      assert RowsInBounds(notes);
      assert forall i <- w.published :: i != id;
    }
  }

  lemma ClaimKeeps(w: World, id: Id, now: Time)
    requires Inv(w)
    ensures Inv(Next(w, Claim(id, now)))
  {
    if id in w.notes && IsReady(w.notes[id], now) {
      assert InBounds(w.notes[id]);
      ClaimMoves(w.notes[id], now);
      SaveMoves(w.notes, id, Claimed(w.notes[id], now));
      MovedTokensStay(w, Save(w.notes, id, Claimed(w.notes[id], now)));
    }
  }

  lemma SendKeeps(w: World, id: Id, n: nat, succeeds: bool)
    requires Inv(w)
    ensures Inv(Next(w, Send(id, n, succeeds)))
  {
  }

  lemma ResultKeeps(w: World, s: Step)
    requires Inv(w) && (s.RecipientIsGone? || s.MarkDelivered? || s.RecordRetry?)
    ensures Inv(Next(w, s))
  {
    if s.id in w.notes {
      var row := w.notes[s.id];
      assert InBounds(row);
      ResultsMove(row, if s.RecordRetry? then s.availableAt else 0, s.now);
      var saved := if s.RecipientIsGone? then MarkedFailed(row, s.now)
                   else if s.MarkDelivered? then MarkedDelivered(row, s.now) else Retried(row, s.availableAt, s.now);
      SaveMoves(w.notes, s.id, saved);
      MovedTokensStay(w, Save(w.notes, s.id, saved));
    }
  }

  lemma RecoverMoves(notes: Notes, staleBefore: Time, availableAt: Time)
    requires RowsInBounds(notes)
    ensures RowsInBounds(Recovered(notes, staleBefore, availableAt)) && AllMove(notes, Recovered(notes, staleBefore, availableAt))
  {
    assert forall i <- notes :: InBounds(notes[i]);
  }

  lemma RecoverKeeps(w: World, staleBefore: Time, availableAt: Time)
    requires Inv(w)
    ensures Inv(Next(w, Recover(staleBefore, availableAt)))
  {
    RecoverMoves(w.notes, staleBefore, availableAt);
    MovedTokensStay(w, Recovered(w.notes, staleBefore, availableAt));
  }

  lemma StepKeepsInv(w: World, s: Step)
    requires Inv(w)
    ensures Inv(Next(w, s))
  {
    hide Inv, Next;
    match s
    case Create(c, id, max, now, publishes) => CreateKeeps(w, c, id, max, now, publishes);
    case Claim(id, now) => ClaimKeeps(w, id, now);
    case Send(id, n, succeeds) => SendKeeps(w, id, n, succeeds);
    case Recover(staleBefore, availableAt) => RecoverKeeps(w, staleBefore, availableAt);
    case _ => ResultKeeps(w, s);
  }

  lemma {:induction false} RunKeepsInv(w: World, steps: seq<Step>)
    requires Inv(w)
    ensures Inv(RunFrom(w, steps))
    decreases |steps|
  {
    hide Inv, Next;
    if steps != [] {
      StepKeepsInv(w, steps[0]);
      RunKeepsInv(Next(w, steps[0]), steps[1..]);
    }
  }

  lemma StepMoves(w: World, s: Step)
    requires Inv(w)
    ensures AllMove(w.notes, Next(w, s).notes)
  {
    hide PublishedOnce, SentOnce;
    forall i | i in w.notes ensures i in Next(w, s).notes && RowMoves(w.notes[i], Next(w, s).notes[i]) {
      assert InBounds(w.notes[i]);
    }
  }

  lemma {:induction false} RunMoves(w: World, steps: seq<Step>)
    requires Inv(w)
    ensures AllMove(w.notes, RunFrom(w, steps).notes)
    decreases |steps|
  {
    hide Next;
    if steps == [] {
      assert forall i <- w.notes :: InBounds(w.notes[i]);
    } else {
      StepMoves(w, steps[0]);
      StepKeepsInv(w, steps[0]);
      RunMoves(Next(w, steps[0]), steps[1..]);
    }
  }

  lemma {:induction false} RunAppends(w: World, before: seq<Step>, after: seq<Step>)
    ensures RunFrom(w, before + after) == RunFrom(RunFrom(w, before), after)
    decreases |before|
  {
    hide Next;
    if before == [] {
      assert before + after == after;
    } else {
      assert (before + after)[1..] == before[1..] + after;
      RunAppends(Next(w, before[0]), before[1..], after);
    }
  }

  // ---------------------------------------------------------------- main results

  /**
    In every interleaving attempts stay within the row's limit, timestamps agree with the status, there is one row for
    each idempotency key, and discovery publishes a row at most once.
   */
  lemma ReminderBounds(steps: seq<Step>)
    ensures var w := Run(steps);
      && (forall i <- w.notes :: Checks(w.notes[i]))
      && UniqueKeys(w.notes)
      && (forall i, j :: 0 <= i < j < |w.published| ==>
            && w.published[i] in w.notes && w.published[j] in w.notes
            && w.notes[w.published[i]].key != w.notes[w.published[j]].key)
  {
    hide RunFrom, SentOnce;
    EmptyKeepsInv();
    RunKeepsInv(INITIAL, steps);
    var w := Run(steps);
    forall i, j | 0 <= i < j < |w.published|
      ensures w.published[i] in w.notes && w.published[j] in w.notes
           && w.notes[w.published[i]].key != w.notes[w.published[j]].key
    {
      assert w.published[i] in w.published && w.published[j] in w.published;
    }
  }

  lemma EmptyKeepsInv()
    ensures Inv(INITIAL)
  {
  }

  /** Delivered and failed rows stay so, whatever late workers try, and each claim sends at most one mail. */
  lemma FinishedForGood(before: seq<Step>, after: seq<Step>, id: Id)
    requires id in Run(before).notes
    ensures var a := Run(before).notes[id]; var w := Run(before + after);
      && id in w.notes && MovesOn(a, w.notes[id])
      && (forall i, j :: 0 <= i < j < |w.log| ==> w.log[i] != w.log[j])
      && (forall t <- w.log :: t.0 in w.notes && 1 <= t.1 <= w.notes[t.0].attempts <= w.notes[t.0].max)
  {
    hide RunFrom;
    EmptyKeepsInv();
    RunKeepsInv(INITIAL, before);
    RunKeepsInv(INITIAL, before + after);
    RunAppends(INITIAL, before, after);
    RunMoves(Run(before), after);
    var w := Run(before + after);
    forall t | t in w.log ensures t.0 in w.notes && 1 <= t.1 <= w.notes[t.0].attempts <= w.notes[t.0].max {
      assert Counted(w.notes, t) && InBounds(w.notes[t.0]);
    }
  }

  // ---------------------------------------------------------------- where rows come from

  /** Step `i` created row `id` for this candidate, when no row had its key. */
  ghost predicate CreatedAt(steps: seq<Step>, i: nat, id: Id, c: Candidate, max: nat) {
    && i < |steps| && steps[i].Create? && steps[i].id == id && steps[i].c == c && steps[i].max == max
    && id !in Run(steps[..i]).notes && forall j <- Run(steps[..i]).notes :: Run(steps[..i]).notes[j].key != c.key
  }

  ghost predicate WasCreated(steps: seq<Step>, id: Id, c: Candidate, max: nat) {
    exists i: nat :: CreatedAt(steps, i, id, c, max)
  }

  lemma LastStep(front: seq<Step>, s: Step)
    ensures Run(front + [s]) == Next(Run(front), s)
  {
    hide Next;
    RunAppends(INITIAL, front, [s]);
    assert RunFrom(Run(front), [s]) == RunFrom(Next(Run(front), s), []);
  }

  lemma NewRowIsTheCandidates(w: World, s: Step, id: Id)
    requires id in Next(w, s).notes && id !in w.notes
    ensures s.Create? && s.id == id && forall j <- w.notes :: w.notes[j].key != s.c.key
    ensures var n := Next(w, s).notes[id];
      && n.key == s.c.key && n.recipient == s.c.recipient && n.max == s.max && n.status.Pending? && n.attempts == 0
      && n.availableAt == s.now && n.startedAt.None? && n.deliveredAt.None? && n.failedAt.None?
  {
  }

  lemma StillCreated(front: seq<Step>, s: Step, id: Id, c: Candidate, max: nat)
    requires WasCreated(front, id, c, max)
    ensures WasCreated(front + [s], id, c, max)
  {
    hide Run;
    var i: nat :| CreatedAt(front, i, id, c, max);
    assert (front + [s])[..i] == front[..i];
    assert CreatedAt(front + [s], i, id, c, max);
  }

  /** Every row of a reachable state was created for a candidate with its key, and still has that candidate's recipient. */
  lemma {:induction false} RowsAreForTheirCandidates(steps: seq<Step>, id: Id)
    requires id in Run(steps).notes
    ensures var n := Run(steps).notes[id]; WasCreated(steps, id, Candidate(n.key, n.recipient), n.max)
    decreases |steps|
  {
    hide Next, RunFrom, WasCreated, Inv;
    assert steps != [] by { NoRowsYet(); }
    var front, last := steps[..|steps| - 1], steps[|steps| - 1];
    assert steps == front + [last];
    LastStep(front, last);
    var n := Run(steps).notes[id];
    if id in Run(front).notes {
      EmptyKeepsInv();
      RunKeepsInv(INITIAL, front);
      StepMoves(Run(front), last);
      assert MovesOn(Run(front).notes[id], n);
      RowsAreForTheirCandidates(front, id);
      StillCreated(front, last, id, Candidate(n.key, n.recipient), n.max);
    } else {
      NewRowIsTheCandidates(Run(front), last, id);
      assert steps[..|front|] == front;
      CreatedHere(steps, |front|, id, Candidate(n.key, n.recipient), n.max);
    }
  }

  lemma CreatedHere(steps: seq<Step>, i: nat, id: Id, c: Candidate, max: nat)
    requires CreatedAt(steps, i, id, c, max)
    ensures WasCreated(steps, id, c, max)
  {
  }

  lemma NoRowsYet()
    ensures Run([]).notes == map[]
  {
  }

  // ---------------------------------------------------------------- which leases recovery gives back

  /** Recovery gives an expired lease back exactly when the row has attempts left. */
  lemma RecoveryIsLimited(notes: Notes, id: Id, staleBefore: Time, availableAt: Time)
    requires id in notes && notes[id].status.Delivering? && notes[id].startedAt.Some? && notes[id].startedAt.value < staleBefore
    ensures Recovered(notes, staleBefore, availableAt)[id] ==
              if notes[id].attempts < notes[id].max then Rescheduled(notes[id], availableAt) else notes[id]
  {
  }

  /** The steps that a worker takes with a claim on `id`. */
  predicate WorksOn(s: Step, id: Id) {
    (s.RecipientIsGone? || s.Send? || s.MarkDelivered? || s.RecordRetry?) && s.id == id
  }

  /** If the worker of the last attempt died, its row is in delivery for ever, however often recovery runs. */
  lemma {:induction false} LastLeaseIsNeverRecovered(w: World, steps: seq<Step>, id: Id)
    requires id in w.notes && w.notes[id].status.Delivering? && w.notes[id].attempts == w.notes[id].max
    requires forall s <- steps :: !WorksOn(s, id)
    ensures id in RunFrom(w, steps).notes && RunFrom(w, steps).notes[id] == w.notes[id]
    decreases |steps|
  {
    hide Next;
    if steps != [] {
      LastLeaseIsKept(w, steps[0], id);
      LastLeaseIsNeverRecovered(Next(w, steps[0]), steps[1..], id);
    }
  }

  lemma LastLeaseIsKept(w: World, s: Step, id: Id)
    requires id in w.notes && w.notes[id].status.Delivering? && w.notes[id].attempts == w.notes[id].max
    requires !WorksOn(s, id)
    ensures id in Next(w, s).notes && Next(w, s).notes[id] == w.notes[id]
  {
  }

  /** An attempt whose mail fails and which is scheduled again at once. */
  function FailedAttempt(id: Id, n: nat, now: Time): seq<Step> {
    [Claim(id, now), Send(id, n, false), RecordRetry(id, n, now, now)]
  }

  function FailedAttempts(id: Id, count: nat, now: Time): seq<Step> {
    if count == 0 then [] else FailedAttempts(id, count - 1, now) + FailedAttempt(id, count, now)
  }

  /** The row waits with `attempts` spent, due now. */
  predicate Waits(w: World, id: Id, attempts: nat, max: nat, now: Time) {
    id in w.notes && IsReady(w.notes[id], now) && Checks(w.notes[id]) && w.notes[id].attempts == attempts && w.notes[id].max == max
  }

  lemma FailedAttemptSpends(w: World, id: Id, n: nat, max: nat, now: Time)
    requires 1 <= n < max && Waits(w, id, n - 1, max, now)
    ensures Waits(RunFrom(w, FailedAttempt(id, n, now)), id, n, max, now)
  {
    var steps := FailedAttempt(id, n, now);
    var claimed := Next(w, steps[0]);
    var sent := Next(claimed, steps[1]);
    assert In(claimed, id, n, Holding) && In(sent, id, n, Broken);
    assert Waits(Next(sent, steps[2]), id, n, max, now);
    assert steps[1..][1..] == [steps[2]];
    assert RunFrom(w, steps) == RunFrom(claimed, steps[1..]) == RunFrom(sent, [steps[2]]) == RunFrom(Next(sent, steps[2]), []);
  }

  lemma {:induction false} FailedAttemptsSpend(w: World, id: Id, count: nat, max: nat, now: Time)
    requires Waits(w, id, 0, max, now) && count < max
    ensures Waits(RunFrom(w, FailedAttempts(id, count, now)), id, count, max, now)
  {
    hide Next, Waits, FailedAttempt;
    if count > 0 {
      FailedAttemptsSpend(w, id, count - 1, max, now);
      RunAppends(w, FailedAttempts(id, count - 1, now), FailedAttempt(id, count, now));
      FailedAttemptSpends(RunFrom(w, FailedAttempts(id, count - 1, now)), id, count, max, now);
    }
  }

  /** All attempts but one fail, and the worker of the last one dies after its claim. */
  function Stranding(c: Candidate, id: Id, max: nat, now: Time): seq<Step>
    requires max >= 1
  {
    [Create(c, id, max, now, true)] + FailedAttempts(id, max - 1, now) + [Claim(id, now)]
  }

  lemma StrandingSpends(c: Candidate, id: Id, max: nat, now: Time)
    requires max >= 1
    ensures var w := Run(Stranding(c, id, max, now));
      id in w.notes && w.notes[id].status.Delivering? && w.notes[id].attempts == max == w.notes[id].max
  {
    var create, claim := Create(c, id, max, now, true), Claim(id, now);
    var attempts := FailedAttempts(id, max - 1, now);
    var first := Next(INITIAL, create);
    assert Waits(first, id, 0, max, now);
    assert RunFrom(INITIAL, [create]) == RunFrom(first, []);
    RunAppends(INITIAL, [create], attempts);
    RunAppends(INITIAL, [create] + attempts, [claim]);
    FailedAttemptsSpend(first, id, max - 1, max, now);
    var last := RunFrom(first, attempts);
    assert RunFrom(last, [claim]) == RunFrom(Next(last, claim), []);
  }

  /** For every limit there is a run after which the row is in delivery for ever, however often recovery runs. */
  lemma LastLeaseIsReached(c: Candidate, id: Id, max: nat, now: Time, after: seq<Step>)
    requires max >= 1 && forall s <- after :: !WorksOn(s, id)
    ensures var w := Run(Stranding(c, id, max, now) + after);
      id in w.notes && w.notes[id].status.Delivering? && w.notes[id].attempts == max == w.notes[id].max
  {
    hide Next, RunFrom, Stranding;
    StrandingSpends(c, id, max, now);
    RunAppends(INITIAL, Stranding(c, id, max, now), after);
    LastLeaseIsNeverRecovered(Run(Stranding(c, id, max, now)), after, id);
  }
}
