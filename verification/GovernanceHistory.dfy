/** What no later call undoes, and the outbox as the exact history of a run. */
module GovernanceHistory {
  import opened Options
  import opened Governance
  import opened GovernanceInvariants
  import opened GovernanceSteps
  import opened GovernanceRuns

  // ---------------------------------------------------------------- what stays

  ghost predicate KeepsDecisions(a: Db, b: Db) {
    && (forall d <- a.decisions :: a.decisions[d].status.Locked? ==> d in b.decisions && b.decisions[d] == a.decisions[d])
    && (forall l <- a.locks :: l in b.locks && b.locks[l] == a.locks[l])
    && RevisionsGrow(a.revisions, b.revisions) && CompletedKept(a.reviews, b.reviews)
  }

  /** An opened session keeps its electorate and its ballot. */
  ghost predicate KeepsElectorate(a: Db, b: Db, s: Id)
    requires s in a.sessions && s in b.sessions
  {
    && b.sessions[s].openedAt.Some? && b.sessions[s].eligibleCount == a.sessions[s].eligibleCount
    && VotersOf(b, s) == VotersOf(a, s) && BallotOf(b, s) == BallotOf(a, s)
  }

  ghost predicate KeepsSessions(a: Db, b: Db) {
    && (forall s <- a.sessions :: s in b.sessions && b.sessions[s].decision == a.sessions[s].decision)
    && (forall s <- a.sessions :: a.sessions[s].openedAt.Some? ==> KeepsElectorate(a, b, s))
    && (forall s <- a.sessions :: a.sessions[s].status.Closed? ==> b.sessions[s] == a.sessions[s] && VotesOf(b, s) == VotesOf(a, s))
    && (forall v <- a.votes :: v in b.votes && b.votes[v] == a.votes[v])
  }

  /**
    Nothing settled in `a` is unsettled in `b`: locked decisions, locks, completed reviews, revision links and cast
    ballots are as they were, opened sessions have the same electorate, and closed sessions have the same ballots.
   */
  ghost predicate Settled(a: Db, b: Db) {
    KeepsDecisions(a, b) && KeepsSessions(a, b)
  }

  lemma SettledIsTransitive(a: Db, b: Db, c: Db)
    requires Settled(a, b) && Settled(b, c)
    ensures Settled(a, c)
  {
    forall s | s in a.sessions && a.sessions[s].openedAt.Some? ensures s in c.sessions && KeepsElectorate(a, c, s) {
      assert KeepsElectorate(a, b, s) && KeepsElectorate(b, c, s);
    }
  }

  lemma QuietSessions(a: Db, b: Db)
    requires b.sessions == a.sessions && b.voters == a.voters && b.ballots == a.ballots && b.votes == a.votes
    ensures KeepsSessions(a, b)
  {
  }

  lemma SessionSettles(db: Db, next: Db, s: Id)
    requires SessionStep(db, next, s)
    ensures Settled(db, next)
  {
    forall t | t in db.sessions && db.sessions[t].openedAt.Some? ensures KeepsElectorate(db, next, t) {
    }
    forall t | t in db.sessions && db.sessions[t].status.Closed? ensures VotesOf(next, t) == VotesOf(db, t) {
    }
  }

  lemma VoteSettles(db: Db, next: Db, v: Id)
    requires VoteStep(db, next, v)
    ensures Settled(db, next)
  {
    forall t | t in db.sessions && db.sessions[t].status.Closed? ensures VotesOf(next, t) == VotesOf(db, t) {
    }
  }

  lemma LockSettles(db: Db, next: Db, l: Id, event: Id)
    requires LockStep(db, next, l, event) && db.decisions[next.locks[l].decision].status.Active?
    ensures Settled(db, next)
  {
    QuietSessions(db, next);
  }

  lemma DecisionSettles(db: Db, next: Db, d: Id)
    requires DecisionStep(db, next, d) || DecisionGone(db, next, d)
    ensures Settled(db, next)
  {
    QuietSessions(db, next);
  }

  lemma OtherRowsSettle(db: Db, next: Db)
    requires next == db.(proposals := next.proposals, objections := next.objections, exports := next.exports,
                         reviews := next.reviews, members := next.members)
    requires CompletedKept(db.reviews, next.reviews)
    ensures Settled(db, next)
  {
    QuietSessions(db, next);
  }

  lemma FitsSettles(cfg: Config, db: Db, next: Db, shape: Shape)
    requires Fits(cfg, db, next, shape)
    ensures Settled(db, next)
  {
    hide GovernanceInvariants.Anchored, GovernanceInvariants.Rebuilds, GovernanceSteps.DecisionStep, GovernanceSteps.DecisionGone,
         GovernanceSteps.SessionStep, GovernanceSteps.VoteStep, GovernanceSteps.LockStep, GovernanceSteps.NewLink,
         GovernanceInvariants.Announced, KeepsSessions, KeepsDecisions;
    match shape
    case OfDecision(d) => DecisionSettles(db, next, d);
    case OfRevision(ids) => DecisionSettles(db, next, ids.successor);
    case OfGoneDecision(d) => DecisionSettles(db, next, d);
    case OfSession(s) => SessionSettles(db, next, s);
    case OfVote(v) => VoteSettles(db, next, v);
    case OfLock(l, event) => LockSettles(db, next, l, event);
    case _ => OtherRowsSettle(db, next);
  }

  lemma StepSettles(cfg: Config, db: Db, c: Call)
    requires Good(cfg, db)
    ensures Settled(db, Next(cfg, db, c))
  {
    hide Apply, Fits, Settled;
    if Apply(cfg, db, c).Ok? {
      GoodGrounds(cfg, db);
      CallFits(cfg, db, c, Apply(cfg, db, c).value);
      FitsSettles(cfg, db, Apply(cfg, db, c).value, ShapeOf(c.request));
    } else {
      SettledIsReflexive(db);
    }
  }

  lemma SettledIsReflexive(db: Db)
    ensures Settled(db, db)
  {
  }

  /**
    From any reachable state on, whatever is called: a locked decision stays locked with the same lock row, an opened
    session keeps its electorate, a closed session keeps its ballots, a revision link stays as it is.
   */
  lemma {:induction false} SettledForGood(cfg: Config, db: Db, calls: seq<Call>)
    requires Good(cfg, db)
    ensures Settled(db, RunFrom(cfg, db, calls))
    decreases |calls|
  {
    hide Good, Next, Settled;
    if calls == [] {
      SettledIsReflexive(db);
    } else {
      var next := Next(cfg, db, calls[0]);
      StepSettles(cfg, db, calls[0]);
      StepIsGood(cfg, db, calls[0]);
      SettledForGood(cfg, next, calls[1..]);
      SettledIsTransitive(db, next, RunFrom(cfg, next, calls[1..]));
    }
  }

  // ---------------------------------------------------------------- the outbox

  function Rows(event: EventType, subjects: set<Id>): set<OutboxRow> {
    set x <- subjects :: OutboxRow(event, x)
  }

  function ActivatedBetween(a: Db, b: Db): set<Id> {
    set d <- b.decisions | d in a.decisions && Activates(a.decisions[d], b.decisions[d].status)
  }

  function OpenedBetween(a: Db, b: Db): set<Id> {
    set s <- b.sessions | b.sessions[s].openedAt.Some? && !(s in a.sessions && a.sessions[s].openedAt.Some?)
  }

  function ClosedBetween(a: Db, b: Db): set<Id> {
    set s <- b.sessions | b.sessions[s].status.Closed? && !(s in a.sessions && a.sessions[s].status.Closed?)
  }

  /** What happened between two states: activations, openings, closings and locks, each as the event it calls for. */
  function Happened(a: Db, b: Db): set<OutboxRow> {
    Rows(DecisionActivated, ActivatedBetween(a, b)) + Rows(VotingOpened, OpenedBetween(a, b))
    + Rows(VotingClosed, ClosedBetween(a, b)) + Rows(DecisionLocked, b.locks.Keys - a.locks.Keys)
  }

  lemma HappenedMembers(a: Db, b: Db, row: OutboxRow)
    ensures row in Happened(a, b) <==>
      match row.event
      case DecisionActivated => row.subject in ActivatedBetween(a, b)
      case VotingOpened => row.subject in OpenedBetween(a, b)
      case VotingClosed => row.subject in ClosedBetween(a, b)
      case DecisionLocked => row.subject in b.locks && row.subject !in a.locks
  {
  }

  /** The activation rows after a step are those before it and the activation that the step made. */
  ghost predicate RecordsActivations(db: Db, next: Db) {
    forall d: Id :: OutboxRow(DecisionActivated, d) in Events(next.outbox) <==>
      OutboxRow(DecisionActivated, d) in Events(db.outbox) || d in ActivatedBetween(db, next)
  }

  lemma DecisionRecords(db: Db, next: Db, d: Id)
    requires DecisionStep(db, next, d)
    ensures RecordsActivations(db, next)
  {
    assert forall x <- db.decisions :: x != d ==> next.decisions[x] == db.decisions[x];
  }

  lemma GoneRecords(db: Db, next: Db, d: Id)
    requires DecisionGone(db, next, d)
    ensures RecordsActivations(db, next)
  {
  }

  lemma LockRecords(db: Db, next: Db, l: Id, event: Id)
    requires LockStep(db, next, l, event)
    ensures RecordsActivations(db, next)
  {
    StagedEvents(db.outbox, event, OutboxRow(DecisionLocked, l));
  }

  lemma SameDecisionsRecord(db: Db, next: Db)
    requires next.decisions == db.decisions && SameActivations(db.outbox, next.outbox)
    ensures RecordsActivations(db, next)
  {
  }

  lemma FitsRecordsActivations(cfg: Config, db: Db, next: Db, shape: Shape)
    requires Fits(cfg, db, next, shape)
    ensures RecordsActivations(db, next)
  {
    hide GovernanceSteps.Justified, GovernanceSteps.DecisionStep, GovernanceSteps.DecisionGone, GovernanceSteps.LockStep,
         GovernanceSteps.NewLink, GovernanceInvariants.Announced, RecordsActivations;
    match shape
    case OfDecision(d) => DecisionRecords(db, next, d);
    case OfRevision(ids) => DecisionRecords(db, next, ids.successor);
    case OfGoneDecision(d) => GoneRecords(db, next, d);
    case OfLock(l, event) => LockRecords(db, next, l, event);
    case _ => SameDecisionsRecord(db, next);
  }

  /** Each step adds exactly the events of what it did, and none of them was there before. */
  lemma OutboxFollows(db: Db, next: Db)
    requires Announced(db.decisions, db.sessions, db.locks, db.outbox)
    requires Announced(next.decisions, next.sessions, next.locks, next.outbox)
    requires RecordsActivations(db, next) && KeepsSessions(db, next) && db.locks.Keys <= next.locks.Keys
    ensures Events(next.outbox) == Events(db.outbox) + Happened(db, next)
    ensures Events(db.outbox) !! Happened(db, next)
  {
    hide Happened;
    forall row: OutboxRow
      ensures row in Events(next.outbox) <==> row in Events(db.outbox) || row in Happened(db, next)
      ensures row in Happened(db, next) ==> row !in Events(db.outbox)
    {
      HappenedMembers(db, next, row);
      assert row == OutboxRow(row.event, row.subject);
    }
  }

  lemma StepExtendsOutbox(cfg: Config, db: Db, c: Call)
    requires Good(cfg, db)
    ensures var next := Next(cfg, db, c);
      Events(next.outbox) == Events(db.outbox) + Happened(db, next) && Events(db.outbox) !! Happened(db, next)
  {
    hide Apply, Fits, Happened, RecordsActivations, KeepsSessions, GovernanceInvariants.Announced;
    var next := Next(cfg, db, c);
    StepSettles(cfg, db, c);
    StepIsGood(cfg, db, c);
    if Apply(cfg, db, c).Ok? {
      GoodGrounds(cfg, db);
      CallFits(cfg, db, c, next);
      FitsRecordsActivations(cfg, db, next, ShapeOf(c.request));
    } else {
      NothingHappens(db);
    }
    OutboxFollows(db, next);
  }

  lemma NothingHappens(db: Db)
    ensures RecordsActivations(db, db)
  {
  }

  /** Everything that happened during a run. */
  function HappenedDuring(cfg: Config, db: Db, calls: seq<Call>): set<OutboxRow>
    decreases |calls|
  {
    if calls == [] then {}
    else var next := Next(cfg, db, calls[0]); Happened(db, next) + HappenedDuring(cfg, next, calls[1..])
  }

  /** How many things happened during a run, counting every step. */
  function HappeningsDuring(cfg: Config, db: Db, calls: seq<Call>): nat
    decreases |calls|
  {
    if calls == [] then 0
    else var next := Next(cfg, db, calls[0]); |Happened(db, next)| + HappeningsDuring(cfg, next, calls[1..])
  }

  lemma {:induction false} RunExtendsOutbox(cfg: Config, db: Db, calls: seq<Call>)
    requires Good(cfg, db)
    ensures var last := RunFrom(cfg, db, calls);
      && Events(last.outbox) == Events(db.outbox) + HappenedDuring(cfg, db, calls)
      && |Events(last.outbox)| == |Events(db.outbox)| + HappeningsDuring(cfg, db, calls)
    decreases |calls|
  {
    hide Good, Next, Happened;
    if calls != [] {
      var next := Next(cfg, db, calls[0]);
      StepExtendsOutbox(cfg, db, calls[0]);
      StepIsGood(cfg, db, calls[0]);
      RunExtendsOutbox(cfg, next, calls[1..]);
    }
  }

  lemma {:induction false} DistinctRows(outbox: map<Id, OutboxRow>)
    requires OutboxKeys(outbox)
    ensures |Events(outbox)| == |outbox|
  {
    if outbox != map[] {
      var e :| e in outbox;
      var rest := outbox - {e};
      DistinctRows(rest);
      assert outbox == rest[e := outbox[e]];
      StagedEvents(rest, e, outbox[e]);
      assert outbox[e] !in Events(rest);
    }
  }

  /**
    The outbox of every reachable state is the history of the run: it holds the events of everything that happened,
    nothing else, and one row for each happening, so no step ever tried to add an event a second time.
   */
  lemma OutboxIsHistory(cfg: Config, calls: seq<Call>)
    ensures var db := Run(cfg, calls);
      && Events(db.outbox) == HappenedDuring(cfg, EMPTY, calls)
      && |db.outbox| == HappeningsDuring(cfg, EMPTY, calls)
  {
    hide Next, RunFrom, HappenedDuring, HappeningsDuring;
    ReachableIsGood(cfg, []);
    ReachableIsGood(cfg, calls);
    EmptyRun(cfg);
    RunExtendsOutbox(cfg, EMPTY, calls);
    DistinctRows(Run(cfg, calls).outbox);
  }

  lemma EmptyRun(cfg: Config)
    ensures Run(cfg, []) == EMPTY
  {
  }
}
