/** What every governance call keeps, stated table by table so that a call that leaves a table alone keeps it for free. */
module GovernanceInvariants {
  import opened Options
  import opened Ordering
  import opened VotingMath
  import opened Governance

  // ---------------------------------------------------------------- the invariant

  /** A decision is locked exactly when it has a lock row. */
  ghost predicate Locking(decisions: map<Id, Decision>, locks: map<Id, Lock>) {
    && (forall l <- locks :: locks[l].decision in decisions && decisions[locks[l].decision].status.Locked?)
    && (forall d <- decisions :: decisions[d].status.Locked? ==> exists l <- locks :: locks[l].decision == d)
  }

  /** No proposal of a locked decision carries an open blocking objection. */
  ghost predicate Unblocked(decisions: map<Id, Decision>, proposals: map<Id, Proposal>, objections: map<Id, Objection>) {
    forall o <- objections ::
      objections[o].severity.Blocking? && objections[o].status.Open?
      && objections[o].proposal in proposals && proposals[objections[o].proposal].decision in decisions ==>
        !decisions[proposals[objections[o].proposal].decision].status.Locked?
  }

  /** The rows of one session: none before it opens; a fixed electorate and ballot afterwards. */
  ghost predicate SessionRows(s: Id, row: Session, voters: set<(Id, Id)>, ballots: set<(Id, Id)>) {
    if row.openedAt.None? then RowsOf(voters, s) == {} && RowsOf(ballots, s) == {}
    else
      && row.eligibleCount == |RowsOf(voters, s)| >= 1
      && |RowsOf(ballots, s)| >= 2
  }

  ghost predicate Polling(decisions: map<Id, Decision>, proposals: map<Id, Proposal>, sessions: map<Id, Session>,
                          voters: set<(Id, Id)>, ballots: set<(Id, Id)>, votes: map<Id, Vote>)
  {
    && (forall s <- sessions :: SessionRows(s, sessions[s], voters, ballots))
    && (forall s <- sessions :: sessions[s].decision in decisions && !decisions[sessions[s].decision].status.Draft?)
    && (forall b <- ballots :: b.0 in sessions && b.1 in proposals && proposals[b.1].decision == sessions[b.0].decision)
    && (forall v <- votes :: (votes[v].session, votes[v].voter) in voters && (votes[v].session, votes[v].proposal) in ballots)
  }

  function Events(outbox: map<Id, OutboxRow>): set<OutboxRow> {
    set e <- outbox :: outbox[e]
  }

  /** The outbox holds exactly the events that the other tables show to have happened. */
  ghost predicate Announced(decisions: map<Id, Decision>, sessions: map<Id, Session>, locks: map<Id, Lock>, outbox: map<Id, OutboxRow>)
  {
    && (forall s: Id :: OutboxRow(VotingOpened, s) in Events(outbox) <==> s in sessions && sessions[s].openedAt.Some?)
    && (forall s: Id :: OutboxRow(VotingClosed, s) in Events(outbox) <==> s in sessions && sessions[s].status.Closed?)
    && (forall l: Id :: OutboxRow(DecisionLocked, l) in Events(outbox) <==> l in locks)
    && (forall d: Id :: OutboxRow(DecisionActivated, d) in Events(outbox) ==> d in decisions && !decisions[d].status.Draft?)
  }

  /** An export carries the digest of its lock. */
  ghost predicate Exporting(locks: map<Id, Lock>, exports: map<Id, Export>) {
    forall e <- exports :: exports[e].sourceLock in locks
      && exports[e].documentHash == locks[exports[e].sourceLock].documentHash
      && exports[e].decision == locks[exports[e].sourceLock].decision
  }

  /** A lock names a closed session of its decision, and a winner on that session's ballot. */
  ghost predicate Anchored(db: Db, k: Lock) {
    && k.decision in db.decisions && k.session in db.sessions && k.winner in db.proposals
    && db.sessions[k.session].status.Closed? && db.sessions[k.session].decision == k.decision
    && db.proposals[k.winner].decision == k.decision && k.winner in BallotOf(db, k.session)
  }

  /** With `ties` for the order of equal times, the tables give the lock's document. */
  ghost predicate Builds(db: Db, k: Lock, r: VotingResult, ties: seq<Id>)
    requires Anchored(db, k)
  {
    BuildSnapshot(db, k.decision, db.decisions[k.decision], k.winner, db.proposals[k.winner], r, ties) == Ok(k.snapshot)
  }

  /** Rebuilding a lock's document from the live tables can give the stored one, and its session still names its winner. */
  ghost predicate Rebuilds(cfg: Config, db: Db, k: Lock)
    requires Anchored(db, k)
  {
    var r := ResultOf(cfg, db, k.session);
    && r.quorumMet && r.winner == Some(k.winner)
    && (exists ties: seq<Id> :: Builds(db, k, r, ties))
    && k.documentHash == HashSnapshot(cfg, k.snapshot)
  }

  ghost predicate AllAnchored(db: Db) {
    forall l <- db.locks :: Anchored(db, db.locks[l])
  }

  ghost predicate Frozen(cfg: Config, db: Db)
    requires AllAnchored(db)
  {
    forall l <- db.locks :: Rebuilds(cfg, db, db.locks[l])
  }

  /** What holds beyond the constraints that every commit checks. */
  ghost predicate Inv(cfg: Config, db: Db) {
    && Locking(db.decisions, db.locks)
    && Unblocked(db.decisions, db.proposals, db.objections)
    && Polling(db.decisions, db.proposals, db.sessions, db.voters, db.ballots, db.votes)
    && Announced(db.decisions, db.sessions, db.locks, db.outbox)
    && Exporting(db.locks, db.exports)
    && AllAnchored(db) && Frozen(cfg, db)
  }

  // ---------------------------------------------------------------- framing of the frozen record

  /** The two states agree on every row that a lock's document is built from. */
  ghost predicate SameRecord(a: Db, b: Db, d: Id, s: Id) {
    && d in a.decisions && d in b.decisions && DecisionJson(d, a.decisions[d]) == DecisionJson(d, b.decisions[d])
    && s in a.sessions && s in b.sessions && a.sessions[s] == b.sessions[s]
    && VotesOf(a, s) == VotesOf(b, s)
    && BallotOf(a, s) == BallotOf(b, s)
    && (forall p <- BallotOf(a, s) :: SameProposal(a, b, p))
  }

  ghost predicate SameProposal(a: Db, b: Db, p: Id) {
    p in a.proposals && p in b.proposals && a.proposals[p] == b.proposals[p] && ObjectionsOf(a, p) == ObjectionsOf(b, p)
  }

  lemma {:induction false} AlternativesFrame(a: Db, b: Db, d: Id, winner: Id, tallies: seq<Tally>, ties: seq<Id>)
    requires forall t <- tallies :: SameProposal(a, b, t.proposal)
    ensures Alternatives(a, d, winner, tallies, ties) == Alternatives(b, d, winner, tallies, ties)
  {
    if tallies != [] {
      assert tallies[0] in tallies;
      AlternativesFrame(a, b, d, winner, tallies[1..], ties);
    }
  }

  lemma {:induction false} CountsAreOfBallot(votes: map<Id, Vote>, ballot: seq<Id>)
    ensures forall i :: 0 <= i < |ballot| ==>
      CountsFor(votes, ballot)[i] == Count(ballot[i], |VotesFor(votes, ballot[i])|)
  {
    if ballot != [] {
      CountsAreOfBallot(votes, ballot[1..]);
    }
  }

  /** Every tally is of a proposal of the ballot. */
  lemma TalliesAreOfBallot(cfg: Config, db: Db, s: Id)
    requires s in db.sessions
    ensures forall t <- ResultOf(cfg, db, s).tallies :: t.proposal in BallotOf(db, s)
    ensures |ResultOf(cfg, db, s).tallies| == |BallotOf(db, s)|
  {
    var ballot := Ascending(BallotOf(db, s));
    CountsAreOfBallot(VotesOf(db, s), ballot);
    var r := ResultOf(cfg, db, s);
    forall t | t in r.tallies ensures t.proposal in BallotOf(db, s) {
      var i :| 0 <= i < |r.tallies| && r.tallies[i] == t;
      assert t.proposal == ballot[i] && ballot[i] in ballot;
    }
  }

  lemma AnchoredFrame(a: Db, b: Db, k: Lock)
    requires Anchored(a, k) && SameRecord(a, b, k.decision, k.session)
    ensures Anchored(b, k) && SameProposal(a, b, k.winner)
  {
    assert SameProposal(a, b, k.winner);
  }

  lemma ResultFrame(cfg: Config, a: Db, b: Db, d: Id, s: Id)
    requires SameRecord(a, b, d, s)
    ensures ResultOf(cfg, a, s) == ResultOf(cfg, b, s)
    ensures forall t <- ResultOf(cfg, a, s).tallies :: SameProposal(a, b, t.proposal)
  {
    TalliesAreOfBallot(cfg, a, s);
  }

  lemma BuildsFrame(a: Db, b: Db, k: Lock, r: VotingResult, ties: seq<Id>)
    requires Anchored(a, k) && Anchored(b, k) && Builds(a, k, r, ties)
    requires DecisionJson(k.decision, a.decisions[k.decision]) == DecisionJson(k.decision, b.decisions[k.decision])
    requires SameProposal(a, b, k.winner) && forall t <- r.tallies :: SameProposal(a, b, t.proposal)
    ensures Builds(b, k, r, ties)
  {
    hide Governance.DecisionJson, Governance.ProposalJson, Governance.ResultJson, Governance.ObjectionsJson, Governance.Alternatives;
    AlternativesFrame(a, b, k.decision, k.winner, r.tallies, ties);
  }

  lemma RebuildsFrame(cfg: Config, a: Db, b: Db, k: Lock)
    requires Anchored(a, k) && Rebuilds(cfg, a, k) && SameRecord(a, b, k.decision, k.session)
    ensures Anchored(b, k) && Rebuilds(cfg, b, k)
  {
    hide Governance.ResultOf, Builds, SameProposal;
    AnchoredFrame(a, b, k);
    ResultFrame(cfg, a, b, k.decision, k.session);
    var r := ResultOf(cfg, a, k.session);
    var ties :| Builds(a, k, r, ties);
    BuildsFrame(a, b, k, r, ties);
  }

  ghost predicate SameRecords(a: Db, b: Db) {
    forall l <- a.locks :: SameRecord(a, b, a.locks[l].decision, a.locks[l].session)
  }

  /** Locks stay frozen when a call leaves the rows they are built from alone. */
  lemma FrozenFrame(cfg: Config, a: Db, b: Db)
    requires AllAnchored(a) && Frozen(cfg, a) && a.locks == b.locks && SameRecords(a, b)
    ensures AllAnchored(b) && Frozen(cfg, b)
  {
    forall l | l in b.locks ensures Anchored(b, b.locks[l]) && Rebuilds(cfg, b, b.locks[l]) {
      RebuildsFrame(cfg, a, b, a.locks[l]);
    }
  }

  /** Everything a lock's document is built from hangs on a locked decision. */
  ghost predicate Belongs(db: Db, k: Lock) {
    && k.decision in db.decisions && db.decisions[k.decision].status.Locked?
    && k.session in db.sessions && db.sessions[k.session].status.Closed? && db.sessions[k.session].decision == k.decision
    && forall p <- BallotOf(db, k.session) :: p in db.proposals && db.proposals[p].decision == k.decision
  }

  ghost predicate AllBelong(db: Db) {
    forall l <- db.locks :: Belongs(db, db.locks[l])
  }

  lemma RecordsBelong(db: Db)
    requires Locking(db.decisions, db.locks) && AllAnchored(db)
    requires Polling(db.decisions, db.proposals, db.sessions, db.voters, db.ballots, db.votes)
    ensures AllBelong(db)
  {
    forall l | l in db.locks ensures Belongs(db, db.locks[l]) {
      var k := db.locks[l];
      forall p | p in BallotOf(db, k.session) ensures p in db.proposals && db.proposals[p].decision == k.decision {
        assert (k.session, p) in db.ballots;
      }
    }
  }
}
