/**
  Which commits the schema can refuse.  In a reachable state a call that passes its guards and draws new identifiers
  commits, except where a row is already there: a vote of the same voter, a scheduled review of the same decision, a
  ballot that names the proposal to delete, or a successor of the same decision (`RevisionConflicts`).
 */
module GovernanceCommits {
  import opened Options
  import opened VotingMath
  import opened Governance
  import opened GovernanceInvariants
  import opened GovernanceSteps
  import opened GovernanceRuns

  // ---------------------------------------------------------------- votes

  /** Every guard of `cast_vote` before the commit passes. */
  ghost predicate MayVote(db: Db, actor: Id, workspace: Id, d: Id, s: Id, id: Id, p: Id, now: Time) {
    && (workspace, actor) in db.members && d in db.decisions && db.decisions[d].workspace == workspace
    && s in db.sessions && db.sessions[s].decision == d && db.sessions[s].status.Open? && !Expired(db.sessions[s], now)
    && (s, actor) in db.voters && (s, p) in db.ballots && id !in db.votes
  }

  predicate HasVoted(votes: map<Id, Vote>, s: Id, voter: Id) {
    exists v <- votes :: votes[v].session == s && votes[v].voter == voter
  }

  lemma VoteReferences(db: Db, id: Id, vote: Vote)
    requires ForeignKeys(db) && vote.session in db.sessions && vote.proposal in db.proposals
    ensures ForeignKeys(db.(votes := db.votes[id := vote]))
  {
    hide Governance.RevisionReferences;
    var next := db.(votes := db.votes[id := vote]);
    SameRevisionReferences(db, next);
  }

  lemma SameRevisionReferences(a: Db, b: Db)
    requires a.decisions.Keys <= b.decisions.Keys && a.locks.Keys <= b.locks.Keys && a.reviews == b.reviews
    ensures forall r: Revision :: RevisionReferences(a, r) ==> RevisionReferences(b, r)
  {
  }

  lemma VoteKeys(sessions: map<Id, Session>, votes: map<Id, Vote>, id: Id, vote: Vote)
    requires VotingKeys(sessions, votes) && id !in votes
    ensures VotingKeys(sessions, votes[id := vote]) <==> !HasVoted(votes, vote.session, vote.voter)
  {
    var next := votes[id := vote];
    if v :| v in votes && votes[v].session == vote.session && votes[v].voter == vote.voter {
      assert next[v].session == next[id].session && next[v].voter == next[id].voter && v != id;
    }
  }

  lemma VoteOutcome(db: Db, actor: Id, workspace: Id, d: Id, s: Id, id: Id, p: Id, now: Time)
    requires Constraints(db) && MayVote(db, actor, workspace, d, s, id, p, now)
    ensures var a := CastVote(db, actor, workspace, d, s, id, p, now);
      if HasVoted(db.votes, s, actor) then a == Refused(VoteAlreadyCast) else a.Ok?
  {
    hide Governance.ForeignKeys, Governance.Checks, Governance.VotingKeys, Governance.LockKeys, Governance.RevisionKeys,
         Governance.OutboxKeys, HasVoted;
    BallotsReference(db);
    VoteReferences(db, id, Vote(s, actor, p));
    VoteKeys(db.sessions, db.votes, id, Vote(s, actor, p));
    VotesHaveNoChecks(db, db.votes[id := Vote(s, actor, p)]);
  }

  lemma BallotsReference(db: Db)
    requires ForeignKeys(db)
    ensures forall b <- db.ballots :: b.1 in db.proposals
  {
  }

  lemma VotesHaveNoChecks(db: Db, votes: map<Id, Vote>)
    requires Checks(db)
    ensures Checks(db.(votes := votes))
  {
  }

  /** In a reachable state a vote that passes the guards is refused exactly when its voter has voted in the session. */
  lemma SecondVotesAreRefused(cfg: Config, calls: seq<Call>, actor: Id, workspace: Id, d: Id, s: Id, id: Id, p: Id, now: Time)
    requires MayVote(Run(cfg, calls), actor, workspace, d, s, id, p, now)
    ensures var db := Run(cfg, calls); var a := CastVote(db, actor, workspace, d, s, id, p, now);
      && (HasVoted(db.votes, s, actor) <==> a == Refused(VoteAlreadyCast))
      && (!HasVoted(db.votes, s, actor) <==> a.Ok?)
  {
    hide GovernanceRuns.Run, MayVote, HasVoted, GovernanceInvariants.Inv, Governance.Constraints, Governance.CastVote;
    ReachableIsGood(cfg, calls);
    VoteOutcome(Run(cfg, calls), actor, workspace, d, s, id, p, now);
  }

  // ---------------------------------------------------------------- sessions

  /** A session row changes without becoming unfinished again; snapshot rows refer to it. */
  ghost predicate SessionChange(db: Db, next: Db, s: Id) {
    && s in db.sessions && s in next.sessions
    && next == db.(sessions := db.sessions[s := next.sessions[s]], voters := next.voters, ballots := next.ballots, outbox := next.outbox)
    && next.sessions[s].decision == db.sessions[s].decision && SessionCheck(next.sessions[s])
    && (Unfinished(next.sessions[s]) ==> Unfinished(db.sessions[s]))
    && (forall v <- next.voters :: v in db.voters || v.0 == s)
    && (forall b <- next.ballots :: b in db.ballots || (b.0 == s && b.1 in db.proposals))
  }

  lemma SessionChangeReferences(db: Db, next: Db, s: Id)
    requires ForeignKeys(db) && SessionChange(db, next, s)
    ensures ForeignKeys(next)
  {
    hide Governance.RevisionReferences;
    SameRevisionReferences(db, next);
  }

  lemma SessionChangeKeys(db: Db, next: Db, s: Id)
    requires VotingKeys(db.sessions, db.votes) && SessionChange(db, next, s)
    ensures VotingKeys(next.sessions, db.votes)
  {
  }

  lemma SessionChangeChecks(db: Db, next: Db, s: Id)
    requires Checks(db) && SessionChange(db, next, s)
    ensures Checks(next)
  {
  }

  lemma SessionChangeFits(db: Db, next: Db, s: Id)
    requires Constraints(db) && SessionChange(db, next, s) && OutboxKeys(next.outbox)
    ensures Constraints(next)
  {
    hide Governance.ForeignKeys, Governance.Checks, Governance.VotingKeys, Governance.LockKeys, Governance.RevisionKeys,
         Governance.OutboxKeys;
    SessionChangeReferences(db, next, s);
    SessionChangeKeys(db, next, s);
    SessionChangeChecks(db, next, s);
  }

  /** Every guard of `create_session` passes, and the quorum is a percentage, which the request schema has checked. */
  ghost predicate MayCall(db: Db, actor: Id, workspace: Id, d: Id, id: Id, quorum: nat) {
    && (workspace, actor) in db.members && Manages(db.members[(workspace, actor)])
    && d in db.decisions && db.decisions[d].workspace == workspace && db.decisions[d].status.Active?
    && !HasUnfinished(db, d) && id !in db.sessions && 1 <= quorum <= 100
  }

  function Called(db: Db, actor: Id, d: Id, id: Id, quorum: nat, closesAt: Option<Time>): Db {
    db.(sessions := db.sessions[id := Session(d, actor, SessionStatus.Draft, quorum, 0, None, closesAt, None, None)])
  }

  lemma CalledReferences(db: Db, actor: Id, d: Id, id: Id, quorum: nat, closesAt: Option<Time>)
    requires ForeignKeys(db) && d in db.decisions
    ensures ForeignKeys(Called(db, actor, d, id, quorum, closesAt))
  {
    hide Governance.RevisionReferences;
    SameRevisionReferences(db, Called(db, actor, d, id, quorum, closesAt));
  }

  lemma CalledKeys(db: Db, actor: Id, d: Id, id: Id, quorum: nat, closesAt: Option<Time>)
    requires VotingKeys(db.sessions, db.votes) && !HasUnfinished(db, d) && id !in db.sessions
    ensures VotingKeys(Called(db, actor, d, id, quorum, closesAt).sessions, db.votes)
  {
  }

  lemma CalledFits(db: Db, actor: Id, d: Id, id: Id, quorum: nat, closesAt: Option<Time>)
    requires Constraints(db) && d in db.decisions && !HasUnfinished(db, d) && id !in db.sessions && 1 <= quorum <= 100
    ensures Constraints(Called(db, actor, d, id, quorum, closesAt))
  {
    hide Governance.ForeignKeys, Governance.VotingKeys, Governance.LockKeys, Governance.RevisionKeys, Governance.OutboxKeys,
         Governance.HasUnfinished;
    CalledReferences(db, actor, d, id, quorum, closesAt);
    CalledKeys(db, actor, d, id, quorum, closesAt);
  }

  lemma CallingCommits(db: Db, actor: Id, workspace: Id, d: Id, id: Id, quorum: nat, closesAt: Option<Time>)
    requires Constraints(db) && MayCall(db, actor, workspace, d, id, quorum)
    ensures CreateSession(db, actor, workspace, d, id, quorum, closesAt) == Ok(Called(db, actor, d, id, quorum, closesAt))
  {
    hide Governance.Constraints, Governance.HasUnfinished;
    CalledFits(db, actor, d, id, quorum, closesAt);
  }

  lemma CallingGuards(db: Db, actor: Id, workspace: Id, d: Id, id: Id, quorum: nat, closesAt: Option<Time>)
    requires CreateSession(db, actor, workspace, d, id, quorum, closesAt).Ok?
    ensures MayCall(db, actor, workspace, d, id, quorum)
  {
    hide Governance.ForeignKeys, Governance.VotingKeys, Governance.LockKeys, Governance.RevisionKeys, Governance.OutboxKeys,
         Governance.HasUnfinished;
    var next := Called(db, actor, d, id, quorum, closesAt);
    assert SessionCheck(next.sessions[id]);
  }

  /** In a reachable state a session can be called exactly when its guards pass. */
  lemma CallingIsGuarded(cfg: Config, calls: seq<Call>, actor: Id, workspace: Id, d: Id, id: Id, quorum: nat, closesAt: Option<Time>)
    ensures var db := Run(cfg, calls);
      CreateSession(db, actor, workspace, d, id, quorum, closesAt).Ok? <==> MayCall(db, actor, workspace, d, id, quorum)
  {
    hide GovernanceRuns.Run, Governance.Constraints, GovernanceInvariants.Inv, Governance.CreateSession, MayCall;
    ReachableIsGood(cfg, calls);
    var db := Run(cfg, calls);
    if MayCall(db, actor, workspace, d, id, quorum) {
      CallingCommits(db, actor, workspace, d, id, quorum, closesAt);
    }
    if CreateSession(db, actor, workspace, d, id, quorum, closesAt).Ok? {
      CallingGuards(db, actor, workspace, d, id, quorum, closesAt);
    }
  }

  /** Every guard of `open_session` passes. */
  ghost predicate MayOpen(db: Db, actor: Id, workspace: Id, d: Id, s: Id, event: Id, now: Time) {
    && (workspace, actor) in db.members && Manages(db.members[(workspace, actor)])
    && d in db.decisions && db.decisions[d].workspace == workspace && db.decisions[d].status.Active?
    && s in db.sessions && db.sessions[s].decision == d && db.sessions[s].status.Draft? && !Expired(db.sessions[s], now)
    && !OpenBlocking(db, d) && |SubmittedProposals(db, d)| >= 2 && EligibleUsers(db, workspace) != {}
    && event !in db.outbox
  }

  /** The tables that `open_session` commits. */
  function Opened(db: Db, workspace: Id, d: Id, s: Id, event: Id, now: Time): Db
    requires s in db.sessions
  {
    var users := EligibleUsers(db, workspace);
    Stage(db, event, VotingOpened, s).(
      sessions := db.sessions[s := db.sessions[s].(status := SessionStatus.Open, openedAt := Some(now), eligibleCount := |users|)],
      voters := db.voters + SnapshotOf(s, users),
      ballots := db.ballots + SnapshotOf(s, SubmittedProposals(db, d)))
  }

  lemma OpenedFits(db: Db, workspace: Id, d: Id, s: Id, event: Id, now: Time)
    requires Constraints(db) && Announced(db.decisions, db.sessions, db.locks, db.outbox)
    requires s in db.sessions && db.sessions[s].status.Draft? && event !in db.outbox
    ensures Constraints(Opened(db, workspace, d, s, event, now))
  {
    hide Governance.ForeignKeys, Governance.VotingKeys, Governance.LockKeys, Governance.RevisionKeys,
         Governance.EligibleUsers;
    var next := Opened(db, workspace, d, s, event, now);
    assert SessionCheck(db.sessions[s]);
    OpeningIsAnnounced(db, s, next.sessions[s], event);
    SessionChangeFits(db, next, s);
  }

  lemma OpeningCommits(db: Db, actor: Id, workspace: Id, d: Id, s: Id, event: Id, now: Time)
    requires Constraints(db) && Announced(db.decisions, db.sessions, db.locks, db.outbox)
    requires MayOpen(db, actor, workspace, d, s, event, now)
    ensures OpenSession(db, actor, workspace, d, s, event, now) == Ok(Opened(db, workspace, d, s, event, now))
  {
    hide Governance.Constraints, GovernanceInvariants.Announced, Governance.EligibleUsers, Governance.SubmittedProposals,
         Governance.SnapshotOf;
    OpenedFits(db, workspace, d, s, event, now);
  }

  /** In a reachable state opening commits exactly when its guards pass; in particular its event is never there already. */
  lemma OpeningIsGuarded(cfg: Config, calls: seq<Call>, actor: Id, workspace: Id, d: Id, s: Id, event: Id, now: Time)
    ensures var db := Run(cfg, calls);
      OpenSession(db, actor, workspace, d, s, event, now).Ok? <==> MayOpen(db, actor, workspace, d, s, event, now)
  {
    hide GovernanceRuns.Run, Governance.Constraints, GovernanceInvariants.Locking, GovernanceInvariants.Polling,
         GovernanceInvariants.AllAnchored, GovernanceInvariants.Frozen, GovernanceInvariants.Announced, Governance.OpenSession, MayOpen;
    ReachableIsGood(cfg, calls);
    var db := Run(cfg, calls);
    if MayOpen(db, actor, workspace, d, s, event, now) {
      OpeningCommits(db, actor, workspace, d, s, event, now);
    }
    if OpenSession(db, actor, workspace, d, s, event, now).Ok? {
      OpeningGuards(db, actor, workspace, d, s, event, now);
    }
  }

  lemma OpeningGuards(db: Db, actor: Id, workspace: Id, d: Id, s: Id, event: Id, now: Time)
    requires OpenSession(db, actor, workspace, d, s, event, now).Ok?
    ensures MayOpen(db, actor, workspace, d, s, event, now)
  {
    hide Governance.Constraints;
  }

  ghost predicate MayClose(db: Db, actor: Id, workspace: Id, d: Id, s: Id, event: Id) {
    && (workspace, actor) in db.members && Manages(db.members[(workspace, actor)])
    && d in db.decisions && db.decisions[d].workspace == workspace
    && s in db.sessions && db.sessions[s].decision == d && db.sessions[s].status.Open? && event !in db.outbox
  }

  function Closed(db: Db, s: Id, event: Id, now: Time): Db
    requires s in db.sessions
  {
    Stage(db, event, VotingClosed, s).(
      sessions := db.sessions[s := db.sessions[s].(status := SessionStatus.Closed, closedAt := Some(now))])
  }

  lemma ClosedFits(db: Db, s: Id, event: Id, now: Time)
    requires Constraints(db) && Announced(db.decisions, db.sessions, db.locks, db.outbox)
    requires s in db.sessions && db.sessions[s].status.Open? && event !in db.outbox
    ensures Constraints(Closed(db, s, event, now))
  {
    hide Governance.ForeignKeys, Governance.VotingKeys, Governance.LockKeys, Governance.RevisionKeys;
    var next := Closed(db, s, event, now);
    assert SessionCheck(db.sessions[s]);
    ClosingIsAnnounced(db, s, next.sessions[s], event);
    SessionChangeFits(db, next, s);
  }

  lemma ClosingCommits(db: Db, actor: Id, workspace: Id, d: Id, s: Id, event: Id, now: Time)
    requires Constraints(db) && Announced(db.decisions, db.sessions, db.locks, db.outbox)
    requires MayClose(db, actor, workspace, d, s, event)
    ensures CloseSession(db, actor, workspace, d, s, event, now) == Ok(Closed(db, s, event, now))
  {
    hide Governance.Constraints, GovernanceInvariants.Announced;
    ClosedFits(db, s, event, now);
  }

  lemma ClosingGuards(db: Db, actor: Id, workspace: Id, d: Id, s: Id, event: Id, now: Time)
    requires CloseSession(db, actor, workspace, d, s, event, now).Ok?
    ensures MayClose(db, actor, workspace, d, s, event)
  {
    hide Governance.Constraints;
  }

  /** Closing commits exactly when its guards pass. */
  lemma ClosingIsGuarded(cfg: Config, calls: seq<Call>, actor: Id, workspace: Id, d: Id, s: Id, event: Id, now: Time)
    ensures var db := Run(cfg, calls);
      CloseSession(db, actor, workspace, d, s, event, now).Ok? <==> MayClose(db, actor, workspace, d, s, event)
  {
    hide GovernanceRuns.Run, Governance.Constraints, GovernanceInvariants.Locking, GovernanceInvariants.Polling,
         GovernanceInvariants.AllAnchored, GovernanceInvariants.Frozen, GovernanceInvariants.Announced, Governance.CloseSession, MayClose;
    ReachableIsGood(cfg, calls);
    var db := Run(cfg, calls);
    if MayClose(db, actor, workspace, d, s, event) {
      ClosingCommits(db, actor, workspace, d, s, event, now);
    }
    if CloseSession(db, actor, workspace, d, s, event, now).Ok? {
      ClosingGuards(db, actor, workspace, d, s, event, now);
    }
  }

  // ---------------------------------------------------------------- locks

  /** The winner that a result names beyond doubt. */
  ghost predicate Wins(db: Db, d: Id, result: VotingResult) {
    && result.quorumMet && !result.isTie && result.winner.Some?
    && result.winner.value in db.proposals && db.proposals[result.winner.value].decision == d
    && db.proposals[result.winner.value].status.Submitted?
  }

  /** Every guard of `create` passes. */
  ghost predicate MayLock(cfg: Config, db: Db, actor: Id, workspace: Id, d: Id, s: Id, id: Id, event: Id) {
    && (workspace, actor) in db.members && Manages(db.members[(workspace, actor)])
    && d in db.decisions && db.decisions[d].workspace == workspace && db.decisions[d].status.Active?
    && !OpenBlocking(db, d)
    && s in db.sessions && db.sessions[s].decision == d && db.sessions[s].status.Closed?
    && Wins(db, d, ResultOf(cfg, db, s))
    && id !in db.locks && event !in db.outbox
  }

  /** Every proposal of the tallies is there, so the loop over them finds each one. */
  lemma {:induction false} AlternativesAreFound(db: Db, d: Id, winner: Id, tallies: seq<Tally>, ties: seq<Id>)
    requires forall t <- tallies :: t.proposal in db.proposals && db.proposals[t.proposal].decision == d
    ensures Alternatives(db, d, winner, tallies, ties).Ok?
  {
    hide Governance.AlternativeJson, Governance.ObjectionsOf;
    if tallies != [] {
      assert tallies[0] in tallies;
      AlternativesAreFound(db, d, winner, tallies[1..], ties);
    }
  }

  lemma BallotsBelong(db: Db, s: Id)
    requires Polling(db.decisions, db.proposals, db.sessions, db.voters, db.ballots, db.votes) && s in db.sessions
    ensures forall p <- BallotOf(db, s) :: p in db.proposals && db.proposals[p].decision == db.sessions[s].decision
  {
    forall p | p in BallotOf(db, s) ensures p in db.proposals && db.proposals[p].decision == db.sessions[s].decision {
      assert (s, p) in db.ballots;
    }
  }

  lemma DraftLockIsFound(cfg: Config, db: Db, actor: Id, d: Id, s: Id, now: Time, ties: seq<Id>)
    requires Polling(db.decisions, db.proposals, db.sessions, db.voters, db.ballots, db.votes)
    requires d in db.decisions && s in db.sessions && db.sessions[s].decision == d && Wins(db, d, ResultOf(cfg, db, s))
    ensures Seal(cfg, db, actor, d, db.decisions[d], s, ResultOf(cfg, db, s), now, ties).Ok?
  {
    hide Governance.ResultOf, Governance.SnapshotJson, GovernanceInvariants.Polling, Governance.Alternatives;
    var r := ResultOf(cfg, db, s);
    TalliesAreOfBallot(cfg, db, s);
    BallotsBelong(db, s);
    AlternativesAreFound(db, d, r.winner.value, r.tallies, ties);
  }

  lemma NoLockYet(db: Db, d: Id)
    requires Locking(db.decisions, db.locks) && d in db.decisions && db.decisions[d].status.Active?
    ensures !HasLock(db, d)
  {
  }

  lemma DraftLockIsMade(cfg: Config, db: Db, actor: Id, workspace: Id, d: Id, s: Id, id: Id, event: Id, now: Time, ties: seq<Id>)
    requires Polling(db.decisions, db.proposals, db.sessions, db.voters, db.ballots, db.votes) && Locking(db.decisions, db.locks)
    requires MayLock(cfg, db, actor, workspace, d, s, id, event)
    ensures DraftLock(cfg, db, actor, workspace, d, s, now, ties).Ok?
  {
    hide Governance.ResultOf, GovernanceInvariants.Polling, Governance.Seal, Wins;
    NoLockYet(db, d);
    DraftLockIsFound(cfg, db, actor, d, s, now, ties);
  }

  lemma LockReferences(db: Db, id: Id, k: Lock, event: Id)
    requires ForeignKeys(db) && Anchored(db, k) && id !in db.locks
    ensures ForeignKeys(WithLock(db, id, k, event))
  {
    hide Governance.RevisionReferences;
    SameRevisionReferences(db, WithLock(db, id, k, event));
  }

  lemma NewLockKeys(db: Db, id: Id, k: Lock)
    requires LockKeys(db.locks, db.exports) && AllAnchored(db) && Anchored(db, k) && !HasLock(db, k.decision)
    ensures LockKeys(db.locks[id := k], db.exports)
  {
    forall l | l in db.locks ensures db.locks[l].decision != k.decision && db.locks[l].session != k.session {
      assert Anchored(db, db.locks[l]);
    }
  }

  lemma LockChecks(db: Db, id: Id, k: Lock, event: Id)
    requires Checks(db) && k.decision in db.decisions
    ensures Checks(WithLock(db, id, k, event))
  {
  }

  lemma LockFitsSchema(cfg: Config, db: Db, id: Id, k: Lock, event: Id)
    requires Constraints(db) && Locking(db.decisions, db.locks) && AllAnchored(db)
    requires Announced(db.decisions, db.sessions, db.locks, db.outbox)
    requires Justified(cfg, db, k) && id !in db.locks && event !in db.outbox
    ensures Constraints(WithLock(db, id, k, event))
  {
    hide Governance.ForeignKeys, Governance.Checks, Governance.VotingKeys, Governance.LockKeys, Governance.RevisionKeys,
         Governance.OutboxKeys, GovernanceInvariants.Rebuilds, GovernanceInvariants.AllAnchored, GovernanceInvariants.Announced;
    var next := WithLock(db, id, k, event);
    NoLockYet(db, k.decision);
    LockReferences(db, id, k, event);
    NewLockKeys(db, id, k);
    LockChecks(db, id, k, event);
    LockIsAnnounced(db, k.decision, next.decisions[k.decision], id, k, event);
  }

  lemma LockingCommits(cfg: Config, db: Db, actor: Id, workspace: Id, d: Id, s: Id, id: Id, event: Id, now: Time, ties: seq<Id>)
    requires Good(cfg, db) && MayLock(cfg, db, actor, workspace, d, s, id, event)
    ensures CreateLock(cfg, db, actor, workspace, d, s, id, event, now, ties).Ok?
  {
    hide Governance.Constraints, Governance.DraftLock, GovernanceInvariants.Locking, GovernanceInvariants.Polling,
         GovernanceInvariants.AllAnchored, GovernanceInvariants.Frozen, GovernanceInvariants.Announced, GovernanceSteps.Justified,
         Wins, Governance.ResultOf, Governance.WithLock, GovernanceInvariants.Unblocked;
    DraftLockIsMade(cfg, db, actor, workspace, d, s, id, event, now, ties);
    var k := DraftLock(cfg, db, actor, workspace, d, s, now, ties).value;
    DraftLockIsJustified(cfg, db, actor, workspace, d, s, now, ties, k);
    LockFitsSchema(cfg, db, id, k, event);
  }

  lemma LockingGuards(cfg: Config, db: Db, actor: Id, workspace: Id, d: Id, s: Id, id: Id, event: Id, now: Time, ties: seq<Id>)
    requires CreateLock(cfg, db, actor, workspace, d, s, id, event, now, ties).Ok?
    ensures MayLock(cfg, db, actor, workspace, d, s, id, event)
  {
    hide Governance.Constraints, Governance.ResultOf, Governance.BuildSnapshot;
  }

  /**
    In a reachable state a decision can be locked exactly when a manager asks for it while it is active and unblocked,
    with a closed session of it that has a submitted winner: no guard is needed for the document, whose proposals are all
    there, and no key is ever in the way.
   */
  lemma LockingIsGuarded(cfg: Config, calls: seq<Call>, actor: Id, workspace: Id, d: Id, s: Id, id: Id, event: Id, now: Time,
                         ties: seq<Id>)
    ensures var db := Run(cfg, calls);
      CreateLock(cfg, db, actor, workspace, d, s, id, event, now, ties).Ok? <==> MayLock(cfg, db, actor, workspace, d, s, id, event)
  {
    hide GovernanceRuns.Run, GovernanceRuns.Good, Governance.CreateLock, MayLock;
    ReachableIsGood(cfg, calls);
    var db := Run(cfg, calls);
    if MayLock(cfg, db, actor, workspace, d, s, id, event) {
      LockingCommits(cfg, db, actor, workspace, d, s, id, event, now, ties);
    }
    if CreateLock(cfg, db, actor, workspace, d, s, id, event, now, ties).Ok? {
      LockingGuards(cfg, db, actor, workspace, d, s, id, event, now, ties);
    }
  }

  // ---------------------------------------------------------------- deletions

  predicate OnABallot(db: Db, p: Id) {
    exists b <- db.ballots :: b.1 == p
  }

  function WithoutProposal(db: Db, p: Id): Db {
    db.(proposals := db.proposals - {p}, objections := map o <- db.objections | db.objections[o].proposal != p :: db.objections[o])
  }

  /** What names a proposal restricts its deletion: ballots do, and votes and locks only through a ballot. */
  lemma WithoutProposalReferences(db: Db, p: Id)
    requires ForeignKeys(db) && AllAnchored(db)
    requires Polling(db.decisions, db.proposals, db.sessions, db.voters, db.ballots, db.votes)
    ensures ForeignKeys(WithoutProposal(db, p)) <==> !OnABallot(db, p)
  {
    hide Governance.RevisionReferences, GovernanceInvariants.SessionRows;
    var next := WithoutProposal(db, p);
    if OnABallot(db, p) {
      var b :| b in db.ballots && b.1 == p;
      assert b in next.ballots && b.1 !in next.proposals;
    } else {
      SameRevisionReferences(db, next);
      forall v | v in db.votes ensures db.votes[v].proposal in next.proposals {
        assert (db.votes[v].session, db.votes[v].proposal) in db.ballots;
      }
      forall l | l in db.locks ensures db.locks[l].winner in next.proposals {
        assert Anchored(db, db.locks[l]);
        assert (db.locks[l].session, db.locks[l].winner) in db.ballots;
      }
    }
  }

  lemma WithoutProposalChecks(db: Db, p: Id)
    requires Checks(db)
    ensures Checks(WithoutProposal(db, p))
  {
  }

  lemma ProposalDeletionOutcome(db: Db, actor: Id, workspace: Id, d: Id, p: Id)
    requires Constraints(db) && AllAnchored(db)
    requires Polling(db.decisions, db.proposals, db.sessions, db.voters, db.ballots, db.votes)
    requires EditableProposal(db, actor, workspace, d, p).Ok? && db.proposals[p].status.Draft?
    ensures var a := DeleteProposal(db, actor, workspace, d, p);
      if OnABallot(db, p) then a == Refused(IntegrityRejected) else a.Ok?
  {
    hide Governance.ForeignKeys, Governance.Checks, Governance.VotingKeys, Governance.LockKeys, Governance.RevisionKeys,
         Governance.OutboxKeys, OnABallot, GovernanceInvariants.Polling, GovernanceInvariants.AllAnchored;
    WithoutProposalReferences(db, p);
    WithoutProposalChecks(db, p);
    assert WithoutProposal(db, p).sessions == db.sessions;
  }

  /** In a reachable state a draft proposal that may be edited can be deleted exactly when no ballot ever named it. */
  lemma BallotsKeepProposals(cfg: Config, calls: seq<Call>, actor: Id, workspace: Id, d: Id, p: Id)
    requires EditableProposal(Run(cfg, calls), actor, workspace, d, p).Ok? && Run(cfg, calls).proposals[p].status.Draft?
    ensures var db := Run(cfg, calls); var a := DeleteProposal(db, actor, workspace, d, p);
      && (OnABallot(db, p) <==> a == Refused(IntegrityRejected))
      && (!OnABallot(db, p) <==> a.Ok?)
  {
    hide GovernanceRuns.Run, Governance.Constraints, GovernanceInvariants.AllAnchored, GovernanceInvariants.Polling,
         GovernanceInvariants.Frozen, GovernanceInvariants.Announced, OnABallot, Governance.DeleteProposal, Governance.EditableProposal;
    ReachableIsGood(cfg, calls);
    ProposalDeletionOutcome(Run(cfg, calls), actor, workspace, d, p);
  }

  // ---------------------------------------------------------------- scheduling reviews

  predicate HasScheduledReview(reviews: map<Id, Review>, d: Id) {
    exists r <- reviews :: reviews[r].decision == d && reviews[r].status.Scheduled?
  }

  lemma NewReviewKeys(db: Db, id: Id, review: Review)
    requires RevisionKeys(db.reviews, db.revisions) && id !in db.reviews && review.status.Scheduled?
    ensures RevisionKeys(db.reviews[id := review], db.revisions) <==> !HasScheduledReview(db.reviews, review.decision)
  {
    var next := db.reviews[id := review];
    if r :| r in db.reviews && db.reviews[r].decision == review.decision && db.reviews[r].status.Scheduled? {
      assert next[r].decision == next[id].decision && r != id;
    }
  }

  lemma NewReviewReferences(db: Db, id: Id, review: Review)
    requires ForeignKeys(db) && review.decision in db.decisions && id !in db.reviews
    ensures ForeignKeys(db.(reviews := db.reviews[id := review]))
  {
    var next := db.(reviews := db.reviews[id := review]);
    forall r | r in db.revisions ensures RevisionReferences(next, db.revisions[r]) {
      assert RevisionReferences(db, db.revisions[r]);
    }
  }

  lemma NewReviewChecks(db: Db, id: Id, review: Review)
    requires Checks(db) && ReviewCheck(review)
    ensures Checks(db.(reviews := db.reviews[id := review]))
  {
  }

  lemma SchedulingOutcome(db: Db, actor: Id, workspace: Id, d: Id, id: Id, scheduledFor: Time, now: Time)
    requires Constraints(db) && ReviewContext(db, actor, workspace, d).Ok? && now < scheduledFor && id !in db.reviews
    ensures var a := CreateReview(db, actor, workspace, d, id, scheduledFor, now);
      if HasScheduledReview(db.reviews, d) then a == Refused(ReviewConflict) else a.Ok?
  {
    hide Governance.ForeignKeys, Governance.Checks, Governance.VotingKeys, Governance.LockKeys, Governance.RevisionKeys,
         Governance.OutboxKeys, HasScheduledReview;
    var review := Review(d, actor, scheduledFor, Scheduled, None, None, None);
    NewReviewReferences(db, id, review);
    NewReviewKeys(db, id, review);
    NewReviewChecks(db, id, review);
  }

  /** In a reachable state a review that passes the guards is a conflict exactly when one is already scheduled. */
  lemma OneReviewAtATime(cfg: Config, calls: seq<Call>, actor: Id, workspace: Id, d: Id, id: Id, scheduledFor: Time, now: Time)
    requires ReviewContext(Run(cfg, calls), actor, workspace, d).Ok? && now < scheduledFor && id !in Run(cfg, calls).reviews
    ensures var db := Run(cfg, calls); var a := CreateReview(db, actor, workspace, d, id, scheduledFor, now);
      && (HasScheduledReview(db.reviews, d) <==> a == Refused(ReviewConflict))
      && (!HasScheduledReview(db.reviews, d) <==> a.Ok?)
  {
    hide GovernanceRuns.Run, Governance.Constraints, GovernanceInvariants.Inv, HasScheduledReview, Governance.CreateReview,
         Governance.ReviewContext;
    ReachableIsGood(cfg, calls);
    SchedulingOutcome(Run(cfg, calls), actor, workspace, d, id, scheduledFor, now);
  }
}
