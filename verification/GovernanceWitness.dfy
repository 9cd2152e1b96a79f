/**
  One run of calls that leads to a lock and then to a revision, so that what is proved of locks and of revisions in every
  reachable state is about states that are reached.  It needs nothing of the digest or the rounding rule.
 */
module GovernanceWitness {
  import opened Options
  import opened Ordering
  import opened VotingMath
  import opened Governance
  import opened GovernanceInvariants
  import opened GovernanceRuns
  import opened GovernanceCommits
  import opened RevisionChains
  import opened RevisionConflicts
  import LockDocuments

  // ---------------------------------------------------------------- the calls

  const ACTOR: Id := 1
  const WORKSPACE: Id := 1
  const DECISION: Id := 1
  const SESSION: Id := 1
  const WINNER: Id := 1
  const OTHER: Id := 2
  const SUCCESSOR: Id := 2

  const DRAFT := NewDecision(WORKSPACE, ACTOR, "", None, Technology, None, None)

  function By(request: Request): Call {
    Call(ACTOR, WORKSPACE, request)
  }

  const JOIN := By(OnMember(ACTOR, Some(Owner)))
  const CREATE := By(OnDecision(CreateD(DECISION, DRAFT)))
  const PROPOSE := By(OnProposal(DECISION, CreateP(WINNER, "", None, None)))
  const PROPOSE_OTHER := By(OnProposal(DECISION, CreateP(OTHER, "", None, None)))
  const SUBMIT := By(OnProposal(DECISION, TransitionP(WINNER, ProposalStatus.Submitted, 0)))
  const SUBMIT_OTHER := By(OnProposal(DECISION, TransitionP(OTHER, ProposalStatus.Submitted, 0)))
  const ACTIVATE := By(OnDecision(TransitionD(DECISION, DecisionStatus.Active, 1, 0)))
  const CALL_VOTE := By(OnVoting(DECISION, CreateS(SESSION, 50, None)))
  const OPEN := By(OnVoting(DECISION, OpenS(SESSION, 2, 0)))
  const CAST := By(OnVoting(DECISION, CastS(SESSION, 1, WINNER, 0)))
  const CLOSE := By(OnVoting(DECISION, CloseS(SESSION, 3, 0)))
  const LOCK := By(OnLock(DECISION, SESSION, 1, 4, 0, []))
  const REVIEW := By(OnReview(DECISION, CreateR(1, 10, 5)))
  const SUPERSEDE := By(OnReview(DECISION, CompleteR(1, Outcome(Superseded, None, None, None), NewIds(SUCCESSOR, 1), 10)))

  const FOUNDATION := [JOIN] + [CREATE]
  const PROPOSALS := FOUNDATION + [PROPOSE] + [PROPOSE_OTHER]
  const SUBMISSIONS := PROPOSALS + [SUBMIT] + [SUBMIT_OTHER]
  const PREPARATION := SUBMISSIONS + [ACTIVATE]
  const ELECTION := PREPARATION + [CALL_VOTE] + [OPEN] + [CAST] + [CLOSE]
  const TO_LOCK := ELECTION + [LOCK]
  const TO_REVISION := TO_LOCK + [REVIEW] + [SUPERSEDE]

  // ---------------------------------------------------------------- the tables on the way

  function Candidate(status: ProposalStatus): Proposal {
    Proposal(DECISION, ACTOR, "", None, None, status, if status.Submitted? then Some(0) else None, None)
  }

  /** The tables before the election. */
  function Early(status: DecisionStatus, proposals: map<Id, Proposal>, outbox: map<Id, OutboxRow>): Db {
    EMPTY.(members := map[(WORKSPACE, ACTOR) := Owner], decisions := map[DECISION := DRAFT.(status := status)],
           proposals := proposals, outbox := outbox)
  }

  const DRAFTS := map[WINNER := Candidate(ProposalStatus.Draft), OTHER := Candidate(ProposalStatus.Draft)]
  const BOTH := map[WINNER := Candidate(ProposalStatus.Submitted), OTHER := Candidate(ProposalStatus.Submitted)]
  const ACTIVATED := OutboxRow(DecisionActivated, DECISION)

  const PREPARED := Early(DecisionStatus.Active, BOTH, map[1 := ACTIVATED])

  lemma EarlyFits(status: DecisionStatus, proposals: map<Id, Proposal>, outbox: map<Id, OutboxRow>)
    requires !status.Locked? && (forall p <- proposals :: proposals[p].decision == DECISION) && OutboxKeys(outbox)
    ensures Constraints(Early(status, proposals, outbox))
  {
  }

  /** One more call of a run. */
  lemma Extend(cfg: Config, calls: seq<Call>, c: Call, next: Db)
    requires Apply(cfg, Run(cfg, calls), c) == Ok(next)
    ensures Run(cfg, calls + [c]) == next
  {
    hide Apply;
    LockDocuments.RunAppends(cfg, EMPTY, calls, [c]);
    var db := Run(cfg, calls);
    assert RunFrom(cfg, db, [c]) == RunFrom(cfg, Next(cfg, db, c), []);
  }

  lemma Proposing(cfg: Config, proposals: map<Id, Proposal>, p: Id)
    requires p !in proposals && forall q <- proposals :: proposals[q].decision == DECISION
    ensures Apply(cfg, Early(DecisionStatus.Draft, proposals, map[]), By(OnProposal(DECISION, CreateP(p, "", None, None))))
         == Ok(Early(DecisionStatus.Draft, proposals[p := Candidate(ProposalStatus.Draft)], map[]))
  {
    hide Governance.Constraints;
    EarlyFits(DecisionStatus.Draft, proposals[p := Candidate(ProposalStatus.Draft)], map[]);
  }

  lemma Submitting(cfg: Config, proposals: map<Id, Proposal>, p: Id)
    requires p in proposals && proposals[p] == Candidate(ProposalStatus.Draft)
    requires forall q <- proposals :: proposals[q].decision == DECISION
    ensures Apply(cfg, Early(DecisionStatus.Draft, proposals, map[]), By(OnProposal(DECISION, TransitionP(p, ProposalStatus.Submitted, 0))))
         == Ok(Early(DecisionStatus.Draft, proposals[p := Candidate(ProposalStatus.Submitted)], map[]))
  {
    hide Governance.Constraints;
    EarlyFits(DecisionStatus.Draft, proposals[p := Candidate(ProposalStatus.Submitted)], map[]);
  }

  lemma Founding(cfg: Config)
    ensures Run(cfg, FOUNDATION) == Early(DecisionStatus.Draft, map[], map[])
  {
    hide Governance.Constraints;
    EarlyFits(DecisionStatus.Draft, map[], map[]);
    var joined := EMPTY.(members := map[(WORKSPACE, ACTOR) := Owner]);
    assert [] + [JOIN] == [JOIN];
    Extend(cfg, [], JOIN, joined);
    Extend(cfg, [JOIN], CREATE, Early(DecisionStatus.Draft, map[], map[]));
  }

  lemma Proposes(cfg: Config)
    ensures Run(cfg, PROPOSALS) == Early(DecisionStatus.Draft, DRAFTS, map[])
  {
    hide Apply, RunFrom, Early;
    Founding(cfg);
    Proposing(cfg, map[], WINNER);
    Extend(cfg, FOUNDATION, PROPOSE, Early(DecisionStatus.Draft, map[WINNER := Candidate(ProposalStatus.Draft)], map[]));
    Proposing(cfg, map[WINNER := Candidate(ProposalStatus.Draft)], OTHER);
    Extend(cfg, FOUNDATION + [PROPOSE], PROPOSE_OTHER, Early(DecisionStatus.Draft, DRAFTS, map[]));
  }

  lemma Submits(cfg: Config)
    ensures Run(cfg, SUBMISSIONS) == Early(DecisionStatus.Draft, BOTH, map[])
  {
    hide Apply, RunFrom, Early;
    Proposes(cfg);
    Submitting(cfg, DRAFTS, WINNER);
    Extend(cfg, PROPOSALS, SUBMIT, Early(DecisionStatus.Draft, DRAFTS[WINNER := Candidate(ProposalStatus.Submitted)], map[]));
    Submitting(cfg, DRAFTS[WINNER := Candidate(ProposalStatus.Submitted)], OTHER);
    assert DRAFTS[WINNER := Candidate(ProposalStatus.Submitted)][OTHER := Candidate(ProposalStatus.Submitted)] == BOTH;
    Extend(cfg, PROPOSALS + [SUBMIT], SUBMIT_OTHER, Early(DecisionStatus.Draft, BOTH, map[]));
  }

  lemma Activating(cfg: Config)
    ensures Apply(cfg, Early(DecisionStatus.Draft, BOTH, map[]), ACTIVATE) == Ok(PREPARED)
  {
    hide Governance.Constraints;
    var db := Early(DecisionStatus.Draft, BOTH, map[]);
    var next := Moved(db, DECISION, DRAFT, DecisionStatus.Active, 1, 0);
    assert next.decisions == PREPARED.decisions && next.outbox == PREPARED.outbox;
    EarlyFits(DecisionStatus.Active, BOTH, map[1 := ACTIVATED]);
    assert TransitionDecision(db, ACTOR, WORKSPACE, DECISION, DecisionStatus.Active, 1, 0) == Ok(PREPARED);
  }

  lemma Prepares(cfg: Config)
    ensures Run(cfg, PREPARATION) == PREPARED
  {
    hide Apply, RunFrom, Early;
    Submits(cfg);
    Activating(cfg);
    Extend(cfg, SUBMISSIONS, ACTIVATE, PREPARED);
  }

  // ---------------------------------------------------------------- the election

  const CALLED := Session(DECISION, ACTOR, SessionStatus.Draft, 50, 0, None, None, None, None)
  const OPENED := Session(DECISION, ACTOR, SessionStatus.Open, 50, 1, Some(0), None, None, None)
  const ENDED := Session(DECISION, ACTOR, SessionStatus.Closed, 50, 1, Some(0), None, Some(0), None)
  const BALLOT := Vote(SESSION, ACTOR, WINNER)

  const AFTER_CALL := PREPARED.(sessions := map[SESSION := CALLED])
  const AFTER_OPEN := PREPARED.(
    sessions := map[SESSION := OPENED], voters := {(SESSION, ACTOR)}, ballots := {(SESSION, WINNER), (SESSION, OTHER)},
    outbox := map[1 := ACTIVATED, 2 := OutboxRow(VotingOpened, SESSION)])
  const AFTER_CAST := AFTER_OPEN.(votes := map[1 := BALLOT])
  const AFTER_CLOSE := AFTER_CAST.(
    sessions := map[SESSION := ENDED],
    outbox := map[1 := ACTIVATED, 2 := OutboxRow(VotingOpened, SESSION), 3 := OutboxRow(VotingClosed, SESSION)])

  lemma Calling(cfg: Config)
    ensures Apply(cfg, PREPARED, CALL_VOTE) == Ok(AFTER_CALL)
  {
    hide Governance.Constraints, Governance.CreateSession;
    EarlyFits(DecisionStatus.Active, BOTH, map[1 := ACTIVATED]);
    CallingCommits(PREPARED, ACTOR, WORKSPACE, DECISION, SESSION, 50, None);
  }

  lemma OpeningRows()
    ensures EligibleUsers(AFTER_CALL, WORKSPACE) == {ACTOR}
    ensures SubmittedProposals(AFTER_CALL, DECISION) == {WINNER, OTHER}
    ensures !OpenBlocking(AFTER_CALL, DECISION)
  {
    assert EligibleUsers(AFTER_CALL, WORKSPACE) == {ACTOR};
    assert SubmittedProposals(AFTER_CALL, DECISION) == {WINNER, OTHER};
  }

  lemma OpeningState()
    ensures Opened(AFTER_CALL, WORKSPACE, DECISION, SESSION, 2, 0) == AFTER_OPEN
    ensures |SubmittedProposals(AFTER_CALL, DECISION)| == 2 && EligibleUsers(AFTER_CALL, WORKSPACE) != {}
    ensures !OpenBlocking(AFTER_CALL, DECISION)
  {
    hide Governance.EligibleUsers, Governance.SubmittedProposals, Governance.OpenBlocking;
    OpeningRows();
    assert SnapshotOf(SESSION, {ACTOR}) == {(SESSION, ACTOR)};
    assert SnapshotOf(SESSION, {WINNER, OTHER}) == {(SESSION, WINNER), (SESSION, OTHER)};
    var next := Opened(AFTER_CALL, WORKSPACE, DECISION, SESSION, 2, 0);
    assert next.outbox == AFTER_OPEN.outbox && next.sessions == AFTER_OPEN.sessions;
  }

  lemma Opening(cfg: Config)
    requires Good(cfg, AFTER_CALL)
    ensures Apply(cfg, AFTER_CALL, OPEN) == Ok(AFTER_OPEN)
  {
    hide Governance.Constraints, Governance.OpenSession, GovernanceInvariants.Announced, GovernanceInvariants.Polling,
         GovernanceInvariants.Locking, GovernanceInvariants.AllAnchored, GovernanceInvariants.Frozen, Opened,
         Governance.EligibleUsers, Governance.SubmittedProposals, Governance.OpenBlocking;
    OpeningState();
    OpeningCommits(AFTER_CALL, ACTOR, WORKSPACE, DECISION, SESSION, 2, 0);
  }

  lemma Casting(cfg: Config)
    requires Good(cfg, AFTER_OPEN)
    ensures Apply(cfg, AFTER_OPEN, CAST) == Ok(AFTER_CAST)
  {
    hide Governance.Constraints, GovernanceInvariants.Inv;
    VoteOutcome(AFTER_OPEN, ACTOR, WORKSPACE, DECISION, SESSION, 1, WINNER, 0);
  }

  lemma Closing(cfg: Config)
    requires Good(cfg, AFTER_CAST)
    ensures Apply(cfg, AFTER_CAST, CLOSE) == Ok(AFTER_CLOSE)
  {
    hide Governance.Constraints, Governance.CloseSession, GovernanceInvariants.Announced, GovernanceInvariants.Polling,
         GovernanceInvariants.Locking, GovernanceInvariants.AllAnchored, GovernanceInvariants.Frozen;
    ClosingCommits(AFTER_CAST, ACTOR, WORKSPACE, DECISION, SESSION, 3, 0);
    var next := GovernanceCommits.Closed(AFTER_CAST, SESSION, 3, 0);
    assert next.outbox == AFTER_CLOSE.outbox && next.sessions == AFTER_CLOSE.sessions;
  }

  lemma Opens(cfg: Config)
    ensures Run(cfg, PREPARATION + [CALL_VOTE] + [OPEN]) == AFTER_OPEN
  {
    hide Apply, RunFrom, Good;
    Prepares(cfg);
    Calling(cfg);
    Extend(cfg, PREPARATION, CALL_VOTE, AFTER_CALL);
    ReachableIsGood(cfg, PREPARATION + [CALL_VOTE]);
    Opening(cfg);
    Extend(cfg, PREPARATION + [CALL_VOTE], OPEN, AFTER_OPEN);
  }

  lemma Elects(cfg: Config)
    ensures Run(cfg, ELECTION) == AFTER_CLOSE
  {
    hide Apply, RunFrom, Good;
    var calls := PREPARATION + [CALL_VOTE] + [OPEN];
    Opens(cfg);
    ReachableIsGood(cfg, calls);
    Casting(cfg);
    Extend(cfg, calls, CAST, AFTER_CAST);
    ReachableIsGood(cfg, calls + [CAST]);
    Closing(cfg);
    Extend(cfg, calls + [CAST], CLOSE, AFTER_CLOSE);
  }

  lemma ListOfTwo(list: seq<Id>)
    requires Lists(list, {WINNER, OTHER}) && forall i, j :: 0 <= i < j < |list| ==> list[i] < list[j]
    ensures list == [WINNER, OTHER]
  {
  }

  /** One vote for the first of two options decides for it. */
  lemma OneVoteWins(round: Rounding)
    ensures var r := Evaluate(round, SESSION, 1, 50, [Count(WINNER, 1), Count(OTHER, 0)], 1);
      r.quorumMet && !r.isTie && r.winner == Some(WINNER)
  {
    var counts := [Count(WINNER, 1), Count(OTHER, 0)];
    var r := Evaluate(round, SESSION, 1, 50, counts, 1);
    assert counts[1..] == [Count(OTHER, 0)];
    assert SumVotes(counts) == 1 + SumVotes([Count(OTHER, 0)]) == 1;
    assert r.tallies[0].votes == 1 && r.tallies[1].votes == 0 && r.tallies[0].proposal == WINNER;
    assert StrictlyLeads(r.tallies, WINNER);
    ExactlyOneOutcome(round, SESSION, 1, 50, counts);
  }

  lemma ElectionCounts()
    ensures VotesOf(AFTER_CLOSE, SESSION) == map[1 := BALLOT]
    ensures CountsFor(map[1 := BALLOT], Ascending(BallotOf(AFTER_CLOSE, SESSION))) == [Count(WINNER, 1), Count(OTHER, 0)]
  {
    hide Governance.CountsFor;
    assert BallotOf(AFTER_CLOSE, SESSION) == {WINNER, OTHER};
    ListOfTwo(Ascending({WINNER, OTHER}));
    TwoCounts(map[1 := BALLOT]);
  }

  lemma TwoCounts(votes: map<Id, Vote>)
    requires VotesFor(votes, WINNER) == {1} && VotesFor(votes, OTHER) == {}
    ensures CountsFor(votes, [WINNER, OTHER]) == [Count(WINNER, 1), Count(OTHER, 0)]
  {
    assert [WINNER, OTHER][1..] == [OTHER];
    assert CountsFor(votes, [OTHER]) == [Count(OTHER, 0)];
  }

  lemma WinnerIsFound(cfg: Config)
    ensures Wins(AFTER_CLOSE, DECISION, ResultOf(cfg, AFTER_CLOSE, SESSION))
  {
    hide VotingMath.Evaluate, Governance.CountsFor, Governance.VotesOf, Governance.BallotOf;
    ElectionCounts();
    OneVoteWins(cfg.round);
  }

  // ---------------------------------------------------------------- lock and revision

  /** The decision of the run is locked and has had no review yet. */
  ghost predicate JustLocked(db: Db) {
    && db.members == map[(WORKSPACE, ACTOR) := Owner]
    && DECISION in db.decisions && db.decisions[DECISION].workspace == WORKSPACE && db.decisions[DECISION].status.Locked?
    && SUCCESSOR !in db.decisions && db.reviews == map[] && db.revisions == map[]
    && 1 in db.locks && db.locks[1].decision == DECISION && db.locks[1].session == SESSION
  }

  lemma Locks(cfg: Config)
    requires Good(cfg, AFTER_CLOSE)
    ensures var a := Apply(cfg, AFTER_CLOSE, LOCK); a.Ok? && JustLocked(a.value)
  {
    hide Governance.Constraints, Governance.DraftLock, GovernanceInvariants.Inv, Governance.ResultOf, Wins;
    WinnerIsFound(cfg);
    LockingCommits(cfg, AFTER_CLOSE, ACTOR, WORKSPACE, DECISION, SESSION, 1, 4, 0, []);
  }

  /** A lock is reached. */
  lemma LocksAreReached(cfg: Config)
    ensures JustLocked(Run(cfg, TO_LOCK))
  {
    hide Apply, RunFrom, Good, JustLocked;
    Elects(cfg);
    ReachableIsGood(cfg, ELECTION);
    Locks(cfg);
    Extend(cfg, ELECTION, LOCK, Apply(cfg, AFTER_CLOSE, LOCK).value);
  }

  /** The decision of the run has a review that is due. */
  ghost predicate UnderReview(db: Db) {
    && db.members == map[(WORKSPACE, ACTOR) := Owner]
    && DECISION in db.decisions && db.decisions[DECISION].workspace == WORKSPACE && db.decisions[DECISION].status.Locked?
    && SUCCESSOR !in db.decisions && db.revisions == map[]
    && 1 in db.reviews && db.reviews[1].decision == DECISION && db.reviews[1].status.Scheduled? && db.reviews[1].scheduledFor == 10
  }

  lemma Reviews(cfg: Config, db: Db)
    requires Constraints(db) && JustLocked(db)
    ensures var a := Apply(cfg, db, REVIEW); a.Ok? && UnderReview(a.value)
  {
    hide Governance.Constraints;
    SchedulingOutcome(db, ACTOR, WORKSPACE, DECISION, 1, 10, 5);
  }

  /** The successor of the run continues its decision as revision 1. */
  ghost predicate Revised(db: Db) {
    && SUCCESSOR in db.decisions && 1 in db.revisions && db.revisions[1].number == 1
    && db.revisions[1].root == db.revisions[1].predecessor == DECISION && db.revisions[1].successor == SUCCESSOR
  }

  lemma Supersedes(cfg: Config, db: Db)
    requires Constraints(db) && UnderReview(db) && Locking(db.decisions, db.locks) && Evidenced(db)
    ensures var a := Apply(cfg, db, SUPERSEDE); a.Ok? && Revised(a.value)
  {
    hide Governance.Constraints, Governance.LockOf, RevisionChains.Evidenced, GovernanceInvariants.Locking;
    CompletionOutcome(cfg, db, ACTOR, WORKSPACE, DECISION, 1, Outcome(Superseded, None, None, None), NewIds(SUCCESSOR, 1), 10);
  }

  /** A revision is reached. */
  lemma RevisionsAreReached(cfg: Config)
    ensures Revised(Run(cfg, TO_REVISION))
  {
    hide Apply, RunFrom, JustLocked, Governance.Constraints, UnderReview, Revised, Evidenced, GovernanceInvariants.Locking,
         GovernanceInvariants.AllAnchored, GovernanceInvariants.Frozen, GovernanceInvariants.Announced, GovernanceInvariants.Polling;
    var locked := Run(cfg, TO_LOCK);
    LocksAreReached(cfg);
    ReachableIsGood(cfg, TO_LOCK);
    Reviews(cfg, locked);
    var reviewed := Apply(cfg, locked, REVIEW).value;
    Extend(cfg, TO_LOCK, REVIEW, reviewed);
    ReachableIsGood(cfg, TO_LOCK + [REVIEW]);
    ReachableIsChained(cfg, TO_LOCK + [REVIEW]);
    Supersedes(cfg, reviewed);
    Extend(cfg, TO_LOCK + [REVIEW], SUPERSEDE, Apply(cfg, reviewed, SUPERSEDE).value);
  }
}
