/**
  Why a call is refused: every error is raised only for its own reason.

  `Truthful` states the reason in terms of rows; which of several reasons is reported when more than one holds is left to
  the order of the guards in the calls themselves.
 */
module GovernanceErrors {
  import opened Options
  import opened Governance
  import opened GovernanceInvariants
  import opened GovernanceRuns
  import opened GovernanceGuards
  import opened GovernanceEffects
  import opened GovernanceOutcomes
  import GovernanceSteps
  import GovernanceCommits
  import RevisionConflicts

  // ---------------------------------------------------------------- reasons

  ghost predicate IsHere(db: Db, w: Id, d: Id) {
    d in db.decisions && db.decisions[d].workspace == w
  }

  /** The decision is there, in none of the statuses that the call asks for. */
  ghost predicate HasOtherStatus(db: Db, d: Id, statuses: set<DecisionStatus>) {
    d in db.decisions && db.decisions[d].status !in statuses
  }

  const UNLOCKED: set<DecisionStatus> :=
    {DecisionStatus.Draft, DecisionStatus.Active, DecisionStatus.Closed, DecisionStatus.Archived}

  ghost predicate DecisionReason(db: Db, a: Id, w: Id, c: DecisionCall, e: Error) {
    match e
    case WorkspaceNotFound => !IsInWorkspace(db, w, a)
    case DecisionAccessDenied => !HasRole(db, w, a, if c.DeleteD? then MANAGERS else WRITERS)
    case DecisionNotFound => !c.CreateD? && !IsHere(db, w, c.d)
    case DecisionImmutable =>
      !c.CreateD? && HasOtherStatus(db, c.d, if c.UpdateD? then OPEN_TO_CHANGE else if c.DeleteD? then {DecisionStatus.Draft} else UNLOCKED)
    case DecisionInvalidTransition =>
      || (c.TransitionD? && c.d in db.decisions && !MovesTo(db.decisions[c.d].status, c.target))
      || (c.UpdateD? && c.d in db.decisions
          && !Before(if c.edit.dueAt.Some? then c.edit.dueAt.value else db.decisions[c.d].dueAt,
                     if c.edit.reviewAt.Some? then c.edit.reviewAt.value else db.decisions[c.d].reviewAt))
    case IntegrityRejected =>
      || (c.CreateD? && c.id in db.decisions) || (c.TransitionD? && c.event in db.outbox)
      || (c.DeleteD? && !Unreferenced(db, c.d))
    case _ => false
  }

  ghost predicate ProposalReason(db: Db, a: Id, w: Id, d: Id, c: ProposalCall, e: Error) {
    match e
    case WorkspaceNotFound => !IsInWorkspace(db, w, a)
    case DecisionNotFound => !IsHere(db, w, d)
    case DecisionImmutable => HasOtherStatus(db, d, OPEN_TO_CHANGE)
    case ProposalNotFound => !c.CreateP? && !(c.p in db.proposals && db.proposals[c.p].decision == d)
    case ProposalAccessDenied =>
      if c.CreateP? then !HasRole(db, w, a, WRITERS) else c.p in db.proposals && !MayEdit(db, w, a, db.proposals[c.p].createdBy)
    case ProposalImmutable => (c.UpdateP? || c.DeleteP?) && c.p in db.proposals && !db.proposals[c.p].status.Draft?
    case ProposalInvalidTransition => c.TransitionP? && c.p in db.proposals && !ProposalMovesTo(db.proposals[c.p].status, c.target)
    case IntegrityRejected => (c.CreateP? && c.id in db.proposals) || (c.DeleteP? && exists b <- db.ballots :: b.1 == c.p)
    case _ => false
  }

  ghost predicate ObjectionReason(db: Db, a: Id, w: Id, d: Id, p: Id, c: ObjectionCall, e: Error) {
    match e
    case WorkspaceNotFound => !IsInWorkspace(db, w, a)
    case DecisionNotFound => !IsHere(db, w, d)
    case DecisionImmutable => HasOtherStatus(db, d, OPEN_TO_CHANGE)
    case ProposalNotFound => !(p in db.proposals && db.proposals[p].decision == d)
    case ProposalImmutable => c.CreateO? && p in db.proposals && !db.proposals[p].status.Submitted?
    case ObjectionNotFound => !c.CreateO? && !(c.o in db.objections && db.objections[c.o].proposal == p)
    case ObjectionAccessDenied =>
      if c.CreateO? then !HasRole(db, w, a, WRITERS)
      else
        && c.o in db.objections
        && (!MayEdit(db, w, a, db.objections[c.o].createdBy)
            || (c.TransitionO? && c.target.Dismissed? && !HasRole(db, w, a, MANAGERS)))
    case ObjectionImmutable => c.UpdateO? && c.o in db.objections && !db.objections[c.o].status.Open?
    case ObjectionInvalidTransition =>
      c.TransitionO? && c.o in db.objections && (db.objections[c.o].status.Open? <==> c.target.Open?)
    case IntegrityRejected => c.CreateO? && c.id in db.objections
    case _ => false
  }

  ghost predicate VotingReason(db: Db, a: Id, w: Id, d: Id, c: VotingCall, e: Error) {
    match e
    case WorkspaceNotFound => !IsInWorkspace(db, w, a)
    case DecisionNotFound => !IsHere(db, w, d)
    case DecisionImmutable => (c.CreateS? || c.OpenS?) && HasOtherStatus(db, d, {DecisionStatus.Active})
    case SessionNotFound => !c.CreateS? && !(c.s in db.sessions && db.sessions[c.s].decision == d)
    case VotingAccessDenied => if c.CastS? then (c.s, a) !in db.voters else !HasRole(db, w, a, MANAGERS)
    case VotingInvalidTransition =>
      && !c.CreateS? && c.s in db.sessions
      && db.sessions[c.s].status !in (if c.OpenS? then {SessionStatus.Draft} else if c.CloseS? then {SessionStatus.Open}
                                      else {SessionStatus.Draft, SessionStatus.Open})
    case VotingIsClosed =>
      && (c.OpenS? || c.CastS?) && c.s in db.sessions
      && (IsPast(db.sessions[c.s].closesAt, c.now) || (c.CastS? && !db.sessions[c.s].status.Open?))
    case VotingBlockedByObjections => c.OpenS? && Blocked(db, d)
    case ProposalNotFound => c.CastS? && (c.s, c.p) !in db.ballots
    case VoteAlreadyCast => c.CastS? && (c.id in db.votes || exists v <- db.votes :: db.votes[v].session == c.s && db.votes[v].voter == a)
    case VotingConflict =>
      || (c.CreateS? && (c.id in db.sessions || !(1 <= c.quorum <= 100)
                         || exists s <- db.sessions :: SessionIs(db, d, s, {SessionStatus.Draft, SessionStatus.Open})))
      || (c.OpenS? && (c.event in db.outbox
                       || !exists p: Id, q: Id :: p != q && ProposalIs(db, d, p, {ProposalStatus.Submitted})
                                                    && ProposalIs(db, d, q, {ProposalStatus.Submitted})))
    case IntegrityRejected => c.CloseS? && c.event in db.outbox
    case _ => false
  }

  ghost predicate LockReason(db: Db, a: Id, w: Id, d: Id, s: Id, id: Id, event: Id, e: Error) {
    match e
    case WorkspaceNotFound => !IsInWorkspace(db, w, a)
    case DecisionNotFound => !IsHere(db, w, d)
    case LockAccessDenied => !HasRole(db, w, a, MANAGERS)
    case DecisionImmutable => HasOtherStatus(db, d, {DecisionStatus.Active})
    case LockConflict => id in db.locks || event in db.outbox
    case VotingBlockedByObjections => Blocked(db, d)
    case SessionNotFound => !(s in db.sessions && db.sessions[s].decision == d)
    case VotingResultUnavailable => s in db.sessions && !db.sessions[s].status.Closed?
    case LockInvalidResult => s in db.sessions && !exists p: Id :: WinsOutright(db, s, p) && ProposalIs(db, d, p, {ProposalStatus.Submitted})
    case _ => false
  }

  ghost predicate ExportReason(db: Db, a: Id, w: Id, d: Id, id: Id, e: Error) {
    match e
    case WorkspaceNotFound => !IsInWorkspace(db, w, a)
    case ExportAccessDenied => !HasRole(db, w, a, WRITERS)
    case LockNotFound => !(IsHere(db, w, d) && exists l <- db.locks :: db.locks[l].decision == d)
    case IntegrityRejected => id in db.exports
    case _ => false
  }

  ghost predicate ReviewReason(db: Db, a: Id, w: Id, d: Id, c: ReviewCall, e: Error) {
    match e
    case WorkspaceNotFound => !IsInWorkspace(db, w, a)
    case DecisionNotFound => !IsHere(db, w, d)
    case ReviewAccessDenied => !HasRole(db, w, a, MANAGERS)
    case DecisionImmutable => HasOtherStatus(db, d, {DecisionStatus.Locked})
    case ReviewNotFound => !c.CreateR? && !(c.r in db.reviews && db.reviews[c.r].decision == d)
    case ReviewInvalidSchedule =>
      || ((c.CreateR? || c.RescheduleR?) && c.scheduledFor <= c.now)
      || ((c.RescheduleR? || c.CancelR?) && !ReviewIsScheduled(db, d, c.r))
    case ReviewOutcomeInvalid => c.CompleteR? && !ReviewIsScheduled(db, d, c.r)
    case ReviewNotDue => c.CompleteR? && c.r in db.reviews && c.now < db.reviews[c.r].scheduledFor
    case ReviewConflict =>
      || (c.CreateR? && (c.id in db.reviews || exists r <- db.reviews :: ReviewIsScheduled(db, d, r)))
      || (c.CompleteR? && !c.outcome.outcome.Confirmed?
          && (c.ids.successor in db.decisions || c.ids.revision in db.revisions || HasNext(db, d)))
    case _ => false
  }

  ghost predicate Truthful(db: Db, c: Call, e: Error) {
    match c.request
    case OnMember(_, _) => false
    case OnDecision(r) => DecisionReason(db, c.actor, c.workspace, r, e)
    case OnProposal(d, r) => ProposalReason(db, c.actor, c.workspace, d, r, e)
    case OnObjection(d, p, r) => ObjectionReason(db, c.actor, c.workspace, d, p, r, e)
    case OnVoting(d, r) => VotingReason(db, c.actor, c.workspace, d, r, e)
    case OnReview(d, r) => ReviewReason(db, c.actor, c.workspace, d, r, e)
    case OnLock(d, s, id, event, _, _) => LockReason(db, c.actor, c.workspace, d, s, id, event, e)
    case OnExport(d, id) => ExportReason(db, c.actor, c.workspace, d, id, e)
  }

  // ---------------------------------------------------------------- proofs

  lemma DecisionErrors(db: Db, a: Id, w: Id, c: DecisionCall)
    requires ApplyDecision(db, a, w, c).Refused? && !DecisionPermitted(db, a, w, c)
    ensures DecisionReason(db, a, w, c, ApplyDecision(db, a, w, c).error)
  {
    hide Governance.Constraints, Unreferenced, Governance.CascadeDecision, Governance.AllowedTransitions, MovesTo;
    if c.TransitionD? && c.d in db.decisions {
      MovesAreAllowed(db.decisions[c.d].status, c.target);
    }
  }

  lemma ProposalErrors(db: Db, a: Id, w: Id, d: Id, c: ProposalCall)
    requires ApplyProposal(db, a, w, d, c).Refused? && !ProposalPermitted(db, a, w, d, c)
    ensures ProposalReason(db, a, w, d, c, ApplyProposal(db, a, w, d, c).error)
  {
    hide Governance.Constraints;
    if !c.CreateP? {
      hide Governance.EditableProposal, ProposalEditable;
      EditableIs(db, a, w, d, c.p);
      EditingErrors(db, a, w, d, c.p);
    }
  }

  lemma EditingErrors(db: Db, a: Id, w: Id, d: Id, p: Id)
    ensures var found := EditableProposal(db, a, w, d, p); found.Refused? ==>
      || (found.error == WorkspaceNotFound && !IsInWorkspace(db, w, a)) || (found.error == DecisionNotFound && !IsHere(db, w, d))
      || (found.error == DecisionImmutable && HasOtherStatus(db, d, OPEN_TO_CHANGE))
      || (found.error == ProposalNotFound && !(p in db.proposals && db.proposals[p].decision == d))
      || (found.error == ProposalAccessDenied && p in db.proposals && !MayEdit(db, w, a, db.proposals[p].createdBy))
  {
  }

  lemma ObjectionErrors(db: Db, a: Id, w: Id, d: Id, p: Id, c: ObjectionCall)
    requires ApplyObjection(db, a, w, d, p, c).Refused? && !ObjectionPermitted(db, a, w, d, p, c)
    ensures ObjectionReason(db, a, w, d, p, c, ApplyObjection(db, a, w, d, p, c).error)
  {
    hide Governance.Constraints, Governance.ObjectionContext;
    ObjectionContextErrors(db, a, w, d, p);
  }

  lemma ObjectionContextErrors(db: Db, a: Id, w: Id, d: Id, p: Id)
    ensures var found := ObjectionContext(db, a, w, d, p);
      && (found.Ok? ==> (w, a) in db.members && found.value.0 == db.members[(w, a)] && DecisionIs(db, w, d, OPEN_TO_CHANGE))
      && (found.Refused? ==>
            || (found.error == WorkspaceNotFound && !IsInWorkspace(db, w, a)) || (found.error == DecisionNotFound && !IsHere(db, w, d))
            || (found.error == ProposalNotFound && !(p in db.proposals && db.proposals[p].decision == d))
            || (found.error == DecisionImmutable && HasOtherStatus(db, d, OPEN_TO_CHANGE)))
  {
  }

  lemma CallingErrors(db: Db, a: Id, w: Id, d: Id, id: Id, quorum: nat, closesAt: Option<Time>)
    requires CreateSession(db, a, w, d, id, quorum, closesAt).Refused? && !VotingPermitted(db, a, w, d, CreateS(id, quorum, closesAt))
    ensures VotingReason(db, a, w, d, CreateS(id, quorum, closesAt), CreateSession(db, a, w, d, id, quorum, closesAt).error)
  {
    hide Governance.Constraints;
  }

  lemma OpeningErrors(db: Db, a: Id, w: Id, d: Id, s: Id, event: Id, now: Time)
    requires OpenSession(db, a, w, d, s, event, now).Refused? && !VotingPermitted(db, a, w, d, OpenS(s, event, now))
    ensures VotingReason(db, a, w, d, OpenS(s, event, now), OpenSession(db, a, w, d, s, event, now).error)
  {
    hide Governance.Constraints, Governance.OpenBlocking, Blocked, Governance.EligibleUsers, Governance.SubmittedProposals,
         Governance.SnapshotOf, ProposalIs;
    BlockedIs(db, d);
    TwoSubmitted(db, d);
    ElectorateIs(db, w);
    assert HasRole(db, w, a, MANAGERS) ==> a in EligibleUsers(db, w);
  }

  lemma CastingErrors(db: Db, a: Id, w: Id, d: Id, s: Id, id: Id, p: Id, now: Time)
    requires CastVote(db, a, w, d, s, id, p, now).Refused? && !VotingPermitted(db, a, w, d, CastS(s, id, p, now))
    ensures VotingReason(db, a, w, d, CastS(s, id, p, now), CastVote(db, a, w, d, s, id, p, now).error)
  {
    hide Governance.Constraints;
  }

  lemma ClosingErrors(db: Db, a: Id, w: Id, d: Id, s: Id, event: Id, now: Time)
    requires CloseSession(db, a, w, d, s, event, now).Refused? && !VotingPermitted(db, a, w, d, CloseS(s, event, now))
    ensures VotingReason(db, a, w, d, CloseS(s, event, now), CloseSession(db, a, w, d, s, event, now).error)
  {
    hide Governance.Constraints;
  }

  lemma CancellingErrors(db: Db, a: Id, w: Id, d: Id, s: Id, now: Time)
    requires CancelSession(db, a, w, d, s, now).Refused? && !VotingPermitted(db, a, w, d, CancelS(s, now))
    ensures VotingReason(db, a, w, d, CancelS(s, now), CancelSession(db, a, w, d, s, now).error)
  {
    hide Governance.Constraints;
  }

  lemma VotingErrors(db: Db, a: Id, w: Id, d: Id, c: VotingCall)
    requires ApplyVoting(db, a, w, d, c).Refused? && !VotingPermitted(db, a, w, d, c)
    ensures VotingReason(db, a, w, d, c, ApplyVoting(db, a, w, d, c).error)
  {
    hide Governance.CreateSession, Governance.OpenSession, Governance.CastVote, Governance.CloseSession, Governance.CancelSession,
         VotingPermitted, VotingReason;
    match c
    case CreateS(id, quorum, closesAt) => CallingErrors(db, a, w, d, id, quorum, closesAt);
    case OpenS(s, event, now) => OpeningErrors(db, a, w, d, s, event, now);
    case CastS(s, id, p, now) => CastingErrors(db, a, w, d, s, id, p, now);
    case CloseS(s, event, now) => ClosingErrors(db, a, w, d, s, event, now);
    case CancelS(s, now) => CancellingErrors(db, a, w, d, s, now);
  }

  lemma ReviewContextErrors(db: Db, a: Id, w: Id, d: Id)
    requires ReviewContext(db, a, w, d).Refused?
    ensures var e := ReviewContext(db, a, w, d).error;
      || (e == WorkspaceNotFound && !IsInWorkspace(db, w, a)) || (e == DecisionNotFound && !IsHere(db, w, d))
      || (e == ReviewAccessDenied && !HasRole(db, w, a, MANAGERS))
      || (e == DecisionImmutable && HasOtherStatus(db, d, {DecisionStatus.Locked}))
  {
  }

  lemma SchedulingErrors(db: Db, a: Id, w: Id, d: Id, c: ReviewCall)
    requires !c.CompleteR? && ApplyReview(db, a, w, d, c).Refused? && !ReviewPermitted(db, a, w, d, c)
    ensures ReviewReason(db, a, w, d, c, ApplyReview(db, a, w, d, c).error)
  {
    hide Governance.Constraints, Governance.ReviewContext, Governance.CompleteReview;
    ReviewContextIs(db, a, w, d);
    if ReviewContext(db, a, w, d).Refused? {
      ReviewContextErrors(db, a, w, d);
    }
  }

  lemma CompletingErrors(db: Db, a: Id, w: Id, d: Id, r: Id, o: Outcome, ids: NewIds, now: Time)
    requires CompleteReview(db, a, w, d, r, o, ids, now).Refused? && !ReviewPermitted(db, a, w, d, CompleteR(r, o, ids, now))
    requires d in db.decisions && db.decisions[d].status.Locked? ==> LockOf(db, d).Some?
    ensures ReviewReason(db, a, w, d, CompleteR(r, o, ids, now), CompleteReview(db, a, w, d, r, o, ids, now).error)
  {
    hide Governance.Constraints, Governance.LockOf, Governance.WithRevision, Governance.ReviewContext;
    ReviewContextIs(db, a, w, d);
    if ReviewContext(db, a, w, d).Refused? {
      ReviewContextErrors(db, a, w, d);
    }
  }

  lemma ReviewErrors(cfg: Config, db: Db, a: Id, w: Id, d: Id, c: ReviewCall)
    requires Good(cfg, db) && ApplyReview(db, a, w, d, c).Refused? && !ReviewPermitted(db, a, w, d, c)
    ensures ReviewReason(db, a, w, d, c, ApplyReview(db, a, w, d, c).error)
  {
    if c.CompleteR? {
      LockedHasLock(cfg, db, d);
      hide Good, Governance.CompleteReview, ReviewPermitted, ReviewReason, Governance.LockOf;
      CompletingErrors(db, a, w, d, c.r, c.outcome, c.ids, c.now);
    } else {
      hide Good, ApplyReview, ReviewPermitted, ReviewReason;
      SchedulingErrors(db, a, w, d, c);
    }
  }

  lemma LockedHasLock(cfg: Config, db: Db, d: Id)
    requires Good(cfg, db)
    ensures d in db.decisions && db.decisions[d].status.Locked? ==> LockOf(db, d).Some?
  {
    hide Governance.Constraints, GovernanceInvariants.Frozen, GovernanceInvariants.AllAnchored, GovernanceInvariants.Polling,
         GovernanceInvariants.Announced;
    if d in db.decisions && db.decisions[d].status.Locked? {
      RevisionConflicts.LockedHasLockOf(db, d);
    }
  }

  /** With a closed session the lock row is made, unless the session has no submitted winner. */
  lemma SealErrors(cfg: Config, db: Db, a: Id, d: Id, s: Id, now: Time, ties: seq<Id>)
    requires Good(cfg, db) && d in db.decisions && SessionIs(db, d, s, {SessionStatus.Closed})
    ensures var k := Seal(cfg, db, a, d, db.decisions[d], s, ResultOf(cfg, db, s), now, ties);
      && (k.Refused? ==> k.error == LockInvalidResult)
      && (k.Refused? <==> !exists p: Id :: WinsOutright(db, s, p) && ProposalIs(db, d, p, {ProposalStatus.Submitted}))
  {
    hide Governance.ResultOf, Good, WinsOutright, Governance.BuildSnapshot, Governance.BallotOf;
    var r := ResultOf(cfg, db, s);
    forall p: Id ensures r.winner == Some(p) <==> WinsOutright(db, s, p)
                 ensures r.winner.Some? ==> r.quorumMet && !r.isTie
    {
      WinnerIsOutright(cfg, db, s, p);
    }
    if r.winner.Some? {
      WinnerIsOfDecision(cfg, db, d, s);
      if GovernanceCommits.Wins(db, d, r) {
        SealIsFound(cfg, db, a, d, s, now, ties);
      }
    }
  }

  lemma SealIsFound(cfg: Config, db: Db, a: Id, d: Id, s: Id, now: Time, ties: seq<Id>)
    requires Good(cfg, db) && d in db.decisions && s in db.sessions && db.sessions[s].decision == d
    requires GovernanceCommits.Wins(db, d, ResultOf(cfg, db, s))
    ensures Seal(cfg, db, a, d, db.decisions[d], s, ResultOf(cfg, db, s), now, ties).Ok?
  {
    hide Governance.ResultOf, GovernanceCommits.Wins, Governance.Seal, GovernanceInvariants.Polling, Governance.Constraints;
    GovernanceCommits.DraftLockIsFound(cfg, db, a, d, s, now, ties);
  }

  lemma WinnerIsOfDecision(cfg: Config, db: Db, d: Id, s: Id)
    requires Good(cfg, db) && s in db.sessions && db.sessions[s].decision == d && ResultOf(cfg, db, s).winner.Some?
    ensures var p := ResultOf(cfg, db, s).winner.value; p in db.proposals && db.proposals[p].decision == d
  {
    hide Governance.ResultOf, GovernanceInvariants.Polling, Governance.Constraints, Governance.BallotOf;
    GovernanceSteps.WinnerIsOnBallot(cfg, db, s);
    GovernanceCommits.BallotsBelong(db, s);
  }

  lemma DraftErrors(cfg: Config, db: Db, a: Id, w: Id, d: Id, s: Id, id: Id, event: Id, now: Time, ties: seq<Id>)
    requires Good(cfg, db) && DraftLock(cfg, db, a, w, d, s, now, ties).Refused?
    requires d in db.decisions && db.decisions[d].status.Active? ==> !HasLock(db, d)
    ensures LockReason(db, a, w, d, s, id, event, DraftLock(cfg, db, a, w, d, s, now, ties).error)
  {
    hide Good, Governance.ResultOf, Governance.Seal, Governance.OpenBlocking, Blocked, WinsOutright;
    BlockedIs(db, d);
    if d in db.decisions && SessionIs(db, d, s, {SessionStatus.Closed}) {
      SealErrors(cfg, db, a, d, s, now, ties);
    }
  }

  lemma ActiveHasNoLock(cfg: Config, db: Db, d: Id)
    requires Good(cfg, db) && d in db.decisions && db.decisions[d].status.Active?
    ensures !HasLock(db, d)
  {
    hide Governance.Constraints, GovernanceInvariants.Frozen, GovernanceInvariants.AllAnchored, GovernanceInvariants.Polling,
         GovernanceInvariants.Announced;
    GovernanceCommits.NoLockYet(db, d);
  }

  lemma LockErrors(cfg: Config, db: Db, a: Id, w: Id, d: Id, s: Id, id: Id, event: Id, now: Time, ties: seq<Id>)
    requires Good(cfg, db) && CreateLock(cfg, db, a, w, d, s, id, event, now, ties).Refused? && !LockPermitted(db, a, w, d, s, id, event)
    ensures LockReason(db, a, w, d, s, id, event, CreateLock(cfg, db, a, w, d, s, id, event, now, ties).error)
  {
    hide Good, Governance.DraftLock, LockPermitted, LockReason, Governance.Constraints;
    if d in db.decisions && db.decisions[d].status.Active? {
      ActiveHasNoLock(cfg, db, d);
    }
    if DraftLock(cfg, db, a, w, d, s, now, ties).Refused? {
      DraftErrors(cfg, db, a, w, d, s, id, event, now, ties);
    } else {
      DraftedIsPermitted(cfg, db, a, w, d, s, id, event, now, ties);
    }
  }

  /** Only its identifiers can be in the way of a lock row that was made. */
  lemma DraftedIsPermitted(cfg: Config, db: Db, a: Id, w: Id, d: Id, s: Id, id: Id, event: Id, now: Time, ties: seq<Id>)
    requires Good(cfg, db) && DraftLock(cfg, db, a, w, d, s, now, ties).Ok? && !LockPermitted(db, a, w, d, s, id, event)
    ensures LockReason(db, a, w, d, s, id, event, LockConflict)
  {
    hide Good, Governance.ResultOf, Governance.Seal, Governance.OpenBlocking, Blocked, WinsOutright;
    BlockedIs(db, d);
    SealErrors(cfg, db, a, d, s, now, ties);
  }

  lemma ExportErrors(cfg: Config, db: Db, a: Id, w: Id, d: Id, id: Id)
    requires Good(cfg, db) && RequestExport(db, a, w, d, id).Refused? && !ExportPermitted(db, a, w, d, id)
    ensures ExportReason(db, a, w, d, id, RequestExport(db, a, w, d, id).error)
  {
    hide Governance.Constraints, GovernanceInvariants.Inv, Governance.DocumentIsOf, Governance.LockOf;
    if LockOf(db, d).Some? {
      FoundLock(cfg, db, w, LockOf(db, d).value);
    }
  }

  lemma RefusalIsTruthful(cfg: Config, db: Db, c: Call)
    requires Good(cfg, db) && Apply(cfg, db, c).Refused? && !Permitted(db, c)
    ensures Truthful(db, c, Apply(cfg, db, c).error)
  {
    hide Good, ApplyDecision, ApplyProposal, ApplyObjection, ApplyVoting, ApplyReview, Governance.CreateLock, Governance.RequestExport,
         DecisionPermitted, ProposalPermitted, ObjectionPermitted, VotingPermitted, LockPermitted, ExportPermitted, ReviewPermitted,
         DecisionReason, ProposalReason, ObjectionReason, VotingReason, LockReason, ExportReason, ReviewReason;
    match c.request
    case OnMember(_, _) =>
    case OnDecision(r) => DecisionErrors(db, c.actor, c.workspace, r);
    case OnProposal(d, r) => ProposalErrors(db, c.actor, c.workspace, d, r);
    case OnObjection(d, p, r) => ObjectionErrors(db, c.actor, c.workspace, d, p, r);
    case OnVoting(d, r) => VotingErrors(db, c.actor, c.workspace, d, r);
    case OnReview(d, r) => ReviewErrors(cfg, db, c.actor, c.workspace, d, r);
    case OnLock(d, s, id, event, now, ties) => LockErrors(cfg, db, c.actor, c.workspace, d, s, id, event, now, ties);
    case OnExport(d, id) => ExportErrors(cfg, db, c.actor, c.workspace, d, id);
  }

  /** In every reachable state a refused call names a reason that holds. */
  lemma RefusalsAreTruthful(cfg: Config, calls: seq<Call>, c: Call)
    requires Apply(cfg, Run(cfg, calls), c).Refused?
    ensures Truthful(Run(cfg, calls), c, Apply(cfg, Run(cfg, calls), c).error)
  {
    hide GovernanceRuns.Run, Good, Apply, Permitted, Effect, Truthful;
    ReachableIsGood(cfg, calls);
    CallsCommitExactly(cfg, calls, c);
    RefusalIsTruthful(cfg, Run(cfg, calls), c);
  }
}
