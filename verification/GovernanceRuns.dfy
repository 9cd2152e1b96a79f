/** Runs of governance calls from empty tables, and the invariant of every reachable state. */
module GovernanceRuns {
  import opened Options
  import opened Governance
  import opened GovernanceInvariants
  import opened GovernanceSteps

  // ---------------------------------------------------------------- calls

  datatype DecisionCall =
    | CreateD(id: Id, row: Decision)
    | UpdateD(d: Id, edit: DecisionEdit)
    | TransitionD(d: Id, target: DecisionStatus, event: Id, now: Time)
    | DeleteD(d: Id)

  datatype ProposalCall =
    | CreateP(id: Id, title: string, summary: Option<string>, content: Option<string>)
    | UpdateP(p: Id, edit: ProposalEdit)
    | TransitionP(p: Id, target: ProposalStatus, now: Time)
    | DeleteP(p: Id)

  datatype ObjectionCall =
    | CreateO(id: Id, severity: Severity, title: string, description: string, now: Time)
    | UpdateO(o: Id, edit: ObjectionEdit)
    | TransitionO(o: Id, target: ObjectionStatus, note: string, now: Time)

  datatype VotingCall =
    | CreateS(id: Id, quorum: nat, closesAt: Option<Time>)
    | OpenS(s: Id, event: Id, now: Time)
    | CastS(s: Id, id: Id, p: Id, now: Time)
    | CloseS(s: Id, event: Id, now: Time)
    | CancelS(s: Id, now: Time)

  datatype ReviewCall =
    | CreateR(id: Id, scheduledFor: Time, now: Time)
    | RescheduleR(r: Id, scheduledFor: Time, now: Time)
    | CancelR(r: Id, now: Time)
    | CompleteR(r: Id, outcome: Outcome, ids: NewIds, now: Time)

  /** A request to one of the services; identifiers of new rows and the clock are part of it. */
  datatype Request =
    | OnMember(user: Id, role: Option<Role>)
    | OnDecision(decisionCall: DecisionCall)
    | OnProposal(d: Id, proposalCall: ProposalCall)
    | OnObjection(d: Id, p: Id, objectionCall: ObjectionCall)
    | OnVoting(d: Id, votingCall: VotingCall)
    | OnReview(d: Id, reviewCall: ReviewCall)
    | OnLock(d: Id, s: Id, id: Id, event: Id, now: Time, ties: seq<Id>)
    | OnExport(d: Id, id: Id)

  datatype Call = Call(actor: Id, workspace: Id, request: Request)

  function ApplyDecision(db: Db, a: Id, w: Id, c: DecisionCall): Attempt<Db, Error> {
    match c
    case CreateD(id, row) => CreateDecision(db, a, w, id, row)
    case UpdateD(d, edit) => UpdateDecision(db, a, w, d, edit)
    case TransitionD(d, target, event, now) => TransitionDecision(db, a, w, d, target, event, now)
    case DeleteD(d) => DeleteDecision(db, a, w, d)
  }

  function ApplyProposal(db: Db, a: Id, w: Id, d: Id, c: ProposalCall): Attempt<Db, Error> {
    match c
    case CreateP(id, title, summary, content) => CreateProposal(db, a, w, d, id, title, summary, content)
    case UpdateP(p, edit) => UpdateProposal(db, a, w, d, p, edit)
    case TransitionP(p, target, now) => TransitionProposal(db, a, w, d, p, target, now)
    case DeleteP(p) => DeleteProposal(db, a, w, d, p)
  }

  function ApplyObjection(db: Db, a: Id, w: Id, d: Id, p: Id, c: ObjectionCall): Attempt<Db, Error> {
    match c
    case CreateO(id, severity, title, description, now) => CreateObjection(db, a, w, d, p, id, severity, title, description, now)
    case UpdateO(o, edit) => UpdateObjection(db, a, w, d, p, o, edit)
    case TransitionO(o, target, note, now) => TransitionObjection(db, a, w, d, p, o, target, note, now)
  }

  function ApplyVoting(db: Db, a: Id, w: Id, d: Id, c: VotingCall): Attempt<Db, Error> {
    match c
    case CreateS(id, quorum, closesAt) => CreateSession(db, a, w, d, id, quorum, closesAt)
    case OpenS(s, event, now) => OpenSession(db, a, w, d, s, event, now)
    case CastS(s, id, p, now) => CastVote(db, a, w, d, s, id, p, now)
    case CloseS(s, event, now) => CloseSession(db, a, w, d, s, event, now)
    case CancelS(s, now) => CancelSession(db, a, w, d, s, now)
  }

  function ApplyReview(db: Db, a: Id, w: Id, d: Id, c: ReviewCall): Attempt<Db, Error> {
    match c
    case CreateR(id, scheduledFor, now) => CreateReview(db, a, w, d, id, scheduledFor, now)
    case RescheduleR(r, scheduledFor, now) => RescheduleReview(db, a, w, d, r, scheduledFor, now)
    case CancelR(r, now) => CancelReview(db, a, w, d, r, now)
    case CompleteR(r, outcome, ids, now) => CompleteReview(db, a, w, d, r, outcome, ids, now)
  }

  function Apply(cfg: Config, db: Db, c: Call): Attempt<Db, Error> {
    match c.request
    case OnMember(user, role) => Ok(ChangeMembership(db, c.workspace, user, role))
    case OnDecision(r) => ApplyDecision(db, c.actor, c.workspace, r)
    case OnProposal(d, r) => ApplyProposal(db, c.actor, c.workspace, d, r)
    case OnObjection(d, p, r) => ApplyObjection(db, c.actor, c.workspace, d, p, r)
    case OnVoting(d, r) => ApplyVoting(db, c.actor, c.workspace, d, r)
    case OnReview(d, r) => ApplyReview(db, c.actor, c.workspace, d, r)
    case OnLock(d, s, id, event, now, ties) => CreateLock(cfg, db, c.actor, c.workspace, d, s, id, event, now, ties)
    case OnExport(d, id) => RequestExport(db, c.actor, c.workspace, d, id)
  }

  /** A refused call rolls back. */
  function Next(cfg: Config, db: Db, c: Call): Db {
    match Apply(cfg, db, c)
    case Ok(next) => next
    case Refused(_) => db
  }

  function RunFrom(cfg: Config, db: Db, calls: seq<Call>): Db
    decreases |calls|
  {
    if calls == [] then db else RunFrom(cfg, Next(cfg, db, calls[0]), calls[1..])
  }

  /** The tables after the calls, starting from nothing. */
  function Run(cfg: Config, calls: seq<Call>): Db {
    RunFrom(cfg, EMPTY, calls)
  }

  // ---------------------------------------------------------------- the shape of a call

  datatype Shape =
    | OfDecision(d: Id) | OfRevision(ids: NewIds) | OfGoneDecision(d: Id)
    | OfProposal(p: Id) | OfGoneProposal(p: Id)
    | OfObjection(o: Id)
    | OfSession(s: Id) | OfVote(v: Id)
    | OfLock(l: Id, event: Id)
    | OfSideRows

  function ShapeOf(r: Request): Shape {
    match r
    case OnDecision(CreateD(id, _)) => OfDecision(id)
    case OnDecision(UpdateD(d, _)) => OfDecision(d)
    case OnDecision(TransitionD(d, _, _, _)) => OfDecision(d)
    case OnDecision(DeleteD(d)) => OfGoneDecision(d)
    case OnProposal(_, CreateP(id, _, _, _)) => OfProposal(id)
    case OnProposal(_, UpdateP(p, _)) => OfProposal(p)
    case OnProposal(_, TransitionP(p, _, _)) => OfProposal(p)
    case OnProposal(_, DeleteP(p)) => OfGoneProposal(p)
    case OnObjection(_, _, CreateO(id, _, _, _, _)) => OfObjection(id)
    case OnObjection(_, _, UpdateO(o, _)) => OfObjection(o)
    case OnObjection(_, _, TransitionO(o, _, _, _)) => OfObjection(o)
    case OnVoting(_, CreateS(id, _, _)) => OfSession(id)
    case OnVoting(_, OpenS(s, _, _)) => OfSession(s)
    case OnVoting(_, CastS(_, id, _, _)) => OfVote(id)
    case OnVoting(_, CloseS(s, _, _)) => OfSession(s)
    case OnVoting(_, CancelS(s, _)) => OfSession(s)
    case OnReview(_, CompleteR(_, outcome, ids, _)) => if outcome.outcome.Confirmed? then OfSideRows else OfRevision(ids)
    case OnReview(_, _) => OfSideRows
    case OnLock(_, _, id, event, _, _) => OfLock(id, event)
    case OnMember(_, _) => OfSideRows
    case OnExport(_, _) => OfSideRows
  }

  ghost predicate SessionFits(db: Db, next: Db, s: Id) {
    && SessionStep(db, next, s)
    && Announced(db.decisions, next.sessions, db.locks, next.outbox) && SameActivations(db.outbox, next.outbox)
  }

  ghost predicate LockFits(cfg: Config, db: Db, next: Db, l: Id, event: Id) {
    LockStep(db, next, l, event) && Justified(cfg, db, next.locks[l])
  }

  ghost predicate Fits(cfg: Config, db: Db, next: Db, shape: Shape) {
    match shape
    case OfDecision(d) => DecisionStep(db, next, d) && next.revisions == db.revisions
    case OfRevision(ids) => DecisionStep(db, next, ids.successor) && NewLink(db, next, ids)
    case OfGoneDecision(d) => DecisionGone(db, next, d)
    case OfProposal(p) => ProposalStep(db, next, p)
    case OfGoneProposal(p) => ProposalGone(db, next, p)
    case OfObjection(o) => ObjectionStep(db, next, o)
    case OfSession(s) => SessionFits(db, next, s)
    case OfVote(v) => VoteStep(db, next, v)
    case OfLock(l, event) => LockFits(cfg, db, next, l, event)
    case OfSideRows => SideStep(db, next)
  }

  /** What the calls rely on beyond their own guards. */
  ghost predicate Grounds(db: Db) {
    && Polling(db.decisions, db.proposals, db.sessions, db.voters, db.ballots, db.votes)
    && Announced(db.decisions, db.sessions, db.locks, db.outbox)
    && Exporting(db.locks, db.exports)
    && OutboxKeys(db.outbox)
    && (forall v <- db.voters :: v.0 in db.sessions)
    && (forall s <- db.sessions :: SessionCheck(db.sessions[s]))
  }

  lemma DeleteDecisionStep(db: Db, actor: Id, workspace: Id, d: Id, next: Db)
    requires DeleteDecision(db, actor, workspace, d) == Ok(next)
    requires Grounds(db)
    ensures DecisionGone(db, next, d)
  {
    CascadeStep(db, d);
  }

  lemma CreateSessionFits(db: Db, a: Id, w: Id, d: Id, id: Id, quorum: nat, closesAt: Option<Time>, next: Db)
    requires CreateSession(db, a, w, d, id, quorum, closesAt) == Ok(next) && Grounds(db)
    ensures SessionFits(db, next, id)
  {
    CreateSessionStep(db, a, w, d, id, quorum, closesAt, next);
    CreateSessionAnnounces(db, a, w, d, id, quorum, closesAt, next);
  }

  lemma OpenSessionFits(db: Db, a: Id, w: Id, d: Id, s: Id, event: Id, now: Time, next: Db)
    requires OpenSession(db, a, w, d, s, event, now) == Ok(next) && Grounds(db)
    ensures SessionFits(db, next, s)
  {
    OpenSessionStep(db, a, w, d, s, event, now, next);
    OpenSessionAnnounces(db, a, w, d, s, event, now, next);
  }

  lemma CloseSessionFits(db: Db, a: Id, w: Id, d: Id, s: Id, event: Id, now: Time, next: Db)
    requires CloseSession(db, a, w, d, s, event, now) == Ok(next) && Grounds(db)
    ensures SessionFits(db, next, s)
  {
    CloseSessionStep(db, a, w, d, s, event, now, next);
    CloseSessionAnnounces(db, a, w, d, s, event, now, next);
  }

  lemma CancelSessionFits(db: Db, a: Id, w: Id, d: Id, s: Id, now: Time, next: Db)
    requires CancelSession(db, a, w, d, s, now) == Ok(next) && Grounds(db)
    ensures SessionFits(db, next, s)
  {
    CancelSessionStep(db, a, w, d, s, now, next);
    CancelSessionAnnounces(db, a, w, d, s, now, next);
  }

  lemma CreateLockFits(cfg: Config, db: Db, a: Id, w: Id, d: Id, s: Id, id: Id, event: Id, now: Time, ties: seq<Id>,
                        next: Db)
    requires CreateLock(cfg, db, a, w, d, s, id, event, now, ties) == Ok(next)
    ensures Fits(cfg, db, next, ShapeOf(OnLock(d, s, id, event, now, ties)))
  {
    hide Governance.CreateLock, GovernanceSteps.LockStep, GovernanceSteps.Justified, Governance.DraftLock;
    CreateLockStep(cfg, db, a, w, d, s, id, event, now, ties, next);
    DraftLockIsJustified(cfg, db, a, w, d, s, now, ties, next.locks[id]);
  }

  lemma DecisionCallFits(cfg: Config, db: Db, a: Id, w: Id, c: DecisionCall, next: Db)
    requires ApplyDecision(db, a, w, c) == Ok(next) && Grounds(db)
    ensures Fits(cfg, db, next, ShapeOf(OnDecision(c)))
  {
    hide Governance.CreateDecision, Governance.UpdateDecision, Governance.TransitionDecision, Governance.DeleteDecision,
         Grounds;
    match c
    case CreateD(id, row) => CreateDecisionStep(db, a, w, id, row, next);
    case UpdateD(d, edit) => UpdateDecisionStep(db, a, w, d, edit, next);
    case TransitionD(d, target, event, now) => TransitionDecisionStep(db, a, w, d, target, event, now, next);
    case DeleteD(d) => DeleteDecisionStep(db, a, w, d, next);
  }

  lemma ProposalCallFits(cfg: Config, db: Db, a: Id, w: Id, d: Id, c: ProposalCall, next: Db)
    requires ApplyProposal(db, a, w, d, c) == Ok(next)
    ensures Fits(cfg, db, next, ShapeOf(OnProposal(d, c)))
  {
    hide Governance.CreateProposal, Governance.UpdateProposal, Governance.TransitionProposal, Governance.DeleteProposal;
    match c
    case CreateP(id, title, summary, content) => CreateProposalStep(db, a, w, d, id, title, summary, content, next);
    case UpdateP(p, edit) => UpdateProposalStep(db, a, w, d, p, edit, next);
    case TransitionP(p, target, now) => TransitionProposalStep(db, a, w, d, p, target, now, next);
    case DeleteP(p) => DeleteProposalStep(db, a, w, d, p, next);
  }

  lemma ObjectionCallFits(cfg: Config, db: Db, a: Id, w: Id, d: Id, p: Id, c: ObjectionCall, next: Db)
    requires ApplyObjection(db, a, w, d, p, c) == Ok(next)
    ensures Fits(cfg, db, next, ShapeOf(OnObjection(d, p, c)))
  {
    hide Governance.CreateObjection, Governance.UpdateObjection, Governance.TransitionObjection;
    match c
    case CreateO(id, severity, title, description, now) =>
      CreateObjectionStep(db, a, w, d, p, id, severity, title, description, now, next);
    case UpdateO(o, edit) => UpdateObjectionStep(db, a, w, d, p, o, edit, next);
    case TransitionO(o, target, note, now) => TransitionObjectionStep(db, a, w, d, p, o, target, note, now, next);
  }

  lemma VotingCallFits(cfg: Config, db: Db, a: Id, w: Id, d: Id, c: VotingCall, next: Db)
    requires ApplyVoting(db, a, w, d, c) == Ok(next) && Grounds(db)
    ensures Fits(cfg, db, next, ShapeOf(OnVoting(d, c)))
  {
    hide Governance.CreateSession, Governance.OpenSession, Governance.CastVote, Governance.CloseSession,
         Governance.CancelSession, Grounds;
    match c
    case CreateS(id, quorum, closesAt) => CreateSessionFits(db, a, w, d, id, quorum, closesAt, next);
    case OpenS(s, event, now) => OpenSessionFits(db, a, w, d, s, event, now, next);
    case CastS(s, id, p, now) => CastVoteStep(db, a, w, d, s, id, p, now, next);
    case CloseS(s, event, now) => CloseSessionFits(db, a, w, d, s, event, now, next);
    case CancelS(s, now) => CancelSessionFits(db, a, w, d, s, now, next);
  }

  lemma ReviewCallFits(cfg: Config, db: Db, a: Id, w: Id, d: Id, c: ReviewCall, next: Db)
    requires ApplyReview(db, a, w, d, c) == Ok(next) && Grounds(db)
    ensures Fits(cfg, db, next, ShapeOf(OnReview(d, c)))
  {
    hide Governance.CreateReview, Governance.RescheduleReview, Governance.CancelReview, Governance.CompleteReview;
    match c
    case CreateR(id, scheduledFor, now) => CreateReviewStep(db, a, w, d, id, scheduledFor, now, next);
    case RescheduleR(r, scheduledFor, now) => RescheduleReviewStep(db, a, w, d, r, scheduledFor, now, next);
    case CancelR(r, now) => CancelReviewStep(db, a, w, d, r, now, next);
    case CompleteR(r, outcome, ids, now) => CompleteReviewStep(db, a, w, d, r, outcome, ids, now, next);
  }

  lemma MemberFits(cfg: Config, db: Db, workspace: Id, user: Id, role: Option<Role>)
    requires Grounds(db)
    ensures Fits(cfg, db, ChangeMembership(db, workspace, user, role), ShapeOf(OnMember(user, role)))
  {
  }

  lemma ExportFits(cfg: Config, db: Db, a: Id, w: Id, d: Id, id: Id, next: Db)
    requires RequestExport(db, a, w, d, id) == Ok(next) && Grounds(db)
    ensures Fits(cfg, db, next, ShapeOf(OnExport(d, id)))
  {
    hide Governance.RequestExport;
    RequestExportStep(db, a, w, d, id, next);
  }

  /** Every call that commits has its shape. */
  lemma CallFits(cfg: Config, db: Db, c: Call, next: Db)
    requires Apply(cfg, db, c) == Ok(next) && Grounds(db)
    ensures Fits(cfg, db, next, ShapeOf(c.request))
  {
    hide ApplyDecision, ApplyProposal, ApplyObjection, ApplyVoting, ApplyReview, Governance.CreateLock,
         Governance.RequestExport, Governance.ChangeMembership, Fits, Grounds, ShapeOf;
    match c.request
    case OnMember(user, role) => MemberFits(cfg, db, c.workspace, user, role);
    case OnDecision(r) => DecisionCallFits(cfg, db, c.actor, c.workspace, r, next);
    case OnProposal(d, r) => ProposalCallFits(cfg, db, c.actor, c.workspace, d, r, next);
    case OnObjection(d, p, r) => ObjectionCallFits(cfg, db, c.actor, c.workspace, d, p, r, next);
    case OnVoting(d, r) => VotingCallFits(cfg, db, c.actor, c.workspace, d, r, next);
    case OnReview(d, r) => ReviewCallFits(cfg, db, c.actor, c.workspace, d, r, next);
    case OnLock(d, s, id, event, now, ties) => CreateLockFits(cfg, db, c.actor, c.workspace, d, s, id, event, now, ties, next);
    case OnExport(d, id) => ExportFits(cfg, db, c.actor, c.workspace, d, id, next);
  }

  lemma FitsKeeps(cfg: Config, db: Db, next: Db, shape: Shape)
    requires Inv(cfg, db) && OutboxKeys(db.outbox) && Fits(cfg, db, next, shape)
    ensures Inv(cfg, next)
  {
    hide GovernanceInvariants.Inv, Governance.OutboxKeys, GovernanceSteps.Justified, GovernanceSteps.LockStep,
         GovernanceSteps.DecisionStep, GovernanceSteps.DecisionGone, GovernanceSteps.ProposalStep, GovernanceSteps.ProposalGone,
         GovernanceSteps.ObjectionStep, GovernanceSteps.SessionStep, GovernanceSteps.VoteStep, GovernanceSteps.SideStep,
         GovernanceSteps.NewLink, GovernanceInvariants.Announced;
    match shape
    case OfDecision(d) => DecisionStepKeeps(cfg, db, next, d);
    case OfRevision(ids) => DecisionStepKeeps(cfg, db, next, ids.successor);
    case OfGoneDecision(d) => DecisionGoneKeeps(cfg, db, next, d);
    case OfProposal(p) => ProposalStepKeeps(cfg, db, next, p);
    case OfGoneProposal(p) => ProposalGoneKeeps(cfg, db, next, p);
    case OfObjection(o) => ObjectionStepKeeps(cfg, db, next, o);
    case OfSession(s) => SessionStepKeeps(cfg, db, next, s);
    case OfVote(v) => VoteStepKeeps(cfg, db, next, v);
    case OfLock(l, event) => LockStepKeeps(cfg, db, next, l, event);
    case OfSideRows => SideStepKeeps(cfg, db, next);
  }

  // ---------------------------------------------------------------- reachable states

  /** The invariant of every reachable state. */
  ghost predicate Good(cfg: Config, db: Db) {
    Constraints(db) && Inv(cfg, db)
  }

  lemma GoodGrounds(cfg: Config, db: Db)
    requires Good(cfg, db)
    ensures Grounds(db)
  {
  }

  lemma DecisionCallCommits(db: Db, a: Id, w: Id, c: DecisionCall)
    requires ApplyDecision(db, a, w, c).Ok?
    ensures Constraints(ApplyDecision(db, a, w, c).value)
  {
    hide Governance.Constraints;
  }

  lemma ProposalCallCommits(db: Db, a: Id, w: Id, d: Id, c: ProposalCall)
    requires ApplyProposal(db, a, w, d, c).Ok?
    ensures Constraints(ApplyProposal(db, a, w, d, c).value)
  {
    hide Governance.Constraints;
  }

  lemma ObjectionCallCommits(db: Db, a: Id, w: Id, d: Id, p: Id, c: ObjectionCall)
    requires ApplyObjection(db, a, w, d, p, c).Ok?
    ensures Constraints(ApplyObjection(db, a, w, d, p, c).value)
  {
    hide Governance.Constraints;
  }

  lemma VotingCallCommits(db: Db, a: Id, w: Id, d: Id, c: VotingCall)
    requires ApplyVoting(db, a, w, d, c).Ok?
    ensures Constraints(ApplyVoting(db, a, w, d, c).value)
  {
    hide Governance.Constraints;
  }

  lemma ReviewCallCommits(db: Db, a: Id, w: Id, d: Id, c: ReviewCall)
    requires ApplyReview(db, a, w, d, c).Ok?
    ensures Constraints(ApplyReview(db, a, w, d, c).value)
  {
    hide Governance.Constraints;
  }

  lemma LockCommits(cfg: Config, db: Db, a: Id, w: Id, d: Id, s: Id, id: Id, event: Id, now: Time, ties: seq<Id>)
    requires CreateLock(cfg, db, a, w, d, s, id, event, now, ties).Ok?
    ensures Constraints(CreateLock(cfg, db, a, w, d, s, id, event, now, ties).value)
  {
    hide Governance.Constraints, Governance.DraftLock;
  }

  lemma ExportCommits(db: Db, a: Id, w: Id, d: Id, id: Id)
    requires Constraints(db) && RequestExport(db, a, w, d, id).Ok?
    ensures Constraints(RequestExport(db, a, w, d, id).value)
  {
    hide Governance.Constraints;
  }

  lemma MembersHaveNoKeys(db: Db, members: map<(Id, Id), Role>)
    requires ForeignKeys(db)
    ensures ForeignKeys(db.(members := members))
  {
    var next := db.(members := members);
    assert forall r <- db.revisions :: RevisionReferences(next, db.revisions[r]) == RevisionReferences(db, db.revisions[r]);
  }

  lemma MembersHaveNoChecks(db: Db, members: map<(Id, Id), Role>)
    requires Checks(db)
    ensures Checks(db.(members := members))
  {
  }

  lemma MembershipIsUnconstrained(db: Db, workspace: Id, user: Id, role: Option<Role>)
    requires Constraints(db)
    ensures Constraints(ChangeMembership(db, workspace, user, role))
  {
    hide Governance.ForeignKeys, Governance.Checks, Governance.VotingKeys, Governance.LockKeys, Governance.RevisionKeys,
         Governance.OutboxKeys;
    var next := ChangeMembership(db, workspace, user, role);
    MembersHaveNoKeys(db, next.members);
    MembersHaveNoChecks(db, next.members);
  }

  /** No call leaves the schema's constraints broken: a commit checks them, and the rest leave constrained rows alone. */
  lemma CallCommits(cfg: Config, db: Db, c: Call)
    requires Constraints(db) && Apply(cfg, db, c).Ok?
    ensures Constraints(Apply(cfg, db, c).value)
  {
    hide Governance.Constraints, ApplyDecision, ApplyProposal, ApplyObjection, ApplyVoting, ApplyReview,
         Governance.CreateLock, Governance.RequestExport, Governance.ChangeMembership;
    match c.request
    case OnMember(user, role) => MembershipIsUnconstrained(db, c.workspace, user, role);
    case OnDecision(r) => DecisionCallCommits(db, c.actor, c.workspace, r);
    case OnProposal(d, r) => ProposalCallCommits(db, c.actor, c.workspace, d, r);
    case OnObjection(d, p, r) => ObjectionCallCommits(db, c.actor, c.workspace, d, p, r);
    case OnVoting(d, r) => VotingCallCommits(db, c.actor, c.workspace, d, r);
    case OnReview(d, r) => ReviewCallCommits(db, c.actor, c.workspace, d, r);
    case OnLock(d, s, id, event, now, ties) => LockCommits(cfg, db, c.actor, c.workspace, d, s, id, event, now, ties);
    case OnExport(d, id) => ExportCommits(db, c.actor, c.workspace, d, id);
  }

  /** Every call, refused or not, keeps the invariant. */
  lemma StepIsGood(cfg: Config, db: Db, c: Call)
    requires Good(cfg, db)
    ensures Good(cfg, Next(cfg, db, c))
  {
    if Apply(cfg, db, c).Ok? {
      GoodGrounds(cfg, db);
      AppliedIsGood(cfg, db, c, Apply(cfg, db, c).value);
    }
  }

  lemma AppliedIsGood(cfg: Config, db: Db, c: Call, next: Db)
    requires Good(cfg, db) && Grounds(db) && Apply(cfg, db, c) == Ok(next)
    ensures Good(cfg, next)
  {
    hide Apply, Grounds, Fits, GovernanceInvariants.Inv, Governance.ForeignKeys, Governance.Checks;
    CallFits(cfg, db, c, next);
    FitsKeeps(cfg, db, next, ShapeOf(c.request));
    CallCommits(cfg, db, c);
  }

  lemma EmptySatisfiesConstraints()
    ensures Constraints(EMPTY)
  {
  }

  lemma EmptyKeepsInv(cfg: Config)
    ensures Inv(cfg, EMPTY)
  {
    hide GovernanceInvariants.Rebuilds, GovernanceInvariants.Anchored;
  }

  lemma {:induction false} RunFromIsGood(cfg: Config, db: Db, calls: seq<Call>)
    requires Good(cfg, db)
    ensures Good(cfg, RunFrom(cfg, db, calls))
    decreases |calls|
  {
    hide Good, Next;
    if calls != [] {
      StepIsGood(cfg, db, calls[0]);
      RunFromIsGood(cfg, Next(cfg, db, calls[0]), calls[1..]);
    }
  }

  /** Whatever is called in whatever order, the tables satisfy the invariant. */
  lemma ReachableIsGood(cfg: Config, calls: seq<Call>)
    ensures Good(cfg, Run(cfg, calls))
  {
    hide Next, RunFrom;
    EmptySatisfiesConstraints();
    EmptyKeepsInv(cfg);
    RunFromIsGood(cfg, EMPTY, calls);
  }
}
