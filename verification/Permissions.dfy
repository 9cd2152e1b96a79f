/** What the guards of all calls together mean for those who are not members and for viewers. */
module Permissions {
  import opened Options
  import opened Governance
  import opened GovernanceRuns
  import opened GovernanceGuards
  import opened GovernanceOutcomes

  /**
    Whoever is not a member of a workspace gets the same answer to every call on it, whatever the tables hold: the
    workspace does not exist.
   */
  lemma OutsidersLearnNothing(cfg: Config, db: Db, c: Call)
    requires !c.request.OnMember? && (c.workspace, c.actor) !in db.members
    ensures Apply(cfg, db, c) == Refused(WorkspaceNotFound)
  {
    hide Governance.Constraints, Governance.LockOf, Governance.WithRevision, Governance.DocumentIsOf, Governance.ResultOf,
         Governance.Seal, Governance.EligibleUsers, Governance.SubmittedProposals;
    match c.request
    case OnDecision(r) =>
    case OnProposal(d, r) => OutsidersHaveNoContext(db, c.actor, c.workspace, d);
    case OnObjection(d, _, r) => OutsidersHaveNoContext(db, c.actor, c.workspace, d);
    case OnVoting(d, r) => OutsidersHaveNoContext(db, c.actor, c.workspace, d);
    case OnReview(d, r) => OutsidersHaveNoContext(db, c.actor, c.workspace, d);
    case OnLock(d, _, _, _, _, _) => OutsidersHaveNoContext(db, c.actor, c.workspace, d);
    case OnExport(_, _) =>
  }

  lemma OutsidersHaveNoContext(db: Db, actor: Id, w: Id, d: Id)
    requires (w, actor) !in db.members
    ensures Context(db, actor, w, d) == Refused(WorkspaceNotFound)
  {
  }

  /** The only thing that a viewer can do to the tables is to vote in a session that was opened while the viewer could write. */
  lemma ViewersOnlyVote(cfg: Config, calls: seq<Call>, c: Call)
    requires !c.request.OnMember? && HasRole(Run(cfg, calls), c.workspace, c.actor, {Viewer})
    requires Next(cfg, Run(cfg, calls), c) != Run(cfg, calls)
    ensures c.request.OnVoting? && c.request.votingCall.CastS? && (c.request.votingCall.s, c.actor) in Run(cfg, calls).voters
  {
    hide GovernanceRuns.Run, Apply, Effect, Governance.Constraints;
    CallsCommitExactly(cfg, calls, c);
    ViewersMayOnlyVote(Run(cfg, calls), c);
  }

  lemma ViewersMayOnlyVote(db: Db, c: Call)
    requires !c.request.OnMember? && HasRole(db, c.workspace, c.actor, {Viewer}) && Permitted(db, c)
    ensures c.request.OnVoting? && c.request.votingCall.CastS? && (c.request.votingCall.s, c.actor) in db.voters
  {
    hide Blocked, WinsOutright, IsExported, Unreferenced;
  }

  /** Plain members neither open nor close votes, lock decisions, run reviews nor delete decisions. */
  lemma MembersDoNotManage(cfg: Config, calls: seq<Call>, c: Call)
    requires HasRole(Run(cfg, calls), c.workspace, c.actor, {Member})
    requires c.request.OnLock? || c.request.OnReview? || (c.request.OnVoting? && !c.request.votingCall.CastS?)
          || (c.request.OnDecision? && c.request.decisionCall.DeleteD?)
    ensures Next(cfg, Run(cfg, calls), c) == Run(cfg, calls)
  {
    hide GovernanceRuns.Run, Apply, Effect, Governance.Constraints, Next;
    CallsCommitExactly(cfg, calls, c);
    MembersMayNotManage(Run(cfg, calls), c);
  }

  lemma MembersMayNotManage(db: Db, c: Call)
    requires HasRole(db, c.workspace, c.actor, {Member})
    requires c.request.OnLock? || c.request.OnReview? || (c.request.OnVoting? && !c.request.votingCall.CastS?)
          || (c.request.OnDecision? && c.request.decisionCall.DeleteD?)
    ensures !Permitted(db, c)
  {
    hide Blocked, WinsOutright, IsExported, Unreferenced;
  }
}
