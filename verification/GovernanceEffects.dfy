/** Calls on decisions, proposals and objections commit exactly when they are permitted, and then have their effect. */
module GovernanceEffects {
  import opened Options
  import opened Governance
  import opened GovernanceInvariants
  import opened GovernanceSteps
  import opened GovernanceRuns
  import opened GovernanceGuards
  import opened GovernanceCommits

  // ---------------------------------------------------------------- one changed row and the schema

  lemma DecisionRowReferences(db: Db, d: Id, row: Decision, outbox: map<Id, OutboxRow>)
    requires ForeignKeys(db)
    ensures ForeignKeys(db.(decisions := db.decisions[d := row], outbox := outbox))
  {
    hide Governance.RevisionReferences;
    SameRevisionReferences(db, db.(decisions := db.decisions[d := row], outbox := outbox));
  }

  lemma DecisionRowChecks(db: Db, d: Id, row: Decision, outbox: map<Id, OutboxRow>)
    requires Checks(db) && (row.status.Locked? <==> row.lockedAt.Some?)
    ensures Checks(db.(decisions := db.decisions[d := row], outbox := outbox))
  {
  }

  lemma DecisionRowFits(db: Db, d: Id, row: Decision, outbox: map<Id, OutboxRow>)
    requires Constraints(db) && OutboxKeys(outbox) && (row.status.Locked? <==> row.lockedAt.Some?)
    ensures Constraints(db.(decisions := db.decisions[d := row], outbox := outbox))
  {
    hide Governance.ForeignKeys, Governance.Checks, Governance.VotingKeys, Governance.LockKeys, Governance.RevisionKeys,
         Governance.OutboxKeys;
    DecisionRowReferences(db, d, row, outbox);
    DecisionRowChecks(db, d, row, outbox);
  }

  lemma ProposalRowReferences(db: Db, p: Id, row: Proposal)
    requires ForeignKeys(db) && row.decision in db.decisions
    ensures ForeignKeys(db.(proposals := db.proposals[p := row]))
  {
    hide Governance.RevisionReferences;
    SameRevisionReferences(db, db.(proposals := db.proposals[p := row]));
  }

  lemma ProposalRowChecks(db: Db, p: Id, row: Proposal)
    requires Checks(db)
    ensures Checks(db.(proposals := db.proposals[p := row]))
  {
  }

  lemma ProposalRowFits(db: Db, p: Id, row: Proposal)
    requires Constraints(db) && row.decision in db.decisions
    ensures Constraints(db.(proposals := db.proposals[p := row]))
  {
    hide Governance.ForeignKeys, Governance.Checks, Governance.VotingKeys, Governance.LockKeys, Governance.RevisionKeys,
         Governance.OutboxKeys;
    ProposalRowReferences(db, p, row);
    ProposalRowChecks(db, p, row);
  }

  lemma ObjectionRowReferences(db: Db, o: Id, row: Objection)
    requires ForeignKeys(db) && row.proposal in db.proposals
    ensures ForeignKeys(db.(objections := db.objections[o := row]))
  {
    hide Governance.RevisionReferences;
    SameRevisionReferences(db, db.(objections := db.objections[o := row]));
  }

  lemma ObjectionRowChecks(db: Db, o: Id, row: Objection)
    requires Checks(db) && ObjectionCheck(row)
    ensures Checks(db.(objections := db.objections[o := row]))
  {
  }

  lemma ObjectionRowFits(db: Db, o: Id, row: Objection)
    requires Constraints(db) && row.proposal in db.proposals && ObjectionCheck(row)
    ensures Constraints(db.(objections := db.objections[o := row]))
  {
    hide Governance.ForeignKeys, Governance.Checks, Governance.VotingKeys, Governance.LockKeys, Governance.RevisionKeys,
         Governance.OutboxKeys;
    ObjectionRowReferences(db, o, row);
    ObjectionRowChecks(db, o, row);
  }

  // ---------------------------------------------------------------- decisions

  lemma DecisionColumns(db: Db, d: Id)
    requires Checks(db) && d in db.decisions
    ensures db.decisions[d].status.Locked? <==> db.decisions[d].lockedAt.Some?
  {
  }

  lemma CreateDecisionCommits(db: Db, a: Id, w: Id, id: Id, row: Decision)
    requires Constraints(db)
    ensures CreateDecision(db, a, w, id, row).Ok? <==> DecisionPermitted(db, a, w, CreateD(id, row))
    ensures CreateDecision(db, a, w, id, row).Ok? ==>
              DecisionEffect(db, a, w, CreateD(id, row), CreateDecision(db, a, w, id, row).value)
  {
    hide Governance.ForeignKeys, Governance.Checks, Governance.VotingKeys, Governance.LockKeys, Governance.RevisionKeys,
         Governance.OutboxKeys;
    DecisionRowFits(db, id, NewDecision(w, a, row.title, row.summary, row.category, row.dueAt, row.reviewAt), db.outbox);
    hide Governance.Constraints;
  }

  lemma UpdateDecisionCommits(db: Db, a: Id, w: Id, d: Id, edit: DecisionEdit)
    requires Constraints(db)
    ensures UpdateDecision(db, a, w, d, edit).Ok? <==> DecisionPermitted(db, a, w, UpdateD(d, edit))
    ensures UpdateDecision(db, a, w, d, edit).Ok? ==>
              DecisionEffect(db, a, w, UpdateD(d, edit), UpdateDecision(db, a, w, d, edit).value)
  {
    hide Governance.ForeignKeys, Governance.Checks, Governance.VotingKeys, Governance.LockKeys, Governance.RevisionKeys,
         Governance.OutboxKeys;
    if d in db.decisions {
      var x := db.decisions[d];
      DecisionColumns(db, d);
      DecisionRowFits(db, d,
        x.(title := Or(edit.title, x.title), summary := Or(edit.summary, x.summary), category := Or(edit.category, x.category),
           dueAt := Or(edit.dueAt, x.dueAt), reviewAt := Or(edit.reviewAt, x.reviewAt)), db.outbox);
    }
    hide Governance.Constraints;
  }

  /** The activation of a draft is announced for the first time. */
  lemma ActivationIsNew(db: Db, d: Id, event: Id)
    requires Announced(db.decisions, db.sessions, db.locks, db.outbox) && OutboxKeys(db.outbox)
    requires d in db.decisions && db.decisions[d].status.Draft? && event !in db.outbox
    ensures OutboxKeys(db.outbox[event := OutboxRow(DecisionActivated, d)])
  {
    StagedKeys(db.outbox, event, OutboxRow(DecisionActivated, d));
  }

  lemma MovedFits(db: Db, d: Id, target: DecisionStatus, event: Id, now: Time)
    requires Constraints(db) && Announced(db.decisions, db.sessions, db.locks, db.outbox)
    requires d in db.decisions && !db.decisions[d].status.Locked? && !target.Locked?
    requires Activates(db.decisions[d], target) ==> event !in db.outbox
    ensures Constraints(Moved(db, d, db.decisions[d], target, event, now))
  {
    hide Governance.ForeignKeys, Governance.Checks, Governance.VotingKeys, Governance.LockKeys, Governance.RevisionKeys,
         Governance.OutboxKeys, GovernanceInvariants.Announced;
    var next := Moved(db, d, db.decisions[d], target, event, now);
    if Activates(db.decisions[d], target) {
      ActivationIsNew(db, d, event);
    }
    DecisionColumns(db, d);
    DecisionRowFits(db, d, next.decisions[d], next.outbox);
  }

  /** The moves that the table of transitions allows. */
  lemma MovesAreAllowed(a: DecisionStatus, b: DecisionStatus)
    ensures b in AllowedTransitions(a) <==> MovesTo(a, b)
    ensures MovesTo(a, b) ==> !a.Locked? && !b.Locked?
  {
  }

  lemma MovedHasEffect(db: Db, a: Id, w: Id, d: Id, target: DecisionStatus, event: Id, now: Time)
    requires d in db.decisions
    ensures DecisionEffect(db, a, w, TransitionD(d, target, event, now), Moved(db, d, db.decisions[d], target, event, now))
  {
    hide SameDecisionText, Governance.Moved;
    var x := db.decisions[d];
    MovedTables(db, d, x, target, event, now);
    MovedText(x, target, now);
  }

  function MovedRow(x: Decision, target: DecisionStatus, now: Time): Decision {
    x.(status := target, closedAt := if target.Closed? then Some(now) else None, archivedAt := if target.Archived? then Some(now) else None)
  }

  lemma MovedTables(db: Db, d: Id, x: Decision, target: DecisionStatus, event: Id, now: Time)
    ensures Moved(db, d, x, target, event, now) ==
      db.(decisions := db.decisions[d := MovedRow(x, target, now)],
          outbox := if x.status.Draft? && target.Active? then db.outbox[event := OutboxRow(DecisionActivated, d)] else db.outbox)
  {
  }

  lemma MovedText(x: Decision, target: DecisionStatus, now: Time)
    ensures SameDecisionText(x, MovedRow(x, target, now))
  {
  }

  lemma TransitionDecisionCommits(db: Db, a: Id, w: Id, d: Id, target: DecisionStatus, event: Id, now: Time)
    requires Constraints(db) && Announced(db.decisions, db.sessions, db.locks, db.outbox)
    ensures TransitionDecision(db, a, w, d, target, event, now).Ok? <==> DecisionPermitted(db, a, w, TransitionD(d, target, event, now))
    ensures TransitionDecision(db, a, w, d, target, event, now).Ok? ==>
              DecisionEffect(db, a, w, TransitionD(d, target, event, now), TransitionDecision(db, a, w, d, target, event, now).value)
  {
    hide Governance.Constraints, GovernanceInvariants.Announced, Governance.AllowedTransitions, MovesTo, Governance.Moved,
         DecisionEffect;
    if d in db.decisions {
      MovesAreAllowed(db.decisions[d].status, target);
      MovedHasEffect(db, a, w, d, target, event, now);
      if MovesTo(db.decisions[d].status, target) && (Activates(db.decisions[d], target) ==> event !in db.outbox) {
        MovedFits(db, d, target, event, now);
      }
    }
  }

  /** Ballots, votes and locks never name a proposal of a draft. */
  lemma CascadeKeepsProposals(db: Db, next: Db, d: Id)
    requires ForeignKeys(db) && DecisionGone(db, next, d) && Locking(db.decisions, db.locks) && AllAnchored(db)
    requires Polling(db.decisions, db.proposals, db.sessions, db.voters, db.ballots, db.votes)
    ensures forall b <- db.ballots :: b.1 in next.proposals
    ensures forall v <- db.votes :: db.votes[v].proposal in next.proposals
    ensures forall l <- db.locks :: db.locks[l].winner in next.proposals && db.locks[l].decision != d
    ensures forall s <- db.sessions :: db.sessions[s].decision != d
  {
    forall b | b in db.ballots ensures b.1 in next.proposals {
      assert db.proposals[b.1].decision == db.sessions[b.0].decision;
    }
    forall v | v in db.votes ensures db.votes[v].proposal in next.proposals {
      assert (db.votes[v].session, db.votes[v].proposal) in db.ballots;
    }
    forall l | l in db.locks ensures db.locks[l].winner in next.proposals && db.locks[l].decision != d {
      assert Anchored(db, db.locks[l]);
    }
  }

  lemma UnreferencedGoes(db: Db, next: Db, d: Id)
    requires ForeignKeys(db) && DecisionGone(db, next, d) && Unreferenced(db, d)
    requires forall b <- db.ballots :: b.1 in next.proposals
    requires forall v <- db.votes :: db.votes[v].proposal in next.proposals
    requires forall l <- db.locks :: db.locks[l].winner in next.proposals && db.locks[l].decision != d
    requires forall s <- db.sessions :: db.sessions[s].decision != d
    ensures ForeignKeys(next)
  {
    hide Governance.RevisionReferences;
    KeptReferences(db, next, d);
  }

  lemma ReferencedStays(db: Db, next: Db, d: Id)
    requires DecisionGone(db, next, d) && ForeignKeys(next)
    ensures Unreferenced(db, d)
  {
    forall r | r in db.revisions
      ensures d != db.revisions[r].root && d != db.revisions[r].predecessor && d != db.revisions[r].successor
    {
      assert RevisionReferences(next, next.revisions[r]);
    }
  }

  /** What the cascade of a draft leaves is referenced properly exactly when no review and no link names the draft. */
  lemma CascadeReferences(db: Db, next: Db, d: Id)
    requires ForeignKeys(db) && DecisionGone(db, next, d) && Locking(db.decisions, db.locks) && AllAnchored(db)
    requires Polling(db.decisions, db.proposals, db.sessions, db.voters, db.ballots, db.votes)
    ensures ForeignKeys(next) <==> Unreferenced(db, d)
  {
    hide Governance.ForeignKeys, DecisionGone, GovernanceInvariants.Locking, GovernanceInvariants.Polling,
         GovernanceInvariants.AllAnchored, Unreferenced;
    CascadeKeepsProposals(db, next, d);
    if Unreferenced(db, d) {
      UnreferencedGoes(db, next, d);
    }
    if ForeignKeys(next) {
      ReferencedStays(db, next, d);
    }
  }

  lemma KeptReferences(db: Db, next: Db, d: Id)
    requires ForeignKeys(db) && DecisionGone(db, next, d) && Unreferenced(db, d)
    ensures forall r <- db.revisions :: RevisionReferences(next, db.revisions[r])
  {
    forall r | r in db.revisions ensures RevisionReferences(next, db.revisions[r]) {
      assert RevisionReferences(db, db.revisions[r]);
    }
  }

  lemma CascadeChecks(db: Db, next: Db, d: Id)
    requires Checks(db) && DecisionGone(db, next, d)
    ensures Checks(next)
  {
  }

  lemma CascadeFits(db: Db, d: Id)
    requires Constraints(db) && Locking(db.decisions, db.locks) && AllAnchored(db) && d in db.decisions && db.decisions[d].status.Draft?
    requires Polling(db.decisions, db.proposals, db.sessions, db.voters, db.ballots, db.votes)
    ensures DecisionGone(db, CascadeDecision(db, d), d)
    ensures Constraints(CascadeDecision(db, d)) <==> Unreferenced(db, d)
  {
    hide Governance.Checks, Governance.VotingKeys, Governance.LockKeys, Governance.RevisionKeys, Governance.OutboxKeys,
         GovernanceInvariants.Locking, GovernanceInvariants.Polling, GovernanceInvariants.AllAnchored, Governance.CascadeDecision,
         DecisionGone, Unreferenced;
    VotersExist(db);
    CascadeStep(db, d);
    hide Governance.ForeignKeys;
    CascadeReferences(db, CascadeDecision(db, d), d);
    CascadeChecks(db, CascadeDecision(db, d), d);
    CascadeKeys(db, CascadeDecision(db, d), d);
  }

  lemma CascadeKeys(db: Db, next: Db, d: Id)
    requires DecisionGone(db, next, d)
    ensures next.sessions == db.sessions && next.votes == db.votes && next.locks == db.locks && next.exports == db.exports
    ensures next.reviews == db.reviews && next.revisions == db.revisions && next.outbox == db.outbox
  {
  }

  lemma VotersExist(db: Db)
    requires ForeignKeys(db)
    ensures forall v <- db.voters :: v.0 in db.sessions
  {
  }

  lemma DeleteDecisionCommits(db: Db, a: Id, w: Id, d: Id)
    requires Constraints(db) && Locking(db.decisions, db.locks) && AllAnchored(db)
    requires Polling(db.decisions, db.proposals, db.sessions, db.voters, db.ballots, db.votes)
    ensures DeleteDecision(db, a, w, d).Ok? <==> DecisionPermitted(db, a, w, DeleteD(d))
    ensures DeleteDecision(db, a, w, d).Ok? ==> DecisionEffect(db, a, w, DeleteD(d), DeleteDecision(db, a, w, d).value)
  {
    hide Governance.Constraints, GovernanceInvariants.Locking, GovernanceInvariants.Polling, GovernanceInvariants.AllAnchored,
         Governance.CascadeDecision, Unreferenced;
    if d in db.decisions && db.decisions[d].status.Draft? {
      CascadeFits(db, d);
    }
  }

  lemma DecisionCallsCommit(db: Db, a: Id, w: Id, c: DecisionCall)
    requires Constraints(db) && Locking(db.decisions, db.locks) && AllAnchored(db)
    requires Polling(db.decisions, db.proposals, db.sessions, db.voters, db.ballots, db.votes)
    requires Announced(db.decisions, db.sessions, db.locks, db.outbox)
    ensures ApplyDecision(db, a, w, c).Ok? <==> DecisionPermitted(db, a, w, c)
    ensures ApplyDecision(db, a, w, c).Ok? ==> DecisionEffect(db, a, w, c, ApplyDecision(db, a, w, c).value)
  {
    hide Governance.Constraints, GovernanceInvariants.Locking, GovernanceInvariants.Polling, GovernanceInvariants.AllAnchored,
         GovernanceInvariants.Announced, Governance.CreateDecision, Governance.UpdateDecision, Governance.TransitionDecision,
         Governance.DeleteDecision, DecisionPermitted, DecisionEffect;
    match c
    case CreateD(id, row) => CreateDecisionCommits(db, a, w, id, row);
    case UpdateD(d, edit) => UpdateDecisionCommits(db, a, w, d, edit);
    case TransitionD(d, target, event, now) => TransitionDecisionCommits(db, a, w, d, target, event, now);
    case DeleteD(d) => DeleteDecisionCommits(db, a, w, d);
  }

  // ---------------------------------------------------------------- proposals

  lemma EditableIs(db: Db, a: Id, w: Id, d: Id, p: Id)
    ensures EditableProposal(db, a, w, d, p).Ok? <==> ProposalEditable(db, a, w, d, p)
  {
  }

  lemma CreateProposalCommits(db: Db, a: Id, w: Id, d: Id, id: Id, title: string, summary: Option<string>, content: Option<string>)
    requires Constraints(db)
    ensures CreateProposal(db, a, w, d, id, title, summary, content).Ok? <==>
              ProposalPermitted(db, a, w, d, CreateP(id, title, summary, content))
    ensures CreateProposal(db, a, w, d, id, title, summary, content).Ok? ==>
              ProposalEffect(db, a, d, CreateP(id, title, summary, content), CreateProposal(db, a, w, d, id, title, summary, content).value)
  {
    hide Governance.Constraints;
    if d in db.decisions {
      ProposalRowFits(db, id, Proposal(d, a, title, summary, content, ProposalStatus.Draft, None, None));
    }
  }

  lemma UpdateProposalCommits(db: Db, a: Id, w: Id, d: Id, p: Id, edit: ProposalEdit)
    requires Constraints(db)
    ensures UpdateProposal(db, a, w, d, p, edit).Ok? <==> ProposalPermitted(db, a, w, d, UpdateP(p, edit))
    ensures UpdateProposal(db, a, w, d, p, edit).Ok? ==>
              ProposalEffect(db, a, d, UpdateP(p, edit), UpdateProposal(db, a, w, d, p, edit).value)
  {
    hide Governance.Constraints, Governance.EditableProposal, ProposalEditable;
    EditableIs(db, a, w, d, p);
    if EditableProposal(db, a, w, d, p).Ok? {
      var x := db.proposals[p];
      ProposalRowFits(db, p, x.(title := Or(edit.title, x.title), summary := Or(edit.summary, x.summary),
                                content := Or(edit.content, x.content)));
    }
  }

  lemma TransitionProposalCommits(db: Db, a: Id, w: Id, d: Id, p: Id, target: ProposalStatus, now: Time)
    requires Constraints(db)
    ensures TransitionProposal(db, a, w, d, p, target, now).Ok? <==> ProposalPermitted(db, a, w, d, TransitionP(p, target, now))
    ensures TransitionProposal(db, a, w, d, p, target, now).Ok? ==>
              ProposalEffect(db, a, d, TransitionP(p, target, now), TransitionProposal(db, a, w, d, p, target, now).value)
  {
    hide Governance.Constraints, Governance.EditableProposal, ProposalEditable;
    EditableIs(db, a, w, d, p);
    if EditableProposal(db, a, w, d, p).Ok? {
      ProposalRowFits(db, p, db.proposals[p].(
        status := target, submittedAt := if target.Submitted? then Some(now) else None,
        withdrawnAt := if target.Withdrawn? then Some(now) else None));
    }
  }

  lemma DeleteProposalCommits(db: Db, a: Id, w: Id, d: Id, p: Id)
    requires Constraints(db) && AllAnchored(db)
    requires Polling(db.decisions, db.proposals, db.sessions, db.voters, db.ballots, db.votes)
    ensures DeleteProposal(db, a, w, d, p).Ok? <==> ProposalPermitted(db, a, w, d, DeleteP(p))
    ensures DeleteProposal(db, a, w, d, p).Ok? ==> ProposalEffect(db, a, d, DeleteP(p), DeleteProposal(db, a, w, d, p).value)
  {
    hide Governance.Constraints, Governance.EditableProposal, ProposalEditable, GovernanceInvariants.Polling,
         GovernanceInvariants.AllAnchored;
    EditableIs(db, a, w, d, p);
    if EditableProposal(db, a, w, d, p).Ok? && db.proposals[p].status.Draft? {
      ProposalDeletionOutcome(db, a, w, d, p);
    }
  }

  lemma ProposalCallsCommit(db: Db, a: Id, w: Id, d: Id, c: ProposalCall)
    requires Constraints(db) && AllAnchored(db)
    requires Polling(db.decisions, db.proposals, db.sessions, db.voters, db.ballots, db.votes)
    ensures ApplyProposal(db, a, w, d, c).Ok? <==> ProposalPermitted(db, a, w, d, c)
    ensures ApplyProposal(db, a, w, d, c).Ok? ==> ProposalEffect(db, a, d, c, ApplyProposal(db, a, w, d, c).value)
  {
    hide Governance.Constraints, GovernanceInvariants.Polling, GovernanceInvariants.AllAnchored, Governance.CreateProposal,
         Governance.UpdateProposal, Governance.TransitionProposal, Governance.DeleteProposal, ProposalPermitted, ProposalEffect;
    match c
    case CreateP(id, title, summary, content) => CreateProposalCommits(db, a, w, d, id, title, summary, content);
    case UpdateP(p, edit) => UpdateProposalCommits(db, a, w, d, p, edit);
    case TransitionP(p, target, now) => TransitionProposalCommits(db, a, w, d, p, target, now);
    case DeleteP(p) => DeleteProposalCommits(db, a, w, d, p);
  }

  // ---------------------------------------------------------------- objections

  lemma ObjectionColumns(db: Db, o: Id)
    requires Checks(db) && o in db.objections
    ensures ObjectionCheck(db.objections[o])
  {
  }

  lemma CreateObjectionCommits(db: Db, a: Id, w: Id, d: Id, p: Id, id: Id, severity: Severity, title: string, description: string, now: Time)
    requires Constraints(db)
    ensures CreateObjection(db, a, w, d, p, id, severity, title, description, now).Ok? <==>
              ObjectionPermitted(db, a, w, d, p, CreateO(id, severity, title, description, now))
    ensures CreateObjection(db, a, w, d, p, id, severity, title, description, now).Ok? ==>
              ObjectionEffect(db, a, p, CreateO(id, severity, title, description, now),
                              CreateObjection(db, a, w, d, p, id, severity, title, description, now).value)
  {
    hide Governance.Constraints;
    if p in db.proposals {
      ObjectionRowFits(db, id, Objection(p, a, severity, ObjectionStatus.Open, title, description, None, None, None, now));
    }
  }

  lemma UpdateObjectionCommits(db: Db, a: Id, w: Id, d: Id, p: Id, o: Id, edit: ObjectionEdit)
    requires Constraints(db)
    ensures UpdateObjection(db, a, w, d, p, o, edit).Ok? <==> ObjectionPermitted(db, a, w, d, p, UpdateO(o, edit))
    ensures UpdateObjection(db, a, w, d, p, o, edit).Ok? ==>
              ObjectionEffect(db, a, p, UpdateO(o, edit), UpdateObjection(db, a, w, d, p, o, edit).value)
  {
    hide Governance.ForeignKeys, Governance.Checks, Governance.VotingKeys, Governance.LockKeys, Governance.RevisionKeys,
         Governance.OutboxKeys;
    if o in db.objections && db.objections[o].proposal in db.proposals {
      var x := db.objections[o];
      ObjectionColumns(db, o);
      ObjectionRowFits(db, o, x.(severity := Or(edit.severity, x.severity), title := Or(edit.title, x.title),
                                 description := Or(edit.description, x.description)));
    }
    hide Governance.Constraints;
  }

  lemma TransitionObjectionCommits(db: Db, a: Id, w: Id, d: Id, p: Id, o: Id, target: ObjectionStatus, note: string, now: Time)
    requires Constraints(db)
    ensures TransitionObjection(db, a, w, d, p, o, target, note, now).Ok? <==>
              ObjectionPermitted(db, a, w, d, p, TransitionO(o, target, note, now))
    ensures TransitionObjection(db, a, w, d, p, o, target, note, now).Ok? ==>
              ObjectionEffect(db, a, p, TransitionO(o, target, note, now), TransitionObjection(db, a, w, d, p, o, target, note, now).value)
  {
    hide Governance.Constraints;
    if o in db.objections && db.objections[o].proposal in db.proposals {
      ObjectionRowFits(db, o, db.objections[o].(
        status := target, note := if target.Open? then None else Some(note),
        resolvedBy := if target.Open? then None else Some(a), resolvedAt := if target.Open? then None else Some(now)));
    }
  }

  lemma ObjectionCallsCommit(db: Db, a: Id, w: Id, d: Id, p: Id, c: ObjectionCall)
    requires Constraints(db)
    ensures ApplyObjection(db, a, w, d, p, c).Ok? <==> ObjectionPermitted(db, a, w, d, p, c)
    ensures ApplyObjection(db, a, w, d, p, c).Ok? ==> ObjectionEffect(db, a, p, c, ApplyObjection(db, a, w, d, p, c).value)
  {
    hide Governance.Constraints, Governance.CreateObjection, Governance.UpdateObjection, Governance.TransitionObjection,
         ObjectionPermitted, ObjectionEffect;
    match c
    case CreateO(id, severity, title, description, now) =>
      CreateObjectionCommits(db, a, w, d, p, id, severity, title, description, now);
    case UpdateO(o, edit) => UpdateObjectionCommits(db, a, w, d, p, o, edit);
    case TransitionO(o, target, note, now) => TransitionObjectionCommits(db, a, w, d, p, o, target, note, now);
  }
}
