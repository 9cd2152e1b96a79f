/**
  Every governance call keeps the invariant.

  A call is first reduced to its shape: which rows it changes, and under which guards.
  Calls of one shape share the lemmas about the tables, each of which looks at one part of the invariant.
 */
module GovernanceSteps {
  import opened Options
  import opened VotingMath
  import opened Governance
  import opened GovernanceInvariants

  // ---------------------------------------------------------------- one decision row changes

  ghost predicate RevisionsGrow(a: map<Id, Revision>, b: map<Id, Revision>) {
    forall r <- a :: r in b && b[r] == a[r]
  }

  ghost predicate CompletedKept(a: map<Id, Review>, b: map<Id, Review>) {
    forall r <- a :: a[r].status.Completed? ==> r in b && b[r] == a[r]
  }

  /** A row appears as a draft, or changes without becoming locked or a draft again; activation is announced. */
  ghost predicate DecisionStep(db: Db, next: Db, d: Id) {
    && d in next.decisions
    && next == db.(decisions := db.decisions[d := next.decisions[d]], outbox := next.outbox,
                   reviews := next.reviews, revisions := next.revisions)
    && RevisionsGrow(db.revisions, next.revisions) && CompletedKept(db.reviews, next.reviews)
    && !next.decisions[d].status.Locked?
    && (d in db.decisions ==> !db.decisions[d].status.Locked?)
    && (d in db.decisions && !db.decisions[d].status.Draft? ==> !next.decisions[d].status.Draft?)
    && if d in db.decisions && Activates(db.decisions[d], next.decisions[d].status)
       then Events(next.outbox) == Events(db.outbox) + {OutboxRow(DecisionActivated, d)}
       else next.outbox == db.outbox
  }

  lemma DecisionKeepsLocking(decisions: map<Id, Decision>, locks: map<Id, Lock>, d: Id, row: Decision)
    requires Locking(decisions, locks) && !row.status.Locked? && (d in decisions ==> !decisions[d].status.Locked?)
    ensures Locking(decisions[d := row], locks)
  {
  }

  lemma DecisionKeepsUnblocked(decisions: map<Id, Decision>, d: Id, row: Decision,
                               proposals: map<Id, Proposal>, objections: map<Id, Objection>)
    requires Unblocked(decisions, proposals, objections) && !row.status.Locked?
    ensures Unblocked(decisions[d := row], proposals, objections)
  {
  }

  lemma DecisionKeepsPolling(db: Db, d: Id, row: Decision)
    requires Polling(db.decisions, db.proposals, db.sessions, db.voters, db.ballots, db.votes)
    requires d in db.decisions && !db.decisions[d].status.Draft? ==> !row.status.Draft?
    ensures Polling(db.decisions[d := row], db.proposals, db.sessions, db.voters, db.ballots, db.votes)
  {
  }

  lemma DecisionKeepsRecords(db: Db, next: Db, d: Id)
    requires AllBelong(db) && DecisionStep(db, next, d)
    ensures SameRecords(db, next)
  {
    forall l | l in db.locks ensures SameRecord(db, next, db.locks[l].decision, db.locks[l].session) {
      assert Belongs(db, db.locks[l]);
    }
  }

  lemma DecisionKeepsAnnounced(db: Db, next: Db, d: Id)
    requires Announced(db.decisions, db.sessions, db.locks, db.outbox) && DecisionStep(db, next, d)
    ensures Announced(next.decisions, db.sessions, db.locks, next.outbox)
  {
  }

  lemma DecisionStepKeeps(cfg: Config, db: Db, next: Db, d: Id)
    requires Inv(cfg, db) && DecisionStep(db, next, d)
    ensures Inv(cfg, next)
  {
    DecisionKeepsLocking(db.decisions, db.locks, d, next.decisions[d]);
    DecisionKeepsUnblocked(db.decisions, d, next.decisions[d], db.proposals, db.objections);
    DecisionKeepsPolling(db, d, next.decisions[d]);
    DecisionKeepsAnnounced(db, next, d);
    RecordsBelong(db);
    DecisionKeepsRecords(db, next, d);
    FrozenFrame(cfg, db, next);
  }

  lemma StagedEvents(outbox: map<Id, OutboxRow>, id: Id, row: OutboxRow)
    requires id !in outbox
    ensures Events(outbox[id := row]) == Events(outbox) + {row}
  {
    var next := outbox[id := row];
    forall e ensures e in Events(next) <==> e in Events(outbox) + {row} {
      if e in Events(outbox) {
        var i :| i in outbox && outbox[i] == e;
        assert next[i] == e;
      }
      if e == row {
        assert next[id] == e;
      }
    }
  }

  lemma CreateDecisionStep(db: Db, actor: Id, workspace: Id, id: Id, row: Decision, next: Db)
    requires CreateDecision(db, actor, workspace, id, row) == Ok(next)
    ensures DecisionStep(db, next, id) && next.revisions == db.revisions
  {
  }

  lemma UpdateDecisionStep(db: Db, actor: Id, workspace: Id, d: Id, edit: DecisionEdit, next: Db)
    requires UpdateDecision(db, actor, workspace, d, edit) == Ok(next)
    ensures DecisionStep(db, next, d) && next.revisions == db.revisions
  {
  }

  lemma MovedStep(db: Db, d: Id, target: DecisionStatus, event: Id, now: Time)
    requires d in db.decisions && target in AllowedTransitions(db.decisions[d].status)
    requires Activates(db.decisions[d], target) ==> event !in db.outbox
    ensures DecisionStep(db, Moved(db, d, db.decisions[d], target, event, now), d)
    ensures Moved(db, d, db.decisions[d], target, event, now).revisions == db.revisions
  {
    if Activates(db.decisions[d], target) {
      StagedEvents(db.outbox, event, OutboxRow(DecisionActivated, d));
    }
  }

  lemma TransitionDecisionStep(db: Db, actor: Id, workspace: Id, d: Id, target: DecisionStatus, event: Id, now: Time, next: Db)
    requires TransitionDecision(db, actor, workspace, d, target, event, now) == Ok(next)
    ensures DecisionStep(db, next, d) && next.revisions == db.revisions
  {
    MovedStep(db, d, target, event, now);
  }

  // ---------------------------------------------------------------- a draft decision disappears

  ghost predicate DecisionGone(db: Db, next: Db, d: Id) {
    && d in db.decisions && db.decisions[d].status.Draft?
    && next == db.(decisions := db.decisions - {d},
                   proposals := map p <- db.proposals | db.proposals[p].decision != d :: db.proposals[p],
                   objections := next.objections)
    && next.objections == map o <- db.objections | db.objections[o].proposal in next.proposals :: db.objections[o]
  }

  /** A draft decision has no session, so its cascade stops at proposals and objections. */
  lemma CascadeStep(db: Db, d: Id)
    requires d in db.decisions && db.decisions[d].status.Draft? && forall v <- db.voters :: v.0 in db.sessions
    requires Polling(db.decisions, db.proposals, db.sessions, db.voters, db.ballots, db.votes)
    ensures DecisionGone(db, CascadeDecision(db, d), d)
  {
    var next := CascadeDecision(db, d);
    assert next.sessions == db.sessions;
    assert next.voters == db.voters;
    assert next.ballots == db.ballots;
    assert next.votes == db.votes;
  }

  lemma GoneDecisionKeepsPolling(db: Db, next: Db, d: Id)
    requires DecisionGone(db, next, d)
    requires Polling(db.decisions, db.proposals, db.sessions, db.voters, db.ballots, db.votes)
    ensures Polling(next.decisions, next.proposals, db.sessions, db.voters, db.ballots, db.votes)
  {
  }

  lemma GoneDecisionKeepsUnblocked(db: Db, next: Db, d: Id)
    requires DecisionGone(db, next, d) && Unblocked(db.decisions, db.proposals, db.objections)
    ensures Unblocked(next.decisions, next.proposals, next.objections)
  {
  }

  lemma GoneDecisionKeepsLocking(db: Db, next: Db, d: Id)
    requires DecisionGone(db, next, d) && Locking(db.decisions, db.locks)
    ensures Locking(next.decisions, db.locks)
  {
  }

  lemma GoneDecisionKeepsAnnounced(db: Db, next: Db, d: Id)
    requires DecisionGone(db, next, d) && Announced(db.decisions, db.sessions, db.locks, db.outbox)
    ensures Announced(next.decisions, db.sessions, db.locks, db.outbox)
  {
  }

  lemma GoneDecisionKeepsRecords(db: Db, next: Db, d: Id)
    requires AllBelong(db) && DecisionGone(db, next, d)
    ensures SameRecords(db, next)
  {
    forall l | l in db.locks ensures SameRecord(db, next, db.locks[l].decision, db.locks[l].session) {
      assert Belongs(db, db.locks[l]);
      forall p | p in BallotOf(db, db.locks[l].session) ensures SameProposal(db, next, p) {
        assert ObjectionsOf(next, p) == ObjectionsOf(db, p);
      }
    }
  }

  lemma DecisionGoneKeeps(cfg: Config, db: Db, next: Db, d: Id)
    requires Inv(cfg, db) && DecisionGone(db, next, d)
    ensures Inv(cfg, next)
  {
    GoneDecisionKeepsPolling(db, next, d);
    GoneDecisionKeepsUnblocked(db, next, d);
    GoneDecisionKeepsLocking(db, next, d);
    GoneDecisionKeepsAnnounced(db, next, d);
    RecordsBelong(db);
    GoneDecisionKeepsRecords(db, next, d);
    FrozenFrame(cfg, db, next);
  }

  // ---------------------------------------------------------------- one proposal changes

  ghost predicate Unlocked(db: Db, d: Id) {
    d in db.decisions && !db.decisions[d].status.Locked?
  }

  /** A proposal of an unlocked decision appears or changes. */
  ghost predicate ProposalStep(db: Db, next: Db, p: Id) {
    && p in next.proposals && next == db.(proposals := db.proposals[p := next.proposals[p]])
    && Unlocked(db, next.proposals[p].decision)
    && (p in db.proposals ==> db.proposals[p].decision == next.proposals[p].decision)
  }

  lemma ProposalKeepsPolling(db: Db, next: Db, p: Id)
    requires ProposalStep(db, next, p)
    requires Polling(db.decisions, db.proposals, db.sessions, db.voters, db.ballots, db.votes)
    ensures Polling(db.decisions, next.proposals, db.sessions, db.voters, db.ballots, db.votes)
  {
  }

  lemma ProposalKeepsUnblocked(db: Db, next: Db, p: Id)
    requires ProposalStep(db, next, p) && Unblocked(db.decisions, db.proposals, db.objections)
    ensures Unblocked(db.decisions, next.proposals, db.objections)
  {
  }

  lemma ProposalKeepsRecords(db: Db, next: Db, p: Id)
    requires AllBelong(db) && ProposalStep(db, next, p)
    ensures SameRecords(db, next)
  {
    forall l | l in db.locks ensures SameRecord(db, next, db.locks[l].decision, db.locks[l].session) {
      assert Belongs(db, db.locks[l]);
      forall q | q in BallotOf(db, db.locks[l].session) ensures SameProposal(db, next, q) {}
    }
  }

  lemma ProposalStepKeeps(cfg: Config, db: Db, next: Db, p: Id)
    requires Inv(cfg, db) && ProposalStep(db, next, p)
    ensures Inv(cfg, next)
  {
    ProposalKeepsPolling(db, next, p);
    ProposalKeepsUnblocked(db, next, p);
    RecordsBelong(db);
    ProposalKeepsRecords(db, next, p);
    FrozenFrame(cfg, db, next);
  }

  lemma CreateProposalStep(db: Db, actor: Id, workspace: Id, d: Id, id: Id, title: string, summary: Option<string>, content: Option<string>,
                           next: Db)
    requires CreateProposal(db, actor, workspace, d, id, title, summary, content) == Ok(next)
    ensures ProposalStep(db, next, id)
  {
  }

  lemma UpdateProposalStep(db: Db, actor: Id, workspace: Id, d: Id, p: Id, edit: ProposalEdit, next: Db)
    requires UpdateProposal(db, actor, workspace, d, p, edit) == Ok(next)
    ensures ProposalStep(db, next, p)
  {
  }

  lemma TransitionProposalStep(db: Db, actor: Id, workspace: Id, d: Id, p: Id, target: ProposalStatus, now: Time, next: Db)
    requires TransitionProposal(db, actor, workspace, d, p, target, now) == Ok(next)
    ensures ProposalStep(db, next, p)
  {
  }

  // ---------------------------------------------------------------- a proposal disappears with its objections

  ghost predicate ProposalGone(db: Db, next: Db, p: Id) {
    && p in db.proposals && Unlocked(db, db.proposals[p].decision)
    && next == db.(proposals := db.proposals - {p},
                   objections := map o <- db.objections | db.objections[o].proposal != p :: db.objections[o])
    && forall b <- db.ballots :: b.1 != p
  }

  lemma DeleteProposalStep(db: Db, actor: Id, workspace: Id, d: Id, p: Id, next: Db)
    requires DeleteProposal(db, actor, workspace, d, p) == Ok(next)
    ensures ProposalGone(db, next, p)
  {
    assert Constraints(next);
    assert forall b <- next.ballots :: b.1 in next.proposals;
  }

  lemma GoneKeepsPolling(db: Db, next: Db, p: Id)
    requires ProposalGone(db, next, p)
    requires Polling(db.decisions, db.proposals, db.sessions, db.voters, db.ballots, db.votes)
    ensures Polling(db.decisions, next.proposals, db.sessions, db.voters, db.ballots, db.votes)
  {
  }

  lemma GoneKeepsUnblocked(db: Db, next: Db, p: Id)
    requires ProposalGone(db, next, p) && Unblocked(db.decisions, db.proposals, db.objections)
    ensures Unblocked(db.decisions, next.proposals, next.objections)
  {
  }

  lemma GoneKeepsRecords(db: Db, next: Db, p: Id)
    requires AllBelong(db) && ProposalGone(db, next, p)
    ensures SameRecords(db, next)
  {
    forall l | l in db.locks ensures SameRecord(db, next, db.locks[l].decision, db.locks[l].session) {
      assert Belongs(db, db.locks[l]);
      forall q | q in BallotOf(db, db.locks[l].session) ensures SameProposal(db, next, q) {
        assert ObjectionsOf(next, q) == ObjectionsOf(db, q);
      }
    }
  }

  lemma ProposalGoneKeeps(cfg: Config, db: Db, next: Db, p: Id)
    requires Inv(cfg, db) && ProposalGone(db, next, p)
    ensures Inv(cfg, next)
  {
    GoneKeepsPolling(db, next, p);
    GoneKeepsUnblocked(db, next, p);
    RecordsBelong(db);
    GoneKeepsRecords(db, next, p);
    FrozenFrame(cfg, db, next);
  }

  // ---------------------------------------------------------------- one objection changes

  /** An objection to a proposal of an unlocked decision appears or changes. */
  ghost predicate ObjectionStep(db: Db, next: Db, o: Id) {
    && o in next.objections && next == db.(objections := db.objections[o := next.objections[o]])
    && next.objections[o].proposal in db.proposals && Unlocked(db, db.proposals[next.objections[o].proposal].decision)
    && (o in db.objections ==> db.objections[o].proposal == next.objections[o].proposal)
  }

  lemma ObjectionKeepsUnblocked(db: Db, next: Db, o: Id)
    requires ObjectionStep(db, next, o) && Unblocked(db.decisions, db.proposals, db.objections)
    ensures Unblocked(db.decisions, db.proposals, next.objections)
  {
  }

  lemma ObjectionKeepsRecords(db: Db, next: Db, o: Id)
    requires AllBelong(db) && ObjectionStep(db, next, o)
    ensures SameRecords(db, next)
  {
    forall l | l in db.locks ensures SameRecord(db, next, db.locks[l].decision, db.locks[l].session) {
      assert Belongs(db, db.locks[l]);
      forall q | q in BallotOf(db, db.locks[l].session) ensures SameProposal(db, next, q) {
        assert ObjectionsOf(next, q) == ObjectionsOf(db, q);
      }
    }
  }

  lemma ObjectionStepKeeps(cfg: Config, db: Db, next: Db, o: Id)
    requires Inv(cfg, db) && ObjectionStep(db, next, o)
    ensures Inv(cfg, next)
  {
    ObjectionKeepsUnblocked(db, next, o);
    RecordsBelong(db);
    ObjectionKeepsRecords(db, next, o);
    FrozenFrame(cfg, db, next);
  }

  lemma CreateObjectionStep(db: Db, actor: Id, workspace: Id, d: Id, p: Id, id: Id, severity: Severity, title: string,
                            description: string, now: Time, next: Db)
    requires CreateObjection(db, actor, workspace, d, p, id, severity, title, description, now) == Ok(next)
    ensures ObjectionStep(db, next, id)
  {
  }

  lemma UpdateObjectionStep(db: Db, actor: Id, workspace: Id, d: Id, p: Id, o: Id, edit: ObjectionEdit, next: Db)
    requires UpdateObjection(db, actor, workspace, d, p, o, edit) == Ok(next)
    ensures ObjectionStep(db, next, o)
  {
  }

  lemma TransitionObjectionStep(db: Db, actor: Id, workspace: Id, d: Id, p: Id, o: Id, target: ObjectionStatus, note: string,
                                now: Time, next: Db)
    requires TransitionObjection(db, actor, workspace, d, p, o, target, note, now) == Ok(next)
    ensures ObjectionStep(db, next, o)
  {
  }

  // ---------------------------------------------------------------- one session changes

  /** A session of a decision past its draft appears or changes before it is closed, with its own snapshot rows. */
  ghost predicate SessionStep(db: Db, next: Db, s: Id) {
    && s in next.sessions
    && next == db.(sessions := db.sessions[s := next.sessions[s]], voters := next.voters, ballots := next.ballots, outbox := next.outbox)
    && next.sessions[s].decision in db.decisions && !db.decisions[next.sessions[s].decision].status.Draft?
    && SessionRows(s, next.sessions[s], next.voters, next.ballots)
    && (s in db.sessions ==> !db.sessions[s].status.Closed? && db.sessions[s].decision == next.sessions[s].decision)
    && (s in db.sessions && db.sessions[s].openedAt.Some? ==>
          && next.voters == db.voters && next.ballots == db.ballots
          && next.sessions[s].openedAt.Some? && next.sessions[s].eligibleCount == db.sessions[s].eligibleCount)
    && db.voters <= next.voters && db.ballots <= next.ballots
    && (forall t: Id :: t != s ==> RowsOf(next.voters, t) == RowsOf(db.voters, t) && RowsOf(next.ballots, t) == RowsOf(db.ballots, t))
    && (forall b <- next.ballots :: b.0 == s ==> b.1 in db.proposals && db.proposals[b.1].decision == next.sessions[s].decision)
  }

  lemma SessionKeepsRows(db: Db, next: Db, s: Id)
    requires SessionStep(db, next, s)
    requires forall t <- db.sessions :: SessionRows(t, db.sessions[t], db.voters, db.ballots)
    ensures forall t <- next.sessions :: SessionRows(t, next.sessions[t], next.voters, next.ballots)
  {
    forall t | t in next.sessions ensures SessionRows(t, next.sessions[t], next.voters, next.ballots) {
      if t != s {
        assert SessionRows(t, db.sessions[t], db.voters, db.ballots);
      }
    }
  }

  lemma SessionKeepsBallots(db: Db, next: Db, s: Id)
    requires SessionStep(db, next, s)
    requires forall b <- db.ballots :: b.0 in db.sessions && b.1 in db.proposals && db.proposals[b.1].decision == db.sessions[b.0].decision
    ensures forall b <- next.ballots :: b.0 in next.sessions && b.1 in db.proposals
              && db.proposals[b.1].decision == next.sessions[b.0].decision
  {
    forall b | b in next.ballots && b.0 != s ensures b in db.ballots {
      assert b.1 in RowsOf(next.ballots, b.0);
    }
  }

  lemma SessionKeepsPolling(db: Db, next: Db, s: Id)
    requires SessionStep(db, next, s)
    requires Polling(db.decisions, db.proposals, db.sessions, db.voters, db.ballots, db.votes)
    ensures Polling(db.decisions, db.proposals, next.sessions, next.voters, next.ballots, db.votes)
  {
    SessionKeepsRows(db, next, s);
    SessionKeepsBallots(db, next, s);
  }

  lemma SessionLeavesRecord(db: Db, next: Db, s: Id, k: Lock)
    requires Belongs(db, k) && SessionStep(db, next, s)
    ensures SameRecord(db, next, k.decision, k.session)
  {
    assert k.session != s;
    assert VotesOf(next, k.session) == VotesOf(db, k.session);
    assert BallotOf(next, k.session) == BallotOf(db, k.session);
  }

  lemma SessionKeepsRecords(db: Db, next: Db, s: Id)
    requires AllBelong(db) && SessionStep(db, next, s)
    ensures SameRecords(db, next)
  {
    hide GovernanceInvariants.Belongs, GovernanceInvariants.SameRecord, SessionStep;
    forall l | l in db.locks ensures SameRecord(db, next, db.locks[l].decision, db.locks[l].session) {
      SessionLeavesRecord(db, next, s, db.locks[l]);
    }
  }

  lemma SessionStepKeeps(cfg: Config, db: Db, next: Db, s: Id)
    requires Inv(cfg, db) && SessionStep(db, next, s)
    requires Announced(db.decisions, next.sessions, db.locks, next.outbox)
    ensures Inv(cfg, next)
  {
    SessionKeepsPolling(db, next, s);
    RecordsBelong(db);
    SessionKeepsRecords(db, next, s);
    FrozenFrame(cfg, db, next);
  }

  lemma SnapshotRows(rows: set<(Id, Id)>, s: Id, added: set<Id>)
    requires RowsOf(rows, s) == {}
    ensures var next := rows + SnapshotOf(s, added);
      RowsOf(next, s) == added && forall t: Id :: t != s ==> RowsOf(next, t) == RowsOf(rows, t)
  {
    var extra := SnapshotOf(s, added);
    var next := rows + extra;
    forall x ensures x in RowsOf(next, s) <==> x in added {
      if x in added { assert (s, x) in extra; }
      if x in RowsOf(next, s) && (s, x) in rows { assert x in RowsOf(rows, s); }
    }
    forall t: Id | t != s ensures RowsOf(next, t) == RowsOf(rows, t) {
      forall x ensures x in RowsOf(next, t) <==> x in RowsOf(rows, t) {
        assert (t, x) !in extra;
        if x in RowsOf(rows, t) { assert (t, x) in next; }
      }
    }
  }

  lemma CreateSessionStep(db: Db, actor: Id, workspace: Id, d: Id, id: Id, quorum: nat, closesAt: Option<Time>, next: Db)
    requires CreateSession(db, actor, workspace, d, id, quorum, closesAt) == Ok(next)
    requires forall v <- db.voters + db.ballots :: v.0 in db.sessions
    ensures SessionStep(db, next, id)
  {
    assert RowsOf(db.voters, id) == {} && RowsOf(db.ballots, id) == {};
  }

  lemma OpenedStep(db: Db, next: Db, d: Id, s: Id, row: Session, users: set<Id>, proposals: set<Id>)
    requires d in db.decisions && db.decisions[d].status.Active? && s in db.sessions && db.sessions[s].status.Draft?
    requires SessionRows(s, db.sessions[s], db.voters, db.ballots) && db.sessions[s].openedAt.None?
    requires row.decision == d == db.sessions[s].decision && row.openedAt.Some? && row.eligibleCount == |users|
    requires users != {} && proposals == SubmittedProposals(db, d) && |proposals| >= 2
    requires next == db.(sessions := db.sessions[s := row], outbox := next.outbox,
                         voters := db.voters + SnapshotOf(s, users), ballots := db.ballots + SnapshotOf(s, proposals))
    ensures SessionStep(db, next, s) && VotersOf(next, s) == users && BallotOf(next, s) == proposals
  {
    SnapshotRows(db.voters, s, users);
    SnapshotRows(db.ballots, s, proposals);
    assert |users| >= 1;
    forall b | b in next.ballots && b.0 == s ensures b.1 in db.proposals && db.proposals[b.1].decision == d {
      assert b.1 in RowsOf(next.ballots, s);
    }
  }

  lemma OpenSessionStep(db: Db, actor: Id, workspace: Id, d: Id, s: Id, event: Id, now: Time, next: Db)
    requires OpenSession(db, actor, workspace, d, s, event, now) == Ok(next)
    requires s in db.sessions ==> SessionCheck(db.sessions[s]) && SessionRows(s, db.sessions[s], db.voters, db.ballots)
    ensures SessionStep(db, next, s)
    ensures forall u: Id :: (s, u) in next.voters <==>
              (workspace, u) in db.members && db.members[(workspace, u)] in {Owner, Admin, Member}
    ensures forall p: Id :: (s, p) in next.ballots <==>
              p in db.proposals && db.proposals[p].decision == d && db.proposals[p].status.Submitted?
    ensures next.sessions[s].eligibleCount == |VotersOf(next, s)|
  {
    OpenedStep(db, next, d, s, next.sessions[s], EligibleUsers(db, workspace), SubmittedProposals(db, d));
    forall u: Id ensures (s, u) in next.voters <==> (workspace, u) in db.members && db.members[(workspace, u)] in {Owner, Admin, Member} {
      ElectsWriters(db, workspace, u);
      RowIsListed(next.voters, s, u);
    }
    forall p: Id ensures (s, p) in next.ballots <==> p in SubmittedProposals(db, d) {
      RowIsListed(next.ballots, s, p);
    }
  }

  lemma RowIsListed(rows: set<(Id, Id)>, s: Id, x: Id)
    ensures (s, x) in rows <==> x in RowsOf(rows, s)
  {
    if (s, x) in rows {
      assert (s, x).0 == s;
    }
  }

  lemma ElectsWriters(db: Db, workspace: Id, u: Id)
    ensures u in EligibleUsers(db, workspace) <==>
      (workspace, u) in db.members && db.members[(workspace, u)] in {Owner, Admin, Member}
  {
    if (workspace, u) in db.members {
      assert (workspace, u).0 == workspace;
    }
  }

  lemma CloseSessionStep(db: Db, actor: Id, workspace: Id, d: Id, s: Id, event: Id, now: Time, next: Db)
    requires CloseSession(db, actor, workspace, d, s, event, now) == Ok(next)
    requires Polling(db.decisions, db.proposals, db.sessions, db.voters, db.ballots, db.votes)
    ensures SessionStep(db, next, s)
  {
  }

  lemma CancelSessionStep(db: Db, actor: Id, workspace: Id, d: Id, s: Id, now: Time, next: Db)
    requires CancelSession(db, actor, workspace, d, s, now) == Ok(next)
    requires Polling(db.decisions, db.proposals, db.sessions, db.voters, db.ballots, db.votes)
    ensures SessionStep(db, next, s)
  {
  }

  // ---------------------------------------------------------------- announcements of voting

  /** Voting calls announce no activation. */
  ghost predicate SameActivations(outbox: map<Id, OutboxRow>, next: map<Id, OutboxRow>) {
    forall d: Id :: OutboxRow(DecisionActivated, d) in Events(next) <==> OutboxRow(DecisionActivated, d) in Events(outbox)
  }

  /** A session that stays as announced as it was. */
  lemma QuietSession(db: Db, s: Id, row: Session)
    requires Announced(db.decisions, db.sessions, db.locks, db.outbox)
    requires if s in db.sessions then
               row.openedAt.Some? == db.sessions[s].openedAt.Some? && row.status.Closed? == db.sessions[s].status.Closed?
             else row.openedAt.None? && !row.status.Closed?
    ensures Announced(db.decisions, db.sessions[s := row], db.locks, db.outbox)
  {
  }

  /** Opening: the event is new, so the outbox key admits it, and afterwards it is there. */
  lemma OpeningIsAnnounced(db: Db, s: Id, row: Session, event: Id)
    requires Announced(db.decisions, db.sessions, db.locks, db.outbox) && event !in db.outbox && OutboxKeys(db.outbox)
    requires s in db.sessions && db.sessions[s].openedAt.None? && !db.sessions[s].status.Closed?
    requires row.openedAt.Some? && !row.status.Closed?
    ensures OutboxRow(VotingOpened, s) !in Events(db.outbox)
    ensures var outbox := db.outbox[event := OutboxRow(VotingOpened, s)];
      && OutboxKeys(outbox) && SameActivations(db.outbox, outbox)
      && Announced(db.decisions, db.sessions[s := row], db.locks, outbox)
  {
    StagedEvents(db.outbox, event, OutboxRow(VotingOpened, s));
    StagedKeys(db.outbox, event, OutboxRow(VotingOpened, s));
  }

  lemma ClosingIsAnnounced(db: Db, s: Id, row: Session, event: Id)
    requires Announced(db.decisions, db.sessions, db.locks, db.outbox) && event !in db.outbox && OutboxKeys(db.outbox)
    requires s in db.sessions && db.sessions[s].openedAt.Some? && !db.sessions[s].status.Closed?
    requires row.openedAt.Some? && row.status.Closed?
    ensures OutboxRow(VotingClosed, s) !in Events(db.outbox)
    ensures var outbox := db.outbox[event := OutboxRow(VotingClosed, s)];
      && OutboxKeys(outbox) && SameActivations(db.outbox, outbox)
      && Announced(db.decisions, db.sessions[s := row], db.locks, outbox)
  {
    StagedEvents(db.outbox, event, OutboxRow(VotingClosed, s));
    StagedKeys(db.outbox, event, OutboxRow(VotingClosed, s));
  }

  lemma StagedKeys(outbox: map<Id, OutboxRow>, event: Id, row: OutboxRow)
    requires OutboxKeys(outbox) && event !in outbox && row !in Events(outbox)
    ensures OutboxKeys(outbox[event := row])
  {
    forall e | e in outbox ensures outbox[e] != row {
      assert outbox[e] in Events(outbox);
    }
  }

  lemma CreateSessionAnnounces(db: Db, actor: Id, workspace: Id, d: Id, id: Id, quorum: nat, closesAt: Option<Time>, next: Db)
    requires CreateSession(db, actor, workspace, d, id, quorum, closesAt) == Ok(next)
    requires Announced(db.decisions, db.sessions, db.locks, db.outbox)
    ensures Announced(next.decisions, next.sessions, next.locks, next.outbox) && SameActivations(db.outbox, next.outbox)
  {
    QuietSession(db, id, next.sessions[id]);
  }

  lemma OpenSessionAnnounces(db: Db, actor: Id, workspace: Id, d: Id, s: Id, event: Id, now: Time, next: Db)
    requires OpenSession(db, actor, workspace, d, s, event, now) == Ok(next)
    requires Announced(db.decisions, db.sessions, db.locks, db.outbox) && OutboxKeys(db.outbox)
    requires s in db.sessions ==> SessionCheck(db.sessions[s])
    ensures Announced(next.decisions, next.sessions, next.locks, next.outbox) && SameActivations(db.outbox, next.outbox)
    ensures OutboxRow(VotingOpened, s) !in Events(db.outbox) && Events(next.outbox) == Events(db.outbox) + {OutboxRow(VotingOpened, s)}
  {
    StagedEvents(db.outbox, event, OutboxRow(VotingOpened, s));
    OpeningIsAnnounced(db, s, next.sessions[s], event);
  }

  lemma CloseSessionAnnounces(db: Db, actor: Id, workspace: Id, d: Id, s: Id, event: Id, now: Time, next: Db)
    requires CloseSession(db, actor, workspace, d, s, event, now) == Ok(next)
    requires Announced(db.decisions, db.sessions, db.locks, db.outbox) && OutboxKeys(db.outbox)
    requires s in db.sessions ==> SessionCheck(db.sessions[s])
    ensures Announced(next.decisions, next.sessions, next.locks, next.outbox) && SameActivations(db.outbox, next.outbox)
    ensures OutboxRow(VotingClosed, s) !in Events(db.outbox) && Events(next.outbox) == Events(db.outbox) + {OutboxRow(VotingClosed, s)}
  {
    StagedEvents(db.outbox, event, OutboxRow(VotingClosed, s));
    ClosingIsAnnounced(db, s, next.sessions[s], event);
  }

  lemma CancelSessionAnnounces(db: Db, actor: Id, workspace: Id, d: Id, s: Id, now: Time, next: Db)
    requires CancelSession(db, actor, workspace, d, s, now) == Ok(next)
    requires Announced(db.decisions, db.sessions, db.locks, db.outbox)
    ensures Announced(next.decisions, next.sessions, next.locks, next.outbox) && SameActivations(db.outbox, next.outbox)
  {
    QuietSession(db, s, next.sessions[s]);
  }

  // ---------------------------------------------------------------- a ballot is cast

  ghost predicate VoteStep(db: Db, next: Db, v: Id) {
    && v !in db.votes && v in next.votes && next == db.(votes := db.votes[v := next.votes[v]])
    && next.votes[v].session in db.sessions && !db.sessions[next.votes[v].session].status.Closed?
    && (next.votes[v].session, next.votes[v].voter) in db.voters && (next.votes[v].session, next.votes[v].proposal) in db.ballots
  }

  lemma CastVoteStep(db: Db, actor: Id, workspace: Id, d: Id, s: Id, id: Id, p: Id, now: Time, next: Db)
    requires CastVote(db, actor, workspace, d, s, id, p, now) == Ok(next)
    ensures VoteStep(db, next, id)
  {
  }

  lemma VoteKeepsRecords(db: Db, next: Db, v: Id)
    requires AllBelong(db) && VoteStep(db, next, v)
    ensures SameRecords(db, next)
  {
    forall l | l in db.locks ensures SameRecord(db, next, db.locks[l].decision, db.locks[l].session) {
      assert Belongs(db, db.locks[l]);
      assert VotesOf(next, db.locks[l].session) == VotesOf(db, db.locks[l].session);
    }
  }

  lemma VoteStepKeeps(cfg: Config, db: Db, next: Db, v: Id)
    requires Inv(cfg, db) && VoteStep(db, next, v)
    ensures Inv(cfg, next)
  {
    assert Polling(db.decisions, db.proposals, db.sessions, db.voters, db.ballots, next.votes);
    RecordsBelong(db);
    VoteKeepsRecords(db, next, v);
    FrozenFrame(cfg, db, next);
  }

  // ---------------------------------------------------------------- exports, reviews, revisions, memberships

  /** Rows that are in no lock's document. */
  ghost predicate SideStep(db: Db, next: Db) {
    && next == db.(exports := next.exports, reviews := next.reviews, members := next.members)
    && Exporting(db.locks, next.exports) && CompletedKept(db.reviews, next.reviews)
  }

  lemma SideKeepsRecords(db: Db, next: Db)
    requires AllBelong(db) && SideStep(db, next)
    ensures SameRecords(db, next)
  {
    forall l | l in db.locks ensures SameRecord(db, next, db.locks[l].decision, db.locks[l].session) {
      assert Belongs(db, db.locks[l]);
    }
  }

  lemma SideStepKeeps(cfg: Config, db: Db, next: Db)
    requires Inv(cfg, db) && SideStep(db, next)
    ensures Inv(cfg, next)
  {
    RecordsBelong(db);
    SideKeepsRecords(db, next);
    FrozenFrame(cfg, db, next);
  }

  lemma NewExportKeeps(locks: map<Id, Lock>, exports: map<Id, Export>, id: Id, row: Export)
    requires Exporting(locks, exports) && row.sourceLock in locks
    requires row.documentHash == locks[row.sourceLock].documentHash && row.decision == locks[row.sourceLock].decision
    ensures Exporting(locks, exports[id := row])
  {
  }

  lemma RequestExportStep(db: Db, actor: Id, workspace: Id, d: Id, id: Id, next: Db)
    requires RequestExport(db, actor, workspace, d, id) == Ok(next) && Exporting(db.locks, db.exports)
    ensures SideStep(db, next)
  {
    hide Governance.LockOf, Governance.DocumentIsOf, Governance.Constraints;
    var l := LockOf(db, d).value;
    NewExportKeeps(db.locks, db.exports, id, Export(d, l, db.locks[l].documentHash));
  }

  lemma CreateReviewStep(db: Db, actor: Id, workspace: Id, d: Id, id: Id, scheduledFor: Time, now: Time, next: Db)
    requires CreateReview(db, actor, workspace, d, id, scheduledFor, now) == Ok(next) && Exporting(db.locks, db.exports)
    ensures SideStep(db, next)
  {
  }

  lemma RescheduleReviewStep(db: Db, actor: Id, workspace: Id, d: Id, r: Id, scheduledFor: Time, now: Time, next: Db)
    requires RescheduleReview(db, actor, workspace, d, r, scheduledFor, now) == Ok(next) && Exporting(db.locks, db.exports)
    ensures SideStep(db, next)
  {
  }

  lemma CancelReviewStep(db: Db, actor: Id, workspace: Id, d: Id, r: Id, now: Time, next: Db)
    requires CancelReview(db, actor, workspace, d, r, now) == Ok(next) && Exporting(db.locks, db.exports)
    ensures SideStep(db, next)
  {
  }

  lemma ConfirmedStep(db: Db, r: Id, outcome: ReviewOutcome, now: Time)
    requires r in db.reviews && db.reviews[r].status.Scheduled? && Exporting(db.locks, db.exports)
    ensures SideStep(db, MarkCompleted(db, r, db.reviews[r], outcome, now))
  {
  }

  /** A link from a locked decision, through a review just completed, to a new draft. */
  ghost predicate NewLink(db: Db, next: Db, ids: NewIds) {
    && ids.revision !in db.revisions && ids.successor !in db.decisions && ids.revision in next.revisions
    && var k := next.revisions[ids.revision];
       && next.revisions == db.revisions[ids.revision := k]
       && k.successor == ids.successor && k.predecessor in db.decisions && db.decisions[k.predecessor].status.Locked?
       && k.root == RevisionRoot(db.revisions, k.predecessor) && k.number == NextNumber(db.revisions, k.root)
       && LockOf(db, k.predecessor) == Some(k.sourceLock)
       && k.review in db.reviews && db.reviews[k.review].status.Scheduled?
       && k.review in next.reviews && next.reviews[k.review].decision == k.predecessor
       && next.reviews[k.review].status.Completed? && next.reviews[k.review].outcome == Some(k.outcome)
  }

  lemma RevisedStep(db: Db, actor: Id, d: Id, row: Decision, lock: Id, r: Id, o: Outcome, ids: NewIds, now: Time)
    requires ids.successor !in db.decisions && ids.revision !in db.revisions
    requires r in db.reviews && db.reviews[r].status.Scheduled?
    ensures DecisionStep(db, WithRevision(db, actor, d, row, lock, r, db.reviews[r], o, ids, now), ids.successor)
  {
  }

  lemma RevisedLinks(db: Db, actor: Id, d: Id, row: Decision, lock: Id, r: Id, o: Outcome, ids: NewIds, now: Time)
    requires ids.successor !in db.decisions && ids.revision !in db.revisions
    requires d in db.decisions && db.decisions[d].status.Locked? && LockOf(db, d) == Some(lock)
    requires r in db.reviews && db.reviews[r].decision == d && db.reviews[r].status.Scheduled?
    ensures NewLink(db, WithRevision(db, actor, d, row, lock, r, db.reviews[r], o, ids, now), ids)
  {
  }

  lemma CompleteReviewStep(db: Db, actor: Id, workspace: Id, d: Id, r: Id, o: Outcome, ids: NewIds, now: Time, next: Db)
    requires CompleteReview(db, actor, workspace, d, r, o, ids, now) == Ok(next) && Exporting(db.locks, db.exports)
    ensures if o.outcome.Confirmed? then SideStep(db, next) else DecisionStep(db, next, ids.successor) && NewLink(db, next, ids)
  {
    hide Governance.Constraints, Governance.MarkCompleted, Governance.WithRevision, SideStep, DecisionStep, NewLink;
    if o.outcome.Confirmed? {
      ConfirmedStep(db, r, o.outcome, now);
    } else {
      RevisedStep(db, actor, d, db.decisions[d], LockOf(db, d).value, r, o, ids, now);
      RevisedLinks(db, actor, d, db.decisions[d], LockOf(db, d).value, r, o, ids, now);
    }
  }

  // ---------------------------------------------------------------- a decision is locked

  /** The winner of a session is on its ballot. */
  lemma WinnerIsOnBallot(cfg: Config, db: Db, s: Id)
    requires s in db.sessions
    ensures var r := ResultOf(cfg, db, s); r.winner.Some? ==> r.winner.value in BallotOf(db, s)
  {
    var r := ResultOf(cfg, db, s);
    TalliesAreOfBallot(cfg, db, s);
    if r.winner.Some? {
      var top := Highest(r.tallies);
      LeadersAreExact(r.tallies, top);
      assert r.winner.value in Leaders(r.tallies, top);
    }
  }

  /** What the guards of `create` establish about the row it adds, against the tables as they are. */
  ghost predicate Justified(cfg: Config, db: Db, k: Lock) {
    && k.decision in db.decisions && db.decisions[k.decision].status.Active? && !OpenBlocking(db, k.decision)
    && Anchored(db, k) && Rebuilds(cfg, db, k)
  }

  lemma SealIsAnchored(cfg: Config, db: Db, actor: Id, d: Id, s: Id, result: VotingResult, now: Time, ties: seq<Id>, k: Lock)
    requires d in db.decisions && s in db.sessions && db.sessions[s].decision == d && db.sessions[s].status.Closed?
    requires result.winner.Some? ==> result.winner.value in BallotOf(db, s)
    requires Seal(cfg, db, actor, d, db.decisions[d], s, result, now, ties) == Ok(k)
    ensures Anchored(db, k) && result.quorumMet && result.winner == Some(k.winner)
    ensures k.decision == d && k.session == s && Builds(db, k, result, ties)
    ensures k.documentHash == HashSnapshot(cfg, k.snapshot)
  {
  }

  lemma SealIsJustified(cfg: Config, db: Db, actor: Id, d: Id, s: Id, now: Time, ties: seq<Id>, k: Lock)
    requires d in db.decisions && s in db.sessions && db.sessions[s].decision == d && db.sessions[s].status.Closed?
    requires db.decisions[d].status.Active? && !OpenBlocking(db, d)
    requires Seal(cfg, db, actor, d, db.decisions[d], s, ResultOf(cfg, db, s), now, ties) == Ok(k)
    ensures Justified(cfg, db, k)
  {
    hide Governance.Seal, Governance.ResultOf, GovernanceInvariants.Builds;
    WinnerIsOnBallot(cfg, db, s);
    SealIsAnchored(cfg, db, actor, d, s, ResultOf(cfg, db, s), now, ties, k);
  }

  lemma DraftLockIsJustified(cfg: Config, db: Db, actor: Id, workspace: Id, d: Id, s: Id, now: Time, ties: seq<Id>, k: Lock)
    requires DraftLock(cfg, db, actor, workspace, d, s, now, ties) == Ok(k)
    ensures Justified(cfg, db, k)
  {
    assert GetResult(cfg, db, actor, workspace, d, s).Ok?;
    SealIsJustified(cfg, db, actor, d, s, now, ties, k);
  }

  ghost predicate LockStep(db: Db, next: Db, l: Id, event: Id) {
    && l !in db.locks && event !in db.outbox && l in next.locks && next.locks[l].decision in db.decisions
    && next == WithLock(db, l, next.locks[l], event)
  }

  lemma CreateLockStep(cfg: Config, db: Db, actor: Id, workspace: Id, d: Id, s: Id, id: Id, event: Id, now: Time,
                       ties: seq<Id>, next: Db)
    requires CreateLock(cfg, db, actor, workspace, d, s, id, event, now, ties) == Ok(next)
    ensures LockStep(db, next, id, event)
    ensures DraftLock(cfg, db, actor, workspace, d, s, now, ties) == Ok(next.locks[id])
  {
  }

  lemma LockKeepsLocking(decisions: map<Id, Decision>, locks: map<Id, Lock>, d: Id, row: Decision, id: Id, k: Lock)
    requires Locking(decisions, locks) && d in decisions && id !in locks
    requires row.status.Locked? && k.decision == d
    ensures Locking(decisions[d := row], locks[id := k])
  {
    var decisions', locks' := decisions[d := row], locks[id := k];
    forall x | x in decisions' && decisions'[x].status.Locked? ensures exists l <- locks' :: locks'[l].decision == x {
      if x == d {
        assert locks'[id].decision == x;
      } else {
        var l :| l in locks && locks[l].decision == x;
        assert locks'[l].decision == x;
      }
    }
  }

  lemma LockKeepsUnblocked(db: Db, next: Db, l: Id, event: Id)
    requires LockStep(db, next, l, event) && Unblocked(db.decisions, db.proposals, db.objections)
    requires !OpenBlocking(db, next.locks[l].decision)
    ensures Unblocked(next.decisions, db.proposals, db.objections)
  {
  }

  lemma LockIsAnnounced(db: Db, d: Id, row: Decision, l: Id, k: Lock, event: Id)
    requires Announced(db.decisions, db.sessions, db.locks, db.outbox) && event !in db.outbox && OutboxKeys(db.outbox)
    requires l !in db.locks && row.status.Locked?
    ensures var outbox := db.outbox[event := OutboxRow(DecisionLocked, l)];
      OutboxKeys(outbox) && Announced(db.decisions[d := row], db.sessions, db.locks[l := k], outbox)
  {
    StagedEvents(db.outbox, event, OutboxRow(DecisionLocked, l));
    StagedKeys(db.outbox, event, OutboxRow(DecisionLocked, l));
  }

  /** The document does not look at the columns that locking changes. */
  lemma LockLeavesRecord(db: Db, next: Db, l: Id, event: Id, d: Id, s: Id)
    requires LockStep(db, next, l, event) && d in db.decisions && s in db.sessions
    requires forall p <- BallotOf(db, s) :: p in db.proposals
    ensures SameRecord(db, next, d, s)
  {
    LockLeavesJson(db, next, l, event, d);
    assert VotesOf(db, s) == VotesOf(next, s) && BallotOf(db, s) == BallotOf(next, s);
    forall p | p in BallotOf(db, s) ensures SameProposal(db, next, p) {}
  }

  lemma LockLeavesJson(db: Db, next: Db, l: Id, event: Id, d: Id)
    requires LockStep(db, next, l, event) && d in db.decisions
    ensures d in next.decisions && DecisionJson(d, db.decisions[d]) == DecisionJson(d, next.decisions[d])
  {
  }

  lemma LockKeepsFrozen(cfg: Config, db: Db, next: Db, l: Id, event: Id)
    requires LockStep(db, next, l, event) && AllAnchored(db) && Frozen(cfg, db)
    requires Anchored(db, next.locks[l]) && Rebuilds(cfg, db, next.locks[l])
    requires forall b <- db.ballots :: b.1 in db.proposals
    ensures AllAnchored(next) && Frozen(cfg, next)
  {
    forall m | m in next.locks ensures Anchored(next, next.locks[m]) && Rebuilds(cfg, next, next.locks[m]) {
      var k := next.locks[m];
      assert m != l ==> m in db.locks && k == db.locks[m];
      forall p | p in BallotOf(db, k.session) ensures p in db.proposals { assert (k.session, p) in db.ballots; }
      LockLeavesRecord(db, next, l, event, k.decision, k.session);
      RebuildsFrame(cfg, db, next, k);
    }
  }

  lemma LockStepKeeps(cfg: Config, db: Db, next: Db, l: Id, event: Id)
    requires Inv(cfg, db) && OutboxKeys(db.outbox) && LockStep(db, next, l, event) && Justified(cfg, db, next.locks[l])
    ensures Inv(cfg, next)
  {
    var k := next.locks[l];
    var row := next.decisions[k.decision];
    LockKeepsLocking(db.decisions, db.locks, k.decision, row, l, k);
    LockKeepsUnblocked(db, next, l, event);
    DecisionKeepsPolling(db, k.decision, row);
    LockIsAnnounced(db, k.decision, row, l, k, event);
    LockKeepsFrozen(cfg, db, next, l, event);
    LockKeepsExporting(db, l, k);
  }

  lemma LockKeepsExporting(db: Db, l: Id, k: Lock)
    requires Exporting(db.locks, db.exports) && l !in db.locks
    ensures Exporting(db.locks[l := k], db.exports)
  {
  }
}