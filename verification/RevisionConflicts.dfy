/** When completing a review with a revision is refused, and what protects a chain from deletions. */
module RevisionConflicts {
  import opened Options
  import opened Ordering
  import opened Governance
  import opened GovernanceInvariants
  import opened GovernanceRuns
  import opened RevisionChains

  /** Every guard of `complete_review` before the commit passes, for an outcome that asks for a successor. */
  ghost predicate Completable(db: Db, actor: Id, workspace: Id, d: Id, r: Id, o: Outcome, ids: NewIds, now: Time) {
    && ReviewContext(db, actor, workspace, d).Ok?
    && r in db.reviews && db.reviews[r].decision == d && db.reviews[r].status.Scheduled? && db.reviews[r].scheduledFor <= now
    && !o.outcome.Confirmed?
    && ids.successor !in db.decisions && ids.revision !in db.revisions
  }

  predicate HasSuccessor(revs: Links, d: Id) {
    exists q <- revs :: revs[q].predecessor == d
  }

  lemma LockedHasLockOf(db: Db, d: Id)
    requires Locking(db.decisions, db.locks) && d in db.decisions && db.decisions[d].status.Locked?
    ensures LockOf(db, d).Some? && LockOf(db, d).value in db.locks && db.locks[LockOf(db, d).value].decision == d
  {
    assert HasLock(db, d);
  }

  lemma RootExists(db: Db, d: Id)
    requires d in db.decisions && forall r <- db.revisions :: RevisionReferences(db, db.revisions[r])
    ensures RevisionRoot(db.revisions, d) in db.decisions
  {
    var roots := set r <- db.revisions | db.revisions[r].successor == d :: db.revisions[r].root;
    if roots != {} {
      var r :| r in db.revisions && db.revisions[r].successor == d && db.revisions[r].root == Least(roots);
    }
  }

  lemma NextNumberIsNew(revs: Links, root: Id)
    ensures NextNumber(revs, root) >= 1
    ensures forall r <- revs :: revs[r].root == root ==> revs[r].number < NextNumber(revs, root)
  {
    forall r | r in revs && revs[r].root == root ensures revs[r].number < NextNumber(revs, root) {
      assert revs[r].number in Numbers(revs, root);
    }
  }

  /** A second link from one predecessor breaks its unique key. */
  lemma SecondLinkClashes(db: Db, id: Id, k: Revision, reviews: map<Id, Review>)
    requires HasSuccessor(db.revisions, k.predecessor) && id !in db.revisions
    ensures !RevisionKeys(reviews, db.revisions[id := k])
  {
    var q :| q in db.revisions && db.revisions[q].predecessor == k.predecessor;
    var next := db.revisions[id := k];
    assert next[q].predecessor == next[id].predecessor && q != id;
  }

  lemma FirstLinkFits(db: Db, id: Id, k: Revision)
    requires UniqueLinks(db.revisions) && id !in db.revisions && !HasSuccessor(db.revisions, k.predecessor)
    requires forall r <- db.revisions :: RevisionReferences(db, db.revisions[r])
    requires k.successor !in db.decisions
    requires k.number == NextNumber(db.revisions, k.root)
    ensures UniqueLinks(db.revisions[id := k])
  {
    hide Governance.NextNumber;
    NextNumberIsNew(db.revisions, k.root);
  }

  lemma CompletedReviewKeys(db: Db, r: Id, review: Review, id: Id, k: Revision)
    requires RevisionKeys(db.reviews, db.revisions) && Evidenced(db)
    requires r in db.reviews && db.reviews[r].status.Scheduled? && review.status.Completed?
    requires k.review == r && id !in db.revisions && UniqueLinks(db.revisions[id := k])
    ensures RevisionKeys(db.reviews[r := review], db.revisions[id := k])
  {
    forall q | q in db.revisions ensures db.revisions[q].review != r {
      assert Evidence(db, db.revisions[q]);
    }
  }

  lemma NewRowReferences(db: Db, actor: Id, d: Id, row: Decision, lock: Id, r: Id, o: Outcome, ids: NewIds, now: Time)
    requires ForeignKeys(db) && d in db.decisions && lock in db.locks && r in db.reviews && db.reviews[r].decision == d
    requires RevisionRoot(db.revisions, d) in db.decisions
    ensures ForeignKeys(WithRevision(db, actor, d, row, lock, r, db.reviews[r], o, ids, now))
  {
    hide Governance.RevisionRoot, Governance.NextNumber;
    var next := WithRevision(db, actor, d, row, lock, r, db.reviews[r], o, ids, now);
    forall q | q in next.revisions ensures RevisionReferences(next, next.revisions[q]) {
      assert q != ids.revision ==> RevisionReferences(db, db.revisions[q]);
    }
  }

  lemma NewRowChecks(db: Db, actor: Id, d: Id, row: Decision, lock: Id, r: Id, o: Outcome, ids: NewIds, now: Time)
    requires Checks(db) && r in db.reviews && db.reviews[r].status.Scheduled? && !o.outcome.Confirmed?
    requires NextNumber(db.revisions, RevisionRoot(db.revisions, d)) >= 1
    ensures Checks(WithRevision(db, actor, d, row, lock, r, db.reviews[r], o, ids, now))
  {
    hide Governance.RevisionRoot, Governance.NextNumber;
  }

  lemma FirstRevisionIsSound(cfg: Config, db: Db, actor: Id, d: Id, lock: Id, r: Id, o: Outcome, ids: NewIds, now: Time)
    requires Constraints(db) && Evidenced(db) && d in db.decisions && lock in db.locks
    requires r in db.reviews && db.reviews[r].decision == d && db.reviews[r].status.Scheduled? && !o.outcome.Confirmed?
    requires ids.successor !in db.decisions && ids.revision !in db.revisions && !HasSuccessor(db.revisions, d)
    ensures Constraints(WithRevision(db, actor, d, db.decisions[d], lock, r, db.reviews[r], o, ids, now))
  {
    hide Governance.ForeignKeys, Governance.Checks, Governance.RevisionKeys, Governance.VotingKeys, Governance.LockKeys,
         Governance.OutboxKeys, Governance.RevisionRoot, Governance.NextNumber, RevisionChains.UniqueLinks, HasSuccessor,
         RevisionChains.Evidenced;
    var k := NewRevision(db, d, lock, r, ids.successor, o.outcome);
    References(db);
    RootExists(db, d);
    NextNumberIsNew(db.revisions, k.root);
    KeysAreUnique(db);
    FirstLinkFits(db, ids.revision, k);
    CompletedReviewKeys(db, r, MarkCompleted(db, r, db.reviews[r], o.outcome, now).reviews[r], ids.revision, k);
    NewRowReferences(db, actor, d, db.decisions[d], lock, r, o, ids, now);
    NewRowChecks(db, actor, d, db.decisions[d], lock, r, o, ids, now);
  }

  lemma References(db: Db)
    requires ForeignKeys(db)
    ensures forall r <- db.revisions :: RevisionReferences(db, db.revisions[r])
  {
  }

  lemma SecondRevisionIsRejected(db: Db, actor: Id, d: Id, lock: Id, r: Id, o: Outcome, ids: NewIds, now: Time)
    requires d in db.decisions && r in db.reviews && ids.revision !in db.revisions && HasSuccessor(db.revisions, d)
    ensures !Constraints(WithRevision(db, actor, d, db.decisions[d], lock, r, db.reviews[r], o, ids, now))
  {
    hide Governance.ForeignKeys, Governance.Checks, Governance.RevisionKeys, Governance.RevisionRoot,
         Governance.NextNumber, HasSuccessor;
    var next := WithRevision(db, actor, d, db.decisions[d], lock, r, db.reviews[r], o, ids, now);
    SecondLinkClashes(db, ids.revision, next.revisions[ids.revision], next.reviews);
  }

  /**
    In a reachable state a completion that passes every guard conflicts exactly when its decision already has a
    successor; then nothing is committed, not even the review, and otherwise the whole of it is.
   */
  lemma CompletionConflicts(cfg: Config, calls: seq<Call>, actor: Id, workspace: Id, d: Id, r: Id, o: Outcome, ids: NewIds, now: Time)
    requires Completable(Run(cfg, calls), actor, workspace, d, r, o, ids, now)
    ensures var db := Run(cfg, calls); var a := CompleteReview(db, actor, workspace, d, r, o, ids, now);
      && (HasSuccessor(db.revisions, d) <==> a == Refused(ReviewConflict))
      && (!HasSuccessor(db.revisions, d) <==> a.Ok?)
  {
    hide GovernanceRuns.Run;
    ReachableIsGood(cfg, calls);
    ReachableIsChained(cfg, calls);
    CompletionOutcome(cfg, Run(cfg, calls), actor, workspace, d, r, o, ids, now);
  }

  lemma CompletionOutcome(cfg: Config, db: Db, actor: Id, workspace: Id, d: Id, r: Id, o: Outcome, ids: NewIds, now: Time)
    requires Constraints(db) && Locking(db.decisions, db.locks) && Evidenced(db)
    requires Completable(db, actor, workspace, d, r, o, ids, now)
    ensures var a := CompleteReview(db, actor, workspace, d, r, o, ids, now);
      if HasSuccessor(db.revisions, d) then a == Refused(ReviewConflict) else a.Ok?
  {
    hide Governance.Constraints, Governance.WithRevision, Governance.LockOf, HasSuccessor, GovernanceInvariants.Locking,
         RevisionChains.Evidenced;
    LockedHasLockOf(db, d);
    var lock := LockOf(db, d).value;
    if HasSuccessor(db.revisions, d) {
      SecondRevisionIsRejected(db, actor, d, lock, r, o, ids, now);
    } else {
      FirstRevisionIsSound(cfg, db, actor, d, lock, r, o, ids, now);
    }
  }

  /** A decision in a chain cannot be deleted, not even while it is a draft successor. */
  lemma ChainedDecisionsStay(db: Db, actor: Id, workspace: Id, d: Id, r: Id)
    requires r in db.revisions && d in {db.revisions[r].root, db.revisions[r].predecessor, db.revisions[r].successor}
    ensures DeleteDecision(db, actor, workspace, d).Refused?
  {
    hide Governance.VotingKeys, Governance.LockKeys, Governance.RevisionKeys, Governance.OutboxKeys, Governance.Checks;
    var next := CascadeDecision(db, d);
    assert !RevisionReferences(next, next.revisions[r]);
    assert !ForeignKeys(next);
  }
}
