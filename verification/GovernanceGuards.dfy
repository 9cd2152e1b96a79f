/**
  Who may do what to the governance tables, and what it changes: a reference in terms of rows alone.

  `Permitted` and `Effect` use none of the functions that model the services.  `GovernanceEffects` proves that in every
  reachable state a call commits exactly when it is permitted, and then has its effect.
 */
module GovernanceGuards {
  import opened Options
  import opened Governance
  import opened GovernanceRuns
  import J = CanonicalJson

  // ---------------------------------------------------------------- roles and rows

  const MANAGERS: set<Role> := {Owner, Admin}
  const WRITERS: set<Role> := {Owner, Admin, Member}

  ghost predicate HasRole(db: Db, w: Id, user: Id, roles: set<Role>) {
    (w, user) in db.members && db.members[(w, user)] in roles
  }

  ghost predicate IsInWorkspace(db: Db, w: Id, user: Id) {
    (w, user) in db.members
  }

  /** A manager, or a member who wrote the row. */
  ghost predicate MayEdit(db: Db, w: Id, user: Id, author: Id) {
    HasRole(db, w, user, MANAGERS) || (HasRole(db, w, user, {Member}) && user == author)
  }

  ghost predicate DecisionIs(db: Db, w: Id, d: Id, statuses: set<DecisionStatus>) {
    d in db.decisions && db.decisions[d].workspace == w && db.decisions[d].status in statuses
  }

  /** Proposals and objections may change only while their decision is open to change. */
  const OPEN_TO_CHANGE: set<DecisionStatus> := {DecisionStatus.Draft, DecisionStatus.Active}

  ghost predicate ProposalIs(db: Db, d: Id, p: Id, statuses: set<ProposalStatus>) {
    p in db.proposals && db.proposals[p].decision == d && db.proposals[p].status in statuses
  }

  ghost predicate SessionIs(db: Db, d: Id, s: Id, statuses: set<SessionStatus>) {
    s in db.sessions && db.sessions[s].decision == d && db.sessions[s].status in statuses
  }

  ghost predicate ReviewIsScheduled(db: Db, d: Id, r: Id) {
    r in db.reviews && db.reviews[r].decision == d && db.reviews[r].status.Scheduled?
  }

  ghost predicate IsPast(at: Option<Time>, now: Time) {
    at.Some? && at.value <= now
  }

  /** An open blocking objection to some proposal of the decision. */
  ghost predicate Blocked(db: Db, d: Id) {
    exists o <- db.objections, p <- db.proposals ::
      && db.objections[o].proposal == p && db.proposals[p].decision == d
      && db.objections[o].severity == Blocking && db.objections[o].status == ObjectionStatus.Open
  }

  ghost predicate Before(a: Option<Time>, b: Option<Time>) {
    a.None? || b.None? || a.value < b.value
  }

  /** A column that an edit may carry. */
  ghost predicate Edited<T>(edit: Option<T>, before: T, after: T) {
    match edit
    case None => after == before
    case Some(value) => after == value
  }

  // ---------------------------------------------------------------- decisions

  ghost predicate MovesTo(a: DecisionStatus, b: DecisionStatus) {
    || (a.Draft? && (b.Active? || b.Archived?))
    || (a.Active? && (b.Closed? || b.Archived?))
    || (a.Closed? && (b.Active? || b.Archived?))
  }

  /** No row that survives the cascade names the decision. */
  ghost predicate Unreferenced(db: Db, d: Id) {
    && (forall r <- db.reviews :: db.reviews[r].decision != d)
    && (forall r <- db.revisions ::
          d != db.revisions[r].root && d != db.revisions[r].predecessor && d != db.revisions[r].successor)
  }

  ghost predicate DecisionPermitted(db: Db, a: Id, w: Id, c: DecisionCall) {
    match c
    case CreateD(id, _) => HasRole(db, w, a, WRITERS) && id !in db.decisions
    case UpdateD(d, edit) =>
      && HasRole(db, w, a, WRITERS) && DecisionIs(db, w, d, OPEN_TO_CHANGE)
      && Before(if edit.dueAt.Some? then edit.dueAt.value else db.decisions[d].dueAt,
                if edit.reviewAt.Some? then edit.reviewAt.value else db.decisions[d].reviewAt)
    case TransitionD(d, target, event, _) =>
      && HasRole(db, w, a, WRITERS) && d in db.decisions && db.decisions[d].workspace == w
      && MovesTo(db.decisions[d].status, target)
      && (db.decisions[d].status.Draft? && target.Active? ==> event !in db.outbox)
    case DeleteD(d) => HasRole(db, w, a, MANAGERS) && DecisionIs(db, w, d, {DecisionStatus.Draft}) && Unreferenced(db, d)
  }

  ghost predicate DecisionEffect(db: Db, a: Id, w: Id, c: DecisionCall, next: Db) {
    match c
    case CreateD(id, row) =>
      && id in next.decisions && next == db.(decisions := db.decisions[id := next.decisions[id]])
      && IsNewDraft(next.decisions[id], w, a)
      && next.decisions[id].title == row.title && next.decisions[id].summary == row.summary
      && next.decisions[id].category == row.category
      && next.decisions[id].dueAt == row.dueAt && next.decisions[id].reviewAt == row.reviewAt
    case UpdateD(d, edit) =>
      && d in db.decisions && d in next.decisions && next == db.(decisions := db.decisions[d := next.decisions[d]])
      && (var x, y := db.decisions[d], next.decisions[d];
          && Edited(edit.title, x.title, y.title) && Edited(edit.summary, x.summary, y.summary)
          && Edited(edit.category, x.category, y.category)
          && Edited(edit.dueAt, x.dueAt, y.dueAt) && Edited(edit.reviewAt, x.reviewAt, y.reviewAt)
          && y.workspace == x.workspace && y.createdBy == x.createdBy && y.status == x.status
          && y.closedAt == x.closedAt && y.archivedAt == x.archivedAt && y.lockedAt == x.lockedAt)
    case TransitionD(d, target, event, now) =>
      && d in db.decisions && d in next.decisions
      && next == db.(decisions := db.decisions[d := next.decisions[d]], outbox := next.outbox)
      && next.outbox == (if db.decisions[d].status.Draft? && target.Active?
                         then db.outbox[event := OutboxRow(DecisionActivated, d)] else db.outbox)
      && (var x, y := db.decisions[d], next.decisions[d];
          && SameDecisionText(x, y) && y.status == target && y.lockedAt == x.lockedAt
          && y.closedAt == (if target.Closed? then Some(now) else None)
          && y.archivedAt == (if target.Archived? then Some(now) else None))
    case DeleteD(d) =>
      && next == db.(decisions := db.decisions - {d}, proposals := next.proposals, objections := next.objections)
      && (forall p: Id :: p in next.proposals <==> p in db.proposals && db.proposals[p].decision != d)
      && (forall p <- next.proposals :: next.proposals[p] == db.proposals[p])
      && (forall o: Id :: o in next.objections <==> o in db.objections && db.objections[o].proposal in next.proposals)
      && (forall o <- next.objections :: next.objections[o] == db.objections[o])
  }

  ghost predicate IsNewDraft(row: Decision, w: Id, author: Id) {
    && row.workspace == w && row.createdBy == author && row.status.Draft?
    && row.closedAt.None? && row.archivedAt.None? && row.lockedAt.None?
  }

  ghost predicate SameDecisionText(x: Decision, y: Decision) {
    && y.workspace == x.workspace && y.createdBy == x.createdBy && y.title == x.title && y.summary == x.summary
    && y.category == x.category && y.dueAt == x.dueAt && y.reviewAt == x.reviewAt
  }

  // ---------------------------------------------------------------- proposals

  ghost predicate ProposalMovesTo(a: ProposalStatus, b: ProposalStatus) {
    (a.Draft? && (b.Submitted? || b.Withdrawn?)) || (a.Submitted? && (b.Draft? || b.Withdrawn?))
  }

  ghost predicate ProposalEditable(db: Db, a: Id, w: Id, d: Id, p: Id) {
    && DecisionIs(db, w, d, OPEN_TO_CHANGE) && p in db.proposals && db.proposals[p].decision == d
    && MayEdit(db, w, a, db.proposals[p].createdBy)
  }

  ghost predicate ProposalPermitted(db: Db, a: Id, w: Id, d: Id, c: ProposalCall) {
    match c
    case CreateP(id, _, _, _) => HasRole(db, w, a, WRITERS) && DecisionIs(db, w, d, OPEN_TO_CHANGE) && id !in db.proposals
    case UpdateP(p, _) => ProposalEditable(db, a, w, d, p) && db.proposals[p].status.Draft?
    case TransitionP(p, target, _) => ProposalEditable(db, a, w, d, p) && ProposalMovesTo(db.proposals[p].status, target)
    case DeleteP(p) => ProposalEditable(db, a, w, d, p) && db.proposals[p].status.Draft? && forall b <- db.ballots :: b.1 != p
  }

  ghost predicate ProposalEffect(db: Db, a: Id, d: Id, c: ProposalCall, next: Db) {
    match c
    case CreateP(id, title, summary, content) =>
      && id in next.proposals && next == db.(proposals := db.proposals[id := next.proposals[id]])
      && (var y := next.proposals[id];
          && y.decision == d && y.createdBy == a && y.title == title && y.summary == summary && y.content == content
          && y.status.Draft? && y.submittedAt.None? && y.withdrawnAt.None?)
    case UpdateP(p, edit) =>
      && p in db.proposals && p in next.proposals && next == db.(proposals := db.proposals[p := next.proposals[p]])
      && (var x, y := db.proposals[p], next.proposals[p];
          && Edited(edit.title, x.title, y.title) && Edited(edit.summary, x.summary, y.summary)
          && Edited(edit.content, x.content, y.content)
          && y.decision == x.decision && y.createdBy == x.createdBy && y.status == x.status
          && y.submittedAt == x.submittedAt && y.withdrawnAt == x.withdrawnAt)
    case TransitionP(p, target, now) =>
      && p in db.proposals && p in next.proposals && next == db.(proposals := db.proposals[p := next.proposals[p]])
      && (var x, y := db.proposals[p], next.proposals[p];
          && y.title == x.title && y.summary == x.summary && y.content == x.content
          && y.decision == x.decision && y.createdBy == x.createdBy && y.status == target
          && y.submittedAt == (if target.Submitted? then Some(now) else None)
          && y.withdrawnAt == (if target.Withdrawn? then Some(now) else None))
    case DeleteP(p) =>
      && next == db.(proposals := db.proposals - {p}, objections := next.objections)
      && (forall o: Id :: o in next.objections <==> o in db.objections && db.objections[o].proposal != p)
      && (forall o <- next.objections :: next.objections[o] == db.objections[o])
  }

  // ---------------------------------------------------------------- objections

  ghost predicate ObjectionOpenTo(db: Db, w: Id, d: Id, p: Id, o: Id) {
    && DecisionIs(db, w, d, OPEN_TO_CHANGE) && p in db.proposals && db.proposals[p].decision == d
    && o in db.objections && db.objections[o].proposal == p
  }

  ghost predicate ObjectionPermitted(db: Db, a: Id, w: Id, d: Id, p: Id, c: ObjectionCall) {
    match c
    case CreateO(id, _, _, _, _) =>
      && HasRole(db, w, a, WRITERS) && DecisionIs(db, w, d, OPEN_TO_CHANGE)
      && ProposalIs(db, d, p, {ProposalStatus.Submitted}) && id !in db.objections
    case UpdateO(o, _) =>
      ObjectionOpenTo(db, w, d, p, o) && db.objections[o].status.Open? && MayEdit(db, w, a, db.objections[o].createdBy)
    case TransitionO(o, target, _, _) =>
      && ObjectionOpenTo(db, w, d, p, o) && (db.objections[o].status.Open? <==> !target.Open?)
      && MayEdit(db, w, a, db.objections[o].createdBy) && (target.Dismissed? ==> HasRole(db, w, a, MANAGERS))
  }

  ghost predicate ObjectionEffect(db: Db, a: Id, p: Id, c: ObjectionCall, next: Db) {
    match c
    case CreateO(id, severity, title, description, now) =>
      && id in next.objections && next == db.(objections := db.objections[id := next.objections[id]])
      && (var y := next.objections[id];
          && y.proposal == p && y.createdBy == a && y.severity == severity && y.title == title && y.description == description
          && y.status.Open? && y.note.None? && y.resolvedBy.None? && y.resolvedAt.None? && y.createdAt == now)
    case UpdateO(o, edit) =>
      && o in db.objections && o in next.objections && next == db.(objections := db.objections[o := next.objections[o]])
      && (var x, y := db.objections[o], next.objections[o];
          && Edited(edit.severity, x.severity, y.severity) && Edited(edit.title, x.title, y.title)
          && Edited(edit.description, x.description, y.description)
          && SameObjectionOrigin(x, y) && y.status == x.status
          && y.note == x.note && y.resolvedBy == x.resolvedBy && y.resolvedAt == x.resolvedAt)
    case TransitionO(o, target, note, now) =>
      && o in db.objections && o in next.objections && next == db.(objections := db.objections[o := next.objections[o]])
      && (var x, y := db.objections[o], next.objections[o];
          && SameObjectionOrigin(x, y) && y.severity == x.severity && y.title == x.title && y.description == x.description
          && y.status == target
          && (target.Open? ==> y.note.None? && y.resolvedBy.None? && y.resolvedAt.None?)
          && (!target.Open? ==> y.note == Some(note) && y.resolvedBy == Some(a) && y.resolvedAt == Some(now)))
  }

  ghost predicate SameObjectionOrigin(x: Objection, y: Objection) {
    y.proposal == x.proposal && y.createdBy == x.createdBy && y.createdAt == x.createdAt
  }

  // ---------------------------------------------------------------- voting

  ghost predicate MayManage(db: Db, a: Id, w: Id, d: Id) {
    HasRole(db, w, a, MANAGERS) && d in db.decisions && db.decisions[d].workspace == w
  }

  ghost predicate VotingPermitted(db: Db, a: Id, w: Id, d: Id, c: VotingCall) {
    match c
    case CreateS(id, quorum, _) =>
      && HasRole(db, w, a, MANAGERS) && DecisionIs(db, w, d, {DecisionStatus.Active}) && id !in db.sessions && 1 <= quorum <= 100
      && (forall s <- db.sessions :: db.sessions[s].decision == d ==> db.sessions[s].status in {SessionStatus.Closed, SessionStatus.Cancelled})
    case OpenS(s, event, now) =>
      && HasRole(db, w, a, MANAGERS) && DecisionIs(db, w, d, {DecisionStatus.Active}) && SessionIs(db, d, s, {SessionStatus.Draft})
      && !IsPast(db.sessions[s].closesAt, now) && !Blocked(db, d) && event !in db.outbox
      && (exists p: Id, q: Id :: p != q && ProposalIs(db, d, p, {ProposalStatus.Submitted}) && ProposalIs(db, d, q, {ProposalStatus.Submitted}))
    case CastS(s, id, p, now) =>
      && IsInWorkspace(db, w, a) && d in db.decisions && db.decisions[d].workspace == w && SessionIs(db, d, s, {SessionStatus.Open})
      && !IsPast(db.sessions[s].closesAt, now) && (s, a) in db.voters && (s, p) in db.ballots && id !in db.votes
      && (forall v <- db.votes :: !(db.votes[v].session == s && db.votes[v].voter == a))
    case CloseS(s, event, _) => MayManage(db, a, w, d) && SessionIs(db, d, s, {SessionStatus.Open}) && event !in db.outbox
    case CancelS(s, _) => MayManage(db, a, w, d) && SessionIs(db, d, s, {SessionStatus.Draft, SessionStatus.Open})
  }

  ghost predicate SameSessionTerms(x: Session, y: Session) {
    y.decision == x.decision && y.createdBy == x.createdBy && y.quorum == x.quorum && y.closesAt == x.closesAt
  }

  /** The electorate of a workspace: its owners, admins and members. */
  ghost predicate IsElectorate(db: Db, w: Id, users: set<Id>) {
    forall u: Id :: u in users <==> HasRole(db, w, u, WRITERS)
  }

  ghost predicate OpeningEffect(db: Db, w: Id, d: Id, s: Id, event: Id, now: Time, next: Db) {
    && s in db.sessions && s in next.sessions
    && next == db.(sessions := db.sessions[s := next.sessions[s]], voters := next.voters, ballots := next.ballots,
                   outbox := db.outbox[event := OutboxRow(VotingOpened, s)])
    && (forall t: Id, u: Id :: (t, u) in next.voters <==> (t, u) in db.voters || (t == s && HasRole(db, w, u, WRITERS)))
    && (forall t: Id, p: Id :: (t, p) in next.ballots <==> (t, p) in db.ballots || (t == s && ProposalIs(db, d, p, {ProposalStatus.Submitted})))
    && (var x, y := db.sessions[s], next.sessions[s];
        && SameSessionTerms(x, y) && y.status.Open? && y.openedAt == Some(now) && y.closedAt.None? && y.cancelledAt.None?
        && exists users: set<Id> :: IsElectorate(db, w, users) && y.eligibleCount == |users|)
  }

  ghost predicate VotingEffect(db: Db, a: Id, w: Id, d: Id, c: VotingCall, next: Db) {
    match c
    case CreateS(id, quorum, closesAt) =>
      && id in next.sessions && next == db.(sessions := db.sessions[id := next.sessions[id]])
      && (var y := next.sessions[id];
          && y.decision == d && y.createdBy == a && y.status.Draft? && y.quorum == quorum && y.closesAt == closesAt
          && y.openedAt.None? && y.closedAt.None? && y.cancelledAt.None?)
    case OpenS(s, event, now) => OpeningEffect(db, w, d, s, event, now, next)
    case CastS(s, id, p, now) =>
      && id in next.votes && next == db.(votes := db.votes[id := next.votes[id]])
      && next.votes[id].session == s && next.votes[id].voter == a && next.votes[id].proposal == p
    case CloseS(s, event, now) =>
      && s in db.sessions && s in next.sessions
      && next == db.(sessions := db.sessions[s := next.sessions[s]], outbox := db.outbox[event := OutboxRow(VotingClosed, s)])
      && (var x, y := db.sessions[s], next.sessions[s];
          && SameSessionTerms(x, y) && y.eligibleCount == x.eligibleCount && y.openedAt == x.openedAt
          && y.status.Closed? && y.closedAt == Some(now) && y.cancelledAt.None?)
    case CancelS(s, now) =>
      && s in db.sessions && s in next.sessions && next == db.(sessions := db.sessions[s := next.sessions[s]])
      && (var x, y := db.sessions[s], next.sessions[s];
          && SameSessionTerms(x, y) && y.eligibleCount == x.eligibleCount && y.openedAt == x.openedAt
          && y.status.Cancelled? && y.cancelledAt == Some(now) && y.closedAt.None?)
  }

  // ---------------------------------------------------------------- locks and exports

  function VotesIn(db: Db, s: Id): set<Id> {
    set v <- db.votes | db.votes[v].session == s
  }

  function VotesInFor(db: Db, s: Id, p: Id): set<Id> {
    set v <- db.votes | db.votes[v].session == s && db.votes[v].proposal == p
  }

  /** The votes cast meet the quorum, and `p` has more of them than any other option. */
  ghost predicate WinsOutright(db: Db, s: Id, p: Id)
    requires s in db.sessions
  {
    && db.sessions[s].eligibleCount * db.sessions[s].quorum <= 100 * |VotesIn(db, s)|
    && (s, p) in db.ballots && |VotesInFor(db, s, p)| >= 1
    && forall q: Id :: (s, q) in db.ballots && q != p ==> |VotesInFor(db, s, q)| < |VotesInFor(db, s, p)|
  }

  ghost predicate LockPermitted(db: Db, a: Id, w: Id, d: Id, s: Id, id: Id, event: Id) {
    && HasRole(db, w, a, MANAGERS) && DecisionIs(db, w, d, {DecisionStatus.Active}) && !Blocked(db, d)
    && SessionIs(db, d, s, {SessionStatus.Closed}) && id !in db.locks && event !in db.outbox
    && exists p: Id :: WinsOutright(db, s, p) && ProposalIs(db, d, p, {ProposalStatus.Submitted})
  }

  ghost predicate LockEffect(cfg: Config, db: Db, a: Id, d: Id, s: Id, id: Id, event: Id, now: Time, next: Db) {
    && d in db.decisions && d in next.decisions && id in next.locks && s in db.sessions
    && next == db.(decisions := db.decisions[d := next.decisions[d]], locks := db.locks[id := next.locks[id]],
                   outbox := db.outbox[event := OutboxRow(DecisionLocked, id)])
    && (var x, y := db.decisions[d], next.decisions[d];
        && SameDecisionText(x, y) && y.archivedAt == x.archivedAt
        && y.status.Locked? && y.closedAt == Some(now) && y.lockedAt == Some(now))
    && (var k := next.locks[id];
        && k.decision == d && k.session == s && k.lockedBy == a && k.lockedAt == now
        && WinsOutright(db, s, k.winner) && k.documentHash == cfg.digest(J.Text(k.snapshot)))
  }

  ghost predicate IsExported(db: Db, l: Id) {
    exists e <- db.exports :: db.exports[e].sourceLock == l
  }

  ghost predicate ExportPermitted(db: Db, a: Id, w: Id, d: Id, id: Id) {
    && HasRole(db, w, a, WRITERS) && d in db.decisions && db.decisions[d].workspace == w
    && exists l <- db.locks :: db.locks[l].decision == d && (IsExported(db, l) || id !in db.exports)
  }

  ghost predicate ExportEffect(db: Db, d: Id, id: Id, next: Db) {
    exists l <- db.locks :: db.locks[l].decision == d &&
      if IsExported(db, l) then next == db
      else next == db.(exports := db.exports[id := Export(d, l, db.locks[l].documentHash)])
  }

  // ---------------------------------------------------------------- reviews and revisions

  ghost predicate HasNext(db: Db, d: Id) {
    exists q <- db.revisions :: db.revisions[q].predecessor == d
  }

  ghost predicate ReviewPermitted(db: Db, a: Id, w: Id, d: Id, c: ReviewCall) {
    && HasRole(db, w, a, MANAGERS) && DecisionIs(db, w, d, {DecisionStatus.Locked})
    && match c
       case CreateR(id, scheduledFor, now) => now < scheduledFor && id !in db.reviews && forall r <- db.reviews :: !ReviewIsScheduled(db, d, r)
       case RescheduleR(r, scheduledFor, now) => ReviewIsScheduled(db, d, r) && now < scheduledFor
       case CancelR(r, _) => ReviewIsScheduled(db, d, r)
       case CompleteR(r, o, ids, now) =>
         && ReviewIsScheduled(db, d, r) && db.reviews[r].scheduledFor <= now
         && (!o.outcome.Confirmed? ==> ids.successor !in db.decisions && ids.revision !in db.revisions && !HasNext(db, d))
  }

  /** Only one review changes, and it stays a review of the same decision that the same user scheduled. */
  ghost predicate ReviewChanges(db: Db, r: Id, next: Db) {
    && r in db.reviews && r in next.reviews
    && next.reviews == db.reviews[r := next.reviews[r]]
    && next.reviews[r].decision == db.reviews[r].decision && next.reviews[r].scheduledBy == db.reviews[r].scheduledBy
  }

  /** The row of a completed review. */
  ghost predicate Completes(x: Review, y: Review, outcome: ReviewOutcome, now: Time) {
    && y.scheduledFor == x.scheduledFor && y.status.Completed? && y.outcome == Some(outcome)
    && y.completedAt == Some(now) && y.cancelledAt.None?
  }

  /** The links of one root. */
  function LinksOf(db: Db, root: Id): set<Id> {
    set r <- db.revisions | db.revisions[r].root == root
  }

  /** Where the chain of `d` starts: where the link to `d` says, or at `d`. */
  ghost predicate IsRootOf(db: Db, d: Id, root: Id) {
    && (forall q <- db.revisions :: db.revisions[q].successor == d ==> root == db.revisions[q].root)
    && ((forall q <- db.revisions :: db.revisions[q].successor != d) ==> root == d)
  }

  ghost predicate RevisionEffect(db: Db, a: Id, d: Id, r: Id, o: Outcome, ids: NewIds, next: Db)
    requires d in db.decisions
  {
    && ids.successor in next.decisions && ids.revision in next.revisions
    && (var x, y := db.decisions[d], next.decisions[ids.successor];
        && IsNewDraft(y, x.workspace, a) && y.dueAt.None? && y.reviewAt.None?
        && Edited(o.title, x.title, y.title) && Edited(o.category, x.category, y.category)
        && (if o.summary.Some? then y.summary == o.summary else y.summary == x.summary))
    && (var k := next.revisions[ids.revision];
        && k.predecessor == d && k.successor == ids.successor && k.review == r && k.outcome == o.outcome
        && k.sourceLock in db.locks && db.locks[k.sourceLock].decision == d
        && IsRootOf(db, d, k.root) && k.number == |LinksOf(db, k.root)| + 1)
  }

  ghost predicate ReviewEffect(db: Db, a: Id, d: Id, c: ReviewCall, next: Db) {
    match c
    case CreateR(id, scheduledFor, _) =>
      && id in next.reviews && next == db.(reviews := db.reviews[id := next.reviews[id]])
      && (var y := next.reviews[id];
          && y.decision == d && y.scheduledBy == a && y.scheduledFor == scheduledFor && y.status.Scheduled?
          && y.outcome.None? && y.completedAt.None? && y.cancelledAt.None?)
    case RescheduleR(r, scheduledFor, _) =>
      && next == db.(reviews := next.reviews) && ReviewChanges(db, r, next)
      && next.reviews[r].scheduledFor == scheduledFor && next.reviews[r].status.Scheduled?
      && next.reviews[r].outcome.None? && next.reviews[r].completedAt.None? && next.reviews[r].cancelledAt.None?
    case CancelR(r, now) =>
      && next == db.(reviews := next.reviews) && ReviewChanges(db, r, next)
      && next.reviews[r].scheduledFor == db.reviews[r].scheduledFor && next.reviews[r].status.Cancelled?
      && next.reviews[r].outcome.None? && next.reviews[r].completedAt.None? && next.reviews[r].cancelledAt == Some(now)
    case CompleteR(r, o, ids, now) =>
      && ReviewChanges(db, r, next) && Completes(db.reviews[r], next.reviews[r], o.outcome, now)
      && d in db.decisions
      && if o.outcome.Confirmed? then next == db.(reviews := next.reviews)
         else
           && next == db.(reviews := next.reviews, decisions := next.decisions, revisions := next.revisions)
           && RevisionEffect(db, a, d, r, o, ids, next)
           && next.decisions == db.decisions[ids.successor := next.decisions[ids.successor]]
           && next.revisions == db.revisions[ids.revision := next.revisions[ids.revision]]
  }

  // ---------------------------------------------------------------- all calls

  ghost predicate Permitted(db: Db, c: Call) {
    match c.request
    case OnMember(_, _) => true
    case OnDecision(r) => DecisionPermitted(db, c.actor, c.workspace, r)
    case OnProposal(d, r) => ProposalPermitted(db, c.actor, c.workspace, d, r)
    case OnObjection(d, p, r) => ObjectionPermitted(db, c.actor, c.workspace, d, p, r)
    case OnVoting(d, r) => VotingPermitted(db, c.actor, c.workspace, d, r)
    case OnReview(d, r) => ReviewPermitted(db, c.actor, c.workspace, d, r)
    case OnLock(d, s, id, event, _, _) => LockPermitted(db, c.actor, c.workspace, d, s, id, event)
    case OnExport(d, id) => ExportPermitted(db, c.actor, c.workspace, d, id)
  }

  ghost predicate MemberEffect(db: Db, w: Id, user: Id, role: Option<Role>, next: Db) {
    && next == db.(members := next.members)
    && (forall m: (Id, Id) :: m != (w, user) ==> (m in next.members <==> m in db.members))
    && (forall m: (Id, Id) :: m != (w, user) && m in db.members && m in next.members ==> next.members[m] == db.members[m])
    && (role.None? ==> (w, user) !in next.members)
    && (role.Some? ==> (w, user) in next.members && next.members[(w, user)] == role.value)
  }

  ghost predicate Effect(cfg: Config, db: Db, c: Call, next: Db) {
    match c.request
    case OnMember(user, role) => MemberEffect(db, c.workspace, user, role, next)
    case OnDecision(r) => DecisionEffect(db, c.actor, c.workspace, r, next)
    case OnProposal(d, r) => ProposalEffect(db, c.actor, d, r, next)
    case OnObjection(d, p, r) => ObjectionEffect(db, c.actor, p, r, next)
    case OnVoting(d, r) => VotingEffect(db, c.actor, c.workspace, d, r, next)
    case OnReview(d, r) => ReviewEffect(db, c.actor, d, r, next)
    case OnLock(d, s, id, event, now, _) => LockEffect(cfg, db, c.actor, d, s, id, event, now, next)
    case OnExport(d, id) => ExportEffect(db, d, id, next)
  }
}
