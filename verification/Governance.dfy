/**
  The decision-governance tables and the service calls that change them.

  A call is a function from the tables to an `Attempt`: the new tables when its transaction
  commits, or the error it raised, in which case nothing changed.  `Commit` refuses a
  transaction that would break a key, a foreign key or a check of the schema.
  Class `GovernanceStore.Store` performs the same calls in place.
 */
module Governance {
  import opened Options
  import opened Ordering
  import opened VotingMath
  import J = CanonicalJson

  type Id = nat
  type Time = nat

  datatype Role = Owner | Admin | Member | Viewer

  datatype Category = Technology | Architecture | Delivery | TeamProcess | Other

  datatype DecisionStatus = Draft | Active | Closed | Locked | Archived

  datatype ProposalStatus = Draft | Submitted | Withdrawn

  datatype Severity = Informational | Major | Blocking

  datatype ObjectionStatus = Open | Resolved | Dismissed

  datatype SessionStatus = Draft | Open | Closed | Cancelled

  datatype ReviewStatus = Scheduled | Completed | Cancelled

  datatype ReviewOutcome = Confirmed | Reopened | Superseded

  datatype EventType = DecisionActivated | VotingOpened | VotingClosed | DecisionLocked

  // ---------------------------------------------------------------- rows

  datatype Decision = Decision(
    workspace: Id, createdBy: Id, title: string, summary: Option<string>, category: Category,
    status: DecisionStatus, dueAt: Option<Time>, reviewAt: Option<Time>,
    closedAt: Option<Time>, archivedAt: Option<Time>, lockedAt: Option<Time>)

  datatype Proposal = Proposal(
    decision: Id, createdBy: Id, title: string, summary: Option<string>, content: Option<string>,
    status: ProposalStatus, submittedAt: Option<Time>, withdrawnAt: Option<Time>)

  datatype Objection = Objection(
    proposal: Id, createdBy: Id, severity: Severity, status: ObjectionStatus, title: string, description: string,
    note: Option<string>, resolvedBy: Option<Id>, resolvedAt: Option<Time>, createdAt: Time)

  datatype Session = Session(
    decision: Id, createdBy: Id, status: SessionStatus, quorum: nat, eligibleCount: nat,
    openedAt: Option<Time>, closesAt: Option<Time>, closedAt: Option<Time>, cancelledAt: Option<Time>)

  datatype Vote = Vote(session: Id, voter: Id, proposal: Id)

  datatype Lock = Lock(
    decision: Id, session: Id, winner: Id, lockedBy: Id, snapshot: J.Json, documentHash: string, lockedAt: Time)

  datatype Review = Review(
    decision: Id, scheduledBy: Id, scheduledFor: Time, status: ReviewStatus,
    outcome: Option<ReviewOutcome>, completedAt: Option<Time>, cancelledAt: Option<Time>)

  datatype Revision = Revision(
    root: Id, predecessor: Id, successor: Id, sourceLock: Id, review: Id, number: nat, outcome: ReviewOutcome)

  datatype OutboxRow = OutboxRow(event: EventType, subject: Id)

  datatype Export = Export(decision: Id, sourceLock: Id, documentHash: string)

  datatype Db = Db(
    members: map<(Id, Id), Role>,          // (workspace, user)
    decisions: map<Id, Decision>,
    proposals: map<Id, Proposal>,
    objections: map<Id, Objection>,
    sessions: map<Id, Session>,
    voters: set<(Id, Id)>,                 // (session, user) snapshotted when the session opened
    ballots: set<(Id, Id)>,                // (session, proposal) snapshotted when the session opened
    votes: map<Id, Vote>,
    locks: map<Id, Lock>,
    reviews: map<Id, Review>,
    revisions: map<Id, Revision>,
    outbox: map<Id, OutboxRow>,
    exports: map<Id, Export>)

  const EMPTY := Db(map[], map[], map[], map[], map[], {}, {}, map[], map[], map[], map[], map[], map[])

  /** What the model leaves open: the digest and the rule that `round` follows on ties. */
  datatype Config = Config(digest: string -> string, round: Rounding)

  datatype Error =
    | WorkspaceNotFound | DecisionNotFound | DecisionAccessDenied | DecisionImmutable | DecisionInvalidTransition
    | ProposalNotFound | ProposalAccessDenied | ProposalImmutable | ProposalInvalidTransition
    | ObjectionNotFound | ObjectionAccessDenied | ObjectionImmutable | ObjectionInvalidTransition
    | SessionNotFound | VotingAccessDenied | VotingConflict | VotingInvalidTransition | VotingIsClosed
    | VotingBlockedByObjections | VotingResultUnavailable | VoteAlreadyCast
    | LockAccessDenied | LockConflict | LockInvalidResult | LockNotFound
    | ReviewAccessDenied | ReviewNotFound | ReviewInvalidSchedule | ReviewConflict | ReviewNotDue | ReviewOutcomeInvalid
    | ExportAccessDenied
    | IntegrityRejected  // an integrity error that the service does not translate

  // ---------------------------------------------------------------- schema

  predicate ForeignKeys(db: Db) {
    && (forall p <- db.proposals :: db.proposals[p].decision in db.decisions)
    && (forall o <- db.objections :: db.objections[o].proposal in db.proposals)
    && (forall s <- db.sessions :: db.sessions[s].decision in db.decisions)
    && (forall v <- db.voters :: v.0 in db.sessions)
    && (forall b <- db.ballots :: b.0 in db.sessions && b.1 in db.proposals)
    && (forall v <- db.votes :: db.votes[v].session in db.sessions && db.votes[v].proposal in db.proposals)
    && (forall l <- db.locks ::
          db.locks[l].decision in db.decisions && db.locks[l].session in db.sessions && db.locks[l].winner in db.proposals)
    && (forall r <- db.reviews :: db.reviews[r].decision in db.decisions)
    && (forall r <- db.revisions :: RevisionReferences(db, db.revisions[r]))
    && (forall e <- db.exports :: db.exports[e].sourceLock in db.locks)
  }

  predicate RevisionReferences(db: Db, r: Revision) {
    && r.root in db.decisions && r.predecessor in db.decisions && r.successor in db.decisions
    && r.sourceLock in db.locks && r.review in db.reviews
  }

  predicate Unfinished(s: Session) {
    s.status.Draft? || s.status.Open?
  }

  predicate VotingKeys(sessions: map<Id, Session>, votes: map<Id, Vote>) {
    && (forall s <- sessions, t <- sessions ::
          Unfinished(sessions[s]) && Unfinished(sessions[t]) && sessions[s].decision == sessions[t].decision ==> s == t)
    && (forall v <- votes, w <- votes ::
          votes[v].session == votes[w].session && votes[v].voter == votes[w].voter ==> v == w)
  }

  predicate LockKeys(locks: map<Id, Lock>, exports: map<Id, Export>) {
    && (forall l <- locks, m <- locks :: locks[l].decision == locks[m].decision ==> l == m)
    && (forall l <- locks, m <- locks :: locks[l].session == locks[m].session ==> l == m)
    && (forall e <- exports, f <- exports :: exports[e].sourceLock == exports[f].sourceLock ==> e == f)
  }

  predicate RevisionKeys(reviews: map<Id, Review>, revisions: map<Id, Revision>) {
    && (forall r <- reviews, q <- reviews ::
          reviews[r].status.Scheduled? && reviews[q].status.Scheduled? && reviews[r].decision == reviews[q].decision ==> r == q)
    && (forall r <- revisions, q <- revisions ::
          revisions[r].root == revisions[q].root && revisions[r].number == revisions[q].number ==> r == q)
    && (forall r <- revisions, q <- revisions :: revisions[r].predecessor == revisions[q].predecessor ==> r == q)
    && (forall r <- revisions, q <- revisions :: revisions[r].successor == revisions[q].successor ==> r == q)
    && (forall r <- revisions, q <- revisions :: revisions[r].review == revisions[q].review ==> r == q)
  }

  predicate OutboxKeys(outbox: map<Id, OutboxRow>) {
    forall e <- outbox, f <- outbox :: outbox[e] == outbox[f] ==> e == f
  }

  predicate Checks(db: Db) {
    && (forall d <- db.decisions :: db.decisions[d].status.Locked? <==> db.decisions[d].lockedAt.Some?)
    && (forall o <- db.objections :: ObjectionCheck(db.objections[o]))
    && (forall s <- db.sessions :: SessionCheck(db.sessions[s]))
    && (forall r <- db.reviews :: ReviewCheck(db.reviews[r]))
    && (forall r <- db.revisions :: db.revisions[r].number >= 1 && !db.revisions[r].outcome.Confirmed?)
  }

  predicate ObjectionCheck(o: Objection) {
    && (o.status.Open? <==> o.note.None?)
    && (o.status.Open? <==> o.resolvedBy.None?)
    && (o.status.Open? <==> o.resolvedAt.None?)
  }

  predicate SessionCheck(s: Session) {
    && 1 <= s.quorum <= 100
    && match s.status
       case Draft => s.openedAt.None? && s.closedAt.None? && s.cancelledAt.None?
       case Open => s.openedAt.Some? && s.closedAt.None? && s.cancelledAt.None?
       case Closed => s.openedAt.Some? && s.closedAt.Some? && s.cancelledAt.None?
       case Cancelled => s.closedAt.None? && s.cancelledAt.Some?
  }

  predicate ReviewCheck(r: Review) {
    && (r.status.Completed? <==> r.outcome.Some?)
    && (r.status.Completed? <==> r.completedAt.Some?)
    && (r.status.Cancelled? <==> r.cancelledAt.Some?)
  }

  predicate Constraints(db: Db) {
    && ForeignKeys(db)
    && VotingKeys(db.sessions, db.votes)
    && LockKeys(db.locks, db.exports)
    && RevisionKeys(db.reviews, db.revisions)
    && OutboxKeys(db.outbox)
    && Checks(db)
  }

  /** The commit at the end of a transaction; an integrity error rolls it back and surfaces as `error`. */
  function Commit(db: Db, error: Error): (a: Attempt<Db, Error>)
    ensures a.Ok? ==> a.value == db && Constraints(db)
    ensures a.Refused? ==> a.error == error && !Constraints(db)
  {
    if Constraints(db) then Ok(db) else Refused(error)
  }

  // ---------------------------------------------------------------- queries

  predicate Manages(role: Role) { role.Owner? || role.Admin? }

  predicate Writes(role: Role) { !role.Viewer? }

  function MemberRole(db: Db, workspace: Id, actor: Id): (a: Attempt<Role, Error>)
    ensures a.Ok? ==> (workspace, actor) in db.members && a.value == db.members[(workspace, actor)]
  {
    if (workspace, actor) in db.members then Ok(db.members[(workspace, actor)]) else Refused(WorkspaceNotFound)
  }

  function FindDecision(db: Db, workspace: Id, d: Id): (a: Attempt<Decision, Error>)
    ensures a.Ok? ==> d in db.decisions && a.value == db.decisions[d]
  {
    if d in db.decisions && db.decisions[d].workspace == workspace then Ok(db.decisions[d]) else Refused(DecisionNotFound)
  }

  function Context(db: Db, actor: Id, workspace: Id, d: Id): (a: Attempt<(Role, Decision), Error>)
    ensures a.Ok? ==> d in db.decisions && a.value.1 == db.decisions[d]
  {
    var role :- MemberRole(db, workspace, actor);
    var row :- FindDecision(db, workspace, d);
    Ok((role, row))
  }

  function FindProposal(db: Db, d: Id, p: Id): (a: Attempt<Proposal, Error>)
    ensures a.Ok? ==> p in db.proposals && a.value == db.proposals[p] && a.value.decision == d
  {
    if p in db.proposals && db.proposals[p].decision == d then Ok(db.proposals[p]) else Refused(ProposalNotFound)
  }

  function FindObjection(db: Db, p: Id, o: Id): (a: Attempt<Objection, Error>)
    ensures a.Ok? ==> o in db.objections && a.value == db.objections[o] && a.value.proposal == p
  {
    if o in db.objections && db.objections[o].proposal == p then Ok(db.objections[o]) else Refused(ObjectionNotFound)
  }

  function FindSession(db: Db, d: Id, s: Id): (a: Attempt<Session, Error>)
    ensures a.Ok? ==> s in db.sessions && a.value == db.sessions[s] && a.value.decision == d
  {
    if s in db.sessions && db.sessions[s].decision == d then Ok(db.sessions[s]) else Refused(SessionNotFound)
  }

  function FindReview(db: Db, d: Id, r: Id): (a: Attempt<Review, Error>)
    ensures a.Ok? ==> r in db.reviews && a.value == db.reviews[r] && a.value.decision == d
  {
    if r in db.reviews && db.reviews[r].decision == d then Ok(db.reviews[r]) else Refused(ReviewNotFound)
  }

  predicate OpenBlocking(db: Db, d: Id) {
    exists o <- db.objections ::
      && db.objections[o].severity.Blocking? && db.objections[o].status.Open?
      && db.objections[o].proposal in db.proposals && db.proposals[db.objections[o].proposal].decision == d
  }

  predicate HasUnfinished(db: Db, d: Id) {
    exists s <- db.sessions :: db.sessions[s].decision == d && Unfinished(db.sessions[s])
  }

  /** `list_voting_eligible_user_ids`; a member has one row per workspace. */
  function EligibleUsers(db: Db, workspace: Id): set<Id> {
    set m <- db.members | m.0 == workspace && Writes(db.members[m]) :: m.1
  }

  function SubmittedProposals(db: Db, d: Id): set<Id> {
    set p <- db.proposals | db.proposals[p].decision == d && db.proposals[p].status.Submitted?
  }

  /** The users or proposals that a snapshot table holds for one session. */
  function RowsOf(rows: set<(Id, Id)>, s: Id): set<Id> {
    set r <- rows | r.0 == s :: r.1
  }

  function VotersOf(db: Db, s: Id): set<Id> { RowsOf(db.voters, s) }

  function BallotOf(db: Db, s: Id): set<Id> { RowsOf(db.ballots, s) }

  function VotesOf(db: Db, s: Id): map<Id, Vote> {
    map v <- db.votes | db.votes[v].session == s :: db.votes[v]
  }

  function ObjectionsOf(db: Db, p: Id): map<Id, Objection> {
    map o <- db.objections | db.objections[o].proposal == p :: db.objections[o]
  }

  function VotesFor(votes: map<Id, Vote>, p: Id): set<Id> {
    set v <- votes | votes[v].proposal == p
  }

  function CountsFor(votes: map<Id, Vote>, ballot: seq<Id>): (counts: seq<Count>)
    ensures |counts| == |ballot|
  {
    if ballot == [] then []
    else [Count(ballot[0], |VotesFor(votes, ballot[0])|)] + CountsFor(votes, ballot[1..])
  }

  /** `get_result` of a closed session: the tally query lists the ballot by proposal id. */
  function Standing(round: Rounding, s: Id, row: Session, votes: map<Id, Vote>, ballot: set<Id>): VotingResult {
    Evaluate(round, s, row.eligibleCount, row.quorum, CountsFor(votes, Ascending(ballot)), |votes|)
  }

  function ResultOf(cfg: Config, db: Db, s: Id): VotingResult
    requires s in db.sessions
  {
    Standing(cfg.round, s, db.sessions[s], VotesOf(db, s), BallotOf(db, s))
  }

  function GetResult(cfg: Config, db: Db, actor: Id, workspace: Id, d: Id, s: Id): (a: Attempt<VotingResult, Error>)
    ensures a.Ok? ==> (&& s in db.sessions && db.sessions[s].decision == d && db.sessions[s].status.Closed?
                       && a.value == ResultOf(cfg, db, s))
  {
    var _ :- Context(db, actor, workspace, d);
    var row :- FindSession(db, d, s);
    :- Need(row.status.Closed?, VotingResultUnavailable);
    Ok(ResultOf(cfg, db, s))
  }

  // ---------------------------------------------------------------- the snapshot document

  function IdJson(id: Id): J.Json { J.Str(J.EmitNat(id, "")) }

  function TimeJson(t: Option<Time>): J.Json {
    match t
    case None => J.Null
    case Some(at) => J.Str(J.EmitNat(at, ""))
  }

  function TextJson(t: Option<string>): J.Json {
    match t
    case None => J.Null
    case Some(text) => J.Str(text)
  }

  function CategoryText(c: Category): string {
    match c
    case Technology => "technology"
    case Architecture => "architecture"
    case Delivery => "delivery"
    case TeamProcess => "team_process"
    case Other => "other"
  }

  function DecisionJson(d: Id, row: Decision): J.Json {
    J.Obj([
      J.Entry("id", IdJson(d)),
      J.Entry("workspace_id", IdJson(row.workspace)),
      J.Entry("created_by_id", IdJson(row.createdBy)),
      J.Entry("title", J.Str(row.title)),
      J.Entry("summary", TextJson(row.summary)),
      J.Entry("category", J.Str(CategoryText(row.category))),
      J.Entry("due_at", TimeJson(row.dueAt)),
      J.Entry("review_at", TimeJson(row.reviewAt))])
  }

  function ProposalJson(p: Id, row: Proposal): J.Json {
    J.Obj([
      J.Entry("id", IdJson(p)),
      J.Entry("decision_id", IdJson(row.decision)),
      J.Entry("created_by_id", IdJson(row.createdBy)),
      J.Entry("title", J.Str(row.title)),
      J.Entry("summary", TextJson(row.summary)),
      J.Entry("content", TextJson(row.content)),
      J.Entry("status", J.Str(match row.status case Draft => "draft" case Submitted => "submitted" case Withdrawn => "withdrawn")),
      J.Entry("submitted_at", TimeJson(row.submittedAt))])
  }

  function ObjectionJson(o: Id, row: Objection): J.Json {
    J.Obj([
      J.Entry("id", IdJson(o)),
      J.Entry("proposal_id", IdJson(row.proposal)),
      J.Entry("created_by_id", IdJson(row.createdBy)),
      J.Entry("severity", J.Str(match row.severity case Informational => "informational" case Major => "major" case Blocking => "blocking")),
      J.Entry("status", J.Str(match row.status case Open => "open" case Resolved => "resolved" case Dismissed => "dismissed")),
      J.Entry("title", J.Str(row.title)),
      J.Entry("description", J.Str(row.description)),
      J.Entry("resolution_note", TextJson(row.note)),
      J.Entry("resolved_by_id", if row.resolvedBy.Some? then IdJson(row.resolvedBy.value) else J.Null),
      J.Entry("resolved_at", TimeJson(row.resolvedAt))])
  }

  function TallyJson(t: Tally): J.Json {
    J.Obj([
      J.Entry("proposal_id", IdJson(t.proposal)),
      J.Entry("votes", J.Int(t.votes)),
      J.Entry("percentage", J.Decimal(t.hundredths))])
  }

  function TalliesJson(tallies: seq<Tally>): seq<J.Json> {
    if tallies == [] then [] else [TallyJson(tallies[0])] + TalliesJson(tallies[1..])
  }

  function ResultJson(r: VotingResult): J.Json {
    J.Obj([
      J.Entry("voting_session_id", IdJson(r.session)),
      J.Entry("eligible_voter_count", J.Int(r.eligibleVoters)),
      J.Entry("votes_cast", J.Int(r.votesCast)),
      J.Entry("quorum_percentage", J.Int(r.quorumPercentage)),
      J.Entry("required_votes", J.Int(r.requiredVotes)),
      J.Entry("quorum_met", J.Bool(r.quorumMet)),
      J.Entry("result_valid", J.Bool(r.quorumMet)),
      J.Entry("winner_proposal_id", if r.winner.Some? then IdJson(r.winner.value) else J.Null),
      J.Entry("is_tie", J.Bool(r.isTie)),
      J.Entry("tallies", J.Arr(TalliesJson(r.tallies)))])
  }

  function Stamps(objections: map<Id, Objection>): set<Stamp> {
    set o <- objections :: Stamp(objections[o].createdAt, o)
  }

  /** The order of the query: creation time, newest first.  It leaves the order of equal times open. */
  predicate IsListing(list: seq<Id>, objections: map<Id, Objection>) {
    && |list| == |objections| && (forall i :: 0 <= i < |list| ==> list[i] in objections)
    && forall i, j :: 0 <= i < j < |list| ==>
         list[i] != list[j] && objections[list[i]].createdAt >= objections[list[j]].createdAt
  }

  function Picked(ties: seq<Id>, objections: map<Id, Objection>): seq<Id> {
    if ties == [] then []
    else (if ties[0] in objections then [ties[0]] else []) + Picked(ties[1..], objections)
  }

  function NewestFirst(objections: map<Id, Objection>): seq<Id> {
    var stamps := Descending(Stamps(objections));
    seq(|stamps|, i requires 0 <= i < |stamps| => stamps[i].id)
  }

  lemma {:induction false} StampsCount(objections: map<Id, Objection>)
    ensures |Stamps(objections)| == |objections|
  {
    if objections != map[] {
      var o :| o in objections;
      var rest := objections - {o};
      StampsCount(rest);
      assert |rest| == |objections| - 1 by { assert rest.Keys == objections.Keys - {o}; }
      forall x ensures x in Stamps(objections) <==> x in Stamps(rest) + {Stamp(objections[o].createdAt, o)} {
        if x in Stamps(objections) && x.id != o {
          assert x.id in rest && x == Stamp(rest[x.id].createdAt, x.id);
        }
      }
      assert Stamps(objections) == Stamps(rest) + {Stamp(objections[o].createdAt, o)};
      assert Stamp(objections[o].createdAt, o) !in Stamps(rest);
    }
  }

  lemma NewestFirstLists(objections: map<Id, Objection>)
    ensures IsListing(NewestFirst(objections), objections)
  {
    StampsCount(objections);
    var stamps := Descending(Stamps(objections));
    forall i | 0 <= i < |stamps| ensures stamps[i].id in objections && objections[stamps[i].id].createdAt == stamps[i].at {
      assert stamps[i] in stamps;
    }
    forall i, j | 0 <= i < j < |stamps| ensures stamps[i].id != stamps[j].id && stamps[i].at >= stamps[j].at {
      assert Older(stamps[j], stamps[i]);
    }
  }

  /**
    How one execution of the query lists the objections of a proposal.  `ties` stands for the way the database happens to
    order equal times: any listing is reached by some `ties`, and whatever `ties` is, the result is a listing.
   */
  function Order(ties: seq<Id>, objections: map<Id, Objection>): (list: seq<Id>)
    ensures IsListing(list, objections)
  {
    NewestFirstLists(objections);
    if IsListing(Picked(ties, objections), objections) then Picked(ties, objections) else NewestFirst(objections)
  }

  function ListedJson(objections: map<Id, Objection>, list: seq<Id>): seq<J.Json> {
    if list == [] then []
    else (if list[0] in objections then [ObjectionJson(list[0], objections[list[0]])] else [])
         + ListedJson(objections, list[1..])
  }

  /** The objections of one proposal, newest first. */
  function ObjectionsJson(objections: map<Id, Objection>, ties: seq<Id>): J.Json {
    J.Arr(ListedJson(objections, Order(ties, objections)))
  }

  function AlternativeJson(t: Tally, row: Proposal, objections: map<Id, Objection>, ties: seq<Id>): J.Json {
    J.Obj([
      J.Entry("proposal", ProposalJson(t.proposal, row)),
      J.Entry("votes", J.Int(t.votes)),
      J.Entry("percentage", J.Decimal(t.hundredths)),
      J.Entry("objections", ObjectionsJson(objections, ties))])
  }

  /** The losing options in tally order; a proposal that is gone raises `ProposalNotFound`. */
  function Alternatives(db: Db, d: Id, winner: Id, tallies: seq<Tally>, ties: seq<Id>): Attempt<seq<J.Json>, Error> {
    if tallies == [] then Ok([])
    else if tallies[0].proposal == winner then Alternatives(db, d, winner, tallies[1..], ties)
    else
      var t := tallies[0];
      var row :- FindProposal(db, d, t.proposal);
      var others :- Alternatives(db, d, winner, tallies[1..], ties);
      Ok([AlternativeJson(t, row, ObjectionsOf(db, t.proposal), ties)] + others)
  }

  function SnapshotJson(db: Db, d: Id, row: Decision, winner: Id, winning: Proposal, result: VotingResult, others: seq<J.Json>,
                        ties: seq<Id>): J.Json
  {
    J.Obj([
      J.Entry("decision", DecisionJson(d, row)),
      J.Entry("approved_proposal", ProposalJson(winner, winning)),
      J.Entry("voting_result", ResultJson(result)),
      J.Entry("dissent", J.Obj([
        J.Entry("objections_to_approved_proposal", ObjectionsJson(ObjectionsOf(db, winner), ties)),
        J.Entry("alternative_proposals", J.Arr(others))]))])
  }

  function BuildSnapshot(db: Db, d: Id, row: Decision, winner: Id, winning: Proposal, result: VotingResult, ties: seq<Id>)
    : Attempt<J.Json, Error>
  {
    var others :- Alternatives(db, d, winner, result.tallies, ties);
    Ok(SnapshotJson(db, d, row, winner, winning, result, others, ties))
  }

  /** The document digest: `hash_snapshot` of the lock service and `_hash_snapshot` of the export worker. */
  function HashSnapshot(cfg: Config, snapshot: J.Json): string {
    cfg.digest(J.Text(snapshot))
  }

  /** `stage` adds an outbox row to the transaction in progress. */
  function Stage(db: Db, row: Id, event: EventType, subject: Id): Db {
    db.(outbox := db.outbox[row := OutboxRow(event, subject)])
  }

  // ---------------------------------------------------------------- decisions

  /** The fields a decision edit may carry; a nullable field may be set to None. */
  datatype DecisionEdit = DecisionEdit(
    title: Option<string>, summary: Option<Option<string>>, category: Option<Category>,
    dueAt: Option<Option<Time>>, reviewAt: Option<Option<Time>>)

  function Or<T>(edit: Option<T>, current: T): T {
    if edit.Some? then edit.value else current
  }

  /** A review date must come after the due date. */
  predicate Ordered(dueAt: Option<Time>, reviewAt: Option<Time>) {
    dueAt.Some? && reviewAt.Some? ==> dueAt.value < reviewAt.value
  }

  function AllowedTransitions(status: DecisionStatus): set<DecisionStatus> {
    match status
    case Draft => {DecisionStatus.Active, DecisionStatus.Archived}
    case Active => {DecisionStatus.Closed, DecisionStatus.Archived}
    case Closed => {DecisionStatus.Active, DecisionStatus.Archived}
    case Locked => {}
    case Archived => {}
  }

  predicate Mutable(d: Decision) {
    d.status.Draft? || d.status.Active?
  }

  function NewDecision(workspace: Id, actor: Id, title: string, summary: Option<string>, category: Category,
                       dueAt: Option<Time>, reviewAt: Option<Time>): Decision {
    Decision(workspace, actor, title, summary, category, DecisionStatus.Draft, dueAt, reviewAt, None, None, None)
  }

  /** `id` is the UUID drawn for the new row; a clash with an existing row is an integrity error. */
  function CreateDecision(db: Db, actor: Id, workspace: Id, id: Id, row: Decision): Attempt<Db, Error> {
    var role :- MemberRole(db, workspace, actor);
    :- Need(Writes(role), DecisionAccessDenied);
    :- Need(id !in db.decisions, IntegrityRejected);
    Commit(db.(decisions := db.decisions[id :=
                 NewDecision(workspace, actor, row.title, row.summary, row.category, row.dueAt, row.reviewAt)]),
           IntegrityRejected)
  }

  function UpdateDecision(db: Db, actor: Id, workspace: Id, d: Id, edit: DecisionEdit): Attempt<Db, Error> {
    var role :- MemberRole(db, workspace, actor);
    :- Need(Writes(role), DecisionAccessDenied);
    var row :- FindDecision(db, workspace, d);
    :- Need(Mutable(row), DecisionImmutable);
    var updated := row.(title := Or(edit.title, row.title), summary := Or(edit.summary, row.summary),
                        category := Or(edit.category, row.category),
                        dueAt := Or(edit.dueAt, row.dueAt), reviewAt := Or(edit.reviewAt, row.reviewAt));
    :- Need(Ordered(updated.dueAt, updated.reviewAt), DecisionInvalidTransition);
    Commit(db.(decisions := db.decisions[d := updated]), IntegrityRejected)
  }

  predicate Activates(row: Decision, target: DecisionStatus) {
    row.status.Draft? && target.Active?
  }

  /** The repository's `transition`, with the activation event that the service stages beside it. */
  function Moved(db: Db, d: Id, row: Decision, target: DecisionStatus, event: Id, now: Time): Db {
    var moved := db.(decisions := db.decisions[d :=
                       row.(status := target,
                            closedAt := if target.Closed? then Some(now) else None,
                            archivedAt := if target.Archived? then Some(now) else None)]);
    if Activates(row, target) then Stage(moved, event, DecisionActivated, d) else moved
  }

  function TransitionDecision(db: Db, actor: Id, workspace: Id, d: Id, target: DecisionStatus, event: Id, now: Time)
    : Attempt<Db, Error>
  {
    var role :- MemberRole(db, workspace, actor);
    :- Need(Writes(role), DecisionAccessDenied);
    var row :- FindDecision(db, workspace, d);
    :- Need(!row.status.Locked?, DecisionImmutable);
    :- Need(target in AllowedTransitions(row.status), DecisionInvalidTransition);
    :- Need(Activates(row, target) ==> event !in db.outbox, IntegrityRejected);
    Commit(Moved(db, d, row, target, event, now), IntegrityRejected)
  }

  /** The database's cascade from a decision row to everything that hangs on it. */
  function CascadeDecision(db: Db, d: Id): Db {
    var proposals := map p <- db.proposals | db.proposals[p].decision != d :: db.proposals[p];
    var sessions := map s <- db.sessions | db.sessions[s].decision != d :: db.sessions[s];
    db.(decisions := db.decisions - {d},
        proposals := proposals,
        objections := map o <- db.objections | db.objections[o].proposal in proposals :: db.objections[o],
        sessions := sessions,
        voters := (set v <- db.voters | v.0 in sessions),
        ballots := (set b <- db.ballots | b.0 in sessions),
        votes := map v <- db.votes | db.votes[v].session in sessions :: db.votes[v])
  }

  function DeleteDecision(db: Db, actor: Id, workspace: Id, d: Id): Attempt<Db, Error> {
    var role :- MemberRole(db, workspace, actor);
    :- Need(Manages(role), DecisionAccessDenied);
    var row :- FindDecision(db, workspace, d);
    :- Need(row.status.Draft?, DecisionImmutable);
    Commit(CascadeDecision(db, d), IntegrityRejected)
  }

  // ---------------------------------------------------------------- proposals

  datatype ProposalEdit = ProposalEdit(title: Option<string>, summary: Option<Option<string>>, content: Option<Option<string>>)

  predicate ManagesProposal(role: Role, author: Id, actor: Id) {
    Manages(role) || (role.Member? && author == actor)
  }

  function ProposalTransitions(status: ProposalStatus): set<ProposalStatus> {
    match status
    case Draft => {ProposalStatus.Submitted, ProposalStatus.Withdrawn}
    case Submitted => {ProposalStatus.Draft, ProposalStatus.Withdrawn}
    case Withdrawn => {}
  }

  function CreateProposal(db: Db, actor: Id, workspace: Id, d: Id, id: Id, title: string, summary: Option<string>, content: Option<string>)
    : Attempt<Db, Error>
  {
    var found :- Context(db, actor, workspace, d);
    var (role, row) := found;
    :- Need(Mutable(row), DecisionImmutable);
    :- Need(Writes(role), ProposalAccessDenied);
    :- Need(id !in db.proposals, IntegrityRejected);
    Commit(db.(proposals := db.proposals[id :=
                 Proposal(d, actor, title, summary, content, ProposalStatus.Draft, None, None)]), IntegrityRejected)
  }

  /** The shared opening of the calls that change one proposal of a decision. */
  function EditableProposal(db: Db, actor: Id, workspace: Id, d: Id, p: Id): (a: Attempt<Proposal, Error>)
    ensures a.Ok? ==> (&& d in db.decisions && Mutable(db.decisions[d])
                       && p in db.proposals && a.value == db.proposals[p] && a.value.decision == d)
  {
    var found :- Context(db, actor, workspace, d);
    var (role, row) := found;
    :- Need(Mutable(row), DecisionImmutable);
    var proposal :- FindProposal(db, d, p);
    :- Need(ManagesProposal(role, proposal.createdBy, actor), ProposalAccessDenied);
    Ok(proposal)
  }

  function UpdateProposal(db: Db, actor: Id, workspace: Id, d: Id, p: Id, edit: ProposalEdit): Attempt<Db, Error> {
    var proposal :- EditableProposal(db, actor, workspace, d, p);
    :- Need(proposal.status.Draft?, ProposalImmutable);
    Commit(db.(proposals := db.proposals[p :=
                 proposal.(title := Or(edit.title, proposal.title), summary := Or(edit.summary, proposal.summary),
                           content := Or(edit.content, proposal.content))]), IntegrityRejected)
  }

  function TransitionProposal(db: Db, actor: Id, workspace: Id, d: Id, p: Id, target: ProposalStatus, now: Time)
    : Attempt<Db, Error>
  {
    var proposal :- EditableProposal(db, actor, workspace, d, p);
    :- Need(target in ProposalTransitions(proposal.status), ProposalInvalidTransition);
    Commit(db.(proposals := db.proposals[p :=
                 proposal.(status := target,
                           submittedAt := if target.Submitted? then Some(now) else None,
                           withdrawnAt := if target.Withdrawn? then Some(now) else None)]), IntegrityRejected)
  }

  /** Deleting a proposal cascades to its objections; a ballot, vote or lock that names it restricts the deletion. */
  function DeleteProposal(db: Db, actor: Id, workspace: Id, d: Id, p: Id): Attempt<Db, Error> {
    var proposal :- EditableProposal(db, actor, workspace, d, p);
    :- Need(proposal.status.Draft?, ProposalImmutable);
    Commit(db.(proposals := db.proposals - {p},
               objections := map o <- db.objections | db.objections[o].proposal != p :: db.objections[o]),
           IntegrityRejected)
  }

  // ---------------------------------------------------------------- objections

  datatype ObjectionEdit = ObjectionEdit(severity: Option<Severity>, title: Option<string>, description: Option<string>)

  function ObjectionTransitions(status: ObjectionStatus): set<ObjectionStatus> {
    match status
    case Open => {ObjectionStatus.Resolved, ObjectionStatus.Dismissed}
    case Resolved => {ObjectionStatus.Open}
    case Dismissed => {ObjectionStatus.Open}
  }

  predicate MayTransitionObjection(role: Role, author: Id, actor: Id, target: ObjectionStatus) {
    Manages(role) || (role.Member? && author == actor && !target.Dismissed?)
  }

  /** `_context` of the objection service, with the guard on the decision's status. */
  function ObjectionContext(db: Db, actor: Id, workspace: Id, d: Id, p: Id): (a: Attempt<(Role, Proposal), Error>)
    ensures a.Ok? ==> (&& d in db.decisions && Mutable(db.decisions[d])
                       && p in db.proposals && a.value.1 == db.proposals[p] && db.proposals[p].decision == d)
  {
    var found :- Context(db, actor, workspace, d);
    var (role, row) := found;
    var proposal :- FindProposal(db, d, p);
    :- Need(Mutable(row), DecisionImmutable);
    Ok((role, proposal))
  }

  function CreateObjection(db: Db, actor: Id, workspace: Id, d: Id, p: Id, id: Id,
                           severity: Severity, title: string, description: string, now: Time): Attempt<Db, Error>
  {
    var found :- ObjectionContext(db, actor, workspace, d, p);
    :- Need(Writes(found.0), ObjectionAccessDenied);
    :- Need(found.1.status.Submitted?, ProposalImmutable);
    :- Need(id !in db.objections, IntegrityRejected);
    Commit(db.(objections := db.objections[id :=
                 Objection(p, actor, severity, ObjectionStatus.Open, title, description, None, None, None, now)]),
           IntegrityRejected)
  }

  function UpdateObjection(db: Db, actor: Id, workspace: Id, d: Id, p: Id, o: Id, edit: ObjectionEdit): Attempt<Db, Error> {
    var found :- ObjectionContext(db, actor, workspace, d, p);
    var row :- FindObjection(db, p, o);
    :- Need(ManagesProposal(found.0, row.createdBy, actor), ObjectionAccessDenied);
    :- Need(row.status.Open?, ObjectionImmutable);
    Commit(db.(objections := db.objections[o :=
                 row.(severity := Or(edit.severity, row.severity), title := Or(edit.title, row.title),
                      description := Or(edit.description, row.description))]), IntegrityRejected)
  }

  function TransitionObjection(db: Db, actor: Id, workspace: Id, d: Id, p: Id, o: Id,
                               target: ObjectionStatus, note: string, now: Time): Attempt<Db, Error>
  {
    var found :- ObjectionContext(db, actor, workspace, d, p);
    var row :- FindObjection(db, p, o);
    :- Need(target in ObjectionTransitions(row.status), ObjectionInvalidTransition);
    :- Need(MayTransitionObjection(found.0, row.createdBy, actor, target), ObjectionAccessDenied);
    Commit(db.(objections := db.objections[o :=
                 row.(status := target,
                      note := if target.Open? then None else Some(note),
                      resolvedBy := if target.Open? then None else Some(actor),
                      resolvedAt := if target.Open? then None else Some(now))]), IntegrityRejected)
  }

  // ---------------------------------------------------------------- voting

  function CreateSession(db: Db, actor: Id, workspace: Id, d: Id, id: Id, quorum: nat, closesAt: Option<Time>): Attempt<Db, Error> {
    var found :- Context(db, actor, workspace, d);
    var (role, row) := found;
    :- Need(row.status.Active?, DecisionImmutable);
    :- Need(Manages(role), VotingAccessDenied);
    :- Need(!HasUnfinished(db, d), VotingConflict);
    :- Need(id !in db.sessions, VotingConflict);
    Commit(db.(sessions := db.sessions[id :=
                 Session(d, actor, SessionStatus.Draft, quorum, 0, None, closesAt, None, None)]), VotingConflict)
  }

  function Expired(row: Session, now: Time): bool {
    row.closesAt.Some? && row.closesAt.value <= now
  }

  /** One row of a snapshot table for each identifier. */
  function SnapshotOf(s: Id, ids: set<Id>): set<(Id, Id)> {
    set x <- ids :: (s, x)
  }

  function OpenSession(db: Db, actor: Id, workspace: Id, d: Id, s: Id, event: Id, now: Time): Attempt<Db, Error> {
    var found :- Context(db, actor, workspace, d);
    var (role, decision) := found;
    :- Need(decision.status.Active?, DecisionImmutable);
    :- Need(Manages(role), VotingAccessDenied);
    var row :- FindSession(db, d, s);
    :- Need(row.status.Draft?, VotingInvalidTransition);
    :- Need(!Expired(row, now), VotingIsClosed);
    :- Need(!OpenBlocking(db, d), VotingBlockedByObjections);
    var proposals := SubmittedProposals(db, d);
    :- Need(|proposals| >= 2, VotingConflict);
    var users := EligibleUsers(db, workspace);
    :- Need(users != {}, VotingConflict);
    :- Need(event !in db.outbox, VotingConflict);
    var staged := Stage(db, event, VotingOpened, s);
    Commit(staged.(
             sessions := db.sessions[s := row.(status := SessionStatus.Open, openedAt := Some(now), eligibleCount := |users|)],
             voters := db.voters + SnapshotOf(s, users),
             ballots := db.ballots + SnapshotOf(s, proposals)), VotingConflict)
  }

  function CastVote(db: Db, actor: Id, workspace: Id, d: Id, s: Id, id: Id, p: Id, now: Time): Attempt<Db, Error> {
    var _ :- Context(db, actor, workspace, d);
    var row :- FindSession(db, d, s);
    :- Need(row.status.Open?, VotingIsClosed);
    :- Need(!Expired(row, now), VotingIsClosed);
    :- Need((s, actor) in db.voters, VotingAccessDenied);
    :- Need((s, p) in db.ballots, ProposalNotFound);
    :- Need(id !in db.votes, VoteAlreadyCast);
    Commit(db.(votes := db.votes[id := Vote(s, actor, p)]), VoteAlreadyCast)
  }

  function CloseSession(db: Db, actor: Id, workspace: Id, d: Id, s: Id, event: Id, now: Time): Attempt<Db, Error> {
    var found :- Context(db, actor, workspace, d);
    :- Need(Manages(found.0), VotingAccessDenied);
    var row :- FindSession(db, d, s);
    :- Need(row.status.Open?, VotingInvalidTransition);
    :- Need(event !in db.outbox, IntegrityRejected);
    Commit(Stage(db, event, VotingClosed, s).(
             sessions := db.sessions[s := row.(status := SessionStatus.Closed, closedAt := Some(now))]), IntegrityRejected)
  }

  function CancelSession(db: Db, actor: Id, workspace: Id, d: Id, s: Id, now: Time): Attempt<Db, Error> {
    var found :- Context(db, actor, workspace, d);
    :- Need(Manages(found.0), VotingAccessDenied);
    var row :- FindSession(db, d, s);
    :- Need(Unfinished(row), VotingInvalidTransition);
    Commit(db.(sessions := db.sessions[s := row.(status := SessionStatus.Cancelled, cancelledAt := Some(now))]), IntegrityRejected)
  }

  // ---------------------------------------------------------------- locks and exports

  predicate HasLock(db: Db, d: Id) {
    exists l <- db.locks :: db.locks[l].decision == d
  }

  function ValidWinner(result: VotingResult): (a: Attempt<Id, Error>)
    ensures a.Ok? ==> result.quorumMet && result.winner == Some(a.value)
  {
    if result.quorumMet && !result.isTie && result.winner.Some? then Ok(result.winner.value) else Refused(LockInvalidResult)
  }

  /** The lock row for a result: the winner must be a submitted proposal, and the document is built from the tables. */
  function Seal(cfg: Config, db: Db, actor: Id, d: Id, row: Decision, s: Id, result: VotingResult, now: Time, ties: seq<Id>)
    : (a: Attempt<Lock, Error>)
    ensures a.Ok? ==> a.value.decision == d && a.value.session == s
  {
    var winner :- ValidWinner(result);
    var winning :- FindProposal(db, d, winner);
    :- Need(winning.status.Submitted?, LockInvalidResult);
    var snapshot :- BuildSnapshot(db, d, row, winner, winning, result, ties);
    Ok(Lock(d, s, winner, actor, snapshot, HashSnapshot(cfg, snapshot), now))
  }

  /** The guards of `create` and the lock row they admit. */
  function DraftLock(cfg: Config, db: Db, actor: Id, workspace: Id, d: Id, s: Id, now: Time, ties: seq<Id>): (a: Attempt<Lock, Error>)
    ensures a.Ok? ==> d in db.decisions && a.value.decision == d && a.value.session == s
  {
    var found :- Context(db, actor, workspace, d);
    var (role, row) := found;
    :- Need(Manages(role), LockAccessDenied);
    :- Need(row.status.Active?, DecisionImmutable);
    :- Need(!HasLock(db, d), LockConflict);
    :- Need(!OpenBlocking(db, d), VotingBlockedByObjections);
    var result :- GetResult(cfg, db, actor, workspace, d, s);
    Seal(cfg, db, actor, d, row, s, result, now, ties)
  }

  /** The repository's `create`: decision, lock row and event in one transaction. */
  function WithLock(db: Db, id: Id, lock: Lock, event: Id): Db
    requires lock.decision in db.decisions
  {
    var row := db.decisions[lock.decision].(status := DecisionStatus.Locked, closedAt := Some(lock.lockedAt), lockedAt := Some(lock.lockedAt));
    Stage(db, event, DecisionLocked, id).(decisions := db.decisions[lock.decision := row], locks := db.locks[id := lock])
  }

  function CreateLock(cfg: Config, db: Db, actor: Id, workspace: Id, d: Id, s: Id, id: Id, event: Id, now: Time, ties: seq<Id>)
    : Attempt<Db, Error>
  {
    var lock :- DraftLock(cfg, db, actor, workspace, d, s, now, ties);
    :- Need(id !in db.locks && event !in db.outbox, LockConflict);
    Commit(WithLock(db, id, lock, event), LockConflict)
  }

  /** `verify`: does the snapshot, as it reads back from its JSONB column, still have the stored digest? */
  predicate Verifies(cfg: Config, readBack: J.Json, lock: Lock) {
    HashSnapshot(cfg, readBack) == lock.documentHash
  }

  /** `str(snapshot["decision"]["workspace_id"]) == str(workspace_id)`, with an empty mapping for anything missing. */
  predicate DocumentIsOf(snapshot: J.Json, workspace: Id) {
    match J.Denote(snapshot)
    case VObj(document) =>
      (match if "decision" in document then document["decision"] else J.VNull
       case VObj(decision) => "workspace_id" in decision && decision["workspace_id"] == J.Denote(IdJson(workspace))
       case _ => false)
    case _ => false
  }

  function RequestExport(db: Db, actor: Id, workspace: Id, d: Id, id: Id): Attempt<Db, Error> {
    var role :- MemberRole(db, workspace, actor);
    :- Need(Writes(role), ExportAccessDenied);
    var lock := LockOf(db, d);
    :- Need(lock.Some? && DocumentIsOf(db.locks[lock.value].snapshot, workspace), LockNotFound);
    var l := lock.value;
    if exists e <- db.exports :: db.exports[e].sourceLock == l then Ok(db)
    else
      :- Need(id !in db.exports, IntegrityRejected);
      Commit(db.(exports := db.exports[id := Export(d, l, db.locks[l].documentHash)]), IntegrityRejected)
  }

  /** The export worker's gate, before it renders anything. */
  predicate ExportAccepts(cfg: Config, readBack: J.Json, export_: Export, lock: Lock) {
    var computed := HashSnapshot(cfg, readBack);
    computed == export_.documentHash && computed == lock.documentHash
  }

  // ---------------------------------------------------------------- reviews and revisions

  /** `_context`, the role check and the guard that the decision is locked. */
  function ReviewContext(db: Db, actor: Id, workspace: Id, d: Id): (a: Attempt<Decision, Error>)
    ensures a.Ok? ==> d in db.decisions && a.value == db.decisions[d] && a.value.status.Locked?
  {
    var found :- Context(db, actor, workspace, d);
    :- Need(Manages(found.0), ReviewAccessDenied);
    :- Need(found.1.status.Locked?, DecisionImmutable);
    Ok(found.1)
  }

  function CreateReview(db: Db, actor: Id, workspace: Id, d: Id, id: Id, scheduledFor: Time, now: Time): Attempt<Db, Error> {
    var _ :- ReviewContext(db, actor, workspace, d);
    :- Need(now < scheduledFor, ReviewInvalidSchedule);
    :- Need(id !in db.reviews, ReviewConflict);
    Commit(db.(reviews := db.reviews[id := Review(d, actor, scheduledFor, Scheduled, None, None, None)]), ReviewConflict)
  }

  function RescheduleReview(db: Db, actor: Id, workspace: Id, d: Id, r: Id, scheduledFor: Time, now: Time): Attempt<Db, Error> {
    var _ :- ReviewContext(db, actor, workspace, d);
    var row :- FindReview(db, d, r);
    :- Need(row.status.Scheduled? && now < scheduledFor, ReviewInvalidSchedule);
    Commit(db.(reviews := db.reviews[r := row.(scheduledFor := scheduledFor)]), IntegrityRejected)
  }

  function CancelReview(db: Db, actor: Id, workspace: Id, d: Id, r: Id, now: Time): Attempt<Db, Error> {
    var _ :- ReviewContext(db, actor, workspace, d);
    var row :- FindReview(db, d, r);
    :- Need(row.status.Scheduled?, ReviewInvalidSchedule);
    Commit(db.(reviews := db.reviews[r := row.(status := ReviewStatus.Cancelled, cancelledAt := Some(now))]), IntegrityRejected)
  }

  /** `get_revision_root`: the root named by the revision that created `d`, or `d` itself.  The query takes one row. */
  function RevisionRoot(revisions: map<Id, Revision>, d: Id): Id {
    var roots := set r <- revisions | revisions[r].successor == d :: revisions[r].root;
    if roots == {} then d else Least(roots)
  }

  function Numbers(revisions: map<Id, Revision>, root: Id): set<nat> {
    set r <- revisions | revisions[r].root == root :: revisions[r].number
  }

  /** `next_revision_number`: one more than the largest number of the root, 0 when it has none. */
  function NextNumber(revisions: map<Id, Revision>, root: Id): nat {
    var numbers := Numbers(revisions, root);
    if numbers == {} then 1 else Greatest(numbers) + 1
  }

  function LockOf(db: Db, d: Id): (lock: Option<Id>)
    ensures if lock.Some? then lock.value in db.locks && db.locks[lock.value].decision == d else !HasLock(db, d)
  {
    var locks := set l <- db.locks | db.locks[l].decision == d;
    assert forall l <- db.locks :: db.locks[l].decision == d ==> l in locks;
    if locks == {} then None else Some(Least(locks))
  }

  datatype Outcome = Outcome(outcome: ReviewOutcome, title: Option<string>, summary: Option<string>, category: Option<Category>)

  /** The UUIDs drawn for the successor decision and the revision row. */
  datatype NewIds = NewIds(successor: Id, revision: Id)

  /** The review row as `complete_review` leaves it. */
  function MarkCompleted(db: Db, r: Id, review: Review, outcome: ReviewOutcome, now: Time): Db {
    db.(reviews := db.reviews[r := review.(status := ReviewStatus.Completed, outcome := Some(outcome), completedAt := Some(now))])
  }

  /** The draft decision that supersedes or reopens `row`. */
  function SuccessorOf(row: Decision, actor: Id, o: Outcome): Decision {
    NewDecision(row.workspace, actor, Or(o.title, row.title), if o.summary.Some? then o.summary else row.summary,
                Or(o.category, row.category), None, None)
  }

  /** The link that `complete_review_with_revision` adds. */
  function NewRevision(db: Db, d: Id, lock: Id, r: Id, successor: Id, outcome: ReviewOutcome): Revision {
    var root := RevisionRoot(db.revisions, d);
    Revision(root, d, successor, lock, r, NextNumber(db.revisions, root), outcome)
  }

  /** `complete_review_with_revision`: review, successor and link in one transaction. */
  function WithRevision(db: Db, actor: Id, d: Id, row: Decision, lock: Id, r: Id, review: Review, o: Outcome, ids: NewIds, now: Time): Db {
    MarkCompleted(db, r, review, o.outcome, now).(
      decisions := db.decisions[ids.successor := SuccessorOf(row, actor, o)],
      revisions := db.revisions[ids.revision := NewRevision(db, d, lock, r, ids.successor, o.outcome)])
  }

  function CompleteReview(db: Db, actor: Id, workspace: Id, d: Id, r: Id, o: Outcome, ids: NewIds, now: Time): Attempt<Db, Error> {
    var row :- ReviewContext(db, actor, workspace, d);
    var review :- FindReview(db, d, r);
    :- Need(review.status.Scheduled?, ReviewOutcomeInvalid);
    :- Need(review.scheduledFor <= now, ReviewNotDue);
    if o.outcome.Confirmed? then Commit(MarkCompleted(db, r, review, o.outcome, now), IntegrityRejected)
    else
      :- Need(LockOf(db, d).Some?, ReviewOutcomeInvalid);
      :- Need(ids.successor !in db.decisions && ids.revision !in db.revisions, ReviewConflict);
      Commit(WithRevision(db, actor, d, row, LockOf(db, d).value, r, review, o, ids, now), ReviewConflict)
  }

  // ---------------------------------------------------------------- membership

  /** Any change of a member's role, a join (`Some`) or a removal (`None`). */
  function ChangeMembership(db: Db, workspace: Id, user: Id, role: Option<Role>): Db {
    db.(members := if role.Some? then db.members[(workspace, user) := role.value] else db.members - {(workspace, user)})
  }
}
