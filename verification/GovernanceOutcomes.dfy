/**
  Calls on sessions, locks, exports and reviews commit exactly when they are permitted, and then have their effect; and
  so does every call of every reachable state.
 */
module GovernanceOutcomes {
  import opened Options
  import opened Ordering
  import opened VotingMath
  import opened Governance
  import opened GovernanceInvariants
  import opened GovernanceSteps
  import opened GovernanceRuns
  import opened GovernanceGuards
  import opened GovernanceCommits
  import opened GovernanceEffects
  import opened Elections
  import opened RevisionChains
  import opened RevisionConflicts
  import LockDocuments
  import J = CanonicalJson

  // ---------------------------------------------------------------- what the queries find

  lemma BlockedIs(db: Db, d: Id)
    ensures OpenBlocking(db, d) <==> Blocked(db, d)
  {
  }

  lemma ElectorateIs(db: Db, w: Id)
    ensures IsElectorate(db, w, EligibleUsers(db, w))
  {
    forall u: Id ensures u in EligibleUsers(db, w) <==> HasRole(db, w, u, WRITERS) {
      if HasRole(db, w, u, WRITERS) {
        assert (w, u) in db.members;
      }
    }
  }

  lemma SubmittedAre(db: Db, d: Id, p: Id)
    ensures p in SubmittedProposals(db, d) <==> ProposalIs(db, d, p, {ProposalStatus.Submitted})
  {
  }

  lemma TwoOrMore(ids: set<Id>)
    ensures |ids| >= 2 <==> exists p: Id, q: Id :: p != q && p in ids && q in ids
  {
    if |ids| >= 2 {
      var p :| p in ids;
      assert |ids - {p}| >= 1;
      var q :| q in ids - {p};
    }
    if p: Id, q: Id :| p != q && p in ids && q in ids {
      assert {p, q} <= ids;
      assert |ids| == |ids - {p, q}| + 2;
    }
  }

  lemma TwoSubmitted(db: Db, d: Id)
    ensures |SubmittedProposals(db, d)| >= 2 <==>
      exists p: Id, q: Id :: p != q && ProposalIs(db, d, p, {ProposalStatus.Submitted}) && ProposalIs(db, d, q, {ProposalStatus.Submitted})
  {
    TwoOrMore(SubmittedProposals(db, d));
    forall p: Id ensures p in SubmittedProposals(db, d) <==> ProposalIs(db, d, p, {ProposalStatus.Submitted}) { SubmittedAre(db, d, p); }
  }

  // ---------------------------------------------------------------- voting

  lemma CallingCommitsExactly(db: Db, a: Id, w: Id, d: Id, id: Id, quorum: nat, closesAt: Option<Time>)
    requires Constraints(db)
    ensures CreateSession(db, a, w, d, id, quorum, closesAt).Ok? <==> VotingPermitted(db, a, w, d, CreateS(id, quorum, closesAt))
    ensures CreateSession(db, a, w, d, id, quorum, closesAt).Ok? ==>
              VotingEffect(db, a, w, d, CreateS(id, quorum, closesAt), CreateSession(db, a, w, d, id, quorum, closesAt).value)
  {
    hide Governance.Constraints, Governance.CreateSession;
    if CreateSession(db, a, w, d, id, quorum, closesAt).Ok? {
      CallingGuards(db, a, w, d, id, quorum, closesAt);
    }
    if MayCall(db, a, w, d, id, quorum) {
      CallingCommits(db, a, w, d, id, quorum, closesAt);
    }
  }

  lemma OpeningIsPermitted(db: Db, a: Id, w: Id, d: Id, s: Id, event: Id, now: Time)
    ensures MayOpen(db, a, w, d, s, event, now) <==> VotingPermitted(db, a, w, d, OpenS(s, event, now))
  {
    hide Governance.SubmittedProposals, Governance.OpenBlocking, Governance.EligibleUsers, Blocked;
    BlockedIs(db, d);
    TwoSubmitted(db, d);
    ElectorateIs(db, w);
    assert HasRole(db, w, a, MANAGERS) ==> a in EligibleUsers(db, w);
  }

  lemma OpenedHasEffect(db: Db, w: Id, d: Id, s: Id, event: Id, now: Time)
    requires s in db.sessions && db.sessions[s].status.Draft? && SessionCheck(db.sessions[s])
    ensures OpeningEffect(db, w, d, s, event, now, Opened(db, w, d, s, event, now))
  {
    hide Governance.EligibleUsers, Governance.SubmittedProposals;
    ElectorateIs(db, w);
    forall p: Id ensures p in SubmittedProposals(db, d) <==> ProposalIs(db, d, p, {ProposalStatus.Submitted}) { SubmittedAre(db, d, p); }
  }

  lemma SessionColumns(db: Db, s: Id)
    requires Checks(db) && s in db.sessions
    ensures SessionCheck(db.sessions[s])
  {
  }

  lemma OpeningCommitsExactly(db: Db, a: Id, w: Id, d: Id, s: Id, event: Id, now: Time)
    requires Constraints(db) && Announced(db.decisions, db.sessions, db.locks, db.outbox)
    ensures OpenSession(db, a, w, d, s, event, now).Ok? <==> VotingPermitted(db, a, w, d, OpenS(s, event, now))
    ensures OpenSession(db, a, w, d, s, event, now).Ok? ==>
              VotingEffect(db, a, w, d, OpenS(s, event, now), OpenSession(db, a, w, d, s, event, now).value)
  {
    hide Governance.Constraints, Governance.OpenSession, GovernanceInvariants.Announced, VotingPermitted, OpeningEffect, Opened;
    OpeningIsPermitted(db, a, w, d, s, event, now);
    if OpenSession(db, a, w, d, s, event, now).Ok? {
      OpeningGuards(db, a, w, d, s, event, now);
    }
    if MayOpen(db, a, w, d, s, event, now) {
      OpeningCommits(db, a, w, d, s, event, now);
      assert SessionCheck(db.sessions[s]) by { ConstrainedSession(db, s); }
      OpenedHasEffect(db, w, d, s, event, now);
    }
  }

  lemma ConstrainedSession(db: Db, s: Id)
    requires Constraints(db) && s in db.sessions
    ensures SessionCheck(db.sessions[s])
  {
    SessionColumns(db, s);
  }

  lemma CastingGuards(db: Db, a: Id, w: Id, d: Id, s: Id, id: Id, p: Id, now: Time)
    requires CastVote(db, a, w, d, s, id, p, now).Ok?
    ensures MayVote(db, a, w, d, s, id, p, now)
    ensures CastVote(db, a, w, d, s, id, p, now).value == db.(votes := db.votes[id := Vote(s, a, p)])
  {
    hide Governance.Constraints;
  }

  lemma CastingCommitsExactly(db: Db, a: Id, w: Id, d: Id, s: Id, id: Id, p: Id, now: Time)
    requires Constraints(db)
    ensures CastVote(db, a, w, d, s, id, p, now).Ok? <==> VotingPermitted(db, a, w, d, CastS(s, id, p, now))
    ensures CastVote(db, a, w, d, s, id, p, now).Ok? ==>
              VotingEffect(db, a, w, d, CastS(s, id, p, now), CastVote(db, a, w, d, s, id, p, now).value)
  {
    hide Governance.Constraints, Governance.CastVote;
    if CastVote(db, a, w, d, s, id, p, now).Ok? {
      CastingGuards(db, a, w, d, s, id, p, now);
    }
    if MayVote(db, a, w, d, s, id, p, now) {
      VoteOutcome(db, a, w, d, s, id, p, now);
    }
  }

  lemma ClosingCommitsExactly(db: Db, a: Id, w: Id, d: Id, s: Id, event: Id, now: Time)
    requires Constraints(db) && Announced(db.decisions, db.sessions, db.locks, db.outbox)
    ensures CloseSession(db, a, w, d, s, event, now).Ok? <==> VotingPermitted(db, a, w, d, CloseS(s, event, now))
    ensures CloseSession(db, a, w, d, s, event, now).Ok? ==>
              VotingEffect(db, a, w, d, CloseS(s, event, now), CloseSession(db, a, w, d, s, event, now).value)
  {
    hide Governance.Constraints, Governance.CloseSession, GovernanceInvariants.Announced;
    if CloseSession(db, a, w, d, s, event, now).Ok? {
      ClosingGuards(db, a, w, d, s, event, now);
    }
    if MayClose(db, a, w, d, s, event) {
      ClosingCommits(db, a, w, d, s, event, now);
      ConstrainedSession(db, s);
    }
  }

  lemma CancelledFits(db: Db, s: Id, now: Time)
    requires Constraints(db) && s in db.sessions && Unfinished(db.sessions[s])
    ensures Constraints(db.(sessions := db.sessions[s := db.sessions[s].(status := SessionStatus.Cancelled, cancelledAt := Some(now))]))
  {
    hide Governance.ForeignKeys, Governance.VotingKeys, Governance.LockKeys, Governance.RevisionKeys, Governance.OutboxKeys;
    SessionColumns(db, s);
    hide Governance.Checks;
    SessionChangeFits(db, db.(sessions := db.sessions[s := db.sessions[s].(status := SessionStatus.Cancelled, cancelledAt := Some(now))]), s);
  }

  lemma CancellingCommitsExactly(db: Db, a: Id, w: Id, d: Id, s: Id, now: Time)
    requires Constraints(db)
    ensures CancelSession(db, a, w, d, s, now).Ok? <==> VotingPermitted(db, a, w, d, CancelS(s, now))
    ensures CancelSession(db, a, w, d, s, now).Ok? ==>
              VotingEffect(db, a, w, d, CancelS(s, now), CancelSession(db, a, w, d, s, now).value)
  {
    hide Governance.Constraints;
    if s in db.sessions && Unfinished(db.sessions[s]) {
      CancelledFits(db, s, now);
      ConstrainedSession(db, s);
    }
  }

  lemma VotingCallsCommit(db: Db, a: Id, w: Id, d: Id, c: VotingCall)
    requires Constraints(db) && Announced(db.decisions, db.sessions, db.locks, db.outbox)
    ensures ApplyVoting(db, a, w, d, c).Ok? <==> VotingPermitted(db, a, w, d, c)
    ensures ApplyVoting(db, a, w, d, c).Ok? ==> VotingEffect(db, a, w, d, c, ApplyVoting(db, a, w, d, c).value)
  {
    hide Governance.Constraints, GovernanceInvariants.Announced, Governance.CreateSession, Governance.OpenSession, Governance.CastVote,
         Governance.CloseSession, Governance.CancelSession, VotingPermitted, VotingEffect;
    match c
    case CreateS(id, quorum, closesAt) => CallingCommitsExactly(db, a, w, d, id, quorum, closesAt);
    case OpenS(s, event, now) => OpeningCommitsExactly(db, a, w, d, s, event, now);
    case CastS(s, id, p, now) => CastingCommitsExactly(db, a, w, d, s, id, p, now);
    case CloseS(s, event, now) => ClosingCommitsExactly(db, a, w, d, s, event, now);
    case CancelS(s, now) => CancellingCommitsExactly(db, a, w, d, s, now);
  }

  // ---------------------------------------------------------------- the winner in terms of rows

  lemma VotesAreRows(db: Db, s: Id, p: Id)
    ensures VotesOf(db, s).Keys == VotesIn(db, s) && VotesFor(VotesOf(db, s), p) == VotesInFor(db, s, p)
  {
  }

  lemma BallotIsRows(db: Db, s: Id, p: Id)
    ensures p in BallotOf(db, s) <==> (s, p) in db.ballots
  {
    if (s, p) in db.ballots {
      assert (s, p).0 == s;
    }
  }

  /** The tallies list the ballot by identifier, each with the number of its votes. */
  lemma TalliesAreRows(cfg: Config, db: Db, s: Id, i: nat)
    requires s in db.sessions && i < |ResultOf(cfg, db, s).tallies|
    ensures var t := ResultOf(cfg, db, s).tallies; var ballot := Ascending(BallotOf(db, s));
      && |t| == |ballot| && t[i].proposal == ballot[i] && (s, t[i].proposal) in db.ballots
      && t[i].votes == |VotesInFor(db, s, t[i].proposal)|
  {
    var ballot := Ascending(BallotOf(db, s));
    CountsAreOfBallot(VotesOf(db, s), ballot);
    VotesAreRows(db, s, ballot[i]);
    assert ballot[i] in ballot;
    BallotIsRows(db, s, ballot[i]);
  }

  lemma TallyOfOption(cfg: Config, db: Db, s: Id, p: Id) returns (i: nat)
    requires s in db.sessions && (s, p) in db.ballots
    ensures i < |ResultOf(cfg, db, s).tallies| && ResultOf(cfg, db, s).tallies[i].proposal == p
  {
    var ballot := Ascending(BallotOf(db, s));
    BallotIsRows(db, s, p);
    assert p in ballot;
    i :| 0 <= i < |ballot| && ballot[i] == p;
    CountsAreOfBallot(VotesOf(db, s), ballot);
  }

  /** `p` has more votes than any other option on the ballot, and at least one. */
  ghost predicate LeadsRows(db: Db, s: Id, p: Id) {
    && (s, p) in db.ballots && |VotesInFor(db, s, p)| >= 1
    && forall q: Id :: (s, q) in db.ballots && q != p ==> |VotesInFor(db, s, q)| < |VotesInFor(db, s, p)|
  }

  lemma LeadIsOfRows(cfg: Config, db: Db, s: Id, p: Id)
    requires s in db.sessions
    ensures StrictlyLeads(ResultOf(cfg, db, s).tallies, p) <==> LeadsRows(db, s, p)
  {
    hide Governance.ResultOf, VotesInFor;
    var t := ResultOf(cfg, db, s).tallies;
    forall i | 0 <= i < |t|
      ensures |t| == |Ascending(BallotOf(db, s))| && t[i].proposal == Ascending(BallotOf(db, s))[i]
           && (s, t[i].proposal) in db.ballots && t[i].votes == |VotesInFor(db, s, t[i].proposal)|
    {
      TalliesAreRows(cfg, db, s, i);
    }
    if StrictlyLeads(t, p) {
      var i :| 0 <= i < |t| && t[i].proposal == p && t[i].votes >= 1
            && forall j :: 0 <= j < |t| && j != i ==> t[j].votes < t[i].votes;
      forall q: Id | (s, q) in db.ballots && q != p ensures |VotesInFor(db, s, q)| < |VotesInFor(db, s, p)| {
        var j := TallyOfOption(cfg, db, s, q);
        assert j != i;
      }
    }
    if LeadsRows(db, s, p) {
      var i := TallyOfOption(cfg, db, s, p);
      forall j | 0 <= j < |t| && j != i ensures t[j].votes < t[i].votes {
        assert t[j].proposal != p;
      }
    }
  }

  /** The winner of a closed session is the option that wins it outright, if there is one. */
  lemma WinnerIsOutright(cfg: Config, db: Db, s: Id, p: Id)
    requires Good(cfg, db) && s in db.sessions && db.sessions[s].status.Closed?
    ensures ResultOf(cfg, db, s).winner == Some(p) <==> WinsOutright(db, s, p)
    ensures var r := ResultOf(cfg, db, s); r.winner.Some? ==> r.quorumMet && !r.isTie
  {
    hide Governance.ResultOf, Good, VotingMath.StrictlyLeads, VotingMath.SharesTheLead, VotesInFor;
    ClosedOutcome(cfg, db, s);
    LeadIsOfRows(cfg, db, s, p);
    VotesAreRows(db, s, p);
    assert |VotesOf(db, s)| == |VotesIn(db, s)|;
  }

  // ---------------------------------------------------------------- locks

  lemma LockingIsPermitted(cfg: Config, db: Db, a: Id, w: Id, d: Id, s: Id, id: Id, event: Id)
    requires Good(cfg, db)
    ensures MayLock(cfg, db, a, w, d, s, id, event) <==> LockPermitted(db, a, w, d, s, id, event)
  {
    hide Governance.ResultOf, Good, Governance.OpenBlocking, Blocked, WinsOutright;
    BlockedIs(db, d);
    if SessionIs(db, d, s, {SessionStatus.Closed}) {
      var r := ResultOf(cfg, db, s);
      forall p: Id ensures r.winner == Some(p) <==> WinsOutright(db, s, p)
                   ensures r.winner.Some? ==> r.quorumMet && !r.isTie
      {
        WinnerIsOutright(cfg, db, s, p);
      }
      if MayLock(cfg, db, a, w, d, s, id, event) {
        assert WinsOutright(db, s, r.winner.value) && ProposalIs(db, d, r.winner.value, {ProposalStatus.Submitted});
      }
    }
  }

  lemma LockHasEffect(cfg: Config, db: Db, a: Id, w: Id, d: Id, s: Id, id: Id, event: Id, now: Time, ties: seq<Id>)
    requires Good(cfg, db) && CreateLock(cfg, db, a, w, d, s, id, event, now, ties).Ok?
    ensures LockEffect(cfg, db, a, d, s, id, event, now, CreateLock(cfg, db, a, w, d, s, id, event, now, ties).value)
  {
    hide Governance.ResultOf, Good, Governance.Constraints, WinsOutright, Governance.BuildSnapshot, J.Text, Governance.OpenBlocking;
    var k := DraftLock(cfg, db, a, w, d, s, now, ties).value;
    assert ResultOf(cfg, db, s).winner == Some(k.winner);
    WinnerIsOutright(cfg, db, s, k.winner);
  }

  lemma LockingCommitsExactly(cfg: Config, db: Db, a: Id, w: Id, d: Id, s: Id, id: Id, event: Id, now: Time, ties: seq<Id>)
    requires Good(cfg, db)
    ensures CreateLock(cfg, db, a, w, d, s, id, event, now, ties).Ok? <==> LockPermitted(db, a, w, d, s, id, event)
    ensures CreateLock(cfg, db, a, w, d, s, id, event, now, ties).Ok? ==>
              LockEffect(cfg, db, a, d, s, id, event, now, CreateLock(cfg, db, a, w, d, s, id, event, now, ties).value)
  {
    hide Good, Governance.CreateLock, MayLock, LockPermitted, LockEffect;
    LockingIsPermitted(cfg, db, a, w, d, s, id, event);
    if MayLock(cfg, db, a, w, d, s, id, event) {
      LockingCommits(cfg, db, a, w, d, s, id, event, now, ties);
    }
    if CreateLock(cfg, db, a, w, d, s, id, event, now, ties).Ok? {
      LockingGuards(cfg, db, a, w, d, s, id, event, now, ties);
      LockHasEffect(cfg, db, a, w, d, s, id, event, now, ties);
    }
  }

  // ---------------------------------------------------------------- exports

  lemma ExportReferences(db: Db, id: Id, row: Export)
    requires ForeignKeys(db) && row.sourceLock in db.locks
    ensures ForeignKeys(db.(exports := db.exports[id := row]))
  {
    hide Governance.RevisionReferences;
    SameRevisionReferences(db, db.(exports := db.exports[id := row]));
  }

  lemma ExportChecks(db: Db, id: Id, row: Export)
    requires Checks(db)
    ensures Checks(db.(exports := db.exports[id := row]))
  {
  }

  lemma ExportKeys(db: Db, id: Id, row: Export)
    requires LockKeys(db.locks, db.exports) && !IsExported(db, row.sourceLock)
    ensures LockKeys(db.locks, db.exports[id := row])
  {
  }

  lemma ExportFitsSchema(db: Db, id: Id, row: Export)
    requires Constraints(db) && row.sourceLock in db.locks && !IsExported(db, row.sourceLock)
    ensures Constraints(db.(exports := db.exports[id := row]))
  {
    hide Governance.ForeignKeys, Governance.Checks, Governance.VotingKeys, Governance.LockKeys, Governance.RevisionKeys,
         Governance.OutboxKeys, IsExported;
    ExportReferences(db, id, row);
    ExportChecks(db, id, row);
    ExportKeys(db, id, row);
  }

  /** The lock that an export request finds belongs to the live decision's workspace. */
  lemma FoundLock(cfg: Config, db: Db, w: Id, l: Id)
    requires Good(cfg, db) && l in db.locks
    ensures db.locks[l].decision in db.decisions
    ensures DocumentIsOf(db.locks[l].snapshot, w) <==> db.decisions[db.locks[l].decision].workspace == w
  {
    hide Good, Governance.DocumentIsOf, GovernanceInvariants.Rebuilds;
    LockDocuments.LockIsSound(cfg, db, l);
    LockDocuments.RebuiltNamesWorkspace(cfg, db, db.locks[l], w);
  }

  lemma OneLock(db: Db, l: Id, m: Id)
    requires Constraints(db) && l in db.locks && m in db.locks && db.locks[l].decision == db.locks[m].decision
    ensures l == m
  {
  }

  lemma RequestingCommitsExactly(cfg: Config, db: Db, a: Id, w: Id, d: Id, id: Id)
    requires Good(cfg, db)
    ensures RequestExport(db, a, w, d, id).Ok? <==> ExportPermitted(db, a, w, d, id)
    ensures RequestExport(db, a, w, d, id).Ok? ==> ExportEffect(db, d, id, RequestExport(db, a, w, d, id).value)
  {
    hide Governance.Constraints, GovernanceInvariants.Inv, Governance.DocumentIsOf, Governance.LockOf;
    if LockOf(db, d).Some? {
      var l := LockOf(db, d).value;
      FoundLock(cfg, db, w, l);
      forall m | m in db.locks && db.locks[m].decision == d ensures m == l { OneLock(db, l, m); }
      if !IsExported(db, l) {
        ExportFitsSchema(db, id, Export(d, l, db.locks[l].documentHash));
      }
    }
  }

  // ---------------------------------------------------------------- reviews

  lemma ReviewContextIs(db: Db, a: Id, w: Id, d: Id)
    ensures ReviewContext(db, a, w, d).Ok? <==> HasRole(db, w, a, MANAGERS) && DecisionIs(db, w, d, {DecisionStatus.Locked})
  {
  }

  lemma ReviewRowReferences(db: Db, r: Id, row: Review)
    requires ForeignKeys(db) && r in db.reviews && row.decision in db.decisions
    ensures ForeignKeys(db.(reviews := db.reviews[r := row]))
  {
    var next := db.(reviews := db.reviews[r := row]);
    forall q | q in db.revisions ensures RevisionReferences(next, db.revisions[q]) {
      assert RevisionReferences(db, db.revisions[q]);
    }
  }

  lemma ReviewRowKeys(db: Db, r: Id, row: Review)
    requires RevisionKeys(db.reviews, db.revisions) && r in db.reviews && db.reviews[r].status.Scheduled?
    requires row.decision == db.reviews[r].decision
    ensures RevisionKeys(db.reviews[r := row], db.revisions)
  {
  }

  lemma ReviewRowChecks(db: Db, r: Id, row: Review)
    requires Checks(db) && ReviewCheck(row)
    ensures Checks(db.(reviews := db.reviews[r := row]))
  {
  }

  lemma ReviewRowFits(db: Db, r: Id, row: Review)
    requires Constraints(db) && r in db.reviews && db.reviews[r].status.Scheduled?
    requires row.decision == db.reviews[r].decision && row.decision in db.decisions && ReviewCheck(row)
    ensures Constraints(db.(reviews := db.reviews[r := row]))
  {
    hide Governance.ForeignKeys, Governance.Checks, Governance.VotingKeys, Governance.LockKeys, Governance.RevisionKeys,
         Governance.OutboxKeys;
    ReviewRowReferences(db, r, row);
    ReviewRowKeys(db, r, row);
    ReviewRowChecks(db, r, row);
  }

  lemma ReviewColumns(db: Db, r: Id)
    requires Constraints(db) && r in db.reviews
    ensures ReviewCheck(db.reviews[r])
  {
  }

  lemma SchedulingCommitsExactly(db: Db, a: Id, w: Id, d: Id, id: Id, scheduledFor: Time, now: Time)
    requires Constraints(db)
    ensures CreateReview(db, a, w, d, id, scheduledFor, now).Ok? <==> ReviewPermitted(db, a, w, d, CreateR(id, scheduledFor, now))
    ensures CreateReview(db, a, w, d, id, scheduledFor, now).Ok? ==>
              ReviewEffect(db, a, d, CreateR(id, scheduledFor, now), CreateReview(db, a, w, d, id, scheduledFor, now).value)
  {
    hide Governance.Constraints, Governance.ReviewContext;
    ReviewContextIs(db, a, w, d);
    if ReviewContext(db, a, w, d).Ok? && now < scheduledFor && id !in db.reviews {
      SchedulingOutcome(db, a, w, d, id, scheduledFor, now);
    }
  }

  lemma ReschedulingCommitsExactly(db: Db, a: Id, w: Id, d: Id, r: Id, scheduledFor: Time, now: Time)
    requires Constraints(db)
    ensures RescheduleReview(db, a, w, d, r, scheduledFor, now).Ok? <==> ReviewPermitted(db, a, w, d, RescheduleR(r, scheduledFor, now))
    ensures RescheduleReview(db, a, w, d, r, scheduledFor, now).Ok? ==>
              ReviewEffect(db, a, d, RescheduleR(r, scheduledFor, now), RescheduleReview(db, a, w, d, r, scheduledFor, now).value)
  {
    hide Governance.Constraints, Governance.ReviewContext;
    ReviewContextIs(db, a, w, d);
    if ReviewContext(db, a, w, d).Ok? && ReviewIsScheduled(db, d, r) {
      ReviewColumns(db, r);
      ReviewRowFits(db, r, db.reviews[r].(scheduledFor := scheduledFor));
    }
  }

  lemma CancellingReviewCommitsExactly(db: Db, a: Id, w: Id, d: Id, r: Id, now: Time)
    requires Constraints(db)
    ensures CancelReview(db, a, w, d, r, now).Ok? <==> ReviewPermitted(db, a, w, d, CancelR(r, now))
    ensures CancelReview(db, a, w, d, r, now).Ok? ==>
              ReviewEffect(db, a, d, CancelR(r, now), CancelReview(db, a, w, d, r, now).value)
  {
    hide Governance.Constraints, Governance.ReviewContext;
    ReviewContextIs(db, a, w, d);
    if ReviewContext(db, a, w, d).Ok? && ReviewIsScheduled(db, d, r) {
      ReviewColumns(db, r);
      ReviewRowFits(db, r, db.reviews[r].(status := ReviewStatus.Cancelled, cancelledAt := Some(now)));
    }
  }

  // ---------------------------------------------------------------- completing a review

  function NumbersOf(revs: Links, links: set<Id>): set<nat>
    requires links <= revs.Keys
  {
    set r <- links :: revs[r].number
  }

  lemma {:induction false} NumbersCount(revs: Links, root: Id, links: set<Id>)
    requires UniqueLinks(revs) && forall r <- links :: r in revs && revs[r].root == root
    ensures links <= revs.Keys && |NumbersOf(revs, links)| == |links|
  {
    if links != {} {
      var r :| r in links;
      var rest := links - {r};
      NumbersCount(revs, root, rest);
      assert NumbersOf(revs, links) == NumbersOf(revs, rest) + {revs[r].number};
      assert revs[r].number !in NumbersOf(revs, rest);
    }
  }

  lemma {:induction false} OneToCount(numbers: set<nat>, n: nat)
    requires forall k :: k in numbers <==> 1 <= k <= n
    ensures |numbers| == n
  {
    if n == 0 {
      assert numbers == {};
    } else {
      OneToCount(numbers - {n}, n - 1);
    }
  }

  /** The next number of a root is one more than the number of its links. */
  lemma NextNumberCounts(db: Db, root: Id)
    requires Chained(db.revisions) && UniqueLinks(db.revisions)
    ensures NextNumber(db.revisions, root) == |LinksOf(db, root)| + 1
  {
    hide RevisionChains.UniqueLinks, RevisionChains.Chained;
    var revs := db.revisions;
    var next := NextNumber(revs, root);
    forall n: nat ensures n in Numbers(revs, root) <==> 1 <= n < next {
      NumbersAreOneToN(revs, root, n);
      NumbersHold(revs, root, n);
    }
    NumbersCount(revs, root, LinksOf(db, root));
    assert Numbers(revs, root) == NumbersOf(revs, LinksOf(db, root));
    OneToCount(Numbers(revs, root), next - 1);
  }

  lemma RootIs(db: Db, d: Id)
    requires UniqueLinks(db.revisions)
    ensures IsRootOf(db, d, RevisionRoot(db.revisions, d))
  {
    hide UniqueLinks;
    forall q | q in db.revisions && db.revisions[q].successor == d ensures RevisionRoot(db.revisions, d) == db.revisions[q].root {
      RootOfSuccessor(db.revisions, q);
    }
  }

  lemma ConfirmingCommitsExactly(db: Db, a: Id, w: Id, d: Id, r: Id, o: Outcome, ids: NewIds, now: Time)
    requires Constraints(db) && o.outcome.Confirmed?
    ensures CompleteReview(db, a, w, d, r, o, ids, now).Ok? <==> ReviewPermitted(db, a, w, d, CompleteR(r, o, ids, now))
    ensures CompleteReview(db, a, w, d, r, o, ids, now).Ok? ==>
              ReviewEffect(db, a, d, CompleteR(r, o, ids, now), CompleteReview(db, a, w, d, r, o, ids, now).value)
  {
    hide Governance.Constraints, Governance.ReviewContext, Governance.LockOf, Governance.WithRevision;
    ReviewContextIs(db, a, w, d);
    if ReviewContext(db, a, w, d).Ok? && ReviewIsScheduled(db, d, r) {
      ReviewColumns(db, r);
      ReviewRowFits(db, r, db.reviews[r].(status := ReviewStatus.Completed, outcome := Some(o.outcome), completedAt := Some(now)));
    }
  }

  lemma RevisingHasEffect(db: Db, a: Id, d: Id, l: Id, r: Id, o: Outcome, ids: NewIds, now: Time)
    requires Chained(db.revisions) && UniqueLinks(db.revisions) && !o.outcome.Confirmed?
    requires d in db.decisions && l in db.locks && db.locks[l].decision == d
    requires ReviewIsScheduled(db, d, r) && ReviewCheck(db.reviews[r])
    ensures ReviewEffect(db, a, d, CompleteR(r, o, ids, now), WithRevision(db, a, d, db.decisions[d], l, r, db.reviews[r], o, ids, now))
  {
    hide Governance.RevisionRoot, Governance.NextNumber, RevisionChains.Chained, UniqueLinks, IsRootOf, LinksOf;
    RootIs(db, d);
    NextNumberCounts(db, RevisionRoot(db.revisions, d));
  }

  lemma RevisingGuards(db: Db, a: Id, w: Id, d: Id, r: Id, o: Outcome, ids: NewIds, now: Time)
    requires !o.outcome.Confirmed? && CompleteReview(db, a, w, d, r, o, ids, now).Ok?
    ensures Completable(db, a, w, d, r, o, ids, now) && LockOf(db, d).Some?
    ensures var l := LockOf(db, d).value;
      CompleteReview(db, a, w, d, r, o, ids, now).value == WithRevision(db, a, d, db.decisions[d], l, r, db.reviews[r], o, ids, now)
  {
    hide Governance.Constraints, Governance.ReviewContext, Governance.LockOf, Governance.WithRevision;
  }

  lemma RevisingCommitsExactly(cfg: Config, db: Db, a: Id, w: Id, d: Id, r: Id, o: Outcome, ids: NewIds, now: Time)
    requires Constraints(db) && Locking(db.decisions, db.locks) && Evidenced(db) && !o.outcome.Confirmed?
    requires Chained(db.revisions) && UniqueLinks(db.revisions)
    ensures CompleteReview(db, a, w, d, r, o, ids, now).Ok? <==> ReviewPermitted(db, a, w, d, CompleteR(r, o, ids, now))
    ensures CompleteReview(db, a, w, d, r, o, ids, now).Ok? ==>
              ReviewEffect(db, a, d, CompleteR(r, o, ids, now), CompleteReview(db, a, w, d, r, o, ids, now).value)
  {
    hide Governance.Constraints, Governance.ReviewContext, Governance.LockOf, Governance.WithRevision, Governance.CompleteReview,
         GovernanceInvariants.Locking, RevisionChains.Evidenced, RevisionChains.Chained, UniqueLinks, ReviewEffect;
    ReviewContextIs(db, a, w, d);
    if Completable(db, a, w, d, r, o, ids, now) {
      CompletionOutcome(cfg, db, a, w, d, r, o, ids, now);
    }
    if CompleteReview(db, a, w, d, r, o, ids, now).Ok? {
      RevisingGuards(db, a, w, d, r, o, ids, now);
      ReviewColumns(db, r);
      RevisingHasEffect(db, a, d, LockOf(db, d).value, r, o, ids, now);
    }
  }

  lemma ReviewCallsCommit(cfg: Config, db: Db, a: Id, w: Id, d: Id, c: ReviewCall)
    requires Constraints(db) && Locking(db.decisions, db.locks) && Evidenced(db)
    requires Chained(db.revisions) && UniqueLinks(db.revisions)
    ensures ApplyReview(db, a, w, d, c).Ok? <==> ReviewPermitted(db, a, w, d, c)
    ensures ApplyReview(db, a, w, d, c).Ok? ==> ReviewEffect(db, a, d, c, ApplyReview(db, a, w, d, c).value)
  {
    hide Governance.Constraints, GovernanceInvariants.Locking, RevisionChains.Evidenced, RevisionChains.Chained, UniqueLinks,
         Governance.CreateReview, Governance.RescheduleReview, Governance.CancelReview, Governance.CompleteReview,
         ReviewPermitted, ReviewEffect;
    match c
    case CreateR(id, scheduledFor, now) => SchedulingCommitsExactly(db, a, w, d, id, scheduledFor, now);
    case RescheduleR(r, scheduledFor, now) => ReschedulingCommitsExactly(db, a, w, d, r, scheduledFor, now);
    case CancelR(r, now) => CancellingReviewCommitsExactly(db, a, w, d, r, now);
    case CompleteR(r, o, ids, now) =>
      if o.outcome.Confirmed? {
        ConfirmingCommitsExactly(db, a, w, d, r, o, ids, now);
      } else {
        RevisingCommitsExactly(cfg, db, a, w, d, r, o, ids, now);
      }
  }

  // ---------------------------------------------------------------- every call

  lemma ChangingHasEffect(db: Db, w: Id, user: Id, role: Option<Role>)
    ensures MemberEffect(db, w, user, role, ChangeMembership(db, w, user, role))
  {
  }

  lemma CallsCommit(cfg: Config, db: Db, c: Call)
    requires Good(cfg, db) && Evidenced(db) && Chained(db.revisions) && UniqueLinks(db.revisions)
    ensures Apply(cfg, db, c).Ok? <==> Permitted(db, c)
    ensures Apply(cfg, db, c).Ok? ==> Effect(cfg, db, c, Apply(cfg, db, c).value)
  {
    hide Governance.Constraints, GovernanceInvariants.Locking, GovernanceInvariants.Polling, GovernanceInvariants.AllAnchored,
         GovernanceInvariants.Frozen, GovernanceInvariants.Announced, RevisionChains.Evidenced, RevisionChains.Chained, UniqueLinks,
         ApplyDecision, ApplyProposal, ApplyObjection, ApplyVoting, ApplyReview, Governance.CreateLock, Governance.RequestExport,
         Governance.ChangeMembership, DecisionPermitted, DecisionEffect, ProposalPermitted, ProposalEffect, ObjectionPermitted,
         ObjectionEffect, VotingPermitted, VotingEffect, LockPermitted, LockEffect, ExportPermitted, ExportEffect, ReviewPermitted,
         ReviewEffect, MemberEffect;
    match c.request
    case OnMember(user, role) => ChangingHasEffect(db, c.workspace, user, role);
    case OnDecision(r) => DecisionCallsCommit(db, c.actor, c.workspace, r);
    case OnProposal(d, r) => ProposalCallsCommit(db, c.actor, c.workspace, d, r);
    case OnObjection(d, p, r) => ObjectionCallsCommit(db, c.actor, c.workspace, d, p, r);
    case OnVoting(d, r) => VotingCallsCommit(db, c.actor, c.workspace, d, r);
    case OnReview(d, r) => ReviewCallsCommit(cfg, db, c.actor, c.workspace, d, r);
    case OnLock(d, s, id, event, now, ties) => LockingCommitsExactly(cfg, db, c.actor, c.workspace, d, s, id, event, now, ties);
    case OnExport(d, id) => RequestingCommitsExactly(cfg, db, c.actor, c.workspace, d, id);
  }

  /**
    In every reachable state every call of every service commits exactly when it is permitted, in terms of roles, statuses
    and rows alone, and then changes exactly what its effect says; no constraint refuses anything else.
   */
  lemma CallsCommitExactly(cfg: Config, calls: seq<Call>, c: Call)
    ensures var db := Run(cfg, calls);
      && (Apply(cfg, db, c).Ok? <==> Permitted(db, c))
      && (Permitted(db, c) ==> Effect(cfg, db, c, Next(cfg, db, c)))
      && (!Permitted(db, c) ==> Next(cfg, db, c) == db)
  {
    hide GovernanceRuns.Run, Good, Apply, Permitted, Effect, RevisionChains.Evidenced, UniqueLinks;
    ReachableIsGood(cfg, calls);
    ReachableIsChained(cfg, calls);
    CallsCommit(cfg, Run(cfg, calls), c);
  }
}
