/** Every election in a reachable state adds up, and every closed one has exactly one outcome. */
module Elections {
  import opened Options
  import opened Ordering
  import opened VotingMath
  import opened Governance
  import opened GovernanceInvariants
  import opened GovernanceRuns

  lemma VotesSplit(votes: map<Id, Vote>, p: Id)
    ensures var others := votes - VotesFor(votes, p);
      |votes| == |VotesFor(votes, p)| + |others|
  {
    var others := votes - VotesFor(votes, p);
    assert votes.Keys == VotesFor(votes, p) + others.Keys;
  }

  lemma {:induction false} CountsIgnoreOthers(votes: map<Id, Vote>, p: Id, ballot: seq<Id>)
    requires p !in ballot
    ensures CountsFor(votes - VotesFor(votes, p), ballot) == CountsFor(votes, ballot)
  {
    if ballot != [] {
      CountsIgnoreOthers(votes, p, ballot[1..]);
      assert VotesFor(votes - VotesFor(votes, p), ballot[0]) == VotesFor(votes, ballot[0]);
    }
  }

  /** The tallies of a ballot without repetitions count every vote once. */
  lemma {:induction false} CountsAddUp(votes: map<Id, Vote>, ballot: seq<Id>)
    requires forall i, j :: 0 <= i < j < |ballot| ==> ballot[i] < ballot[j]
    requires forall v <- votes :: votes[v].proposal in ballot
    ensures SumVotes(CountsFor(votes, ballot)) == |votes|
  {
    if ballot == [] {
      assert votes == map[];
    } else {
      var others := votes - VotesFor(votes, ballot[0]);
      VotesSplit(votes, ballot[0]);
      CountsIgnoreOthers(votes, ballot[0], ballot[1..]);
      CountsAddUp(others, ballot[1..]);
    }
  }

  /** Distinct voters cast at most one vote each. */
  lemma {:induction false} VotesAreBounded(votes: map<Id, Vote>, voters: set<Id>)
    requires forall v <- votes :: votes[v].voter in voters
    requires forall v <- votes, w <- votes :: votes[v].voter == votes[w].voter ==> v == w
    ensures |votes| <= |voters|
  {
    if votes != map[] {
      var v :| v in votes;
      var rest := votes - {v};
      assert |rest| == |votes| - 1 by { assert rest.Keys == votes.Keys - {v}; }
      VotesAreBounded(rest, voters - {votes[v].voter});
    }
  }

  /** What is known of the ballots of one session. */
  lemma BallotsAreValid(db: Db, s: Id)
    requires VotingKeys(db.sessions, db.votes)
    requires Polling(db.decisions, db.proposals, db.sessions, db.voters, db.ballots, db.votes)
    ensures var votes := VotesOf(db, s);
      && (forall v <- votes :: votes[v].voter in VotersOf(db, s) && votes[v].proposal in BallotOf(db, s))
      && (forall v <- votes, w <- votes :: votes[v].voter == votes[w].voter ==> v == w)
  {
  }

  /**
    For every session that was opened, whatever happened to roles and memberships since: the tallies sum to the ballots,
    which are at most the stored eligible count, which is the number of eligible rows.
   */
  lemma ElectionAddsUp(cfg: Config, calls: seq<Call>, s: Id)
    requires s in Run(cfg, calls).sessions && Run(cfg, calls).sessions[s].openedAt.Some?
    ensures var db := Run(cfg, calls);
      && SumVotes(CountsFor(VotesOf(db, s), Ascending(BallotOf(db, s)))) == |VotesOf(db, s)|
      && |VotesOf(db, s)| <= db.sessions[s].eligibleCount == |VotersOf(db, s)|
      && (forall v <- VotesOf(db, s) :: VotesOf(db, s)[v].voter in VotersOf(db, s) && VotesOf(db, s)[v].proposal in BallotOf(db, s))
  {
    hide GovernanceRuns.Run;
    ReachableIsGood(cfg, calls);
    SessionAddsUp(cfg, Run(cfg, calls), s);
  }

  lemma SessionAddsUp(cfg: Config, db: Db, s: Id)
    requires Good(cfg, db) && s in db.sessions && db.sessions[s].openedAt.Some?
    ensures SumVotes(CountsFor(VotesOf(db, s), Ascending(BallotOf(db, s)))) == |VotesOf(db, s)|
    ensures |VotesOf(db, s)| <= db.sessions[s].eligibleCount == |VotersOf(db, s)|
    ensures forall v <- VotesOf(db, s) :: VotesOf(db, s)[v].voter in VotersOf(db, s) && VotesOf(db, s)[v].proposal in BallotOf(db, s)
  {
    hide GovernanceInvariants.Frozen, GovernanceInvariants.AllAnchored, GovernanceInvariants.Announced,
         GovernanceInvariants.Locking, GovernanceInvariants.Unblocked,
         Governance.ForeignKeys, Governance.Checks, Governance.RevisionKeys, Governance.LockKeys;
    BallotsAreValid(db, s);
    assert SessionRows(s, db.sessions[s], db.voters, db.ballots);
    CountsAddUp(VotesOf(db, s), Ascending(BallotOf(db, s)));
    VotesAreBounded(VotesOf(db, s), VotersOf(db, s));
  }

  /**
    A closed session falls under exactly one of: below quorum, tie, winner.  The required number of votes is the least
    that meets the percentage and is within reach; a winner has a vote and strictly more than every other option.
   */
  lemma ClosedElection(cfg: Config, calls: seq<Call>, s: Id)
    requires s in Run(cfg, calls).sessions && Run(cfg, calls).sessions[s].status.Closed?
    ensures var db := Run(cfg, calls); var r := ResultOf(cfg, db, s); var row := db.sessions[s];
      && 1 <= r.requiredVotes <= row.eligibleCount
      && (forall v: nat :: r.requiredVotes <= v <==> row.eligibleCount * row.quorum <= 100 * v)
      && (r.quorumMet <==> row.eligibleCount * row.quorum <= 100 * |VotesOf(db, s)|)
      && (r.isTie <==> r.quorumMet && SharesTheLead(r.tallies))
      && (forall p: nat :: r.winner == Some(p) <==> r.quorumMet && StrictlyLeads(r.tallies, p))
      && (r.winner.Some? <==> r.quorumMet && !r.isTie)
  {
    hide GovernanceRuns.Run, VotingMath.Evaluate, GovernanceRuns.Good, Governance.ResultOf, VotingMath.SharesTheLead,
         VotingMath.StrictlyLeads;
    ReachableIsGood(cfg, calls);
    ClosedOutcome(cfg, Run(cfg, calls), s);
  }

  lemma ClosedOutcome(cfg: Config, db: Db, s: Id)
    requires Good(cfg, db) && s in db.sessions && db.sessions[s].status.Closed?
    ensures var r := ResultOf(cfg, db, s); var row := db.sessions[s];
      && 1 <= r.requiredVotes <= row.eligibleCount
      && (forall v: nat :: r.requiredVotes <= v <==> row.eligibleCount * row.quorum <= 100 * v)
      && (r.quorumMet <==> row.eligibleCount * row.quorum <= 100 * |VotesOf(db, s)|)
      && (r.isTie <==> r.quorumMet && SharesTheLead(r.tallies))
      && (forall p: nat :: r.winner == Some(p) <==> r.quorumMet && StrictlyLeads(r.tallies, p))
      && (r.winner.Some? <==> r.quorumMet && !r.isTie)
  {
    hide VotingMath.Evaluate;
    ClosedSessionFacts(cfg, db, s);
    SessionAddsUp(cfg, db, s);
    var row := db.sessions[s];
    var counts := CountsFor(VotesOf(db, s), Ascending(BallotOf(db, s)));
    RequiredIsLeast(row.eligibleCount, row.quorum);
    RequiredIsReported(cfg.round, s, row.eligibleCount, row.quorum, counts, SumVotes(counts));
    ExactlyOneOutcome(cfg.round, s, row.eligibleCount, row.quorum, counts);
  }

  lemma RequiredIsReported(round: Rounding, s: Id, eligible: nat, quorum: nat, counts: seq<Count>, cast: nat)
    ensures Evaluate(round, s, eligible, quorum, counts, cast).requiredVotes == RequiredVotes(eligible, quorum)
  {
  }

  lemma ClosedSessionFacts(cfg: Config, db: Db, s: Id)
    requires Good(cfg, db) && s in db.sessions && db.sessions[s].status.Closed?
    ensures db.sessions[s].openedAt.Some? && 1 <= db.sessions[s].quorum <= 100
    ensures db.sessions[s].eligibleCount >= 1 && |BallotOf(db, s)| >= 2
  {
    hide GovernanceInvariants.Frozen, GovernanceInvariants.AllAnchored, GovernanceInvariants.Announced,
         GovernanceInvariants.Locking, GovernanceInvariants.Unblocked,
         Governance.ForeignKeys, Governance.RevisionKeys, Governance.LockKeys, Governance.VotingKeys;
    assert SessionCheck(db.sessions[s]);
    assert SessionRows(s, db.sessions[s], db.voters, db.ballots);
  }

  /** The shares of an election with votes, in hundredths of a percent: nearest, ordered like the votes, adding up to 100%. */
  lemma ElectionShares(cfg: Config, calls: seq<Call>, s: Id, i: nat, j: nat)
    requires RoundsToNearest(cfg.round)
    requires s in Run(cfg, calls).sessions && Run(cfg, calls).sessions[s].openedAt.Some?
    requires |VotesOf(Run(cfg, calls), s)| > 0
    requires i < |ResultOf(cfg, Run(cfg, calls), s).tallies| && j < |ResultOf(cfg, Run(cfg, calls), s).tallies|
    ensures var cast := |VotesOf(Run(cfg, calls), s)|; var t := ResultOf(cfg, Run(cfg, calls), s).tallies;
      && Nearest(t[i].hundredths, t[i].votes * 10000, cast)
      && (t[i].votes <= t[j].votes ==> t[i].hundredths <= t[j].hundredths)
      && 20000 - |t| <= 2 * SumHundredths(t) <= 20000 + |t|
  {
    hide GovernanceRuns.Run, GovernanceRuns.Good, VotingMath.RoundsToNearest, VotingMath.SumVotes;
    ReachableIsGood(cfg, calls);
    var db := Run(cfg, calls);
    SessionAddsUp(cfg, db, s);
    var counts := CountsFor(VotesOf(db, s), Ascending(BallotOf(db, s)));
    SharesAddUp(cfg.round, counts, SumVotes(counts));
    SharesKeepOrder(cfg.round, counts, i, i);
    if counts[i].votes <= counts[j].votes {
      SharesKeepOrder(cfg.round, counts, i, j);
    }
  }
}
