/** Every vote counts for the option that its voter chose: the votes table is the history of the committed casts. */
module VoteHistory {
  import opened Options
  import opened Governance
  import opened GovernanceRuns
  import opened GovernanceGuards
  import opened GovernanceOutcomes
  import opened GovernanceHistory
  import opened RevisionChains
  import LockDocuments

  // ---------------------------------------------------------------- one call

  /** A committed cast adds its own vote to the chosen option, for the caller, and changes no other option's votes. */
  lemma CastCounts(cfg: Config, calls: seq<Call>, actor: Id, w: Id, d: Id, s: Id, id: Id, p: Id, now: Time)
    requires Apply(cfg, Run(cfg, calls), Call(actor, w, OnVoting(d, CastS(s, id, p, now)))).Ok?
    ensures var db := Run(cfg, calls); var next := Next(cfg, db, Call(actor, w, OnVoting(d, CastS(s, id, p, now))));
      && id !in VotesIn(db, s) && VotesInFor(next, s, p) == VotesInFor(db, s, p) + {id}
      && (forall t: Id, q: Id :: (t, q) != (s, p) ==> VotesInFor(next, t, q) == VotesInFor(db, t, q))
      && id in next.votes && next.votes[id].voter == actor
  {
    hide GovernanceRuns.Run, Apply;
    var c := Call(actor, w, OnVoting(d, CastS(s, id, p, now)));
    CallsCommitExactly(cfg, calls, c);
    CastAdds(Run(cfg, calls), actor, w, d, s, id, p, now, Next(cfg, Run(cfg, calls), c));
  }

  lemma CastAdds(db: Db, actor: Id, w: Id, d: Id, s: Id, id: Id, p: Id, now: Time, next: Db)
    requires VotingPermitted(db, actor, w, d, CastS(s, id, p, now)) && VotingEffect(db, actor, w, d, CastS(s, id, p, now), next)
    ensures id !in VotesIn(db, s) && VotesInFor(next, s, p) == VotesInFor(db, s, p) + {id}
    ensures forall t: Id, q: Id :: (t, q) != (s, p) ==> VotesInFor(next, t, q) == VotesInFor(db, t, q)
  {
  }

  lemma DecisionsKeepVotes(db: Db, a: Id, w: Id, c: DecisionCall, next: Db)
    requires DecisionEffect(db, a, w, c, next)
    ensures next.votes == db.votes
  {
  }

  lemma ProposalsKeepVotes(db: Db, a: Id, d: Id, c: ProposalCall, next: Db)
    requires ProposalEffect(db, a, d, c, next)
    ensures next.votes == db.votes
  {
  }

  lemma ObjectionsKeepVotes(db: Db, a: Id, p: Id, c: ObjectionCall, next: Db)
    requires ObjectionEffect(db, a, p, c, next)
    ensures next.votes == db.votes
  {
  }

  lemma SessionsKeepVotes(db: Db, a: Id, w: Id, d: Id, c: VotingCall, next: Db)
    requires VotingEffect(db, a, w, d, c, next) && !c.CastS?
    ensures next.votes == db.votes
  {
  }

  lemma ReviewsKeepVotes(db: Db, a: Id, d: Id, c: ReviewCall, next: Db)
    requires ReviewEffect(db, a, d, c, next)
    ensures next.votes == db.votes
  {
    hide GovernanceGuards.RevisionEffect, GovernanceGuards.ReviewChanges, GovernanceGuards.Completes;
  }

  lemma LockingKeepsVotes(cfg: Config, db: Db, a: Id, d: Id, s: Id, id: Id, event: Id, now: Time, next: Db)
    requires LockEffect(cfg, db, a, d, s, id, event, now, next)
    ensures next.votes == db.votes
  {
  }

  lemma ExportingKeepsVotes(db: Db, d: Id, id: Id, next: Db)
    requires ExportEffect(db, d, id, next)
    ensures next.votes == db.votes
  {
  }

  lemma ChangingKeepsVotes(db: Db, w: Id, user: Id, role: Option<Role>, next: Db)
    requires MemberEffect(db, w, user, role, next)
    ensures next.votes == db.votes
  {
  }

  /** Only a cast changes the votes table. */
  lemma OthersKeepVotes(cfg: Config, db: Db, c: Call, next: Db)
    requires Effect(cfg, db, c, next) && !(c.request.OnVoting? && c.request.votingCall.CastS?)
    ensures next.votes == db.votes
  {
    hide GovernanceGuards.DecisionEffect, GovernanceGuards.ProposalEffect, GovernanceGuards.ObjectionEffect,
         GovernanceGuards.VotingEffect, GovernanceGuards.ReviewEffect, GovernanceGuards.LockEffect, GovernanceGuards.ExportEffect,
         GovernanceGuards.MemberEffect;
    match c.request
    case OnMember(user, role) => ChangingKeepsVotes(db, c.workspace, user, role, next);
    case OnDecision(r) => DecisionsKeepVotes(db, c.actor, c.workspace, r, next);
    case OnProposal(d, r) => ProposalsKeepVotes(db, c.actor, d, r, next);
    case OnObjection(_, p, r) => ObjectionsKeepVotes(db, c.actor, p, r, next);
    case OnVoting(d, r) => SessionsKeepVotes(db, c.actor, c.workspace, d, r, next);
    case OnReview(d, r) => ReviewsKeepVotes(db, c.actor, d, r, next);
    case OnLock(d, s, id, event, now, _) => LockingKeepsVotes(cfg, db, c.actor, d, s, id, event, now, next);
    case OnExport(d, id) => ExportingKeepsVotes(db, d, id, next);
  }

  // ---------------------------------------------------------------- whole runs

  /** Call `i` of the run was a vote of its own caller, with that identifier for that option, and it committed. */
  ghost predicate CastAt(cfg: Config, calls: seq<Call>, i: nat, v: Id, vote: Vote) {
    && i < |calls| && calls[i].actor == vote.voter
    && calls[i].request.OnVoting? && calls[i].request.votingCall.CastS?
    && calls[i].request.votingCall.id == v
    && calls[i].request.votingCall.s == vote.session && calls[i].request.votingCall.p == vote.proposal
    && Apply(cfg, Run(cfg, calls[..i]), calls[i]).Ok?
  }

  ghost predicate WasCast(cfg: Config, calls: seq<Call>, v: Id, vote: Vote) {
    exists i: nat :: CastAt(cfg, calls, i, v, vote)
  }

  lemma LastCall(cfg: Config, front: seq<Call>, c: Call)
    ensures Run(cfg, front + [c]) == Next(cfg, Run(cfg, front), c)
  {
    hide Next;
    LockDocuments.RunAppends(cfg, EMPTY, front, [c]);
    var db := Run(cfg, front);
    assert RunFrom(cfg, db, [c]) == RunFrom(cfg, Next(cfg, db, c), []);
  }

  /** A vote that a call leaves was there before, or the call cast it. */
  lemma NewVoteIsCast(cfg: Config, front: seq<Call>, c: Call, v: Id)
    requires v in Next(cfg, Run(cfg, front), c).votes
    ensures var db := Run(cfg, front); var vote := Next(cfg, db, c).votes[v];
      (v in db.votes && db.votes[v] == vote) || CastAt(cfg, front + [c], |front|, v, vote)
  {
    hide GovernanceRuns.Run, Apply, Permitted;
    var db := Run(cfg, front);
    var next := Next(cfg, db, c);
    CallsCommitExactly(cfg, front, c);
    if Permitted(db, c) {
      if c.request.OnVoting? && c.request.votingCall.CastS? {
        assert (front + [c])[..|front|] == front;
      } else {
        hide Effect;
        OthersKeepVotes(cfg, db, c, next);
      }
    }
  }

  lemma {:induction false} VoteWasCast(cfg: Config, calls: seq<Call>, v: Id)
    requires v in Run(cfg, calls).votes
    ensures WasCast(cfg, calls, v, Run(cfg, calls).votes[v])
    decreases |calls|
  {
    hide Next, Apply, RunFrom;
    if calls == [] {
      NoVotesYet(cfg);
    } else {
      var front, c := calls[..|calls| - 1], calls[|calls| - 1];
      assert calls == front + [c];
      LastCall(cfg, front, c);
      NewVoteIsCast(cfg, front, c, v);
      var vote := Run(cfg, calls).votes[v];
      if v in Run(cfg, front).votes && Run(cfg, front).votes[v] == vote {
        VoteWasCast(cfg, front, v);
        var i: nat :| CastAt(cfg, front, i, v, vote);
        assert calls[..i] == front[..i];
        assert CastAt(cfg, calls, i, v, vote);
      }
    }
  }

  lemma NoVotesYet(cfg: Config)
    ensures Run(cfg, []).votes == map[]
  {
  }

  lemma CastStays(cfg: Config, calls: seq<Call>, i: nat, v: Id, vote: Vote)
    requires CastAt(cfg, calls, i, v, vote)
    ensures v in Run(cfg, calls).votes && Run(cfg, calls).votes[v] == vote
  {
    hide Next, Apply, RunFrom, Permitted, Good;
    var before, c, after := calls[..i], calls[i], calls[i + 1..];
    assert calls == (before + [c]) + after;
    CallsCommitExactly(cfg, before, c);
    LastCall(cfg, before, c);
    var db := Run(cfg, before + [c]);
    assert v in db.votes && db.votes[v] == vote;
    ReachableIsGood(cfg, before + [c]);
    LockDocuments.RunAppends(cfg, EMPTY, before + [c], after);
    SettledForGood(cfg, db, after);
  }

  /**
    In every reachable state the votes are exactly the committed casts of the run: each row was cast by its voter, in its
    session, for its proposal; and every cast that committed is there, as it was cast.
   */
  lemma VotesAreTheCasts(cfg: Config, calls: seq<Call>, v: Id, vote: Vote)
    ensures v in Run(cfg, calls).votes && Run(cfg, calls).votes[v] == vote <==> WasCast(cfg, calls, v, vote)
  {
    hide GovernanceRuns.Run, CastAt;
    if v in Run(cfg, calls).votes {
      VoteWasCast(cfg, calls, v);
    }
    if i: nat :| CastAt(cfg, calls, i, v, vote) {
      CastStays(cfg, calls, i, v, vote);
    }
  }

  /** So an option's tally counts exactly the committed casts for it in that session. */
  lemma TalliesCountCasts(cfg: Config, calls: seq<Call>, s: Id, p: Id, v: Id)
    ensures v in VotesInFor(Run(cfg, calls), s, p) <==> exists voter: Id :: WasCast(cfg, calls, v, Vote(s, voter, p))
  {
    hide GovernanceRuns.Run, WasCast;
    var db := Run(cfg, calls);
    if v in VotesInFor(db, s, p) {
      VotesAreTheCasts(cfg, calls, v, db.votes[v]);
      assert db.votes[v] == Vote(s, db.votes[v].voter, p);
    }
    if voter: Id :| WasCast(cfg, calls, v, Vote(s, voter, p)) {
      VotesAreTheCasts(cfg, calls, v, Vote(s, voter, p));
    }
  }
}
