/**
  The governance tables as a store that the service methods change in place.

  A method reads rows, leaves with an error when a guard fails, assigns to rows of the working tables, and commits.  A
  commit that breaks a constraint rolls the working tables back to the committed ones.  Each method is proved to do what
  the call of the same name in `Governance` says about the tables before and after.
 */
module GovernanceStore {
  import opened Options
  import opened VotingMath
  import opened G = Governance
  import J = CanonicalJson
  import R = GovernanceRuns
  import Chains = RevisionChains
  import Guards = GovernanceGuards
  import Outcomes = GovernanceOutcomes

  type Outcome = Attempt<(), Error>

  /** The outcome and the tables after a method agree with the specified call on the tables before it. */
  ghost predicate Performs(outcome: Outcome, before: Db, after: Db, call: Attempt<Db, Error>) {
    match call
    case Ok(next) => outcome == Ok(()) && after == next
    case Refused(error) => outcome == Refused(error) && after == before
  }

  /** The constraints and the invariants of every reachable state. */
  ghost predicate Sound(cfg: Config, db: Db) {
    R.Good(cfg, db) && Chains.ChainInv(db)
  }

  /** In terms of rows: the method succeeds exactly when the call is permitted, and then has its effect and no other. */
  ghost predicate Follows(cfg: Config, outcome: Outcome, before: Db, after: Db, call: R.Call) {
    && (outcome.Ok? <==> Guards.Permitted(before, call))
    && (outcome.Ok? ==> Guards.Effect(cfg, before, call, after))
    && (outcome.Refused? ==> after == before)
  }

  /** What is known of a call before it is made. */
  ghost predicate Specified(cfg: Config, db: Db, call: R.Call, result: Attempt<Db, Error>) {
    && (result.Ok? <==> Guards.Permitted(db, call))
    && (result.Ok? ==> Guards.Effect(cfg, db, call, result.value) && Sound(cfg, result.value))
  }

  lemma CallIsSpecified(cfg: Config, db: Db, call: R.Call)
    requires Sound(cfg, db)
    ensures Specified(cfg, db, call, R.Apply(cfg, db, call))
  {
    hide R.Good, R.Apply, Chains.ChainInv, Chains.UniqueLinks, Guards.Permitted, Guards.Effect;
    R.StepIsGood(cfg, db, call);
    Chains.StepKeepsChains(cfg, db, call);
    Chains.RevisionConstraints(cfg, db);
    SoundIsChained(cfg, db);
    Outcomes.CallsCommit(cfg, db, call);
  }

  lemma SoundIsChained(cfg: Config, db: Db)
    requires Sound(cfg, db)
    ensures Chains.Chained(db.revisions) && Chains.Evidenced(db)
  {
    hide R.Good;
  }

  lemma DecisionIsSpecified(cfg: Config, db: Db, a: Id, w: Id, c: R.DecisionCall)
    requires Sound(cfg, db)
    ensures Specified(cfg, db, R.Call(a, w, R.OnDecision(c)), R.ApplyDecision(db, a, w, c))
  {
    hide Sound, Specified, R.ApplyDecision, R.ApplyProposal, R.ApplyObjection, R.ApplyVoting, R.ApplyReview, G.CreateLock, G.RequestExport;
    CallIsSpecified(cfg, db, R.Call(a, w, R.OnDecision(c)));
  }

  lemma ProposalIsSpecified(cfg: Config, db: Db, a: Id, w: Id, d: Id, c: R.ProposalCall)
    requires Sound(cfg, db)
    ensures Specified(cfg, db, R.Call(a, w, R.OnProposal(d, c)), R.ApplyProposal(db, a, w, d, c))
  {
    hide Sound, Specified, R.ApplyDecision, R.ApplyProposal, R.ApplyObjection, R.ApplyVoting, R.ApplyReview, G.CreateLock, G.RequestExport;
    CallIsSpecified(cfg, db, R.Call(a, w, R.OnProposal(d, c)));
  }

  lemma ObjectionIsSpecified(cfg: Config, db: Db, a: Id, w: Id, d: Id, p: Id, c: R.ObjectionCall)
    requires Sound(cfg, db)
    ensures Specified(cfg, db, R.Call(a, w, R.OnObjection(d, p, c)), R.ApplyObjection(db, a, w, d, p, c))
  {
    hide Sound, Specified, R.ApplyDecision, R.ApplyProposal, R.ApplyObjection, R.ApplyVoting, R.ApplyReview, G.CreateLock, G.RequestExport;
    CallIsSpecified(cfg, db, R.Call(a, w, R.OnObjection(d, p, c)));
  }

  lemma VotingIsSpecified(cfg: Config, db: Db, a: Id, w: Id, d: Id, c: R.VotingCall)
    requires Sound(cfg, db)
    ensures Specified(cfg, db, R.Call(a, w, R.OnVoting(d, c)), R.ApplyVoting(db, a, w, d, c))
  {
    hide Sound, Specified, R.ApplyDecision, R.ApplyProposal, R.ApplyObjection, R.ApplyVoting, R.ApplyReview, G.CreateLock, G.RequestExport;
    CallIsSpecified(cfg, db, R.Call(a, w, R.OnVoting(d, c)));
  }

  lemma ReviewIsSpecified(cfg: Config, db: Db, a: Id, w: Id, d: Id, c: R.ReviewCall)
    requires Sound(cfg, db)
    ensures Specified(cfg, db, R.Call(a, w, R.OnReview(d, c)), R.ApplyReview(db, a, w, d, c))
  {
    hide Sound, Specified, R.ApplyDecision, R.ApplyProposal, R.ApplyObjection, R.ApplyVoting, R.ApplyReview, G.CreateLock, G.RequestExport;
    CallIsSpecified(cfg, db, R.Call(a, w, R.OnReview(d, c)));
  }

  lemma LockIsSpecified(cfg: Config, db: Db, a: Id, w: Id, d: Id, s: Id, id: Id, event: Id, now: Time, ties: seq<Id>)
    requires Sound(cfg, db)
    ensures Specified(cfg, db, R.Call(a, w, R.OnLock(d, s, id, event, now, ties)), G.CreateLock(cfg, db, a, w, d, s, id, event, now, ties))
  {
    hide Sound, Specified, R.ApplyDecision, R.ApplyProposal, R.ApplyObjection, R.ApplyVoting, R.ApplyReview, G.CreateLock, G.RequestExport;
    CallIsSpecified(cfg, db, R.Call(a, w, R.OnLock(d, s, id, event, now, ties)));
  }

  lemma ExportIsSpecified(cfg: Config, db: Db, a: Id, w: Id, d: Id, id: Id)
    requires Sound(cfg, db)
    ensures Specified(cfg, db, R.Call(a, w, R.OnExport(d, id)), G.RequestExport(db, a, w, d, id))
  {
    hide Sound, Specified, R.ApplyDecision, R.ApplyProposal, R.ApplyObjection, R.ApplyVoting, R.ApplyReview, G.CreateLock, G.RequestExport;
    CallIsSpecified(cfg, db, R.Call(a, w, R.OnExport(d, id)));
  }

  lemma MemberIsSpecified(cfg: Config, db: Db, w: Id, user: Id, role: Option<Role>)
    requires Sound(cfg, db)
    ensures Sound(cfg, G.ChangeMembership(db, w, user, role)) && Guards.MemberEffect(db, w, user, role, G.ChangeMembership(db, w, user, role))
  {
    hide Sound, Guards.MemberEffect;
    CallIsSpecified(cfg, db, R.Call(user, w, R.OnMember(user, role)));
  }

  lemma EmptyIsSound(cfg: Config)
    ensures Sound(cfg, EMPTY)
  {
    hide R.Good, Chains.ChainInv;
    R.ReachableIsGood(cfg, []);
    assert R.Run(cfg, []) == EMPTY;
    Chains.EmptyIsChained();
  }

  /** The alternatives collected so far, in front of those still to come. */
  function Prefixed(done: seq<J.Json>, rest: Attempt<seq<J.Json>, Error>): Attempt<seq<J.Json>, Error> {
    match rest
    case Ok(others) => Ok(done + others)
    case Refused(error) => Refused(error)
  }

  lemma PrefixedByNothing(rest: Attempt<seq<J.Json>, Error>)
    ensures Prefixed([], rest) == rest
  {
    if rest.Ok? {
      assert [] + rest.value == rest.value;
    }
  }

  lemma PrefixingNothing(done: seq<J.Json>, db: Db, d: Id, winner: Id, ties: seq<Id>)
    ensures Prefixed(done, Alternatives(db, d, winner, [], ties)) == Ok(done)
  {
    assert done + [] == done;
  }

  /** One turn of the loop: skip the winner, stop at a proposal that is gone, append any other. */
  lemma NextAlternative(db: Db, d: Id, winner: Id, tallies: seq<Tally>, ties: seq<Id>, i: nat, done: seq<J.Json>)
    requires i < |tallies|
    ensures var p := tallies[i].proposal; var rest := Alternatives(db, d, winner, tallies[i + 1..], ties);
      Prefixed(done, Alternatives(db, d, winner, tallies[i..], ties)) ==
        if p == winner then Prefixed(done, rest)
        else if p !in db.proposals || db.proposals[p].decision != d then Refused(ProposalNotFound)
        else Prefixed(done + [AlternativeJson(tallies[i], db.proposals[p], ObjectionsOf(db, p), ties)], rest)
  {
    hide G.AlternativeJson, G.ObjectionsOf;
    assert tallies[i..][1..] == tallies[i + 1..];
    var p := tallies[i].proposal;
    var rest := Alternatives(db, d, winner, tallies[i + 1..], ties);
    if p != winner && p in db.proposals && rest.Ok? {
      var entry := AlternativeJson(tallies[i], db.proposals[p], ObjectionsOf(db, p), ties);
      assert (done + [entry]) + rest.value == done + ([entry] + rest.value);
    }
  }

  class Store {
    const cfg: Config
    var committed: Db
    var db: Db  // the rows as the session in progress sees them

    /** Between calls there is no transaction in progress, and the tables satisfy the constraints and the invariant. */
    ghost predicate Valid()
      reads this
    {
      db == committed && Sound(cfg, db)
    }

    constructor (cfg: Config)
      ensures Valid() && db == EMPTY && this.cfg == cfg
    {
      hide Sound;
      this.cfg := cfg;
      committed, db := EMPTY, EMPTY;
      EmptyIsSound(cfg);
    }

    // -------------------------------------------------------------- transactions

    /** Makes the changes durable, or undoes them and reports `error`. */
    method Commit(error: Error) returns (outcome: Outcome)
      modifies this
      ensures db == committed && Performs(outcome, old(committed), db, G.Commit(old(db), error))
    {
      hide G.Constraints;
      if Constraints(db) {
        committed := db;
        outcome := Ok(());
      } else {
        db := committed;
        outcome := Refused(error);
      }
    }

    method StageEvent(event: Id, kind: EventType, subject: Id)
      modifies this`db
      ensures db == Stage(old(db), event, kind, subject)
    {
      db := db.(outbox := db.outbox[event := OutboxRow(kind, subject)]);
    }

    /** Anybody may join, leave or change roles at any time. */
    method ChangeMembership(workspace: Id, user: Id, role: Option<Role>)
      requires Valid()
      modifies this
      ensures Valid() && db == G.ChangeMembership(old(db), workspace, user, role)
      ensures Guards.MemberEffect(old(db), workspace, user, role, db)
    {
      hide Sound, Guards.MemberEffect;
      MemberIsSpecified(cfg, db, workspace, user, role);
      if role.Some? {
        db := db.(members := db.members[(workspace, user) := role.value]);
      } else {
        db := db.(members := db.members - {(workspace, user)});
      }
      committed := db;
    }

    // -------------------------------------------------------------- decisions

    method CreateDecision(actor: Id, workspace: Id, id: Id, row: Decision) returns (outcome: Outcome)
      requires Valid()
      modifies this
      ensures Valid() && Performs(outcome, old(db), db, G.CreateDecision(old(db), actor, workspace, id, row))
      ensures Follows(cfg, outcome, old(db), db, R.Call(actor, workspace, R.OnDecision(R.CreateD(id, row))))
    {
      hide Sound, Guards.Permitted, Guards.Effect, G.Constraints;
      DecisionIsSpecified(cfg, db, actor, workspace, R.CreateD(id, row));
      var role :- MemberRole(db, workspace, actor);
      :- Need(Writes(role), DecisionAccessDenied);
      :- Need(id !in db.decisions, IntegrityRejected);
      var added := NewDecision(workspace, actor, row.title, row.summary, row.category, row.dueAt, row.reviewAt);
      db := db.(decisions := db.decisions[id := added]);
      outcome := Commit(IntegrityRejected);
    }

    method UpdateDecision(actor: Id, workspace: Id, d: Id, edit: DecisionEdit) returns (outcome: Outcome)
      requires Valid()
      modifies this
      ensures Valid() && Performs(outcome, old(db), db, G.UpdateDecision(old(db), actor, workspace, d, edit))
      ensures Follows(cfg, outcome, old(db), db, R.Call(actor, workspace, R.OnDecision(R.UpdateD(d, edit))))
    {
      hide Sound, Guards.Permitted, Guards.Effect, G.Constraints;
      DecisionIsSpecified(cfg, db, actor, workspace, R.UpdateD(d, edit));
      var role :- MemberRole(db, workspace, actor);
      :- Need(Writes(role), DecisionAccessDenied);
      var row :- FindDecision(db, workspace, d);
      :- Need(Mutable(row), DecisionImmutable);
      if edit.title.Some? { row := row.(title := edit.title.value); }
      if edit.summary.Some? { row := row.(summary := edit.summary.value); }
      if edit.category.Some? { row := row.(category := edit.category.value); }
      if edit.dueAt.Some? { row := row.(dueAt := edit.dueAt.value); }
      if edit.reviewAt.Some? { row := row.(reviewAt := edit.reviewAt.value); }
      :- Need(Ordered(row.dueAt, row.reviewAt), DecisionInvalidTransition);
      db := db.(decisions := db.decisions[d := row]);
      outcome := Commit(IntegrityRejected);
    }

    method TransitionDecision(actor: Id, workspace: Id, d: Id, target: DecisionStatus, event: Id, now: Time)
      returns (outcome: Outcome)
      requires Valid()
      modifies this
      ensures Valid() && Performs(outcome, old(db), db, G.TransitionDecision(old(db), actor, workspace, d, target, event, now))
      ensures Follows(cfg, outcome, old(db), db, R.Call(actor, workspace, R.OnDecision(R.TransitionD(d, target, event, now))))
    {
      hide Sound, Guards.Permitted, Guards.Effect, G.Constraints;
      DecisionIsSpecified(cfg, db, actor, workspace, R.TransitionD(d, target, event, now));
      var role :- MemberRole(db, workspace, actor);
      :- Need(Writes(role), DecisionAccessDenied);
      var row :- FindDecision(db, workspace, d);
      :- Need(!row.status.Locked?, DecisionImmutable);
      :- Need(target in AllowedTransitions(row.status), DecisionInvalidTransition);
      if row.status.Draft? && target.Active? {
        :- Need(event !in db.outbox, IntegrityRejected);
        StageEvent(event, DecisionActivated, d);
      }
      var closedAt := if target.Closed? then Some(now) else None;
      var archivedAt := if target.Archived? then Some(now) else None;
      db := db.(decisions := db.decisions[d := row.(status := target, closedAt := closedAt, archivedAt := archivedAt)]);
      outcome := Commit(IntegrityRejected);
    }

    method DeleteDecision(actor: Id, workspace: Id, d: Id) returns (outcome: Outcome)
      requires Valid()
      modifies this
      ensures Valid() && Performs(outcome, old(db), db, G.DeleteDecision(old(db), actor, workspace, d))
      ensures Follows(cfg, outcome, old(db), db, R.Call(actor, workspace, R.OnDecision(R.DeleteD(d))))
    {
      hide Sound, Guards.Permitted, Guards.Effect, G.Constraints;
      DecisionIsSpecified(cfg, db, actor, workspace, R.DeleteD(d));
      var role :- MemberRole(db, workspace, actor);
      :- Need(Manages(role), DecisionAccessDenied);
      var row :- FindDecision(db, workspace, d);
      :- Need(row.status.Draft?, DecisionImmutable);
      db := CascadeDecision(db, d);
      outcome := Commit(IntegrityRejected);
    }

    // -------------------------------------------------------------- proposals

    method CreateProposal(actor: Id, workspace: Id, d: Id, id: Id, title: string, summary: Option<string>, content: Option<string>)
      returns (outcome: Outcome)
      requires Valid()
      modifies this
      ensures Valid() && Performs(outcome, old(db), db,
                                  G.CreateProposal(old(db), actor, workspace, d, id, title, summary, content))
      ensures Follows(cfg, outcome, old(db), db, R.Call(actor, workspace, R.OnProposal(d, R.CreateP(id, title, summary, content))))
    {
      hide Sound, Guards.Permitted, Guards.Effect, G.Constraints;
      ProposalIsSpecified(cfg, db, actor, workspace, d, R.CreateP(id, title, summary, content));
      var found :- Context(db, actor, workspace, d);
      :- Need(Mutable(found.1), DecisionImmutable);
      :- Need(Writes(found.0), ProposalAccessDenied);
      :- Need(id !in db.proposals, IntegrityRejected);
      var added := Proposal(d, actor, title, summary, content, ProposalStatus.Draft, None, None);
      db := db.(proposals := db.proposals[id := added]);
      outcome := Commit(IntegrityRejected);
    }

    method UpdateProposal(actor: Id, workspace: Id, d: Id, p: Id, edit: ProposalEdit) returns (outcome: Outcome)
      requires Valid()
      modifies this
      ensures Valid() && Performs(outcome, old(db), db, G.UpdateProposal(old(db), actor, workspace, d, p, edit))
      ensures Follows(cfg, outcome, old(db), db, R.Call(actor, workspace, R.OnProposal(d, R.UpdateP(p, edit))))
    {
      hide Sound, Guards.Permitted, Guards.Effect, G.Constraints;
      ProposalIsSpecified(cfg, db, actor, workspace, d, R.UpdateP(p, edit));
      var row :- EditableProposal(db, actor, workspace, d, p);
      :- Need(row.status.Draft?, ProposalImmutable);
      if edit.title.Some? { row := row.(title := edit.title.value); }
      if edit.summary.Some? { row := row.(summary := edit.summary.value); }
      if edit.content.Some? { row := row.(content := edit.content.value); }
      db := db.(proposals := db.proposals[p := row]);
      outcome := Commit(IntegrityRejected);
    }

    method TransitionProposal(actor: Id, workspace: Id, d: Id, p: Id, target: ProposalStatus, now: Time)
      returns (outcome: Outcome)
      requires Valid()
      modifies this
      ensures Valid() && Performs(outcome, old(db), db,
                                  G.TransitionProposal(old(db), actor, workspace, d, p, target, now))
      ensures Follows(cfg, outcome, old(db), db, R.Call(actor, workspace, R.OnProposal(d, R.TransitionP(p, target, now))))
    {
      hide Sound, Guards.Permitted, Guards.Effect, G.Constraints;
      ProposalIsSpecified(cfg, db, actor, workspace, d, R.TransitionP(p, target, now));
      var row :- EditableProposal(db, actor, workspace, d, p);
      :- Need(target in ProposalTransitions(row.status), ProposalInvalidTransition);
      var submittedAt := if target.Submitted? then Some(now) else None;
      var withdrawnAt := if target.Withdrawn? then Some(now) else None;
      db := db.(proposals := db.proposals[p := row.(status := target, submittedAt := submittedAt, withdrawnAt := withdrawnAt)]);
      outcome := Commit(IntegrityRejected);
    }

    method DeleteProposal(actor: Id, workspace: Id, d: Id, p: Id) returns (outcome: Outcome)
      requires Valid()
      modifies this
      ensures Valid() && Performs(outcome, old(db), db, G.DeleteProposal(old(db), actor, workspace, d, p))
      ensures Follows(cfg, outcome, old(db), db, R.Call(actor, workspace, R.OnProposal(d, R.DeleteP(p))))
    {
      hide Sound, Guards.Permitted, Guards.Effect, G.Constraints;
      ProposalIsSpecified(cfg, db, actor, workspace, d, R.DeleteP(p));
      var row :- EditableProposal(db, actor, workspace, d, p);
      :- Need(row.status.Draft?, ProposalImmutable);
      db := db.(proposals := db.proposals - {p});
      db := db.(objections := map o <- db.objections | db.objections[o].proposal != p :: db.objections[o]);
      outcome := Commit(IntegrityRejected);
    }

    // -------------------------------------------------------------- objections

    method CreateObjection(actor: Id, workspace: Id, d: Id, p: Id, id: Id, severity: Severity, title: string, description: string,
                           now: Time) returns (outcome: Outcome)
      requires Valid()
      modifies this
      ensures Valid() && Performs(outcome, old(db), db,
                                  G.CreateObjection(old(db), actor, workspace, d, p, id, severity, title, description, now))
      ensures Follows(cfg, outcome, old(db), db, R.Call(actor, workspace, R.OnObjection(d, p, R.CreateO(id, severity, title, description, now))))
    {
      hide Sound, Guards.Permitted, Guards.Effect, G.Constraints;
      ObjectionIsSpecified(cfg, db, actor, workspace, d, p, R.CreateO(id, severity, title, description, now));
      var found :- ObjectionContext(db, actor, workspace, d, p);
      :- Need(Writes(found.0), ObjectionAccessDenied);
      :- Need(found.1.status.Submitted?, ProposalImmutable);
      :- Need(id !in db.objections, IntegrityRejected);
      var added := Objection(p, actor, severity, ObjectionStatus.Open, title, description, None, None, None, now);
      db := db.(objections := db.objections[id := added]);
      outcome := Commit(IntegrityRejected);
    }

    method UpdateObjection(actor: Id, workspace: Id, d: Id, p: Id, o: Id, edit: ObjectionEdit) returns (outcome: Outcome)
      requires Valid()
      modifies this
      ensures Valid() && Performs(outcome, old(db), db,
                                  G.UpdateObjection(old(db), actor, workspace, d, p, o, edit))
      ensures Follows(cfg, outcome, old(db), db, R.Call(actor, workspace, R.OnObjection(d, p, R.UpdateO(o, edit))))
    {
      hide Sound, Guards.Permitted, Guards.Effect, G.Constraints;
      ObjectionIsSpecified(cfg, db, actor, workspace, d, p, R.UpdateO(o, edit));
      var found :- ObjectionContext(db, actor, workspace, d, p);
      var row :- FindObjection(db, p, o);
      :- Need(ManagesProposal(found.0, row.createdBy, actor), ObjectionAccessDenied);
      :- Need(row.status.Open?, ObjectionImmutable);
      if edit.severity.Some? { row := row.(severity := edit.severity.value); }
      if edit.title.Some? { row := row.(title := edit.title.value); }
      if edit.description.Some? { row := row.(description := edit.description.value); }
      db := db.(objections := db.objections[o := row]);
      outcome := Commit(IntegrityRejected);
    }

    method TransitionObjection(actor: Id, workspace: Id, d: Id, p: Id, o: Id, target: ObjectionStatus, note: string, now: Time)
      returns (outcome: Outcome)
      requires Valid()
      modifies this
      ensures Valid() && Performs(outcome, old(db), db,
                                  G.TransitionObjection(old(db), actor, workspace, d, p, o, target, note, now))
      ensures Follows(cfg, outcome, old(db), db, R.Call(actor, workspace, R.OnObjection(d, p, R.TransitionO(o, target, note, now))))
    {
      hide Sound, Guards.Permitted, Guards.Effect, G.Constraints;
      ObjectionIsSpecified(cfg, db, actor, workspace, d, p, R.TransitionO(o, target, note, now));
      var found :- ObjectionContext(db, actor, workspace, d, p);
      var row :- FindObjection(db, p, o);
      :- Need(target in ObjectionTransitions(row.status), ObjectionInvalidTransition);
      :- Need(MayTransitionObjection(found.0, row.createdBy, actor, target), ObjectionAccessDenied);
      row := row.(status := target);
      if target.Open? {
        row := row.(note := None, resolvedBy := None, resolvedAt := None);
      } else {
        row := row.(note := Some(note), resolvedBy := Some(actor), resolvedAt := Some(now));
      }
      db := db.(objections := db.objections[o := row]);
      outcome := Commit(IntegrityRejected);
    }

    // -------------------------------------------------------------- voting

    method CreateSession(actor: Id, workspace: Id, d: Id, id: Id, quorum: nat, closesAt: Option<Time>)
      returns (outcome: Outcome)
      requires Valid()
      modifies this
      ensures Valid() && Performs(outcome, old(db), db,
                                  G.CreateSession(old(db), actor, workspace, d, id, quorum, closesAt))
      ensures Follows(cfg, outcome, old(db), db, R.Call(actor, workspace, R.OnVoting(d, R.CreateS(id, quorum, closesAt))))
    {
      hide Sound, Guards.Permitted, Guards.Effect, G.Constraints;
      VotingIsSpecified(cfg, db, actor, workspace, d, R.CreateS(id, quorum, closesAt));
      var found :- Context(db, actor, workspace, d);
      :- Need(found.1.status.Active?, DecisionImmutable);
      :- Need(Manages(found.0), VotingAccessDenied);
      :- Need(!HasUnfinished(db, d), VotingConflict);
      :- Need(id !in db.sessions, VotingConflict);
      db := db.(sessions := db.sessions[id := Session(d, actor, SessionStatus.Draft, quorum, 0, None, closesAt, None, None)]);
      outcome := Commit(VotingConflict);
    }

    /** The rows of one session's electorate or ballot, one for each identifier. */
    method RowsFor(s: Id, ids: set<Id>) returns (rows: set<(Id, Id)>)
      ensures rows == SnapshotOf(s, ids)
    {
      var left := ids;
      rows := {};
      while left != {}
        invariant left <= ids
        invariant rows == SnapshotOf(s, ids - left)
        decreases left
      {
        var x :| x in left;
        assert ids - (left - {x}) == (ids - left) + {x};
        rows := rows + {(s, x)};
        left := left - {x};
      }
    }

    method OpenSession(actor: Id, workspace: Id, d: Id, s: Id, event: Id, now: Time) returns (outcome: Outcome)
      requires Valid()
      modifies this
      ensures Valid() && Performs(outcome, old(db), db,
                                  G.OpenSession(old(db), actor, workspace, d, s, event, now))
      ensures Follows(cfg, outcome, old(db), db, R.Call(actor, workspace, R.OnVoting(d, R.OpenS(s, event, now))))
    {
      hide Sound, Guards.Permitted, Guards.Effect, G.Constraints;
      VotingIsSpecified(cfg, db, actor, workspace, d, R.OpenS(s, event, now));
      var found :- Context(db, actor, workspace, d);
      :- Need(found.1.status.Active?, DecisionImmutable);
      :- Need(Manages(found.0), VotingAccessDenied);
      var row :- FindSession(db, d, s);
      :- Need(row.status.Draft?, VotingInvalidTransition);
      :- Need(!Expired(row, now), VotingIsClosed);
      :- Need(!OpenBlocking(db, d), VotingBlockedByObjections);
      var proposals := SubmittedProposals(db, d);
      :- Need(|proposals| >= 2, VotingConflict);
      var users := EligibleUsers(db, workspace);
      :- Need(users != {}, VotingConflict);
      :- Need(event !in db.outbox, VotingConflict);
      StageEvent(event, VotingOpened, s);
      row := row.(status := SessionStatus.Open, openedAt := Some(now), eligibleCount := |users|);
      var voters := RowsFor(s, users);
      var ballots := RowsFor(s, proposals);
      db := db.(sessions := db.sessions[s := row], voters := db.voters + voters, ballots := db.ballots + ballots);
      outcome := Commit(VotingConflict);
    }

    method CastVote(actor: Id, workspace: Id, d: Id, s: Id, id: Id, p: Id, now: Time) returns (outcome: Outcome)
      requires Valid()
      modifies this
      ensures Valid() && Performs(outcome, old(db), db,
                                  G.CastVote(old(db), actor, workspace, d, s, id, p, now))
      ensures Follows(cfg, outcome, old(db), db, R.Call(actor, workspace, R.OnVoting(d, R.CastS(s, id, p, now))))
    {
      hide Sound, Guards.Permitted, Guards.Effect, G.Constraints;
      VotingIsSpecified(cfg, db, actor, workspace, d, R.CastS(s, id, p, now));
      var _ :- Context(db, actor, workspace, d);
      var row :- FindSession(db, d, s);
      :- Need(row.status.Open?, VotingIsClosed);
      :- Need(!Expired(row, now), VotingIsClosed);
      :- Need((s, actor) in db.voters, VotingAccessDenied);
      :- Need((s, p) in db.ballots, ProposalNotFound);
      :- Need(id !in db.votes, VoteAlreadyCast);
      db := db.(votes := db.votes[id := Vote(s, actor, p)]);
      outcome := Commit(VoteAlreadyCast);
    }

    method CloseSession(actor: Id, workspace: Id, d: Id, s: Id, event: Id, now: Time) returns (outcome: Outcome)
      requires Valid()
      modifies this
      ensures Valid() && Performs(outcome, old(db), db,
                                  G.CloseSession(old(db), actor, workspace, d, s, event, now))
      ensures Follows(cfg, outcome, old(db), db, R.Call(actor, workspace, R.OnVoting(d, R.CloseS(s, event, now))))
    {
      hide Sound, Guards.Permitted, Guards.Effect, G.Constraints;
      VotingIsSpecified(cfg, db, actor, workspace, d, R.CloseS(s, event, now));
      var found :- Context(db, actor, workspace, d);
      :- Need(Manages(found.0), VotingAccessDenied);
      var row :- FindSession(db, d, s);
      :- Need(row.status.Open?, VotingInvalidTransition);
      :- Need(event !in db.outbox, IntegrityRejected);
      StageEvent(event, VotingClosed, s);
      db := db.(sessions := db.sessions[s := row.(status := SessionStatus.Closed, closedAt := Some(now))]);
      outcome := Commit(IntegrityRejected);
    }

    method CancelSession(actor: Id, workspace: Id, d: Id, s: Id, now: Time) returns (outcome: Outcome)
      requires Valid()
      modifies this
      ensures Valid() && Performs(outcome, old(db), db,
                                  G.CancelSession(old(db), actor, workspace, d, s, now))
      ensures Follows(cfg, outcome, old(db), db, R.Call(actor, workspace, R.OnVoting(d, R.CancelS(s, now))))
    {
      hide Sound, Guards.Permitted, Guards.Effect, G.Constraints;
      VotingIsSpecified(cfg, db, actor, workspace, d, R.CancelS(s, now));
      var found :- Context(db, actor, workspace, d);
      :- Need(Manages(found.0), VotingAccessDenied);
      var row :- FindSession(db, d, s);
      :- Need(Unfinished(row), VotingInvalidTransition);
      db := db.(sessions := db.sessions[s := row.(status := SessionStatus.Cancelled, cancelledAt := Some(now))]);
      outcome := Commit(IntegrityRejected);
    }

    // -------------------------------------------------------------- locks and exports

    /** The loop of `_build_snapshot` over the tallies of the result. */
    method CollectAlternatives(d: Id, winner: Id, tallies: seq<Tally>, ties: seq<Id>)
      returns (others: Attempt<seq<J.Json>, Error>)
      ensures others == Alternatives(db, d, winner, tallies, ties)
    {
      hide G.Alternatives, Prefixed, G.AlternativeJson;
      var alternatives: seq<J.Json> := [];
      var i := 0;
      PrefixedByNothing(Alternatives(db, d, winner, tallies, ties));
      assert tallies[0..] == tallies;
      while i < |tallies|
        invariant 0 <= i <= |tallies|
        invariant Alternatives(db, d, winner, tallies, ties) == Prefixed(alternatives, Alternatives(db, d, winner, tallies[i..], ties))
      {
        var t := tallies[i];
        NextAlternative(db, d, winner, tallies, ties, i, alternatives);
        if t.proposal != winner {
          if t.proposal !in db.proposals || db.proposals[t.proposal].decision != d {
            return Refused(ProposalNotFound);
          }
          alternatives := alternatives + [AlternativeJson(t, db.proposals[t.proposal], ObjectionsOf(db, t.proposal), ties)];
        }
        i := i + 1;
      }
      PrefixingNothing(alternatives, db, d, winner, ties);
      assert tallies[i..] == [];
      return Ok(alternatives);
    }

    method CreateLock(actor: Id, workspace: Id, d: Id, s: Id, id: Id, event: Id, now: Time, ties: seq<Id>)
      returns (outcome: Outcome)
      requires Valid()
      modifies this
      ensures Valid() && Performs(outcome, old(db), db,
                                  G.CreateLock(cfg, old(db), actor, workspace, d, s, id, event, now, ties))
      ensures Follows(cfg, outcome, old(db), db, R.Call(actor, workspace, R.OnLock(d, s, id, event, now, ties)))
    {
      hide Sound, Guards.Permitted, Guards.Effect, G.Constraints, G.ResultOf, G.Alternatives, G.DecisionJson, G.ProposalJson, G.ResultJson;
      LockIsSpecified(cfg, db, actor, workspace, d, s, id, event, now, ties);
      var found :- Context(db, actor, workspace, d);
      var (role, row) := found;
      :- Need(Manages(role), LockAccessDenied);
      :- Need(row.status.Active?, DecisionImmutable);
      :- Need(!HasLock(db, d), LockConflict);
      :- Need(!OpenBlocking(db, d), VotingBlockedByObjections);
      var result :- GetResult(cfg, db, actor, workspace, d, s);
      var winner :- ValidWinner(result);
      var winning :- FindProposal(db, d, winner);
      :- Need(winning.status.Submitted?, LockInvalidResult);
      var others := CollectAlternatives(d, winner, result.tallies, ties);
      if others.Refused? { return Refused(others.error); }
      var snapshot := SnapshotJson(db, d, row, winner, winning, result, others.value, ties);
      :- Need(id !in db.locks && event !in db.outbox, LockConflict);
      StageEvent(event, DecisionLocked, id);
      row := row.(status := DecisionStatus.Locked, closedAt := Some(now), lockedAt := Some(now));
      var lock := Lock(d, s, winner, actor, snapshot, HashSnapshot(cfg, snapshot), now);
      db := db.(decisions := db.decisions[d := row], locks := db.locks[id := lock]);
      outcome := Commit(LockConflict);
    }

    method RequestExport(actor: Id, workspace: Id, d: Id, id: Id) returns (outcome: Outcome)
      requires Valid()
      modifies this
      ensures Valid() && Performs(outcome, old(db), db, G.RequestExport(old(db), actor, workspace, d, id))
      ensures Follows(cfg, outcome, old(db), db, R.Call(actor, workspace, R.OnExport(d, id)))
    {
      hide Sound, Guards.Permitted, Guards.Effect, G.Constraints, G.DocumentIsOf, G.LockOf;
      ExportIsSpecified(cfg, db, actor, workspace, d, id);
      var role :- MemberRole(db, workspace, actor);
      :- Need(Writes(role), ExportAccessDenied);
      var lock := LockOf(db, d);
      :- Need(lock.Some? && DocumentIsOf(db.locks[lock.value].snapshot, workspace), LockNotFound);
      if exists e <- db.exports :: db.exports[e].sourceLock == lock.value {
        return Ok(());
      }
      :- Need(id !in db.exports, IntegrityRejected);
      db := db.(exports := db.exports[id := Export(d, lock.value, db.locks[lock.value].documentHash)]);
      outcome := Commit(IntegrityRejected);
    }

    // -------------------------------------------------------------- reviews and revisions

    method CreateReview(actor: Id, workspace: Id, d: Id, id: Id, scheduledFor: Time, now: Time) returns (outcome: Outcome)
      requires Valid()
      modifies this
      ensures Valid() && Performs(outcome, old(db), db,
                                  G.CreateReview(old(db), actor, workspace, d, id, scheduledFor, now))
      ensures Follows(cfg, outcome, old(db), db, R.Call(actor, workspace, R.OnReview(d, R.CreateR(id, scheduledFor, now))))
    {
      hide Sound, Guards.Permitted, Guards.Effect, G.Constraints;
      ReviewIsSpecified(cfg, db, actor, workspace, d, R.CreateR(id, scheduledFor, now));
      var _ :- ReviewContext(db, actor, workspace, d);
      :- Need(now < scheduledFor, ReviewInvalidSchedule);
      :- Need(id !in db.reviews, ReviewConflict);
      db := db.(reviews := db.reviews[id := Review(d, actor, scheduledFor, Scheduled, None, None, None)]);
      outcome := Commit(ReviewConflict);
    }

    method RescheduleReview(actor: Id, workspace: Id, d: Id, r: Id, scheduledFor: Time, now: Time) returns (outcome: Outcome)
      requires Valid()
      modifies this
      ensures Valid() && Performs(outcome, old(db), db,
                                  G.RescheduleReview(old(db), actor, workspace, d, r, scheduledFor, now))
      ensures Follows(cfg, outcome, old(db), db, R.Call(actor, workspace, R.OnReview(d, R.RescheduleR(r, scheduledFor, now))))
    {
      hide Sound, Guards.Permitted, Guards.Effect, G.Constraints;
      ReviewIsSpecified(cfg, db, actor, workspace, d, R.RescheduleR(r, scheduledFor, now));
      var _ :- ReviewContext(db, actor, workspace, d);
      var row :- FindReview(db, d, r);
      :- Need(row.status.Scheduled? && now < scheduledFor, ReviewInvalidSchedule);
      db := db.(reviews := db.reviews[r := row.(scheduledFor := scheduledFor)]);
      outcome := Commit(IntegrityRejected);
    }

    method CancelReview(actor: Id, workspace: Id, d: Id, r: Id, now: Time) returns (outcome: Outcome)
      requires Valid()
      modifies this
      ensures Valid() && Performs(outcome, old(db), db, G.CancelReview(old(db), actor, workspace, d, r, now))
      ensures Follows(cfg, outcome, old(db), db, R.Call(actor, workspace, R.OnReview(d, R.CancelR(r, now))))
    {
      hide Sound, Guards.Permitted, Guards.Effect, G.Constraints;
      ReviewIsSpecified(cfg, db, actor, workspace, d, R.CancelR(r, now));
      var _ :- ReviewContext(db, actor, workspace, d);
      var row :- FindReview(db, d, r);
      :- Need(row.status.Scheduled?, ReviewInvalidSchedule);
      db := db.(reviews := db.reviews[r := row.(status := ReviewStatus.Cancelled, cancelledAt := Some(now))]);
      outcome := Commit(IntegrityRejected);
    }

    method CompleteReview(actor: Id, workspace: Id, d: Id, r: Id, o: G.Outcome, ids: NewIds, now: Time)
      returns (outcome: Outcome)
      requires Valid()
      modifies this
      ensures Valid() && Performs(outcome, old(db), db,
                                  G.CompleteReview(old(db), actor, workspace, d, r, o, ids, now))
      ensures Follows(cfg, outcome, old(db), db, R.Call(actor, workspace, R.OnReview(d, R.CompleteR(r, o, ids, now))))
    {
      hide Sound, Guards.Permitted, Guards.Effect, G.Constraints;
      ReviewIsSpecified(cfg, db, actor, workspace, d, R.CompleteR(r, o, ids, now));
      var row :- ReviewContext(db, actor, workspace, d);
      var review :- FindReview(db, d, r);
      :- Need(review.status.Scheduled?, ReviewOutcomeInvalid);
      :- Need(review.scheduledFor <= now, ReviewNotDue);
      var done := review.(status := ReviewStatus.Completed, outcome := Some(o.outcome), completedAt := Some(now));
      if o.outcome.Confirmed? {
        db := db.(reviews := db.reviews[r := done]);
        outcome := Commit(IntegrityRejected);
      } else {
        var lock := LockOf(db, d);
        :- Need(lock.Some?, ReviewOutcomeInvalid);
        :- Need(ids.successor !in db.decisions && ids.revision !in db.revisions, ReviewConflict);
        var root := RevisionRoot(db.revisions, d);
        var number := NextNumber(db.revisions, root);
        var successor := SuccessorOf(row, actor, o);
        var link := Revision(root, d, ids.successor, lock.value, r, number, o.outcome);
        db := db.(reviews := db.reviews[r := done]);
        db := db.(decisions := db.decisions[ids.successor := successor]);
        db := db.(revisions := db.revisions[ids.revision := link]);
        outcome := Commit(ReviewConflict);
      }
    }
  }
}
