/** The document of a lock: what keeps it true, and who can tell that it is untouched. */
module LockDocuments {
  import opened Options
  import opened Ordering
  import opened VotingMath
  import opened Governance
  import opened GovernanceInvariants
  import opened GovernanceRuns
  import opened GovernanceHistory
  import J = CanonicalJson

  // ---------------------------------------------------------------- documents are dictionaries

  lemma {:induction false} DistinctKeys(members: seq<J.Entry>)
    requires forall i, j :: 0 <= i < j < |members| ==> members[i].key != members[j].key
    requires forall i :: 0 <= i < |members| ==> J.IsDict(members[i].value)
    ensures J.MembersAreDicts(members)
    ensures forall k :: k in J.Keys(members) ==> exists i :: 0 <= i < |members| && members[i].key == k
  {
    if members != [] {
      DistinctKeys(members[1..]);
      forall k | k in J.Keys(members) ensures exists i :: 0 <= i < |members| && members[i].key == k {
        if k == members[0].key {
          assert members[0].key == k;
        } else {
          assert k in J.Keys(members[1..]);
          var i :| 0 <= i < |members[1..]| && members[1..][i].key == k;
          assert members[i + 1].key == k;
        }
      }
    }
  }

  lemma DecisionIsDict(d: Id, row: Decision)
    ensures J.IsDict(DecisionJson(d, row))
  {
    DistinctKeys(DecisionJson(d, row).members);
  }

  lemma ProposalIsDict(p: Id, row: Proposal)
    ensures J.IsDict(ProposalJson(p, row))
  {
    assert "summary"[0] != "content"[0];
    DistinctKeys(ProposalJson(p, row).members);
  }

  lemma ObjectionIsDict(o: Id, row: Objection)
    ensures J.IsDict(ObjectionJson(o, row))
  {
    assert "proposal_id"[0] != "description"[0] && "proposal_id"[0] != "resolved_at"[0] && "description"[0] != "resolved_at"[0];
    DistinctKeys(ObjectionJson(o, row).members);
  }

  lemma TallyIsDict(t: Tally)
    ensures J.IsDict(TallyJson(t))
  {
    DistinctKeys(TallyJson(t).members);
  }

  lemma {:induction false} TalliesAreDicts(tallies: seq<Tally>)
    ensures J.AreDicts(TalliesJson(tallies))
  {
    if tallies != [] {
      TallyIsDict(tallies[0]);
      TalliesAreDicts(tallies[1..]);
    }
  }

  lemma ResultIsDict(r: VotingResult)
    ensures J.IsDict(ResultJson(r))
  {
    TalliesAreDicts(r.tallies);
    assert "voting_session_id"[0] != "quorum_percentage"[0] && "votes_cast"[0] != "quorum_met"[0];
    DistinctKeys(ResultJson(r).members);
  }

  lemma {:induction false} ListedAreDicts(objections: map<Id, Objection>, list: seq<Id>)
    ensures J.AreDicts(ListedJson(objections, list))
  {
    if list != [] {
      ListedAreDicts(objections, list[1..]);
      if list[0] in objections {
        ObjectionIsDict(list[0], objections[list[0]]);
      } else {
        assert ListedJson(objections, list) == ListedJson(objections, list[1..]);
      }
    }
  }

  lemma ObjectionsAreDict(objections: map<Id, Objection>, ties: seq<Id>)
    ensures J.IsDict(ObjectionsJson(objections, ties))
  {
    ListedAreDicts(objections, Order(ties, objections));
  }

  lemma AlternativeIsDict(proposal: J.Json, votes: nat, hundredths: nat, objections: J.Json)
    requires J.IsDict(proposal) && J.IsDict(objections)
    ensures J.IsDict(J.Obj([J.Entry("proposal", proposal), J.Entry("votes", J.Int(votes)),
                            J.Entry("percentage", J.Decimal(hundredths)), J.Entry("objections", objections)]))
  {
    assert "percentage"[0] != "objections"[0];
    DistinctKeys([J.Entry("proposal", proposal), J.Entry("votes", J.Int(votes)),
                  J.Entry("percentage", J.Decimal(hundredths)), J.Entry("objections", objections)]);
  }

  lemma {:induction false} AlternativesAreDicts(db: Db, d: Id, winner: Id, tallies: seq<Tally>, ties: seq<Id>)
    requires Alternatives(db, d, winner, tallies, ties).Ok?
    ensures J.AreDicts(Alternatives(db, d, winner, tallies, ties).value)
  {
    hide Governance.ProposalJson, Governance.ObjectionsJson;
    if tallies != [] {
      AlternativesAreDicts(db, d, winner, tallies[1..], ties);
      if tallies[0].proposal != winner {
        var t := tallies[0];
        var row := db.proposals[t.proposal];
        ProposalIsDict(t.proposal, row);
        ObjectionsAreDict(ObjectionsOf(db, t.proposal), ties);
        AlternativeIsDict(ProposalJson(t.proposal, row), t.votes, t.hundredths,
                          ObjectionsJson(ObjectionsOf(db, t.proposal), ties));
      }
    }
  }

  lemma DissentIsDict(objections: J.Json, others: seq<J.Json>)
    requires J.IsDict(objections) && J.AreDicts(others)
    ensures J.IsDict(J.Obj([J.Entry("objections_to_approved_proposal", objections), J.Entry("alternative_proposals", J.Arr(others))]))
  {
    DistinctKeys([J.Entry("objections_to_approved_proposal", objections), J.Entry("alternative_proposals", J.Arr(others))]);
  }

  lemma DocumentIsDict(decision: J.Json, proposal: J.Json, result: J.Json, dissent: J.Json)
    requires J.IsDict(decision) && J.IsDict(proposal) && J.IsDict(result) && J.IsDict(dissent)
    ensures J.IsDict(J.Obj([J.Entry("decision", decision), J.Entry("approved_proposal", proposal),
                            J.Entry("voting_result", result), J.Entry("dissent", dissent)]))
  {
    DistinctKeys([J.Entry("decision", decision), J.Entry("approved_proposal", proposal),
                  J.Entry("voting_result", result), J.Entry("dissent", dissent)]);
  }

  lemma SnapshotIsDict(db: Db, d: Id, row: Decision, winner: Id, winning: Proposal, result: VotingResult, ties: seq<Id>)
    requires BuildSnapshot(db, d, row, winner, winning, result, ties).Ok?
    ensures J.IsDict(BuildSnapshot(db, d, row, winner, winning, result, ties).value)
  {
    hide Governance.DecisionJson, Governance.ProposalJson, Governance.ResultJson, Governance.ObjectionsJson, Governance.Alternatives,
         J.IsDict, J.AreDicts;
    AlternativesAreDicts(db, d, winner, result.tallies, ties);
    var others := Alternatives(db, d, winner, result.tallies, ties).value;
    DecisionIsDict(d, row);
    ProposalIsDict(winner, winning);
    ResultIsDict(result);
    ObjectionsAreDict(ObjectionsOf(db, winner), ties);
    var dissent := ObjectionsJson(ObjectionsOf(db, winner), ties);
    DissentIsDict(dissent, others);
    DocumentIsDict(DecisionJson(d, row), ProposalJson(winner, winning), ResultJson(result),
      J.Obj([J.Entry("objections_to_approved_proposal", dissent), J.Entry("alternative_proposals", J.Arr(others))]));
  }

  // ---------------------------------------------------------------- verification

  /** The digest never gives two texts the same value. */
  ghost predicate CollisionFree(cfg: Config) {
    forall a: string, b: string :: cfg.digest(a) == cfg.digest(b) ==> a == b
  }

  lemma RebuiltIsDict(cfg: Config, db: Db, k: Lock)
    requires Anchored(db, k) && Rebuilds(cfg, db, k)
    ensures J.IsDict(k.snapshot) && k.documentHash == HashSnapshot(cfg, k.snapshot)
  {
    hide Governance.BuildSnapshot, J.IsDict, Governance.ResultOf;
    var r := ResultOf(cfg, db, k.session);
    var ties :| Builds(db, k, r, ties);
    SnapshotIsDict(db, k.decision, db.decisions[k.decision], k.winner, db.proposals[k.winner], r, ties);
  }

  /**
    In every reachable state a lock whose snapshot comes back from its JSONB column with the same content, in any key
    order, verifies; and with a collision-free digest nothing else does.  The export worker accepts what `verify` accepts.
   */
  lemma UntouchedLocksVerify(cfg: Config, calls: seq<Call>, l: Id, readBack: J.Json)
    requires l in Run(cfg, calls).locks && J.IsDict(readBack)
    ensures var k := Run(cfg, calls).locks[l];
      && (J.Denote(readBack) == J.Denote(k.snapshot) ==> Verifies(cfg, readBack, k))
      && (CollisionFree(cfg) ==> (Verifies(cfg, readBack, k) <==> J.Denote(readBack) == J.Denote(k.snapshot)))
  {
    hide GovernanceRuns.Run, J.IsDict, J.Denote, Governance.Verifies, CollisionFree,
         GovernanceRuns.Good, GovernanceInvariants.Anchored, GovernanceInvariants.Rebuilds;
    ReachableIsGood(cfg, calls);
    LockIsSound(cfg, Run(cfg, calls), l);
    DigestReadsContent(cfg, readBack, Run(cfg, calls).locks[l]);
  }

  /** A lock whose digest is that of its snapshot verifies equal content; without collisions, only equal content. */
  lemma DigestReadsContent(cfg: Config, readBack: J.Json, k: Lock)
    requires J.IsDict(readBack) && J.IsDict(k.snapshot) && k.documentHash == HashSnapshot(cfg, k.snapshot)
    ensures J.Denote(readBack) == J.Denote(k.snapshot) ==> Verifies(cfg, readBack, k)
    ensures CollisionFree(cfg) ==> (Verifies(cfg, readBack, k) <==> J.Denote(readBack) == J.Denote(k.snapshot))
  {
    hide J.Text, J.Denote, J.IsDict;
    J.TextIdentifies(readBack, k.snapshot);
  }

  lemma ExportsFollowVerification(cfg: Config, calls: seq<Call>, e: Id, readBack: J.Json)
    requires e in Run(cfg, calls).exports
    ensures var db := Run(cfg, calls); var x := db.exports[e];
      x.sourceLock in db.locks && (ExportAccepts(cfg, readBack, x, db.locks[x.sourceLock]) <==> Verifies(cfg, readBack, db.locks[x.sourceLock]))
  {
    hide GovernanceRuns.Run, GovernanceRuns.Good;
    ReachableIsGood(cfg, calls);
    ExportCarriesDigest(cfg, Run(cfg, calls), e);
  }

  lemma LockIsSound(cfg: Config, db: Db, l: Id)
    requires Good(cfg, db) && l in db.locks
    ensures Anchored(db, db.locks[l]) && Rebuilds(cfg, db, db.locks[l])
    ensures J.IsDict(db.locks[l].snapshot) && db.locks[l].documentHash == HashSnapshot(cfg, db.locks[l].snapshot)
  {
    hide GovernanceInvariants.Rebuilds, Governance.Constraints, GovernanceInvariants.Polling, GovernanceInvariants.Announced;
    RebuiltIsDict(cfg, db, db.locks[l]);
  }

  lemma ExportCarriesDigest(cfg: Config, db: Db, e: Id)
    requires Good(cfg, db) && e in db.exports
    ensures var x := db.exports[e];
      x.sourceLock in db.locks && x.documentHash == db.locks[x.sourceLock].documentHash
  {
    hide GovernanceInvariants.Frozen, GovernanceInvariants.AllAnchored, Governance.Constraints, GovernanceInvariants.Polling,
         GovernanceInvariants.Announced;
  }

  // ---------------------------------------------------------------- the export's guard on the workspace

  /** Different identifiers have different texts. */
  lemma IdTextsDiffer(a: Id, b: Id)
    requires J.EmitNat(a, "") == J.EmitNat(b, "")
    ensures a == b
  {
    J.NatReadsBack(a, "");
    J.NatReadsBack(b, "");
  }

  lemma DecisionFieldIsFirst(members: seq<J.Entry>)
    requires members != [] && members[0].key == "decision"
    ensures var fields := J.DenoteMembers(members); "decision" in fields && fields["decision"] == J.Denote(members[0].value)
  {
  }

  lemma WorkspaceFieldIsSecond(members: seq<J.Entry>)
    requires |members| >= 2 && members[0].key == "id" && members[1].key == "workspace_id"
    ensures var fields := J.DenoteMembers(members); "workspace_id" in fields && fields["workspace_id"] == J.Denote(members[1].value)
  {
    assert J.DenoteMembers(members) == J.DenoteMembers(members[1..])["id" := J.Denote(members[0].value)];
    assert J.DenoteMembers(members[1..]) == J.DenoteMembers(members[1..][1..])["workspace_id" := J.Denote(members[1].value)];
    assert |"id"| != |"workspace_id"|;
  }

  lemma SnapshotNamesWorkspace(db: Db, d: Id, row: Decision, winner: Id, winning: Proposal, result: VotingResult, others: seq<J.Json>,
                               ties: seq<Id>, workspace: Id)
    ensures DocumentIsOf(SnapshotJson(db, d, row, winner, winning, result, others, ties), workspace) <==> row.workspace == workspace
  {
    hide Governance.ProposalJson, Governance.ResultJson, Governance.ObjectionsJson, J.EmitNat, J.DenoteMembers;
    var document := SnapshotJson(db, d, row, winner, winning, result, others, ties);
    DecisionFieldIsFirst(document.members);
    WorkspaceFieldIsSecond(DecisionJson(d, row).members);
    if J.EmitNat(row.workspace, "") == J.EmitNat(workspace, "") {
      IdTextsDiffer(row.workspace, workspace);
    }
  }

  /** The workspace that an export request reads from the frozen document is that of the live decision. */
  lemma DocumentsNameTheirWorkspace(cfg: Config, calls: seq<Call>, l: Id, workspace: Id)
    requires l in Run(cfg, calls).locks
    ensures var db := Run(cfg, calls); var k := db.locks[l];
      k.decision in db.decisions && (DocumentIsOf(k.snapshot, workspace) <==> db.decisions[k.decision].workspace == workspace)
  {
    hide GovernanceRuns.Run, GovernanceRuns.Good, Governance.DocumentIsOf;
    ReachableIsGood(cfg, calls);
    LockIsSound(cfg, Run(cfg, calls), l);
    RebuiltNamesWorkspace(cfg, Run(cfg, calls), Run(cfg, calls).locks[l], workspace);
  }

  lemma RebuiltNamesWorkspace(cfg: Config, db: Db, k: Lock, workspace: Id)
    requires Anchored(db, k) && Rebuilds(cfg, db, k)
    ensures DocumentIsOf(k.snapshot, workspace) <==> db.decisions[k.decision].workspace == workspace
  {
    hide Governance.DocumentIsOf, Governance.SnapshotJson, Governance.Alternatives;
    var r := ResultOf(cfg, db, k.session);
    var ties :| Builds(db, k, r, ties);
    var others := Alternatives(db, k.decision, k.winner, r.tallies, ties).value;
    SnapshotNamesWorkspace(db, k.decision, db.decisions[k.decision], k.winner, db.proposals[k.winner], r, others, ties, workspace);
  }

  // ---------------------------------------------------------------- the order of objections

  /** No two objections were created at the same time. */
  ghost predicate DistinctTimes(objections: map<Id, Objection>) {
    forall a <- objections, b <- objections :: objections[a].createdAt == objections[b].createdAt ==> a == b
  }

  lemma {:induction false} FullListCovers(list: seq<Id>, ids: set<Id>)
    requires |list| == |ids| && (forall i :: 0 <= i < |list| ==> list[i] in ids)
    requires forall i, j :: 0 <= i < j < |list| ==> list[i] != list[j]
    ensures forall x <- ids :: x in list
  {
    if list != [] {
      assert forall i :: 0 <= i < |list[1..]| ==> list[1..][i] == list[i + 1] && list[i + 1] != list[0];
      FullListCovers(list[1..], ids - {list[0]});
      forall x <- ids ensures x in list {
        assert x != list[0] ==> x in list[1..];
      }
    }
  }

  /** A listing leaves no objection out. */
  lemma ListingCovers(list: seq<Id>, objections: map<Id, Objection>)
    requires IsListing(list, objections)
    ensures forall o <- objections :: o in list
  {
    assert |objections.Keys| == |objections|;
    FullListCovers(list, objections.Keys);
  }

  function StampsOf(list: seq<Id>, objections: map<Id, Objection>): (stamps: seq<Stamp>)
    requires forall i :: 0 <= i < |list| ==> list[i] in objections
    ensures |stamps| == |list| && forall i :: 0 <= i < |list| ==> stamps[i] == Stamp(objections[list[i]].createdAt, list[i])
  {
    seq(|list|, i requires 0 <= i < |list| => Stamp(objections[list[i]].createdAt, list[i]))
  }

  lemma StampsOfListing(list: seq<Id>, objections: map<Id, Objection>)
    requires IsListing(list, objections) && DistinctTimes(objections)
    ensures StampsOf(list, objections) == Descending(Stamps(objections))
  {
    var stamps := StampsOf(list, objections);
    ListingCovers(list, objections);
    StampsCount(objections);
    forall x ensures x in stamps <==> x in Stamps(objections) {
      if x in Stamps(objections) {
        assert x.id in list;
        var i :| 0 <= i < |list| && list[i] == x.id;
        assert stamps[i] == x;
      }
    }
    DescendingIsUnique(stamps, Stamps(objections));
  }

  /** With distinct creation times there is only one listing. */
  lemma ListingIsUnique(x: seq<Id>, y: seq<Id>, objections: map<Id, Objection>)
    requires IsListing(x, objections) && IsListing(y, objections) && DistinctTimes(objections)
    ensures x == y
  {
    StampsOfListing(x, objections);
    StampsOfListing(y, objections);
    forall i | 0 <= i < |x| ensures x[i] == y[i] {
      assert StampsOf(x, objections)[i] == StampsOf(y, objections)[i];
    }
  }

  lemma {:induction false} PickedSplits(a: seq<Id>, b: seq<Id>, objections: map<Id, Objection>)
    ensures Picked(a + b, objections) == Picked(a, objections) + Picked(b, objections)
  {
    if a == [] {
      assert a + b == b;
    } else {
      assert (a + b)[1..] == a[1..] + b;
      PickedSplits(a[1..], b, objections);
    }
  }

  lemma {:induction false} PickedAll(list: seq<Id>, objections: map<Id, Objection>)
    requires forall i :: 0 <= i < |list| ==> list[i] in objections
    ensures Picked(list, objections) == list
  {
    if list != [] {
      PickedAll(list[1..], objections);
    }
  }

  lemma {:induction false} PickedNone(list: seq<Id>, objections: map<Id, Objection>)
    requires forall i :: 0 <= i < |list| ==> list[i] !in objections
    ensures Picked(list, objections) == []
  {
    if list != [] {
      PickedNone(list[1..], objections);
    }
  }

  /** Any listing of a proposal's objections is reached, whatever listings `before` and `after` give for other proposals. */
  lemma AnyListingIsReached(before: seq<Id>, list: seq<Id>, after: seq<Id>, objections: map<Id, Objection>)
    requires IsListing(list, objections)
    requires forall i :: 0 <= i < |before| ==> before[i] !in objections
    requires forall i :: 0 <= i < |after| ==> after[i] !in objections
    ensures Order(before + list + after, objections) == list
  {
    assert Picked(before + list + after, objections) == list by {
      hide Governance.NewestFirst;
      PickedSplits(before + list, after, objections);
      PickedSplits(before, list, objections);
      PickedNone(before, objections);
      PickedAll(list, objections);
      PickedNone(after, objections);
    }
  }

  lemma ObjectionsAreDetermined(objections: map<Id, Objection>, x: seq<Id>, y: seq<Id>)
    requires DistinctTimes(objections)
    ensures ObjectionsJson(objections, x) == ObjectionsJson(objections, y)
  {
    ListingIsUnique(Order(x, objections), Order(y, objections), objections);
  }

  lemma {:induction false} AlternativesAreDetermined(db: Db, d: Id, winner: Id, tallies: seq<Tally>, x: seq<Id>, y: seq<Id>)
    requires forall t <- tallies :: DistinctTimes(ObjectionsOf(db, t.proposal))
    ensures Alternatives(db, d, winner, tallies, x) == Alternatives(db, d, winner, tallies, y)
  {
    hide Governance.ObjectionsOf, Governance.ObjectionsJson, DistinctTimes;
    if tallies != [] {
      assert tallies[0] in tallies;
      AlternativesAreDetermined(db, d, winner, tallies[1..], x, y);
      ObjectionsAreDetermined(ObjectionsOf(db, tallies[0].proposal), x, y);
    }
  }

  lemma {:induction false} AlternativesKeepOutcome(db: Db, d: Id, winner: Id, tallies: seq<Tally>, x: seq<Id>, y: seq<Id>)
    ensures Alternatives(db, d, winner, tallies, x).Ok? <==> Alternatives(db, d, winner, tallies, y).Ok?
  {
    if tallies != [] {
      AlternativesKeepOutcome(db, d, winner, tallies[1..], x, y);
    }
  }

  /** Of one lock, in one state: some order of equal times gives the stored document, every order gives a document. */
  ghost predicate FrozenAs(db: Db, k: Lock, r: VotingResult)
    requires Anchored(db, k)
  {
    && (exists ties: seq<Id> :: Builds(db, k, r, ties))
    && (forall ties: seq<Id> :: Rebuilt(db, k, r, ties).Ok?)
    && ((forall p <- BallotOf(db, k.session) :: DistinctTimes(ObjectionsOf(db, p))) ==> forall ties: seq<Id> :: Builds(db, k, r, ties))
  }

  function Rebuilt(db: Db, k: Lock, r: VotingResult, ties: seq<Id>): Attempt<J.Json, Error>
    requires k.decision in db.decisions && k.winner in db.proposals
  {
    BuildSnapshot(db, k.decision, db.decisions[k.decision], k.winner, db.proposals[k.winner], r, ties)
  }

  lemma RebuiltIsDetermined(db: Db, k: Lock, r: VotingResult, x: seq<Id>, y: seq<Id>)
    requires k.decision in db.decisions && k.winner in db.proposals
    ensures Rebuilt(db, k, r, x).Ok? <==> Rebuilt(db, k, r, y).Ok?
    ensures DistinctTimes(ObjectionsOf(db, k.winner)) && (forall t <- r.tallies :: DistinctTimes(ObjectionsOf(db, t.proposal))) ==>
              Rebuilt(db, k, r, x) == Rebuilt(db, k, r, y)
  {
    hide Governance.ObjectionsOf, Governance.ObjectionsJson, DistinctTimes, Governance.Alternatives, Governance.DecisionJson,
         Governance.ProposalJson, Governance.ResultJson;
    AlternativesKeepOutcome(db, k.decision, k.winner, r.tallies, x, y);
    if DistinctTimes(ObjectionsOf(db, k.winner)) && (forall t <- r.tallies :: DistinctTimes(ObjectionsOf(db, t.proposal))) {
      AlternativesAreDetermined(db, k.decision, k.winner, r.tallies, x, y);
      ObjectionsAreDetermined(ObjectionsOf(db, k.winner), x, y);
    }
  }

  lemma RebuildsAreFrozen(cfg: Config, db: Db, k: Lock)
    requires Anchored(db, k) && Rebuilds(cfg, db, k)
    ensures FrozenAs(db, k, ResultOf(cfg, db, k.session))
  {
    hide Governance.ResultOf, Governance.BuildSnapshot, DistinctTimes, Governance.ObjectionsOf;
    var r := ResultOf(cfg, db, k.session);
    TalliesAreOfBallot(cfg, db, k.session);
    var first :| Builds(db, k, r, first);
    forall ties: seq<Id> ensures Rebuilt(db, k, r, ties).Ok? {
      RebuiltIsDetermined(db, k, r, first, ties);
    }
    if forall p <- BallotOf(db, k.session) :: DistinctTimes(ObjectionsOf(db, p)) {
      forall ties: seq<Id> ensures Builds(db, k, r, ties) {
        RebuiltIsDetermined(db, k, r, first, ties);
      }
    }
  }

  // ---------------------------------------------------------------- the frozen record

  lemma {:induction false} RunAppends(cfg: Config, db: Db, before: seq<Call>, after: seq<Call>)
    ensures RunFrom(cfg, db, before + after) == RunFrom(cfg, RunFrom(cfg, db, before), after)
    decreases |before|
  {
    hide GovernanceRuns.Next;
    if before == [] {
      assert before + after == after;
    } else {
      assert (before + after)[1..] == before[1..] + after;
      RunAppends(cfg, Next(cfg, db, before[0]), before[1..], after);
    }
  }

  /**
    A lock made during `before` is still there, unchanged, after any further calls.  From the tables of that later state
    its session still names the stored winner, and its document can be rebuilt: whatever order the query gives objections
    of equal creation times there is a document, some order gives the stored one, and when no two objections of a
    proposal on the ballot were created at the same time every order does.
   */
  lemma LockedRecordIsFrozen(cfg: Config, before: seq<Call>, after: seq<Call>, l: Id)
    requires l in Run(cfg, before).locks
    ensures var k := Run(cfg, before).locks[l]; var db := Run(cfg, before + after);
      && l in db.locks && db.locks[l] == k && Anchored(db, k)
      && db.decisions[k.decision].status.Locked?
      && (var r := ResultOf(cfg, db, k.session);
          && r.quorumMet && r.winner == Some(k.winner)
          && FrozenAs(db, k, r))
  {
    hide GovernanceRuns.RunFrom, GovernanceRuns.Good, GovernanceHistory.KeepsSessions, FrozenAs, GovernanceInvariants.Builds,
         Governance.ResultOf;
    ReachableIsGood(cfg, before);
    ReachableIsGood(cfg, before + after);
    RunAppends(cfg, EMPTY, before, after);
    SettledForGood(cfg, Run(cfg, before), after);
    LockIsSound(cfg, Run(cfg, before + after), l);
    LockLocks(cfg, Run(cfg, before + after), l);
    RebuildsAreFrozen(cfg, Run(cfg, before + after), Run(cfg, before).locks[l]);
  }

  lemma LockLocks(cfg: Config, db: Db, l: Id)
    requires Good(cfg, db) && l in db.locks
    ensures db.locks[l].decision in db.decisions && db.decisions[db.locks[l].decision].status.Locked?
  {
    hide GovernanceInvariants.Frozen, GovernanceInvariants.AllAnchored, Governance.Constraints, GovernanceInvariants.Polling,
         GovernanceInvariants.Announced;
  }

  /**
    In every reachable state a decision is locked exactly when it has a lock row, has at most one, and has then no open
    blocking objection; a draft decision has neither a session nor a lock.
   */
  lemma LockedIsHavingALock(cfg: Config, calls: seq<Call>, d: Id)
    ensures var db := Run(cfg, calls);
      && (d in db.decisions && db.decisions[d].status.Locked? <==> HasLock(db, d))
      && (forall l <- db.locks, m <- db.locks :: db.locks[l].decision == d && db.locks[m].decision == d ==> l == m)
      && (HasLock(db, d) ==> !OpenBlocking(db, d))
      && (d in db.decisions && db.decisions[d].status.Draft? ==>
            !HasLock(db, d) && forall s <- db.sessions :: db.sessions[s].decision != d)
  {
    hide GovernanceRuns.Run;
    ReachableIsGood(cfg, calls);
    LockStatus(cfg, Run(cfg, calls), d);
  }

  lemma LockStatus(cfg: Config, db: Db, d: Id)
    requires Good(cfg, db)
    ensures d in db.decisions && db.decisions[d].status.Locked? <==> HasLock(db, d)
    ensures forall l <- db.locks, m <- db.locks :: db.locks[l].decision == d && db.locks[m].decision == d ==> l == m
    ensures HasLock(db, d) ==> !OpenBlocking(db, d)
    ensures d in db.decisions && db.decisions[d].status.Draft? ==>
              !HasLock(db, d) && forall s <- db.sessions :: db.sessions[s].decision != d
  {
    hide GovernanceInvariants.Frozen, GovernanceInvariants.AllAnchored, GovernanceInvariants.Announced,
         Governance.ForeignKeys, Governance.RevisionKeys, Governance.VotingKeys, Governance.Checks, GovernanceInvariants.SessionRows;
  }
}
