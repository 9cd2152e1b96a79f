/**
  What a reader of a lock's document finds in it.

  The predicates look fields up by key in the denotation of the document, so they hold whatever order JSONB gives the
  keys, and compare them with the rows of the tables.  They use none of the functions that build the document.
 */
module LockReader {
  import opened Options
  import opened Ordering
  import opened VotingMath
  import opened Governance
  import opened GovernanceInvariants
  import opened GovernanceRuns
  import opened GovernanceGuards
  import opened GovernanceOutcomes
  import opened Elections
  import opened LockDocuments
  import J = CanonicalJson

  // ---------------------------------------------------------------- reading values

  /** `v[key]`; a missing key reads as null. */
  function Field(v: J.Value, key: string): J.Value {
    if v.VObj? && key in v.fields then v.fields[key] else J.VNull
  }

  /** The identifier that a decimal numeral names. */
  function IdOf(v: J.Value): Option<nat> {
    if v.VStr? && v.s != "" && J.IsDigit(v.s[0]) && J.ReadDigits(J.DigitValue(v.s[0]), v.s[1..]).rest == ""
    then Some(J.ReadDigits(J.DigitValue(v.s[0]), v.s[1..]).value)
    else None
  }

  ghost predicate ReadsOptionalId(v: J.Value, id: Option<Id>) {
    if id.None? then v == J.VNull else IdOf(v) == Some(id.value)
  }

  ghost predicate ReadsOptionalText(v: J.Value, text: Option<string>) {
    if text.None? then v == J.VNull else v == J.VStr(text.value)
  }

  // ---------------------------------------------------------------- reading rows

  ghost predicate ShowsCategory(v: J.Value, c: Category) {
    match c
    case Technology => v == J.VStr("technology")
    case Architecture => v == J.VStr("architecture")
    case Delivery => v == J.VStr("delivery")
    case TeamProcess => v == J.VStr("team_process")
    case Other => v == J.VStr("other")
  }

  ghost predicate ShowsDecision(v: J.Value, d: Id, row: Decision) {
    && IdOf(Field(v, "id")) == Some(d)
    && IdOf(Field(v, "workspace_id")) == Some(row.workspace)
    && IdOf(Field(v, "created_by_id")) == Some(row.createdBy)
    && Field(v, "title") == J.VStr(row.title)
    && ReadsOptionalText(Field(v, "summary"), row.summary)
    && ShowsCategory(Field(v, "category"), row.category)
    && ReadsOptionalId(Field(v, "due_at"), row.dueAt)
    && ReadsOptionalId(Field(v, "review_at"), row.reviewAt)
  }

  ghost predicate ShowsProposalStatus(v: J.Value, status: ProposalStatus) {
    match status
    case Draft => v == J.VStr("draft")
    case Submitted => v == J.VStr("submitted")
    case Withdrawn => v == J.VStr("withdrawn")
  }

  ghost predicate ShowsProposal(v: J.Value, p: Id, row: Proposal) {
    && IdOf(Field(v, "id")) == Some(p)
    && IdOf(Field(v, "decision_id")) == Some(row.decision)
    && IdOf(Field(v, "created_by_id")) == Some(row.createdBy)
    && Field(v, "title") == J.VStr(row.title)
    && ReadsOptionalText(Field(v, "summary"), row.summary)
    && ReadsOptionalText(Field(v, "content"), row.content)
    && ShowsProposalStatus(Field(v, "status"), row.status)
    && ReadsOptionalId(Field(v, "submitted_at"), row.submittedAt)
  }

  ghost predicate ShowsSeverity(v: J.Value, severity: Severity) {
    match severity
    case Informational => v == J.VStr("informational")
    case Major => v == J.VStr("major")
    case Blocking => v == J.VStr("blocking")
  }

  ghost predicate ShowsObjectionStatus(v: J.Value, status: ObjectionStatus) {
    match status
    case Open => v == J.VStr("open")
    case Resolved => v == J.VStr("resolved")
    case Dismissed => v == J.VStr("dismissed")
  }

  ghost predicate ShowsObjection(v: J.Value, o: Id, row: Objection) {
    && IdOf(Field(v, "id")) == Some(o)
    && IdOf(Field(v, "proposal_id")) == Some(row.proposal)
    && IdOf(Field(v, "created_by_id")) == Some(row.createdBy)
    && ShowsSeverity(Field(v, "severity"), row.severity)
    && ShowsObjectionStatus(Field(v, "status"), row.status)
    && Field(v, "title") == J.VStr(row.title)
    && Field(v, "description") == J.VStr(row.description)
    && ReadsOptionalText(Field(v, "resolution_note"), row.note)
    && ReadsOptionalId(Field(v, "resolved_by_id"), row.resolvedBy)
    && ReadsOptionalId(Field(v, "resolved_at"), row.resolvedAt)
  }

  /** The list names exactly the objections to `p`, each once, newest first. */
  ghost predicate NamesObjections(list: seq<Id>, db: Db, p: Id) {
    && (forall o :: o in list <==> o in db.objections && db.objections[o].proposal == p)
    && (forall i, j :: 0 <= i < j < |list| ==> list[i] != list[j])
    && (forall i, j :: 0 <= i < j < |list| && list[i] in db.objections && list[j] in db.objections ==>
          db.objections[list[i]].createdAt >= db.objections[list[j]].createdAt)
  }

  /** One entry for each objection to `p`, with its columns. */
  ghost predicate ShowsObjections(v: J.Value, db: Db, p: Id) {
    && v.VArr?
    && exists list: seq<Id> ::
         && |list| == |v.items| && NamesObjections(list, db, p)
         && forall i :: 0 <= i < |list| ==> list[i] in db.objections && ShowsObjection(v.items[i], list[i], db.objections[list[i]])
  }

  /** The votes of an option of session `s`, and their share of all votes cast. */
  ghost predicate ShowsVotes(v: J.Value, cfg: Config, db: Db, s: Id, p: Id) {
    && Field(v, "votes") == J.VInt(|VotesInFor(db, s, p)|)
    && Field(v, "percentage") == J.VDecimal(if VotesIn(db, s) == {} then 0 else cfg.round(|VotesInFor(db, s, p)| * 10000, |VotesIn(db, s)|))
  }

  /** The list names exactly the options of session `s` other than `but`, by identifier. */
  ghost predicate NamesOptions(list: seq<Id>, db: Db, s: Id, but: Option<Id>) {
    && (forall p :: p in list <==> (s, p) in db.ballots && Some(p) != but)
    && (forall i, j :: 0 <= i < j < |list| ==> list[i] < list[j])
  }

  ghost predicate ShowsTallies(v: J.Value, cfg: Config, db: Db, s: Id) {
    && v.VArr?
    && exists list: seq<Id> ::
         && |list| == |v.items| && NamesOptions(list, db, s, None)
         && forall i :: 0 <= i < |list| ==>
              IdOf(Field(v.items[i], "proposal_id")) == Some(list[i]) && ShowsVotes(v.items[i], cfg, db, s, list[i])
  }

  /** The least number of votes that meets the quorum. */
  ghost predicate IsRequired(n: nat, row: Session) {
    forall v: nat :: n <= v <==> row.eligibleCount * row.quorum <= 100 * v
  }

  ghost predicate ShowsResult(v: J.Value, cfg: Config, db: Db, s: Id, winner: Id)
    requires s in db.sessions
  {
    && IdOf(Field(v, "voting_session_id")) == Some(s)
    && Field(v, "eligible_voter_count") == J.VInt(db.sessions[s].eligibleCount)
    && Field(v, "votes_cast") == J.VInt(|VotesIn(db, s)|)
    && Field(v, "quorum_percentage") == J.VInt(db.sessions[s].quorum)
    && (exists n: nat :: Field(v, "required_votes") == J.VInt(n) && IsRequired(n, db.sessions[s]))
    && Field(v, "quorum_met") == J.VBool(true) && Field(v, "result_valid") == J.VBool(true) && Field(v, "is_tie") == J.VBool(false)
    && IdOf(Field(v, "winner_proposal_id")) == Some(winner)
    && ShowsTallies(Field(v, "tallies"), cfg, db, s)
  }

  /** A losing option: its proposal, its votes and its objections. */
  ghost predicate ShowsAlternative(v: J.Value, cfg: Config, db: Db, s: Id, p: Id) {
    && p in db.proposals && ShowsProposal(Field(v, "proposal"), p, db.proposals[p])
    && ShowsVotes(v, cfg, db, s, p) && ShowsObjections(Field(v, "objections"), db, p)
  }

  /** One entry for each losing option. */
  ghost predicate ShowsAlternatives(v: J.Value, cfg: Config, db: Db, s: Id, winner: Id) {
    && v.VArr?
    && exists list: seq<Id> ::
         && |list| == |v.items| && NamesOptions(list, db, s, Some(winner))
         && forall i :: 0 <= i < |list| ==> ShowsAlternative(v.items[i], cfg, db, s, list[i])
  }

  /** Everything that the document of lock `k` says, against the rows. */
  ghost predicate ShowsLock(v: J.Value, cfg: Config, db: Db, k: Lock) {
    && k.decision in db.decisions && k.session in db.sessions && k.winner in db.proposals
    && ShowsDecision(Field(v, "decision"), k.decision, db.decisions[k.decision])
    && ShowsProposal(Field(v, "approved_proposal"), k.winner, db.proposals[k.winner])
    && ShowsResult(Field(v, "voting_result"), cfg, db, k.session, k.winner)
    && ShowsObjections(Field(Field(v, "dissent"), "objections_to_approved_proposal"), db, k.winner)
    && ShowsAlternatives(Field(Field(v, "dissent"), "alternative_proposals"), cfg, db, k.session, k.winner)
  }

  // ---------------------------------------------------------------- lookups in what was written

  lemma {:induction false} LookUp(members: seq<J.Entry>, i: nat)
    requires J.MembersAreDicts(members) && i < |members|
    ensures Field(J.Denote(J.Obj(members)), members[i].key) == J.Denote(members[i].value)
  {
    hide J.IsDict;
    MemberIsKept(members, i);
  }

  lemma {:induction false} MemberIsKept(members: seq<J.Entry>, i: nat)
    requires J.MembersAreDicts(members) && i < |members|
    ensures members[i].key in J.DenoteMembers(members) && J.DenoteMembers(members)[members[i].key] == J.Denote(members[i].value)
  {
    hide J.IsDict, J.Denote;
    if i > 0 {
      MemberIsKept(members[1..], i - 1);
    }
  }

  lemma IdReads(id: Id)
    ensures IdOf(J.Denote(IdJson(id))) == Some(id)
  {
    J.NatReadsBack(id, "");
  }

  lemma TimeReads(t: Option<Time>)
    ensures ReadsOptionalId(J.Denote(TimeJson(t)), t)
  {
    if t.Some? {
      IdReads(t.value);
    }
  }

  lemma TextReads(t: Option<string>)
    ensures ReadsOptionalText(J.Denote(TextJson(t)), t)
  {
  }

  lemma DecisionReads(d: Id, row: Decision)
    ensures ShowsDecision(J.Denote(DecisionJson(d, row)), d, row)
  {
    hide J.Denote, Field, IdOf, ReadsOptionalId, ReadsOptionalText, J.MembersAreDicts, Governance.IdJson, Governance.TimeJson,
         Governance.TextJson;
    var m := DecisionJson(d, row).members;
    assert J.MembersAreDicts(m) by { DecisionIsDict(d, row); }
    LookUp(m, 0);
    LookUp(m, 1);
    LookUp(m, 2);
    LookUp(m, 3);
    LookUp(m, 4);
    LookUp(m, 5);
    LookUp(m, 6);
    LookUp(m, 7);
    IdReads(d);
    IdReads(row.workspace);
    IdReads(row.createdBy);
    TextReads(row.summary);
    TimeReads(row.dueAt);
    TimeReads(row.reviewAt);
    StringReads(row.title);
    StringReads(CategoryText(row.category));
  }

  lemma StringReads(s: string)
    ensures J.Denote(J.Str(s)) == J.VStr(s)
  {
  }

  lemma ProposalReads(p: Id, row: Proposal)
    ensures ShowsProposal(J.Denote(ProposalJson(p, row)), p, row)
  {
    hide J.Denote, Field, IdOf, ReadsOptionalId, ReadsOptionalText, J.MembersAreDicts, Governance.IdJson, Governance.TimeJson,
         Governance.TextJson;
    var m := ProposalJson(p, row).members;
    assert J.MembersAreDicts(m) by { ProposalIsDict(p, row); }
    LookUp(m, 0);
    LookUp(m, 1);
    LookUp(m, 2);
    LookUp(m, 3);
    LookUp(m, 4);
    LookUp(m, 5);
    LookUp(m, 6);
    LookUp(m, 7);
    IdReads(p);
    IdReads(row.decision);
    IdReads(row.createdBy);
    TextReads(row.summary);
    TextReads(row.content);
    TimeReads(row.submittedAt);
    StringReads(row.title);
    StringReads(m[6].value.s);
  }

  lemma ObjectionReads(o: Id, row: Objection)
    ensures ShowsObjection(J.Denote(ObjectionJson(o, row)), o, row)
  {
    hide J.Denote, Field, IdOf, ReadsOptionalId, ReadsOptionalText, J.MembersAreDicts, Governance.IdJson, Governance.TimeJson,
         Governance.TextJson;
    var m := ObjectionJson(o, row).members;
    assert J.MembersAreDicts(m) by { ObjectionIsDict(o, row); }
    LookUp(m, 0);
    LookUp(m, 1);
    LookUp(m, 2);
    LookUp(m, 3);
    LookUp(m, 4);
    LookUp(m, 5);
    LookUp(m, 6);
    LookUp(m, 7);
    LookUp(m, 8);
    LookUp(m, 9);
    IdReads(o);
    IdReads(row.proposal);
    IdReads(row.createdBy);
    OptionalIdReads(row.resolvedBy);
    TextReads(row.note);
    TimeReads(row.resolvedAt);
    StringReads(row.title);
    StringReads(row.description);
    StringReads(m[3].value.s);
    StringReads(m[4].value.s);
  }

  lemma OptionalIdReads(id: Option<Id>)
    ensures ReadsOptionalId(J.Denote(if id.Some? then IdJson(id.value) else J.Null), id)
  {
    if id.Some? {
      IdReads(id.value);
    }
  }

  // ---------------------------------------------------------------- objections

  lemma {:induction false} ListedIs(objections: map<Id, Objection>, list: seq<Id>)
    requires forall i :: 0 <= i < |list| ==> list[i] in objections
    ensures |ListedJson(objections, list)| == |list|
    ensures forall i :: 0 <= i < |list| ==> ListedJson(objections, list)[i] == ObjectionJson(list[i], objections[list[i]])
  {
    hide Governance.ObjectionJson;
    if list != [] {
      ListedIs(objections, list[1..]);
    }
  }

  lemma ObjectionsRead(db: Db, p: Id, ties: seq<Id>)
    ensures ShowsObjections(J.Denote(ObjectionsJson(ObjectionsOf(db, p), ties)), db, p)
  {
    hide Governance.ObjectionJson, Governance.ListedJson, ShowsObjection, J.Denote, Governance.Order;
    var objections := ObjectionsOf(db, p);
    var list := Order(ties, objections);
    ListingCovers(list, objections);
    ListedIs(objections, list);
    var items := ListedJson(objections, list);
    ArrayReads(items);
    var v := J.Denote(J.Arr(items));
    forall i | 0 <= i < |list| ensures list[i] in db.objections && ShowsObjection(v.items[i], list[i], db.objections[list[i]]) {
      ObjectionReads(list[i], objections[list[i]]);
    }
    assert NamesObjections(list, db, p) by { ListingNames(db, p, list); }
  }

  lemma ListingNames(db: Db, p: Id, list: seq<Id>)
    requires IsListing(list, ObjectionsOf(db, p)) && forall o <- ObjectionsOf(db, p) :: o in list
    ensures NamesObjections(list, db, p)
  {
    assert forall o :: o in ObjectionsOf(db, p) <==> o in db.objections && db.objections[o].proposal == p;
  }

  lemma ArrayReads(items: seq<J.Json>)
    ensures var v := J.Denote(J.Arr(items));
      v.VArr? && |v.items| == |items| && forall i :: 0 <= i < |items| ==> v.items[i] == J.Denote(items[i])
  {
  }

  // ---------------------------------------------------------------- the result

  lemma {:induction false} TalliesAre(tallies: seq<Tally>)
    ensures |TalliesJson(tallies)| == |tallies|
    ensures forall i :: 0 <= i < |tallies| ==> TalliesJson(tallies)[i] == TallyJson(tallies[i])
  {
    hide Governance.TallyJson;
    if tallies != [] {
      TalliesAre(tallies[1..]);
    }
  }

  /** A tally carries the votes of its option and their rounded share. */
  ghost predicate TallyHolds(t: Tally, cfg: Config, db: Db, s: Id) {
    && (s, t.proposal) in db.ballots && t.votes == |VotesInFor(db, s, t.proposal)|
    && t.hundredths == (if VotesIn(db, s) == {} then 0 else cfg.round(t.votes * 10000, |VotesIn(db, s)|))
  }

  lemma TalliesHold(cfg: Config, db: Db, s: Id)
    requires s in db.sessions
    ensures forall t <- ResultOf(cfg, db, s).tallies :: TallyHolds(t, cfg, db, s)
  {
    hide VotesInFor;
    var r := ResultOf(cfg, db, s);
    forall t | t in r.tallies ensures TallyHolds(t, cfg, db, s) {
      var i :| 0 <= i < |r.tallies| && r.tallies[i] == t;
      TalliesAreRows(cfg, db, s, i);
      VotesAreRows(db, s, t.proposal);
      assert |VotesOf(db, s)| == |VotesIn(db, s)|;
    }
  }

  lemma VotesShow(t: Tally, cfg: Config, db: Db, s: Id, v: J.Value)
    requires TallyHolds(t, cfg, db, s)
    requires Field(v, "votes") == J.VInt(t.votes) && Field(v, "percentage") == J.VDecimal(t.hundredths)
    ensures ShowsVotes(v, cfg, db, s, t.proposal)
  {
  }

  lemma TallyReads(t: Tally, cfg: Config, db: Db, s: Id)
    requires TallyHolds(t, cfg, db, s)
    ensures var v := J.Denote(TallyJson(t)); IdOf(Field(v, "proposal_id")) == Some(t.proposal) && ShowsVotes(v, cfg, db, s, t.proposal)
  {
    hide Field, IdOf, J.MembersAreDicts, Governance.IdJson, TallyHolds;
    var m := TallyJson(t).members;
    assert J.MembersAreDicts(m) by { TallyIsDict(t); }
    LookUp(m, 0);
    LookUp(m, 1);
    LookUp(m, 2);
    IdReads(t.proposal);
    assert J.Denote(J.Int(t.votes)) == J.VInt(t.votes) && J.Denote(J.Decimal(t.hundredths)) == J.VDecimal(t.hundredths);
    hide J.Denote;
    VotesShow(t, cfg, db, s, J.Denote(TallyJson(t)));
  }

  lemma BallotIsNamed(db: Db, s: Id)
    ensures NamesOptions(Ascending(BallotOf(db, s)), db, s, None)
  {
    hide Governance.BallotOf;
    forall p: Id ensures p in BallotOf(db, s) <==> (s, p) in db.ballots { BallotIsRows(db, s, p); }
  }

  /** The tallies go through the ballot by identifier. */
  lemma OptionsAreNamed(cfg: Config, db: Db, s: Id)
    requires s in db.sessions
    ensures var t := ResultOf(cfg, db, s).tallies; var ballot := Ascending(BallotOf(db, s));
      && |t| == |ballot| && (forall i :: 0 <= i < |t| ==> t[i].proposal == ballot[i])
  {
    hide Governance.BallotOf, Governance.ResultOf, VotesInFor;
    var t := ResultOf(cfg, db, s).tallies;
    TalliesAreOfBallot(cfg, db, s);
    forall i | 0 <= i < |t| ensures t[i].proposal == Ascending(BallotOf(db, s))[i] { TalliesAreRows(cfg, db, s, i); }
  }

  lemma TalliesRead(cfg: Config, db: Db, s: Id)
    requires s in db.sessions
    ensures ShowsTallies(J.Denote(J.Arr(TalliesJson(ResultOf(cfg, db, s).tallies))), cfg, db, s)
  {
    hide Governance.ResultOf, Governance.TallyJson, J.Denote, Field, IdOf, ShowsVotes, TallyHolds, NamesOptions;
    var t := ResultOf(cfg, db, s).tallies;
    var list := Ascending(BallotOf(db, s));
    OptionsAreNamed(cfg, db, s);
    BallotIsNamed(db, s);
    TalliesHold(cfg, db, s);
    TalliesAre(t);
    ArrayReads(TalliesJson(t));
    var v := J.Denote(J.Arr(TalliesJson(t)));
    forall i | 0 <= i < |list| ensures IdOf(Field(v.items[i], "proposal_id")) == Some(list[i]) && ShowsVotes(v.items[i], cfg, db, s, list[i]) {
      TallyReads(t[i], cfg, db, s);
    }
  }

  lemma ResultColumns(cfg: Config, db: Db, s: Id)
    requires s in db.sessions
    ensures var r := ResultOf(cfg, db, s);
      && r.session == s && r.eligibleVoters == db.sessions[s].eligibleCount && r.votesCast == |VotesIn(db, s)|
      && r.quorumPercentage == db.sessions[s].quorum
  {
    VotesAreRows(db, s, 0);
    assert |VotesOf(db, s)| == |VotesIn(db, s)|;
  }

  lemma FieldsOfResult(r: VotingResult)
    ensures var v := J.Denote(ResultJson(r));
      && IdOf(Field(v, "voting_session_id")) == Some(r.session) && Field(v, "eligible_voter_count") == J.VInt(r.eligibleVoters)
      && Field(v, "votes_cast") == J.VInt(r.votesCast) && Field(v, "quorum_percentage") == J.VInt(r.quorumPercentage)
      && Field(v, "required_votes") == J.VInt(r.requiredVotes) && Field(v, "quorum_met") == J.VBool(r.quorumMet)
      && Field(v, "result_valid") == J.VBool(r.quorumMet) && Field(v, "is_tie") == J.VBool(r.isTie)
      && ReadsOptionalId(Field(v, "winner_proposal_id"), r.winner)
      && Field(v, "tallies") == J.Denote(J.Arr(TalliesJson(r.tallies)))
  {
    hide Field, IdOf, ReadsOptionalId, J.MembersAreDicts, Governance.IdJson, Governance.TalliesJson;
    var m := ResultJson(r).members;
    assert J.MembersAreDicts(m) by { ResultIsDict(r); }
    assert J.Denote(m[1].value) == J.VInt(r.eligibleVoters) && J.Denote(m[2].value) == J.VInt(r.votesCast);
    assert J.Denote(m[3].value) == J.VInt(r.quorumPercentage) && J.Denote(m[4].value) == J.VInt(r.requiredVotes);
    assert J.Denote(m[5].value) == J.VBool(r.quorumMet) == J.Denote(m[6].value) && J.Denote(m[8].value) == J.VBool(r.isTie);
    hide J.Denote;
    LookUp(m, 0);
    LookUp(m, 1);
    LookUp(m, 2);
    LookUp(m, 3);
    LookUp(m, 4);
    LookUp(m, 5);
    LookUp(m, 6);
    LookUp(m, 7);
    LookUp(m, 8);
    LookUp(m, 9);
    IdReads(r.session);
    OptionalIdReads(r.winner);
  }

  lemma ResultReads(cfg: Config, db: Db, s: Id, winner: Id)
    requires Good(cfg, db) && s in db.sessions && db.sessions[s].status.Closed? && ResultOf(cfg, db, s).winner == Some(winner)
    ensures ShowsResult(J.Denote(ResultJson(ResultOf(cfg, db, s))), cfg, db, s, winner)
  {
    hide Governance.ResultOf, Good, Field, IdOf, J.Denote, Governance.ResultJson, Governance.TalliesJson, ShowsTallies, VotesIn,
         VotingMath.StrictlyLeads, VotingMath.SharesTheLead, WinsOutright;
    var r := ResultOf(cfg, db, s);
    ClosedOutcome(cfg, db, s);
    WinnerIsOutright(cfg, db, s, winner);
    ResultColumns(cfg, db, s);
    FieldsOfResult(r);
    TalliesRead(cfg, db, s);
    assert IsRequired(r.requiredVotes, db.sessions[s]);
  }

  // ---------------------------------------------------------------- alternatives

  function Losers(tallies: seq<Tally>, winner: Id): seq<Tally> {
    if tallies == [] then []
    else (if tallies[0].proposal == winner then [] else [tallies[0]]) + Losers(tallies[1..], winner)
  }

  lemma {:induction false} LosersAre(tallies: seq<Tally>, winner: Id)
    ensures forall t :: t in Losers(tallies, winner) <==> t in tallies && t.proposal != winner
  {
    if tallies != [] {
      LosersAre(tallies[1..], winner);
      assert forall t :: t in tallies <==> t == tallies[0] || t in tallies[1..];
    }
  }

  ghost predicate ByOption(tallies: seq<Tally>) {
    forall i, j :: 0 <= i < j < |tallies| ==> tallies[i].proposal < tallies[j].proposal
  }

  lemma {:induction false} LosersAscend(tallies: seq<Tally>, winner: Id)
    requires ByOption(tallies)
    ensures ByOption(Losers(tallies, winner))
  {
    if tallies != [] {
      LosersAscend(tallies[1..], winner);
      LosersAre(tallies[1..], winner);
      var rest := Losers(tallies[1..], winner);
      forall i | 0 <= i < |rest| ensures tallies[0].proposal < rest[i].proposal {
        assert rest[i] in tallies[1..];
      }
      PutFirst(tallies[0], rest);
    }
  }

  lemma PutFirst(t: Tally, rest: seq<Tally>)
    requires ByOption(rest) && forall i :: 0 <= i < |rest| ==> t.proposal < rest[i].proposal
    ensures ByOption([t] + rest)
  {
  }

  /** The entry of one losing option. */
  function EntryFor(db: Db, t: Tally, ties: seq<Id>): J.Json
    requires t.proposal in db.proposals
  {
    AlternativeJson(t, db.proposals[t.proposal], ObjectionsOf(db, t.proposal), ties)
  }

  lemma {:induction false} AlternativesAre(db: Db, d: Id, winner: Id, tallies: seq<Tally>, ties: seq<Id>)
    requires Alternatives(db, d, winner, tallies, ties).Ok?
    ensures var others := Alternatives(db, d, winner, tallies, ties).value; var losers := Losers(tallies, winner);
      |others| == |losers|
      && forall i :: 0 <= i < |losers| ==> losers[i].proposal in db.proposals && others[i] == EntryFor(db, losers[i], ties)
  {
    hide Governance.AlternativeJson, Governance.ObjectionsOf;
    if tallies != [] {
      AlternativesAre(db, d, winner, tallies[1..], ties);
    }
  }

  lemma AlternativeReads(cfg: Config, db: Db, s: Id, t: Tally, ties: seq<Id>)
    requires t.proposal in db.proposals && TallyHolds(t, cfg, db, s)
    ensures ShowsAlternative(J.Denote(EntryFor(db, t, ties)), cfg, db, s, t.proposal)
  {
    hide Field, IdOf, J.MembersAreDicts, TallyHolds, Governance.ProposalJson, Governance.ObjectionsJson, ShowsProposal, ShowsVotes,
         ShowsObjections, Governance.ObjectionsOf;
    var row, objections := db.proposals[t.proposal], ObjectionsJson(ObjectionsOf(db, t.proposal), ties);
    var m := EntryFor(db, t, ties).members;
    assert J.MembersAreDicts(m) by {
      ProposalIsDict(t.proposal, row);
      ObjectionsAreDict(ObjectionsOf(db, t.proposal), ties);
      AlternativeIsDict(ProposalJson(t.proposal, row), t.votes, t.hundredths, objections);
    }
    assert J.Denote(m[1].value) == J.VInt(t.votes) && J.Denote(m[2].value) == J.VDecimal(t.hundredths);
    hide J.Denote;
    LookUp(m, 0);
    LookUp(m, 1);
    LookUp(m, 2);
    LookUp(m, 3);
    ProposalReads(t.proposal, row);
    ObjectionsRead(db, t.proposal, ties);
    VotesShow(t, cfg, db, s, J.Denote(EntryFor(db, t, ties)));
  }

  function Proposals(tallies: seq<Tally>): (list: seq<Id>)
    ensures |list| == |tallies| && forall i :: 0 <= i < |list| ==> list[i] == tallies[i].proposal
  {
    seq(|tallies|, i requires 0 <= i < |tallies| => tallies[i].proposal)
  }

  lemma OptionsOf(tallies: seq<Tally>, p: Id)
    ensures p in Proposals(tallies) <==> exists t <- tallies :: t.proposal == p
  {
    var list := Proposals(tallies);
    if p in list {
      var i :| 0 <= i < |list| && list[i] == p;
      assert tallies[i] in tallies;
    }
    if t :| t in tallies && t.proposal == p {
      var i :| 0 <= i < |tallies| && tallies[i] == t;
      assert list[i] == p;
    }
  }

  lemma TalliesNameBallot(cfg: Config, db: Db, s: Id)
    requires s in db.sessions
    ensures var t := ResultOf(cfg, db, s).tallies; ByOption(t) && Proposals(t) == Ascending(BallotOf(db, s))
  {
    hide Governance.ResultOf, Governance.BallotOf;
    OptionsAreNamed(cfg, db, s);
  }

  lemma LosersAreNamed(cfg: Config, db: Db, s: Id, winner: Id)
    requires s in db.sessions
    ensures var t := ResultOf(cfg, db, s).tallies;
      NamesOptions(Proposals(Losers(t, winner)), db, s, Some(winner)) && forall l <- Losers(t, winner) :: l in t
  {
    hide Governance.ResultOf, Governance.BallotOf, Losers, Ordering.Ascending;
    var t := ResultOf(cfg, db, s).tallies;
    TalliesNameBallot(cfg, db, s);
    BallotIsNamed(db, s);
    LosersAre(t, winner);
    LosersAscend(t, winner);
    var losers := Losers(t, winner);
    forall p: Id ensures p in Proposals(losers) <==> (s, p) in db.ballots && p != winner {
      OptionsOf(losers, p);
      OptionsOf(t, p);
    }
  }

  lemma AlternativesRead(cfg: Config, db: Db, d: Id, s: Id, winner: Id, ties: seq<Id>)
    requires s in db.sessions && Alternatives(db, d, winner, ResultOf(cfg, db, s).tallies, ties).Ok?
    ensures ShowsAlternatives(J.Denote(J.Arr(Alternatives(db, d, winner, ResultOf(cfg, db, s).tallies, ties).value)), cfg, db, s, winner)
  {
    hide Governance.ResultOf, Governance.Alternatives, EntryFor, J.Denote, ShowsAlternative, TallyHolds, NamesOptions;
    var t := ResultOf(cfg, db, s).tallies;
    var losers := Losers(t, winner);
    var others := Alternatives(db, d, winner, t, ties).value;
    AlternativesAre(db, d, winner, t, ties);
    LosersAreNamed(cfg, db, s, winner);
    TalliesHold(cfg, db, s);
    ArrayReads(others);
    var v := J.Denote(J.Arr(others));
    forall i | 0 <= i < |losers| ensures ShowsAlternative(v.items[i], cfg, db, s, Proposals(losers)[i]) {
      assert losers[i] in t;
      AlternativeReads(cfg, db, s, losers[i], ties);
    }
  }

  // ---------------------------------------------------------------- the document

  lemma DissentReads(approved: J.Json, others: seq<J.Json>)
    requires J.IsDict(approved) && J.AreDicts(others)
    ensures var v := J.Denote(J.Obj([J.Entry("objections_to_approved_proposal", approved), J.Entry("alternative_proposals", J.Arr(others))]));
      && Field(v, "objections_to_approved_proposal") == J.Denote(approved)
      && Field(v, "alternative_proposals") == J.Denote(J.Arr(others))
  {
    hide Field, J.Denote, J.MembersAreDicts;
    var m := [J.Entry("objections_to_approved_proposal", approved), J.Entry("alternative_proposals", J.Arr(others))];
    assert J.MembersAreDicts(m) by { DissentIsDict(approved, others); }
    LookUp(m, 0);
    LookUp(m, 1);
  }

  lemma PartsRead(decision: J.Json, proposal: J.Json, result: J.Json, dissent: J.Json)
    requires J.IsDict(decision) && J.IsDict(proposal) && J.IsDict(result) && J.IsDict(dissent)
    ensures var v := J.Denote(J.Obj([J.Entry("decision", decision), J.Entry("approved_proposal", proposal),
                                     J.Entry("voting_result", result), J.Entry("dissent", dissent)]));
      && Field(v, "decision") == J.Denote(decision) && Field(v, "approved_proposal") == J.Denote(proposal)
      && Field(v, "voting_result") == J.Denote(result) && Field(v, "dissent") == J.Denote(dissent)
  {
    hide Field, J.Denote, J.MembersAreDicts;
    var m := [J.Entry("decision", decision), J.Entry("approved_proposal", proposal),
              J.Entry("voting_result", result), J.Entry("dissent", dissent)];
    assert J.MembersAreDicts(m) by { DocumentIsDict(decision, proposal, result, dissent); }
    LookUp(m, 0);
    LookUp(m, 1);
    LookUp(m, 2);
    LookUp(m, 3);
  }

  lemma BuiltDocumentShows(cfg: Config, db: Db, k: Lock, ties: seq<Id>)
    requires Good(cfg, db) && Anchored(db, k) && Builds(db, k, ResultOf(cfg, db, k.session), ties)
    requires ResultOf(cfg, db, k.session).winner == Some(k.winner)
    ensures ShowsLock(J.Denote(k.snapshot), cfg, db, k)
  {
    hide Governance.ResultOf, Good, Governance.DecisionJson, Governance.ProposalJson, Governance.ResultJson, Governance.ObjectionsJson,
         Governance.Alternatives, Governance.ObjectionsOf, J.IsDict, J.AreDicts, J.Denote, Field, ShowsDecision, ShowsProposal,
         ShowsResult, ShowsObjections, ShowsAlternatives, Governance.BallotOf;
    var d, row := k.decision, db.decisions[k.decision];
    var r := ResultOf(cfg, db, k.session);
    var others := Alternatives(db, d, k.winner, r.tallies, ties).value;
    var approved := ObjectionsJson(ObjectionsOf(db, k.winner), ties);
    DecisionIsDict(d, row);
    ProposalIsDict(k.winner, db.proposals[k.winner]);
    ResultIsDict(r);
    ObjectionsAreDict(ObjectionsOf(db, k.winner), ties);
    AlternativesAreDicts(db, d, k.winner, r.tallies, ties);
    DissentIsDict(approved, others);
    DissentReads(approved, others);
    PartsRead(DecisionJson(d, row), ProposalJson(k.winner, db.proposals[k.winner]), ResultJson(r),
      J.Obj([J.Entry("objections_to_approved_proposal", approved), J.Entry("alternative_proposals", J.Arr(others))]));
    DecisionReads(d, row);
    ProposalReads(k.winner, db.proposals[k.winner]);
    ResultReads(cfg, db, k.session, k.winner);
    ObjectionsRead(db, k.winner, ties);
    AlternativesRead(cfg, db, d, k.session, k.winner, ties);
  }

  /**
    A lock made during `before` is there unchanged after any further calls, and its document, read back in any key order,
    still shows the rows of that later state: the decision, the approved proposal, the session's counts and tallies, and
    one entry for each objection to the approved proposal and to each losing option.
   */
  lemma LockedDocumentShowsRows(cfg: Config, before: seq<Call>, after: seq<Call>, l: Id, readBack: J.Json)
    requires l in Run(cfg, before).locks && J.Denote(readBack) == J.Denote(Run(cfg, before).locks[l].snapshot)
    ensures var k := Run(cfg, before).locks[l]; var db := Run(cfg, before + after);
      l in db.locks && db.locks[l] == k && ShowsLock(J.Denote(readBack), cfg, db, k)
  {
    hide GovernanceRuns.Run, Good, J.Denote, ShowsLock, Builds, Governance.ResultOf;
    LockedRecordIsFrozen(cfg, before, after, l);
    ReachableIsGood(cfg, before + after);
    var k, db := Run(cfg, before).locks[l], Run(cfg, before + after);
    var ties: seq<Id> :| Builds(db, k, ResultOf(cfg, db, k.session), ties);
    BuiltDocumentShows(cfg, db, k, ties);
  }
}
