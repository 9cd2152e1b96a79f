# ForkRoom: verified models

ForkRoom is a decision-governance backend: teams draft decisions, submit proposals, object, vote, lock the outcome and
review it later. This project models the parts of it listed below and proves what holds over whole runs of calls and of workers.

| part | files |
|---|---|
| canonical JSON text and its reader | `CanonicalJson.dfy` |
| quorum, tallies, percentages | `VotingMath.dfy` |
| governance tables and calls | `Governance.dfy`, `GovernanceStore.dfy` |
| governance invariants and runs | `GovernanceInvariants.dfy`, `GovernanceSteps.dfy`, `GovernanceRuns.dfy`, `GovernanceHistory.dfy`, `GovernanceCommits.dfy`, `Elections.dfy`, `LockDocuments.dfy`, `RevisionChains.dfy`, `RevisionConflicts.dfy`, `GovernanceWitness.dfy` |
| who may do what, and what each call changes | `GovernanceGuards.dfy`, `GovernanceEffects.dfy`, `GovernanceOutcomes.dfy`, `GovernanceErrors.dfy`, `Permissions.dfy` |
| votes as history, and what a lock's document shows | `VoteHistory.dfy`, `LockReader.dfy` |
| integration outbox and deliveries | `IntegrationTables.dfy`, `IntegrationProtocol.dfy`, `IntegrationRuns.dfy`, `IntegrationRepository.dfy` |
| reminder notifications | `Reminders.dfy`, `ReminderStore.dfy` |
| refresh-token families | `RefreshTokens.dfy`, `AuthService.dfy` |
| mentions | `MentionPaging.dfy`, `MentionSync.dfy`, `CommentService.dfy` |
| weighted comparison | `Comparison.dfy`, `CriteriaBoard.dfy` |
| shared | `Options.dfy`, `Ordering.dfy` |

`dafny verify dfyconfig.toml` checks the whole project.

## How it is built

**Governance.** The tables are one value, `Db`: a map or set for each table. A service call is a function from the tables
to an `Attempt`: new tables, or the error that the service raises, in which case nothing changed. `Commit` refuses a
transaction that breaks a UNIQUE key, a CHECK or a restricting foreign key of `app/models`. `GovernanceStore.Store` does
the same calls in place, with the source's guards in the source's order and an explicit rollback; each method is proved
equal to its call, and `Valid()`, which every method keeps, includes the constraints and the invariants themselves.
`GovernanceGuards` is a second, independent description of every call in terms of roles, statuses and rows: when it is
permitted and what it changes. `GovernanceOutcomes` proves that in every reachable state the calls agree with it, and each
method of the store states that it follows it. `LockReader` reads a lock's document by key and compares it with the rows,
and `VoteHistory` traces every vote to the cast that made it; neither looks at how documents are built or votes stored. A run is any sequence of calls by anybody, from empty tables. The main proof reduces each call
to its shape (which rows it changes, under which guards), shows that each shape keeps each part of the invariant, and
concludes for every run. The frozen record, the elections, the outbox and the revision chains are then read off the
invariant, or proved as a second invariant on top of it. `GovernanceWitness` runs calls that reach a lock and a revision.

**Workers.** Claiming, reading, committing, sending, marking, recording an error and recovering are separate steps of a
state machine. A claim hands out a token that its worker keeps for ever, so late results after a recovery are ordinary
steps. Errors can be recorded for any delivery or event at any time. Sends and status changes are counted in history
variables beside the tables. The repository classes change the same rows in place, loops included.

**Tokens.** The clock counts microseconds. A token is an unforgeable record that expires on a whole second, and a refresh
is one step. Keys of the store vanish when their time to live, a whole number of seconds, has passed. A revocation
outlives every token of its family, so `RevokedForGood` needs no condition. A used marker may vanish up to a second before
its token expires (first finding below); what rests on it is proved exactly for the uses where it does not.

**Comments.** The class `CommentService.Service` holds comments, mentions and notifications. Its `Valid()` says that they
are in step, and every call keeps it, so every run of calls does.

## What is read how

- Identifiers and timestamps are natural numbers. Where the source writes a UUID or an ISO timestamp into a document, the
  model writes the decimal digits. New identifiers are parameters; a clash with an existing row is an integrity error.
- The digest is an uninterpreted function of the text (`Config.digest`). Only the "nothing else verifies" half of
  `UntouchedLocksVerify` assumes that it has no collisions.
- Percentages and scores are exact rationals rounded to two decimals by any rule that picks a nearest value
  (`Config.round`), so the results hold whatever the rule does with ties. A two-decimal float is a number of hundredths.
- JSONB keeps content but not key order: reading back is any value with the same denotation.
- One service call of the governance services is one atomic step.
- Error recording and recovery of deliveries and events read a row and write it later, without a row lock
  (`app/services/integration_delivery.py:118-132`, `app/repositories/integration.py:433-464`); here each is one step, and
  "delivered is final" rests on that. `IntegrationProtocol.LateWriteMoves` says exactly when writing later is still a
  legal move, and `PromptWriteIsTheStep` that nothing changes when no other step comes between.
- Objections are listed by creation time, newest first; how the database orders equal times is a parameter of each lock
  (`ties`), and `LockDocuments.AnyListingIsReached` shows that every order is covered.
- A membership change is a step that anybody may take at any time, with any role.

## Findings

- Opening a session refuses when nobody may vote (`app/services/voting.py:134-135`). That guard never fires: whoever may open a
  session is a voter, so it needs no clause in `GovernanceGuards.VotingPermitted` (`GovernanceOutcomes.OpeningIsPermitted`).
- `consume` truncates the time that a token has left to whole seconds (`app/repositories/refresh_token.py:17-20`), but
  tokens expire on whole seconds and are used at any microsecond. A token that expires at 20.000 s and is used at 10.300 s
  is marked until 19.300 s, and at 19.500 s it refreshes a second time, undetected, beside its successor
  (`RefreshTokens.TokenRefreshesTwice`). The marker covers its token exactly when the use is on a whole second or within
  the last second of the token's life (`MarkerCoverage`); exactly then is the refresh the last one of its token
  (`RefreshIsFinal`) and the family left with one usable token (`OneUsableAfterRefresh`).
- If a delivered mark commits between the read and the write of an error recording or of a recovery, the write puts the
  row with attempts left back to retry, so the message may be sent again (`IntegrationProtocol.LateWriteLosesMark`).
- The documentation says that exhausted reminder jobs are marked failed and that leases of interrupted workers are
  recovered (lines 497-515 of its own `README.md`). The code recovers an expired lease only while the row has attempts left
  (`app/repositories/notification.py:208-213`). `Reminders.RecoveryIsLimited` gives the exact condition, and
  `LastLeaseIsNeverRecovered` and `LastLeaseIsReached` show, for every limit, a row that stays in delivery for ever.
- `claim_delivery` checks no attempt limit; the limit holds only because every state with attempts left over is kept
  that way by all the other steps (`IntegrationRuns.DeliveryBounds`).
- The marking calls of reminders look at no status; finished rows stay finished only because of the table's CHECK
  (`Reminders.ResultsMove`).
- `reorder_criteria` depends on the request validator: with a repeated identifier the positions would not be the listed
  ones, though still distinct (`Comparison.ReorderFollowsRequest`, `ReorderedIsDistinct`).

## Model

| member | source | states |
|---|---|---|
| CanonicalJson.TextReadsBack | app/services/decision_lock.py:240-248 | the canonical text of any dictionary reads back to an equal dictionary, for every string, integer, two-decimal float, list and nesting (sections 4 and 7 of RFC 8259) |
| CanonicalJson.TextIdentifies | app/services/decision_lock.py:240-248 | two dictionaries have the same canonical text exactly when they are equal, whatever order their keys were filled in |
| CanonicalJson.CharReadsBack | app/services/decision_lock.py:246 | every character survives `ensure_ascii`: quotes, controls, and characters beyond the basic plane written as a surrogate pair |
| CanonicalJson.NormalIsDetermined | app/services/decision_lock.py:244 | `sort_keys` at every depth: equal dictionaries have the same sorted form |
| CanonicalJson.PrecedesIsCodePointOrder | app/services/decision_lock.py:244 | keys are ordered by code point, where they first differ, a prefix first |
| CanonicalJson.SampleText | app/services/decision_lock.py:242-247 | one text in full: sorted keys, no white space, the literals of JSON |
| VotingMath.RequiredIsLeast | app/services/voting.py:278-280 | the required number of votes is the least integer that meets the quorum percentage, at least 1 and at most the number of eligible voters |
| VotingMath.HighestIsMaximum | app/services/voting.py:298 | the highest tally is reached and bounds every tally |
| VotingMath.LeadersAreExact | app/services/voting.py:299-301 | the leaders are exactly the options with that number of votes |
| VotingMath.LeadersDecide | app/services/voting.py:297-304 | one leader exactly when an option leads strictly, several exactly when the lead is shared |
| VotingMath.ExactlyOneOutcome | app/services/voting.py:297-317 | a counted election is exactly one of below quorum, tie or won; the winner has a vote and strictly more than every other option |
| VotingMath.SharesKeepOrder | app/services/voting.py:283-295 | each percentage is within 0.005 of the exact share and percentages keep the order of the votes, for any rule on ties |
| VotingMath.SharesAddUp | app/services/voting.py:283-295 | the percentages of k options add up to 100 within 0.005 * k |
| GovernanceSteps.DraftLockIsJustified | app/services/decision_lock.py:71-101 | the guards of `create` leave only lock rows of an active decision without open blocking objection, whose session is closed, whose winner is on its ballot, and whose document is the one the tables give |
| GovernanceSteps.CreateLockStep | app/repositories/decision_lock.py:21-38 | a lock commits together with its decision's status and one event, and changes nothing else |
| GovernanceSteps.TransitionDecisionStep | app/services/decision.py:142-188 | a transition changes one decision row that is not locked, never to locked or back to draft, and announces exactly the move from draft to active |
| GovernanceSteps.CascadeStep | app/repositories/decision.py:79-81 | deleting a draft decision takes its proposals and their objections along and no session, ballot or vote, because a draft has none |
| GovernanceSteps.DeleteProposalStep | app/services/proposal.py:189-211 | a proposal goes only while its decision is not locked and no ballot names it; its objections go with it |
| GovernanceSteps.OpenSessionStep | app/services/voting.py:127-167 | opening gives the session its electorate, the members who may write, and its ballot, the submitted proposals, once; the stored count is the number of voter rows, and other sessions' rows stay |
| GovernanceSteps.OpenSessionAnnounces | app/services/voting.py:137-167 | the opened event was not in the outbox before, so its unique key admits it, and it is there afterwards |
| GovernanceSteps.CloseSessionAnnounces | app/services/voting.py:215-238 | the same for the closed event |
| GovernanceSteps.LockStepKeeps | app/services/decision_lock.py:57-138 | a lock keeps the whole invariant: older locks stay rebuildable and the new one is |
| GovernanceRuns.StepIsGood | app/services/decision_lock.py:57-221 | every governance call, committed or refused, keeps the constraints and the invariant |
| GovernanceRuns.ReachableIsGood | app/services/decision_lock.py:57-221 | any sequence of calls of the seven services from empty tables reaches a state that satisfies both |
| GovernanceHistory.SettledForGood | app/services/decision.py:153-156 | from any reachable state on: a locked decision stays locked with the same lock row, opened sessions keep their electorate and ballot, closed sessions keep their votes, completed reviews and revision links stay |
| GovernanceHistory.OutboxIsHistory | app/models/integration.py:310-315 | in every run the outbox is exactly the set of activations, openings, closings and locks that happened, with one row for each |
| GovernanceHistory.StepExtendsOutbox | app/services/decision.py:158-188 | each call adds the events of what it did, and none of them was in the outbox before |
| Elections.CountsAddUp | app/repositories/voting.py:180-205 | tallies over a ballot without repetition count every vote once |
| Elections.ElectionAddsUp | app/services/voting.py:169-196 | for every session ever opened, under any later role and membership changes: votes come from snapshotted voters for snapshotted proposals, tallies sum to the votes, which are at most the stored eligible count, which is the number of eligible rows |
| Elections.ClosedElection | app/services/voting.py:265-317 | every closed session of a reachable state has exactly one outcome, with the least sufficient number of required votes and a winner that leads strictly |
| Elections.ElectionShares | app/services/voting.py:283-295 | the percentages of every voted session of a reachable state are nearest, ordered like the votes and add up to 100 within 0.005 for each option |
| LockDocuments.SnapshotIsDict | app/services/decision_lock.py:167-221 | every document that `_build_snapshot` builds is a dictionary without repeated keys, at every depth |
| LockDocuments.LockedRecordIsFrozen | app/services/decision_lock.py:57-221 | a lock made during any run is unchanged after any further calls; recomputing its session still names the stored winner with quorum met, and its document can be rebuilt from the live tables: some order of objections created at the same instant gives the stored one, and every order does when no two were |
| LockDocuments.ListingIsUnique | app/repositories/objection.py:27-40 | when no two objections of a proposal were created at the same time, the query has only one possible result |
| LockDocuments.AnyListingIsReached | app/repositories/objection.py:27-40 | every order that the query may give the objections of any proposal is one that a lock of the model may use |
| LockDocuments.LockedIsHavingALock | app/services/decision_lock.py:71-94 | in every reachable state a decision is locked exactly when it has a lock row, has at most one, and has then no open blocking objection; a draft has neither session nor lock |
| LockDocuments.UntouchedLocksVerify | app/services/decision_lock.py:152-165 | a snapshot that comes back with equal content in any key order verifies; with a collision-free digest nothing else does |
| LockDocuments.ExportsFollowVerification | app/services/export_search.py:139-166 | the export worker accepts a snapshot exactly when `verify` does |
| LockDocuments.DocumentsNameTheirWorkspace | app/services/export_search.py:56-71 | the workspace that an export request reads out of the frozen document is the live decision's workspace |
| RevisionChains.NumbersAreContiguous | app/repositories/action_review.py:154-158 | below every revision number of a chain there is every smaller one |
| RevisionChains.NumbersAreOneToN | app/repositories/action_review.py:154-158 | a root's numbers are exactly those from 1 to below the next one |
| RevisionChains.LinkKeepsChained | app/services/action_review.py:337-379 | a revision of a decision without successor continues that decision's chain: right root, next number, predecessor equal to the last successor |
| RevisionChains.ReachableIsChained | app/models/action_review.py:220-265 | in every reachable state the links are one to one, chained, and rest on the lock and on a completed review of the predecessor |
| RevisionChains.HistoryIsTheChain | app/repositories/action_review.py:204-210 | from any member `list_revisions` gives the whole chain: numbered 1 to n, from the root, each row starting where the one before it ended |
| RevisionChains.RevisionsAreChains | app/services/action_review.py:386-394 | the same for every member of every chain of every reachable state, with `get_revision_root` naming the same root |
| RevisionChains.RevisionsWalkToTheRoot | app/repositories/action_review.py:148-152 | walking predecessors from the successor of revision k reaches the root in exactly k steps, so chains have no cycle |
| RevisionConflicts.CompletionConflicts | app/services/action_review.py:303-384 | a completion that passes every guard is refused as a conflict, review included, exactly when its decision already has a successor, and commits otherwise |
| RevisionConflicts.ChainedDecisionsStay | app/services/decision.py:190-202 | a decision in a chain cannot be deleted, not even a draft successor |
| GovernanceCommits.SecondVotesAreRefused | app/repositories/voting.py:166-174 | a vote that passes every guard is refused as already cast exactly when its voter has a vote in the session, and commits otherwise |
| GovernanceCommits.CallingIsGuarded | app/services/voting.py:56-81 | in every reachable state a session is created exactly when its guards pass: no key ever refuses it |
| GovernanceCommits.OpeningIsGuarded | app/services/voting.py:102-167 | in every reachable state opening commits exactly when its guards pass: no key, and in particular not the outbox key, ever refuses it |
| GovernanceCommits.ClosingIsGuarded | app/services/voting.py:198-238 | the same for closing |
| GovernanceCommits.LockingIsGuarded | app/services/decision_lock.py:57-138 | in every reachable state a lock commits exactly when a manager asks for an active, unblocked decision with a closed session that has a submitted winner; the document's proposals are always found and no key is in the way |
| GovernanceCommits.BallotsKeepProposals | app/services/proposal.py:189-211 | a draft proposal that may be edited can be deleted exactly when no ballot ever named it |
| GovernanceCommits.OneReviewAtATime | app/models/action_review.py:150-155 | a new review is a conflict exactly when one is already scheduled for the decision |
| GovernanceOutcomes.CallsCommitExactly | app/services/decision_lock.py:57-138 | in every reachable state every call of the seven services commits exactly when it is permitted by roles, statuses and rows, changes exactly what its effect says in terms of rows, and changes nothing otherwise; no constraint refuses anything else |
| GovernanceEffects.DecisionCallsCommit | app/services/decision.py:59-202 | who may create, edit, move and delete decisions, and every column afterwards; a draft goes exactly when no review and no link names it |
| GovernanceEffects.MovesAreAllowed | app/services/decision.py:25-40 | draft to active or archived, active to closed or archived, closed back to active or to archived, and nothing else |
| GovernanceEffects.ProposalCallsCommit | app/services/proposal.py:76-211 | the same for proposals: managers and authors who are members, while the decision is open to change |
| GovernanceEffects.ObjectionCallsCommit | app/services/objection.py:68-198 | the same for objections, dismissals by managers only |
| GovernanceOutcomes.VotingCallsCommit | app/services/voting.py:56-263 | the same for sessions and votes: the electorate is the owners, admins and members at the opening, the ballot the submitted proposals, and a vote is stored for its caller and the option chosen |
| GovernanceOutcomes.TalliesAreRows | app/repositories/voting.py:180-205 | the tallies list the ballot by identifier, each with the number of vote rows for that option |
| GovernanceOutcomes.WinnerIsOutright | app/services/voting.py:265-317 | the winner of a closed session is the option with a quorate, strictly largest number of vote rows |
| GovernanceOutcomes.LockingCommitsExactly | app/services/decision_lock.py:57-138 | a lock commits exactly for a manager, an active unblocked decision and a closed session with a submitted outright winner; it names that winner and its maker, and carries the digest of its document |
| GovernanceOutcomes.RequestingCommitsExactly | app/services/export_search.py:56-93 | an export is granted exactly to writers of the workspace of a locked decision, with the lock's digest |
| GovernanceOutcomes.ReviewCallsCommit | app/services/action_review.py:204-384 | who may schedule, move, cancel and complete reviews, and every column afterwards, the successor's title, summary and category included |
| GovernanceOutcomes.NextNumberCounts | app/repositories/action_review.py:154-158 | a new revision's number is one more than the number of links of its root |
| GovernanceErrors.RefusalsAreTruthful | app/services/decision_lock.py:57-138 | every error of every refused call is raised only for its own reason, in terms of rows |
| Permissions.OutsidersLearnNothing | app/services/decision_lock.py:223-238 | whoever is not a member gets the same answer to every call, whatever the tables hold |
| Permissions.ViewersOnlyVote | app/permissions/decision.py:4-16 | a viewer changes nothing except by voting in a session opened while the viewer could write |
| Permissions.MembersDoNotManage | app/permissions/voting.py:4-8 | plain members neither run votes or reviews nor lock or delete decisions |
| VoteHistory.CastCounts | app/services/voting.py:190-196 | a committed vote adds itself to the chosen option for its caller and leaves every other option's votes alone |
| VoteHistory.VotesAreTheCasts | app/services/voting.py:169-196 | in every reachable state the votes are exactly the committed casts of the run, each for the option that its voter chose |
| VoteHistory.TalliesCountCasts | app/repositories/voting.py:180-205 | an option's tally counts exactly the committed casts for it in that session |
| LockReader.LockedDocumentShowsRows | app/services/decision_lock.py:167-221 | the document of any lock, read back in any key order and at any later time, shows by key: the decision's columns, the approved proposal's, the session's counts, quorum and tallies, and exactly one entry for each objection to the approved proposal and to each losing option |
| LockReader.BuiltDocumentShows | app/services/decision_lock.py:204-221 | the same for the document that a lock has just stored |
| LockReader.DecisionReads | app/services/decision_lock.py:205-214 | each column of the decision is found under its key |
| LockReader.ProposalReads | app/services/decision_lock.py:250-261 | the same for a proposal |
| LockReader.ObjectionReads | app/services/decision_lock.py:263-278 | the same for an objection |
| GovernanceWitness.LocksAreReached | app/services/decision_lock.py:57-138 | twelve calls from empty tables, from joining a workspace to the lock, reach a lock row, whatever the digest and the rounding rule |
| GovernanceWitness.RevisionsAreReached | app/services/action_review.py:303-384 | two more calls reach revision 1 of that decision, with its successor |
| GovernanceStore.Store.CreateDecision | app/services/decision.py:59-79 | in place: outcome, error and tables are those of the call `CreateDecision` that the invariants are proved about, and the method follows the guards and effects stated over rows |
| GovernanceStore.Store.UpdateDecision | app/services/decision.py:109-140 | in place: outcome, error and tables are those of the call `UpdateDecision` that the invariants are proved about, and the method follows the guards and effects stated over rows |
| GovernanceStore.Store.TransitionDecision | app/services/decision.py:142-188 | in place: outcome, error and tables are those of the call `TransitionDecision` that the invariants are proved about, and the method follows the guards and effects stated over rows |
| GovernanceStore.Store.DeleteDecision | app/services/decision.py:190-202 | in place: outcome, error and tables are those of the call `DeleteDecision` that the invariants are proved about, and the method follows the guards and effects stated over rows; drafts only, with the cascade, or refused by a restricting key |
| GovernanceStore.Store.CreateProposal | app/services/proposal.py:76-100 | in place: outcome, error and tables are those of the call `CreateProposal` that the invariants are proved about, and the method follows the guards and effects stated over rows |
| GovernanceStore.Store.UpdateProposal | app/services/proposal.py:123-155 | in place: outcome, error and tables are those of the call `UpdateProposal` that the invariants are proved about, and the method follows the guards and effects stated over rows |
| GovernanceStore.Store.TransitionProposal | app/services/proposal.py:157-187 | in place: outcome, error and tables are those of the call `TransitionProposal` that the invariants are proved about, and the method follows the guards and effects stated over rows |
| GovernanceStore.Store.DeleteProposal | app/services/proposal.py:189-211 | in place: outcome, error and tables are those of the call `DeleteProposal` that the invariants are proved about, and the method follows the guards and effects stated over rows |
| GovernanceStore.Store.CreateObjection | app/services/objection.py:68-96 | in place: outcome, error and tables are those of the call `CreateObjection` that the invariants are proved about, and the method follows the guards and effects stated over rows |
| GovernanceStore.Store.UpdateObjection | app/services/objection.py:126-160 | in place: outcome, error and tables are those of the call `UpdateObjection` that the invariants are proved about, and the method follows the guards and effects stated over rows |
| GovernanceStore.Store.TransitionObjection | app/services/objection.py:162-198 | in place: outcome, error and tables are those of the call `TransitionObjection` that the invariants are proved about, and the method follows the guards and effects stated over rows |
| GovernanceStore.Store.CreateSession | app/services/voting.py:56-81 | in place: outcome, error and tables are those of the call `CreateSession` that the invariants are proved about, and the method follows the guards and effects stated over rows |
| GovernanceStore.Store.OpenSession | app/services/voting.py:102-167 | in place: outcome, error and tables are those of the call `OpenSession` that the invariants are proved about, and the method follows the guards and effects stated over rows; guards in the source's order, then status, electorate, ballot and event in one commit |
| GovernanceStore.Store.CastVote | app/services/voting.py:169-196 | in place: outcome, error and tables are those of the call `CastVote` that the invariants are proved about, and the method follows the guards and effects stated over rows; refused when closed, expired, not in the electorate, not on the ballot or voted before |
| GovernanceStore.Store.CloseSession | app/services/voting.py:198-238 | in place: outcome, error and tables are those of the call `CloseSession` that the invariants are proved about, and the method follows the guards and effects stated over rows |
| GovernanceStore.Store.CancelSession | app/services/voting.py:240-263 | in place: outcome, error and tables are those of the call `CancelSession` that the invariants are proved about, and the method follows the guards and effects stated over rows |
| GovernanceStore.Store.CreateLock | app/services/decision_lock.py:57-138 | in place: outcome, error and tables are those of the call `CreateLock` that the invariants are proved about, and the method follows the guards and effects stated over rows; guards in the source's order, document from the loop over the tallies, digest, status, row and event in one commit |
| GovernanceStore.Store.RequestExport | app/services/export_search.py:56-93 | in place: outcome, error and tables are those of the call `RequestExport` that the invariants are proved about, and the method follows the guards and effects stated over rows |
| GovernanceStore.Store.CreateReview | app/services/action_review.py:204-228 | in place: outcome, error and tables are those of the call `CreateReview` that the invariants are proved about, and the method follows the guards and effects stated over rows |
| GovernanceStore.Store.RescheduleReview | app/services/action_review.py:249-277 | in place: outcome, error and tables are those of the call `RescheduleReview` that the invariants are proved about, and the method follows the guards and effects stated over rows |
| GovernanceStore.Store.CancelReview | app/services/action_review.py:279-301 | in place: outcome, error and tables are those of the call `CancelReview` that the invariants are proved about, and the method follows the guards and effects stated over rows |
| GovernanceStore.Store.CompleteReview | app/services/action_review.py:303-384 | in place: outcome, error and tables are those of the call `CompleteReview` that the invariants are proved about, and the method follows the guards and effects stated over rows; confirmed outcomes complete the review alone; others add the successor and the numbered link in the same commit or roll everything back |
| GovernanceStore.Store.Commit | app/repositories/action_review.py:191-198 | a commit keeps the changes when every constraint holds and otherwise restores the tables and reports the error |
| GovernanceStore.Store.CollectAlternatives | app/services/decision_lock.py:178-202 | the loop over the tallies collects the losing options in order, or stops at a proposal that is gone |
| IntegrationTables.CountdownIsMonotone | app/services/integration_delivery.py:155-161 | retry delays never shrink with the attempt and stop at the cap |
| IntegrationTables.CountdownDoubles | app/services/integration_delivery.py:155-161 | below the cap each delay is twice the one before |
| IntegrationTables.CountdownIs | app/services/integration_delivery.py:155-161 | the first delay is the lesser of base and cap, each further one the lesser of twice the one before and the cap |
| IntegrationProtocol.ClaimMoves | app/repositories/integration.py:310-344 | claiming a row that is in bounds stays within the attempt limit, although the claim does not check it |
| IntegrationProtocol.ErrorMoves | app/services/integration_delivery.py:118-132 | recording an error, however late, never moves a row backwards or out of bounds |
| IntegrationProtocol.RecoveryMoves | app/repositories/integration.py:446-464 | recovery moves a stale row to retry or, with its attempts spent, to failed |
| IntegrationProtocol.CommitCovers | app/repositories/integration.py:223-272 | after a commit of deliveries every connection that was active, with an enabled subscription to the kind and a destination, when the tables were joined has its delivery |
| IntegrationProtocol.LateWriteMoves | app/repositories/integration.py:433-464 | when the write of a recovery or of an error comes after other steps, the row still moves forward and within bounds exactly when no delivered mark came between and, unless its attempts were spent when read, no claim spent them in between |
| IntegrationProtocol.PromptWriteIsTheStep | app/repositories/integration.py:433-464 | with nothing in between, read and write are the single step of the protocol |
| IntegrationProtocol.LateWriteLosesMark | app/services/integration_delivery.py:118-132 | a delivered mark between the two is lost: the row, with attempts left, is scheduled again |
| IntegrationProtocol.StepKeepsInv | app/repositories/integration.py:182-464 | every step of any worker keeps the invariant of the protocol |
| IntegrationRuns.DeliveryBounds | app/repositories/integration.py:310-404 | under every interleaving: claimable rows have attempts left, failed rows used them all, sends never exceed attempts, delivered rows were sent, and a row changes status at most 2 * max + 2 times |
| IntegrationRuns.DeliveredForGood | app/repositories/integration.py:364-404 | delivered is final, no delivery disappears, and there is one for each connection, event type and event |
| IntegrationRuns.ProcessedForGood | app/repositories/integration.py:182-287 | processed is final, attempts stay within the limit, and there is one row for each event type and event |
| IntegrationRuns.FirstProcessingCovers | app/repositories/integration.py:223-272 | the step that first marks an event processed leaves a delivery for every connection of its workspace that was active, with an enabled subscription to its kind and a destination, when that dispatcher joined the tables |
| IntegrationProtocol.OnlySubscribersAreAdded | app/repositories/integration.py:228-265 | a commit adds deliveries only to connections that were active and subscribed with a destination and had none, each pending and of its event |
| IntegrationRuns.DeliveriesHadSubscribers | app/repositories/integration.py:223-272 | every delivery of a run is of an event that was in the outbox at some moment, to a connection of its workspace that was active and subscribed to its kind then |
| IntegrationRuns.OnlyStagingAddsEvents | app/repositories/integration.py:163-180 | outbox rows appear as they were staged, once for each kind and subject |
| IntegrationRuns.ReadsAreReal | app/repositories/integration.py:228-248 | what a dispatcher holds as read by its two queries is what the tables were at two points of the run |
| IntegrationRepository.Repository.ClaimOutboxEvent | app/repositories/integration.py:182-212 | in place: claims exactly a ready event with attempts left, counting the attempt |
| IntegrationRepository.Repository.CollectTargets | app/repositories/integration.py:228-250 | the loop keeps exactly the connections that are active and subscribed with a destination and have no delivery of the event |
| IntegrationRepository.Repository.CommitDeliveries | app/repositories/integration.py:250-270 | adds one pending delivery for each target and marks the event, or rolls back when a target has one already |
| IntegrationRepository.Repository.MarkOutboxFailed | app/repositories/integration.py:274-287 | in place: fails an event unless it is processed |
| IntegrationRepository.Repository.ClaimDelivery | app/repositories/integration.py:310-344 | in place: claims exactly a due pending or retry-scheduled row, counting the attempt |
| IntegrationRepository.Repository.MarkDeliveryDelivered | app/repositories/integration.py:364-376 | in place: marks the row whatever its status |
| IntegrationRepository.Repository.ScheduleDeliveryRetry | app/repositories/integration.py:378-391 | in place: reschedules unless delivered |
| IntegrationRepository.Repository.MarkDeliveryFailed | app/repositories/integration.py:393-404 | in place: fails unless delivered |
| IntegrationRepository.Repository.RecordDeliveryError | app/services/integration_delivery.py:118-132 | fails the row once its attempts are spent, reschedules it before, and returns the count that the worker compares |
| IntegrationRepository.Repository.RecoverStaleClaims | app/repositories/integration.py:433-464 | the two loops give back exactly the stale claims and count them |
| Reminders.ResultsMove | app/models/notification.py:61-76 | the CHECK rejects a late result on a finished row and nothing else |
| Reminders.StepKeepsInv | app/repositories/notification.py:138-225 | every step of discovery, workers and recovery keeps the invariant |
| Reminders.ReminderBounds | app/models/notification.py:61-76 | in every interleaving attempts stay within the limit, timestamps agree with the status, there is one row for each idempotency key, and each key is published at most once |
| Reminders.FinishedForGood | app/workers/tasks.py:61-118 | delivered and failed rows stay so whatever late workers try, and each claim sends at most one mail |
| Reminders.RecoveryIsLimited | app/repositories/notification.py:202-225 | an expired lease is given back exactly when the row has attempts left |
| Reminders.LastLeaseIsNeverRecovered | app/repositories/notification.py:208-213 | if the worker of the last attempt died, the row stays in delivery for ever |
| Reminders.LastLeaseIsReached | app/repositories/notification.py:138-167 | for every limit there is a run after which, whatever else happens, such a row stays |
| Reminders.RowsAreForTheirCandidates | app/repositories/notification.py:42-71 | every reminder row was created for a candidate with its key, and has that candidate's recipient, for ever |
| ReminderStore.ScannedRows | app/services/notification.py:77-100 | what a scan publishes are new pending rows with the keys and recipients of its candidates |
| ReminderStore.Store.CreateCandidate | app/repositories/notification.py:42-71 | inserts exactly when the key is new, and reports whether it did |
| ReminderStore.Store.ClaimForDelivery | app/repositories/notification.py:138-167 | in place: claims exactly a due waiting row with attempts left |
| ReminderStore.Store.MarkDelivered | app/repositories/notification.py:169-174 | in place: commits exactly when the CHECK holds |
| ReminderStore.Store.MarkFailed | app/repositories/notification.py:189-200 | the same for a failure |
| ReminderStore.Store.ScheduleRetry | app/repositories/notification.py:176-187 | the same for a retry |
| ReminderStore.Store.RecordRetry | app/workers/tasks.py:96-118 | fails a row whose attempts are spent and reschedules any other, with the exact result in every case |
| ReminderStore.Store.RecoverLeases | app/repositories/notification.py:202-225 | in place: gives exactly the expired leases with attempts left back and returns which they were |
| ReminderStore.Store.RecoverStale | app/services/notification.py:102-110 | recovers exactly the expired leases with attempts left and publishes each of them once, with no repeats |
| ReminderStore.Store.Discover | app/services/notification.py:77-100 | the nested loops create and publish one row for each candidate with a new key, in order, and count them |
| ReminderStore.SecondScanAddsNothing | app/services/notification.py:77-100 | scanning the same candidates again adds and publishes nothing |
| RefreshTokens.MarkerCoverage | app/repositories/refresh_token.py:17-20 | a used marker covers its token to the end exactly when the use is on a whole second or within the last second of the token's life; otherwise the token is unguarded exactly from the use plus its whole seconds left |
| RefreshTokens.RevocationsOutlive | app/repositories/refresh_token.py:38-47 | for a token that still decodes, its family's revocation is live exactly when it was ever set |
| RefreshTokens.RefreshSucceeds | app/services/auth.py:110-158 | exactly when a refresh succeeds: no live used marker, family never revoked, account present, active and of the same version |
| RefreshTokens.SuccessorIsTheOwners | app/services/auth.py:154-158 | the successor belongs to the presented token's user and family, with the user's current version and a fresh lifetime |
| RefreshTokens.LoginSignsForTheUser | app/services/auth.py:84-108 | a login succeeds exactly for an active, verified account and signs for it |
| RefreshTokens.FamiliesHaveOneOwner | app/services/auth.py:84-158 | in every reachable state all tokens of a family belong to the one user whose login opened it |
| RefreshTokens.RefusalRevokes | app/services/auth.py:116-152 | a refused refresh of a token that decodes leaves its family revoked and signs nothing |
| RefreshTokens.RefreshIsFinal | app/repositories/refresh_token.py:11-29 | a successful refresh is the last one of its token, however the run goes on, exactly when its use was covered |
| RefreshTokens.RefreshesOnce | app/repositories/refresh_token.py:11-29 | a token once presented at a covered moment, or refused while it decodes, never refreshes again |
| RefreshTokens.UncoveredRefreshLeaks | app/repositories/refresh_token.py:17-20 | after any refresh that is not covered, waiting for the whole seconds left makes the old token usable beside its successor |
| RefreshTokens.TokenRefreshesTwice | app/repositories/refresh_token.py:17-20 | a run in which one token refreshes twice, undetected |
| RefreshTokens.OneUsableToken | app/services/auth.py:110-158 | a family whose uses were all covered has at most one live token without a live marker |
| RefreshTokens.OneUsableAfterRefresh | app/services/auth.py:110-158 | a successful refresh leaves such a family with at most one usable token for all time exactly when it is covered itself |
| RefreshTokens.ReuseAndLogoutRevoke | app/services/auth.py:119-129 | presenting a token whose marker is live, or logging out, revokes its family |
| RefreshTokens.RevokedForGood | app/services/auth.py:61-63 | after that no token of the family refreshes, ever |
| RefreshTokens.OldVersionsAreRefused | app/repositories/user.py:44-49 | a password reset refuses every token signed before it |
| AuthService.Service.Consume | app/repositories/refresh_token.py:11-29 | in place: marks a token used for the whole seconds it has left, at least one, unless a live marker is there |
| AuthService.Service.RevokeFamily | app/repositories/refresh_token.py:38-47 | in place: revokes for the lifetime of a refresh token |
| AuthService.Service.Login | app/services/auth.py:84-108 | in place: the reply and the state are those of the call that the results are about |
| AuthService.Service.Refresh | app/services/auth.py:110-158 | in place, check by check in the source's order: reply and state of the specified call |
| AuthService.Service.Logout | app/services/auth.py:160-169 | in place: revokes the family of a token that decodes |
| AuthService.Service.ResetPassword | app/services/auth.py:214-231 | in place: raises the version of an active account |
| MentionPaging.CursorDrops | app/repositories/mention.py:148-157 | the cursor filter leaves exactly the part of the sorted list behind the cursor row |
| MentionPaging.PageIsPrefix | app/services/mention.py:33-61 | a page is the first `limit` rows left, with a next cursor exactly when there are more |
| MentionPaging.PagesAreTheList | app/services/mention.py:33-61 | following `next_cursor` gives the rows left, newest first, nothing skipped or repeated, in max(1, ceil(n / limit)) pages |
| MentionPaging.InboxIsTheList | app/repositories/mention.py:124-178 | so a user's inbox, page by page, lists exactly the rows of that user and workspace that are not removed, on live comments, and unread if asked, newest first |
| MentionSync.CanonicalKeepsMentions | app/services/comment.py:212-229 | the stored body has the same nodes: texts as they were, and the same users under the names on record |
| MentionSync.SyncedRowsAgree | app/repositories/mention.py:32-98 | after a synchronisation there is one row for each comment and user, and a notification for exactly the live rows |
| MentionSync.SyncedActive | app/repositories/mention.py:32-98 | the live rows of the comment are exactly those of the named users, and other comments are as they were |
| MentionSync.MentionsAreNamed | app/services/comment.py:57-155 | between calls a user is mentioned in a comment exactly when it is not deleted and a node of its stored body names the user, and each live row has its notification |
| MentionSync.SyncedReconciles | app/repositories/mention.py:51-80 | row by row: kept mentions keep their read mark, dropped ones are stamped, revived and new ones are unread with the new author and time |
| MentionSync.SyncedNotifies | app/repositories/mention.py:57-98 | who came is notified by the actor, other live mentions keep their notification |
| CommentService.Service.CanonicalBody | app/services/comment.py:212-229 | the loop builds the canonical body node by node |
| CommentService.Service.RemoveMentions | app/repositories/mention.py:53-57 | the loop stamps each removed user's row and deletes its notification |
| CommentService.Service.AddMentions | app/repositories/mention.py:59-98 | the loop revives or adds one row and one notification for each new user |
| CommentService.Service.SyncForComment | app/repositories/mention.py:32-98 | both loops: the mentions become those of the named users |
| CommentService.Service.Create | app/services/comment.py:57-96 | keeps every comment, its mentions and their notifications in step, or changes nothing |
| CommentService.Service.Update | app/services/comment.py:98-133 | the same for an edit, with its errors |
| CommentService.Service.Delete | app/services/comment.py:135-155 | the same for a deletion, after which the comment has no live mention |
| Comparison.NextPositionIsFree | app/repositories/proposal.py:74-78 | a new criterion's position is one more than the largest, 0 for the first |
| Comparison.ReorderFollowsRequest | app/repositories/proposal.py:111-120 | after a reorder each criterion has the index it was listed at exactly when the request repeats none |
| Comparison.ReorderedPositions | app/services/proposal.py:276-296 | then the positions are exactly 0 to n - 1 |
| Comparison.ScoreIsTheMean | app/services/proposal.py:353-392 | a proposal is scored exactly when there are criteria and it is scored on all; the score is nearest to the weighted mean and between 1.00 and 5.00 |
| Comparison.UniformScores | app/services/proposal.py:376-382 | a proposal with the same score on every criterion has that score, whatever the weights |
| Comparison.OnePointCounts | app/services/proposal.py:377-381 | one point more on a criterion adds its weight to the weighted sum |
| Comparison.ScoreIsMonotone | app/services/proposal.py:376-382 | raising scores never lowers the weighted score |
| Comparison.ReorderKeepsScores | app/services/proposal.py:276-296 | reordering the criteria changes no proposal's score |
| CriteriaBoard.Board.CreateCriterion | app/services/proposal.py:213-238 | keeps positions distinct, the new one last |
| CriteriaBoard.Board.UpdateWeight | app/services/proposal.py:249-274 | keeps positions; weights stay in range |
| CriteriaBoard.Board.DeleteCriterion | app/services/proposal.py:298-314 | takes the criterion's scores along and keeps positions distinct |
| CriteriaBoard.Board.ReorderCriteria | app/services/proposal.py:276-296 | the loop assigns each listed criterion its index; a request that does not name exactly the criteria is a conflict |
| CriteriaBoard.Board.UpsertScore | app/services/proposal.py:316-351 | sets one score of a submitted proposal, in range |
| CriteriaBoard.Board.Compare | app/services/proposal.py:353-392 | the accumulating loop gives each proposal its weighted score, or none |

## Left out

- GovernanceStore.Store.DeleteDecision: cascades to implementation actions, comments, attachments and search documents are not modelled, because those tables are not.
- GovernanceStore.Store.DeleteProposal: cascades to scores, comments, mentions and search documents are not modelled, because those tables are not.
- GovernanceSteps.CascadeStep: the same tables are left out of a decision's cascade.
- GovernanceSteps.DeleteProposalStep: the same tables are left out of a proposal's cascade.
- GovernanceStore.Store.RescheduleReview: models the change of the date only; edits that carry notes alone pass no date check in the source.
- GovernanceStore.Store.RequestExport: models granting one export row for each lock; the export's status, its reset after a failure and its file are not modelled.
- GovernanceStore.Store.TransitionObjection: the status-event history rows that accompany a transition are not modelled.
- GovernanceHistory.OutboxIsHistory: an outbox row is its event type and subject; payloads are not modelled here.
- Elections.ElectionAddsUp: the users table and its deletions are not modelled, so a vote's author is an identifier.
- LockDocuments.LockedRecordIsFrozen: objections of one proposal with equal creation times may be listed in another order when the document is rebuilt, as the query allows; deleting a whole workspace, which takes locks along, is not modelled.
- MentionPaging.PagesAreTheList: the table does not change while pages are followed; the base64 and ISO form of the cursor is not modelled.
- MentionSync.SyncedRowsAgree: read flags of mentions and notifications are stamped as the source does but their agreement is not claimed, since the notification API marks its own row only.
- CriteriaBoard.Board.CreateCriterion: the role checks and the guard on the decision's status, which the governance calls share, are not repeated.
- CriteriaBoard.Board.UpdateWeight: the same guards are not repeated.
- CriteriaBoard.Board.DeleteCriterion: the same guards are not repeated.
- CriteriaBoard.Board.ReorderCriteria: the same guards are not repeated.
- CriteriaBoard.Board.UpsertScore: the same guards are not repeated.
- CommentService.Service.Create: looking up workspace, decision and context is left out, as in the governance calls; who may mention whom is a parameter.
- CommentService.Service.Update: the membership lookup is a flag.
- CommentService.Service.Delete: the membership lookup is a flag.
- ReminderStore.Store.CreateCandidate: a clash of identifiers, or a limit of zero, raises in the source and is reported as not created here.
- AuthService.Service.Login: password and token signatures are not modelled; a login step starts where the password matched.
- AuthService.Service.ResetPassword: the one-time token that authorises a reset, and its errors, are not modelled.
- IntegrationRuns.DeliveriesHadSubscribers: the channel that a delivery is sent to, which is copied from the subscription with the payload, is not a column of the model.
- Reminders.RowsAreForTheirCandidates: title, body, kind and source of a reminder are not modelled; its key stands for them.
- GovernanceErrors.RefusalsAreTruthful: when several reasons hold, which one is reported is stated by the calls themselves only.
- IntegrationRuns.DeliveredForGood: error recording and recovery are single steps; with another worker's mark between their read and their write it fails, as `IntegrationProtocol.LateWriteMoves` states exactly.
- IntegrationRepository.Repository.RecoverStaleClaims: republishing to the broker is a step that may happen any number of times, so queues are not modelled.
- Row-level races inside one governance call: each call is one step, as its transaction is meant to be.
- The canonical reader accepts only text without insignificant white space, which is all that the writer produces.
- Float details of `ceil` and `round`: exact integers and rationals are used instead.
- HTTP, dependency wiring, text normalisation of requests, cookies, rate limits and observability: no state argument.
- Slack, Google, mail, object storage, PDF, Celery and RabbitMQ transport: a send is a step that succeeds or fails.
- Argon2, Fernet, JWT and SHA-256 internals: tokens are records and the digest is a function.
- Full-text search, meeting rooms, collaboration presence, attachments, workspace roles and implementation actions: they would add easy members, or keep no invariant worth stating.
- The one-time tokens for email verification: they would add easy members only.
- `unread_count`, `mark_all_read` and the other single-query reads: they would add easy members only.
