# A model of the unrest harness core

This project models the parts of the harness whose promises span many steps, and proves those
promises for every input, every run or every interleaving:

* **Credential redaction.** A chunk-fed matcher that must say exactly what redacting the whole text
  says, and a projection over shared and cyclic containers.
* **The evolution campaign.** An append-only, hash-chained log, its fold into a snapshot, and
  operations that may be interleaved and may die after any durable write, over the log, HEAD, the
  leases and the two transaction logs.
* **Canonical JSON.** A printer, a strict parser and a byte-exact verifier for JSON (sections 3 to 7
  of RFC 8259), on which the hash chain rests.
* **The mission coordinator.** Selection, gates, stranded failures, attention decisions, the advance
  loop, the lineage check and the rendering order, over persisted mission files.
* **The approval relay.** Three concurrent readers that may submit one approval and continue once.

What changes in place in the source is a class here (`StreamingRedactor`, `SensitiveRedactor`,
`CampaignLog`, `EvolutionManager`, `Coordinator`, `CycleVisitor`, `NativeBinding`, `Routing`), with
each method tied to a function of the old state; what is a protocol is a state machine over its
steps, with a crash as a step of its own.

## Layout

| files | subject |
|---|---|
| `Wrappers`, `Sorting`, `Graphs` | options and results, sorting by a strict order, reachability and worklists |
| `Redaction`, `RedactionLaws`, `RedactionMeaning` | one-shot and streaming redaction; what it means for a whole text, segment by segment and by text positions alone |
| `SensitiveText`, `SensitiveKeys`, `SensitiveValues`, `SensitiveProjection` | markers, renamed keys, containers |
| `CanonicalJson`, `CanonicalRoundTrip`, `EventLog` | encoder, parser, verifier, hash chain |
| `JsonGrammar`, `JsonRefusals`, `CanonicalShortest` | the grammar as a relation, which the strict parser meets exactly; why it refuses what it refuses; the canonical text among the spellings of a value |
| `Campaign`, `CampaignSystem` | events, fold, operations; the system of interleaved and dying steps |
| `CampaignLog`, `CampaignRuns` | what a log says by itself; what every run keeps |
| `CampaignSteps`, `CampaignRecords`, `CampaignEvidence` | what each locked section records, and when; what every record names; which records a promotion rests on |
| `CampaignRecovery`, `CampaignLoss`, `CampaignRollback`, `RollbackTransactions` | retries after a crash; what no retry makes good; rollbacks and their transaction log |
| `CampaignAuthority`, `CampaignRenewal`, `CampaignFate`, `CampaignEnds` | grants and the only way into a promotion; getting new evidence; which campaigns can still complete; what loses a promotion |
| `EvolutionManager` | the two operations as methods |
| `CampaignExample`, `ApprovalExample` | one whole run of each protocol, so that the results are about something |
| `Tasks`, `Gates`, `MissionRuns`, `Deadlock`, `Coordination`, `AttentionItems`, `Coordinator` | the mission scheduler |
| `Lineage`, `TopologicalOrder` | supersession cycles and ancestors, Kahn's algorithm |
| `ApprovalNative`, `ApprovalRouting`, `ApprovalRelay`, `ApprovalLaws` | the relay; what it decides, one decision at a time |

## What the proofs found

* **A promotion can be lost for good once HEAD has moved.** A request is let through only while the
  evaluation and the review its grant names are the latest of the candidate
  (`src/unrest_harness/accepted_point_authority.py:236-276`), a grant is recorded once and serves one
  request (`src/unrest_harness/mutation_journal.py:501-595`), and `_reconcile_or_integrate` accepts a
  moved HEAD only from a lease in its integrated state under that grant
  (`src/unrest_harness/evolution.py:1763-1798`). Until HEAD moves a promotion can always be started over
  under a new grant; afterwards all hangs on the one grant the lease was integrated under. These lose it:
  * `integrate_workspaces` moves HEAD before it marks the lease
    (`src/unrest_harness/workspaces.py:532-591`), so a process that dies between the two, or whose
    `git reset` fails there, loses the promotion (`CampaignEnds.CrashBeforeMarkDooms`,
    `CampaignLoss.CrashAfterMoveLoses`);
  * so does a `cleanup_workspace` of the marked lease before the completion
    (`src/unrest_harness/workspaces.py:698-735`, `CampaignEnds.CleanUpDooms`, `CampaignLoss.CleanUpLoses`);
  * so does, without any crash, an event for any candidate, a rejected one too, between the check of the
    evidence and the completion, because `add_candidate` does not take the lock a promotion holds
    (`CampaignEnds.CandidateDuringDooms`, `CampaignEnds.CandidateDooms`);
  * so does a further evaluation or review of the candidate that lands while nobody is at work
    (`CampaignEnds.LaterEvidenceDooms`).

  HEAD moved on evidence that went stale after it was checked is lost at once
  (`CampaignEnds.StaleMoveDooms`), and no step of any other kind loses a promotion
  (`CampaignEnds.OnlyTheseLose`). The exact condition for every reachable state is
  `CampaignFate.CanCompleteExactly`; with HEAD moved and nobody at work, some run completes a promotion if
  and only if some lease is in its integrated state under a grant whose evidence stands and whose scope is
  the current one (`CampaignFate.AllHangsOnTheGrant`). Dying anywhere else costs nothing to a retry made
  before anything else happens (`CampaignRecovery.RetryAfterCrash`); what may happen before the retry is
  `CampaignAuthority.EntryRetryAfterInterference`. The branch of `integrate_workspaces` that would resume
  with HEAD already moved is never reached by a promotion (`CampaignRuns.RecoveryBranchIsDead`). Rollback
  has no such window (`CampaignRollback.RetryAfterCrash`, `CampaignRollback.RollbackAlwaysPossible`).
* **A failed gate can hold a mission back in silence.** Sealing a gate and raising its attention are
  two writes; after a crash between them the gate can be the only blocker, and the recovery of
  stranded failures passes over gates (`Deadlock.FailedGateHoldsInSilence`; exactly when the recovery
  stays silent is the contract of `Coordinators.Coordinator.RecoverStrandedFailure`).
* **Clearing is not always final.** A round of decisions that died before the open list was emptied
  can be decided again, and a `retry` then takes a task that `continue` had cleared back to pending
  (`MissionRuns.TornRoundTakesBack`). A cleared task can be taken back exactly when its own failure
  item is still listed and no provider guards it (`MissionRuns.RevertsExactlyWhenListed`).
* **The number one and the literal `true` are the same sequence number** to the loading loop, because
  Python compares them equal; the chain still determines the log (`EventLog.ChainDeterminesLog`).

## Model

| member | source | states |
|---|---|---|
| Redaction.StreamingRedactor.Feed | src/unrest_harness/capability_policy.py:896-949 | whatever was fed before, outputs so far spell the shown segments, which with the one-shot reading of the retained suffix are the one-shot reading of everything fed; final feeding leaves nothing pending; feeding after the end is refused and changes nothing |
| Redaction.StreamingRedactor.Finish | src/unrest_harness/capability_policy.py:951-952 | finishing always succeeds and completes the one-shot reading |
| Redaction.DeferredExcludesMatch | src/unrest_harness/capability_policy.py:917-940 | a short secret deferred at the end of the buffer and an accepted match exclude each other, so deferring never lets a wrong match through |
| Redaction.DecisionIsStable | src/unrest_harness/capability_policy.py:903-942 | a decision taken on the buffer is the decision on every longer text |
| RedactionLaws.RedactChunks | src/unrest_harness/capability_policy.py:887-952 | for every split of a text into chunks the concatenated outputs are the redaction of the whole text |
| RedactionLaws.RedactCredentialValues | src/unrest_harness/capability_policy.py:955-956 | one final feed is the one-shot redaction |
| RedactionLaws.ShownIsAPrefix | src/unrest_harness/capability_policy.py:896-949 | what was shown so far begins the redaction of every continuation |
| RedactionLaws.PendingIsBounded | src/unrest_harness/capability_policy.py:905-912 | the retained suffix is a prefix of some secret and no longer than the longest |
| RedactionLaws.SegmentationUnique | src/unrest_harness/capability_policy.py:902-945 | the segmentation is the only one that spells the text and takes at each place the first eligible pattern, or a plain character when there is none |
| RedactionLaws.NoEligibleOccurrenceEscapes | src/unrest_harness/capability_policy.py:914-943 | every boundary-eligible occurrence of a credential overlaps a redacted segment |
| RedactionLaws.RedactedSegmentIsEligible | src/unrest_harness/capability_policy.py:916-931 | what is redacted is an eligible occurrence in the whole text |
| RedactionLaws.ContainsCredentialToken | src/unrest_harness/capability_policy.py:802-815 | the separately written search finds a credential exactly when it occurs with its token boundaries |
| RedactionLaws.RedactsExactlyWhenContained | src/unrest_harness/capability_policy.py:794-815 | some segment is redacted exactly when some credential is contained as a token |
| RedactionLaws.Patterns | src/unrest_harness/capability_policy.py:878-884 | the non-empty values with their names, longest first, then by name |
| RedactionLaws.RedactsTheLongestEligible | src/unrest_harness/capability_policy.py:878-931 | no eligible credential at the place of a redacted segment is longer, or as long with a smaller name |
| RedactionMeaning.RedactionIsTheReading | src/unrest_harness/capability_policy.py:802-956 | the output is the text with each winning credential (the longest that stands at its place, of two names for one value the smaller, short tokens only between non-token characters) replaced by `<redacted:` with its name and `>`, and every other character kept; this output and no other |
| RedactionMeaning.CredentialsDoNotShow | src/unrest_harness/capability_policy.py:929-944 | two texts that keep the same characters and redact the same names give the same output, whatever the credentials are |
| RedactionMeaning.MarkersAreRecognised | src/unrest_harness/capability_policy.py:934-978 | a marker for a name of marker characters is recognised in full where it stands, and nothing else is recognised |
| SensitiveText.RedactText | src/unrest_harness/capability_policy.py:970-978 | markers are copied, every gap between them is redacted on its own |
| SensitiveText.PiecesCoverText | src/unrest_harness/capability_policy.py:959-978 | the pieces spell the text, each mark is a complete marker and no gap holds one |
| SensitiveKeys.AllocateKeys | src/unrest_harness/capability_policy.py:1000-1017 | resuming each search where the last one for that candidate ended gives the same keys as searching every number from one |
| SensitiveKeys.TakenShrinks | src/unrest_harness/capability_policy.py:1010-1013 | the search for a free number ends |
| SensitiveKeys.AllocationIsFresh | src/unrest_harness/capability_policy.py:1000-1017 | keys given out are numbered forms of their candidates, used by no other entry, and pairwise distinct |
| SensitiveValues.RenameKeys | src/unrest_harness/capability_policy.py:992-1024 | counting candidates and renaming in sorted order gives every entry its output key |
| SensitiveValues.OutputKeysAreDistinct | src/unrest_harness/capability_policy.py:992-1024 | no two entries of a mapping are stored under one key |
| SensitiveValues.OutputKeyMeaning | src/unrest_harness/capability_policy.py:1003-1021 | an entry keeps its redacted key unless the key was changed by redaction and is shared; then it is that key with a number, and no other entry's redacted key |
| SensitiveValues.OutputNumberIsLeast | src/unrest_harness/capability_policy.py:1003-1017 | the number of a renamed key is the least whose form is no entry's redacted key and was not given to an entry before it in the order of candidates and then of keys |
| SensitiveProjection.ProjectedFails | src/unrest_harness/capability_policy.py:980-1029 | inside a set of containers the walk fails exactly when it can reach one of them or a cycle |
| SensitiveProjection.RaisesExactlyOnCycles | src/unrest_harness/capability_policy.py:962-1029 | the operation raises exactly when a cycle is reachable from the value; sharing alone does not raise |
| SensitiveProjection.ProjectionMirrors | src/unrest_harness/capability_policy.py:980-1029 | the output is the value container by container, strings redacted, every entry kept, keys distinct at any depth |
| SensitiveProjection.MirrorsIsUnique | src/unrest_harness/capability_policy.py:980-1029 | one output mirrors a value, so a shared container comes out the same everywhere |
| SensitiveProjection.SensitiveRedactor.Project | src/unrest_harness/capability_policy.py:980-1029 | the walk that adds and removes containers in place computes the projection and leaves its set as it was |
| SensitiveProjection.RedactSensitiveValue | src/unrest_harness/capability_policy.py:962-1029 | refused exactly on reachable cycles, otherwise the mirrored value |
| CanonicalRoundTrip.ParseEncoded | src/unrest_harness/canonical_identity.py:118-163 | whatever may follow a value in context, the parser reads it back from its encoding and stops exactly there |
| CanonicalRoundTrip.RoundTrip | src/unrest_harness/canonical_identity.py:88-170 | the strict parser returns every valid value from its canonical text |
| CanonicalRoundTrip.VerifierAcceptsExactlyTheImage | src/unrest_harness/canonical_identity.py:173-180 | the verifier accepts a text as a value exactly when the value is valid and the text is its canonical encoding |
| CanonicalRoundTrip.EncoderInjective | src/unrest_harness/canonical_identity.py:143-170 | two valid values with one canonical text are equal |
| CanonicalRoundTrip.EncoderSelfDelimiting | src/unrest_harness/canonical_identity.py:147-163 | equal concatenations of an encoding and a delimited rest have equal values and equal rests |
| CanonicalRoundTrip.DuplicateKeysRefused | src/unrest_harness/canonical_identity.py:70-76 | an object is built exactly when no key is repeated, and then holds every pair |
| CanonicalRoundTrip.NegativeZero | src/unrest_harness/canonical_identity.py:173-180 | minus zero parses as zero and is refused by the verifier |
| JsonGrammar.StrictParseExactly | src/unrest_harness/canonical_identity.py:118-140 | the strict parser accepts a text as a value exactly when the grammar lets the text spell that value, with any white space between tokens, any escape of each character, surrogate pairs included, and no repeated key, and the value is one of the data model; no text that begins with a byte order mark spells anything |
| JsonGrammar.OutsideTheModel | src/unrest_harness/canonical_identity.py:83-140 | a text that spells a value outside the data model is refused for that |
| JsonRefusals.RefusedExactly | src/unrest_harness/canonical_identity.py:58-140 | every text has exactly one verdict: a byte order mark; a constant, a float or a repeated key, exactly when it is the first thing wrong where a value is due, at any depth; a spelled value outside the data model; the value; and otherwise that it is no JSON |
| JsonGrammar.SpellsOneValue | src/unrest_harness/canonical_identity.py:118-140 | a text spells at most one value |
| JsonGrammar.ModelLimits | src/unrest_harness/canonical_identity.py:79-115 | the data model holds the integers that a double holds exactly, ASCII texts, other texts in NFC without surrogates, and no null |
| CanonicalShortest.ShortestSpelling | src/unrest_harness/canonical_identity.py:143-170 | no spelling of a value is shorter than its canonical text |
| CanonicalShortest.ControlCharacters | src/unrest_harness/canonical_identity.py:143-144 | control characters are written with their short escape, or with four lower-case digits |
| EventLog.CampaignLog.LoadEvents | src/unrest_harness/evolution.py:1186-1216 | the loading loop accepts exactly the files that are numbered, canonical, of this campaign, signed and linked, member by member, and returns their records |
| EventLog.CampaignLog.AppendEvent | src/unrest_harness/evolution.py:1143-1184 | refused without change when the log does not load or the record is not canonical; otherwise the loaded log grows by the returned record, which has exactly the eight members: the campaign, the kind, the time and the payload it was given, schema version 1, the next number, the digest of the record before or its absence, and the digest of all the others |
| EventLog.AppendedLoads | src/unrest_harness/evolution.py:1143-1216 | a log extended by the next signed record loads as the extended list |
| EventLog.LoadExactly | src/unrest_harness/evolution.py:1186-1216 | a list of records is what the files load as exactly when each file is numbered and canonical and each record names its campaign, number, predecessor and digest |
| EventLog.SameDigestSameRecord | src/unrest_harness/evolution.py:1160-1214 | with a collision-free digest, equal record digests mean the same record at the same place behind the same digest |
| EventLog.ChainDeterminesLog | src/unrest_harness/evolution.py:1186-1216 | with a collision-free digest, two logs of a campaign that load and share the last digest are equal in full |
| Campaign.PassIsClean | src/unrest_harness/evolution.py:1506-1526 | a pass is recorded as improving exactly when a completed provider said so and nobody suspected a reward hack |
| Campaign.ApprovalIsClean | src/unrest_harness/evolution.py:1528-1561 | an approval is recorded exactly when a completed provider approved an improving evaluation without dissent |
| Campaign.EvaluationOutcomes | src/unrest_harness/evolution.py:1506-1526 | each outcome of an evaluation and what makes it: a timeout, a cancellation, a failure, an unreadable or unknown answer, a suspicion, or the answer itself |
| Campaign.ReviewOutcomes | src/unrest_harness/evolution.py:1528-1561 | each outcome of a review and what makes it, approvals of a pass that does not improve and approvals with dissent included; dissent is kept exactly from a readable answer |
| CampaignLog.InspectEvidence | src/unrest_harness/evolution.py:1218-1280 | the folded candidates, evaluations and reviews are those of the raw events, and the denominator counts candidate events |
| CampaignLog.StateOfLog | src/unrest_harness/evolution.py:1263-1267 | the folded state is rolled back, promoted or open as the completion events of the log say |
| CampaignLog.StateOnlyAdvances | src/unrest_harness/evolution.py:1218-1280 | along a backed log the folded state only advances, and rolled back was promoted before |
| CampaignLog.AtMostOnePromotion | src/unrest_harness/evolution.py:861-944 | a backed log holds at most one promotion effect, one completed promotion, and one completed rollback per grant |
| CampaignLog.NoCandidateSinceApproval | src/unrest_harness/evolution.py:1724-1761 | between an approval and the promotion it carries there is no candidate event |
| CampaignRuns.FinishEvaluationKeepsInv | src/unrest_harness/evolution.py:590-713 | however evaluations interleave with other operations, the one that lands is of an admitted candidate and says improving as its outcome does |
| CampaignRuns.FinishReviewKeepsInv | src/unrest_harness/evolution.py:715-859 | however reviews interleave, an approval that lands judges an earlier improving evaluation of its candidate and covers all candidates there are |
| CampaignRuns.AddCandidateKeepsInv | src/unrest_harness/evolution.py:500-588 | an admitted candidate has an unused id, an open campaign, and an earlier parent exactly when it is derived work |
| CampaignRuns.InputsAreJustified | src/unrest_harness/evolution.py:1724-1761 | what the evidence check finds is an approval in the log of a clean pass of an admitted candidate that still covers every candidate event |
| CampaignRuns.StepKeepsInv | src/unrest_harness/evolution.py:500-1055 | every step of every operation, crashes included, keeps the agreement of log, HEAD, leases and operation in progress |
| CampaignRuns.PromotionsAreJustified | src/unrest_harness/evolution.py:500-944 | in every run a completed promotion rests on an admitted candidate, an earlier clean pass, an earlier dissent-free approval of it, no candidate event since, and is the only one |
| CampaignRuns.HeadAndLogAgree | src/unrest_harness/evolution.py:861-1055 | in every run HEAD goes from the frozen revision to at most one other and back; a completed promotion names the revision HEAD moved to; a completed rollback names the completed promotion and follows HEAD being back |
| CampaignRuns.CampaignOnlyAdvances | src/unrest_harness/evolution.py:1218-1280 | over every run the folded state goes open, promoted, rolled back, skipping nothing |
| CampaignRuns.RecoveryBranchIsDead | src/unrest_harness/workspaces.py:537-547 | when a promotion's integration is about to move HEAD, HEAD is the predecessor and not the recorded commit |
| CampaignSteps.CandidatesAreSettled | src/unrest_harness/evolution.py:500-588 | exactly one event is added: the candidate with the fields of the request and of its lease when every check passes on the events on record, else a rejection that names the first check that fails |
| CampaignSteps.EvaluationBeginsExactly | src/unrest_harness/evolution.py:590-640 | an evaluation is started exactly in an open campaign, of an admitted candidate, under an id not on record |
| CampaignSteps.EvaluationLandsExactly | src/unrest_harness/evolution.py:666-713 | an evaluation in flight is recorded, under its own names and with what its provider said, unless its id is on record |
| CampaignSteps.ReviewBeginsExactly | src/unrest_harness/evolution.py:715-760 | a review is started exactly in an open campaign, of a completed evaluation of the candidate, under an id not on record, over all candidates there are |
| CampaignSteps.ReviewLandsExactly | src/unrest_harness/evolution.py:795-859 | a review in flight is recorded, under its own names, denominator and dissent, inconclusive once there are other candidates, unless its id is on record |
| CampaignSteps.ReachableStands | src/unrest_harness/evolution.py:500-859 | every reachable state meets the hypotheses of these results |
| CampaignRecords.StepKeepsRecords | src/unrest_harness/evolution.py:500-1055 | every step keeps that the records on file, the operations in flight and the one that holds the lock name what came before them |
| CampaignRecords.RecordsNameTheirOrigin | src/unrest_harness/evolution.py:861-1055 | over every run a completed evaluation or review names its own start, a promotion its own preparation and the grant, receipt and revision that the one integrated lease carries, and a rollback its own preparation |
| CampaignEvidence.InputsExactly | src/unrest_harness/evolution.py:1724-1761 | a grant finds its evidence exactly when the campaign is open (or promoted, where that is allowed), its candidate is on record with the digests it names, and the first evaluation and the first review with its receipts are a clean pass and a dissent-free approval of that pass over all candidates |
| CampaignEvidence.RejectionIsFolded | src/unrest_harness/evolution.py:1234-1256 | a rejected attempt counts as a candidate under one made-up name that derives from none |
| CampaignEvidence.MoveHeadExactly | src/unrest_harness/workspaces.py:528-548 | HEAD moves to the commit from the predecessor only, stays where it is that commit, and anywhere else the promotion ends |
| CampaignRecovery.AttemptCompletes | src/unrest_harness/evolution.py:861-944 | a promotion whose evidence stands completes exactly when its lease is this request's integration or can become it, and then HEAD, the log and the settled revision agree |
| CampaignRecovery.AttemptExactly | src/unrest_harness/evolution.py:861-944 | whatever happened before, a promotion request that finds nothing promoted completes exactly when its evidence stands and its lease is ready; without evidence it changes nothing |
| CampaignRecovery.RetryAfterCrash | src/unrest_harness/evolution.py:861-944 | a retry with the same grant and fingerprint, before anything else happens, completes if and only if the crash was not between moving HEAD and marking the lease, and accepts the revision the first attempt recorded |
| CampaignLoss.RetryAfterInterference | src/unrest_harness/evolution.py:1724-1798 | at the manager, with the grant given: a promotion that died once its lease was marked, retried after any run of other operations, completes if and only if the workspace was not cleaned up and no candidate event came in between |
| CampaignLoss.EvidenceAge | src/unrest_harness/evolution.py:1724-1761 | while nothing is promoted, a grant's evidence that stood still stands exactly when no candidate event followed |
| CampaignLoss.CrashAfterMoveLoses | src/unrest_harness/workspaces.py:532-591 | a crash after HEAD moved and before the lease is marked loses the promotion |
| CampaignLoss.CleanUpLoses | src/unrest_harness/workspaces.py:698-735 | cleaning up the workspace of the integrated lease before its promotion is completed loses the promotion |
| CampaignLoss.CrashThenCleanUpLoses | src/unrest_harness/workspaces.py:698-735 | a crash that a retry alone would have made good, followed by the clean-up of its workspace, loses the promotion |
| CampaignLoss.LostForever | src/unrest_harness/evolution.py:1763-1815 | from a lost campaign no run ever records a promotion under any grant, and HEAD never moves again |
| CampaignLoss.StepKeepsCustody | src/unrest_harness/evolution.py:500-1055 | every step keeps that a marked lease, and one about to be marked, is an admitted candidate's, found first under its id |
| CampaignAuthority.EveryEntryRunIsARun | src/unrest_harness/accepted_point_authority.py:232-295 | whatever is asked of the host and of the manager, in any order, amounts to a run of the campaign, so that everything proved of runs holds behind the entry |
| CampaignAuthority.PerformKeepsSound | src/unrest_harness/mutation_journal.py:501-595 | every request, crashes included, keeps that a promotion under way, and a marked lease, belongs to a recorded grant consumed for that one request, whose evidence and scope both stood before |
| CampaignAuthority.ScopeAge | src/unrest_harness/accepted_point_authority.py:236-264 | a scope that was the current one still is exactly when its candidate was neither evaluated nor reviewed again |
| CampaignAuthority.ScopeStaysLost | src/unrest_harness/accepted_point_authority.py:236-264 | a scope that has been overtaken is never the current one again |
| CampaignAuthority.EntryExactly | src/unrest_harness/foundation_tools.py:670-716 | a request that finds nothing promoted completes exactly when its grant is on record, not consumed for another request and within scope, its evidence stands and its lease is ready |
| CampaignAuthority.EntryRetryAfterInterference | src/unrest_harness/foundation_tools.py:718-737 | a promotion that died once its lease was marked, asked for again after any requests, completes if and only if the workspace was not cleaned up, no candidate event came in between, and the candidate was neither evaluated nor reviewed again |
| CampaignFate.CanCompleteExactly | src/unrest_harness/evolution.py:500-944 | in every reachable state with nothing promoted, some run of requests completes a promotion if and only if HEAD has not moved and the author is neither evaluator nor reviewer, or HEAD has moved and either the last sections are under way on standing evidence, or some lease is integrated under a grant whose evidence stands and whose scope is the current one or was checked by the request under way |
| CampaignFate.AllHangsOnTheGrant | src/unrest_harness/evolution.py:1763-1798 | with HEAD moved, nobody at work and nothing promoted, some run completes a promotion if and only if some lease is in its integrated state under a recorded grant whose evidence stands and whose scope is the current one |
| CampaignFate.DoomedForever | src/unrest_harness/evolution.py:1763-1815 | once nothing is left to complete a promotion with, no run of requests, new grants included, completes one |
| CampaignFate.CollidingRolesNeverComplete | src/unrest_harness/evolution.py:500-588 | when the author is the evaluator or the reviewer no run completes a promotion |
| CampaignEnds.CrashBeforeMarkDooms | src/unrest_harness/workspaces.py:532-591 | from every reachable state between moving HEAD and marking the lease, a crash loses the promotion |
| CampaignEnds.CleanUpDooms | src/unrest_harness/workspaces.py:698-735 | cleaning up the marked lease loses the promotion unless its last section is under way |
| CampaignEnds.CandidateDooms | src/unrest_harness/evolution.py:500-588 | once HEAD has moved and nothing is completed, an event for any candidate, admitted or not, loses the promotion |
| CampaignEnds.CandidateDuringDooms | src/unrest_harness/evolution.py:900-944 | without a crash: a candidate event after any of the first four steps of an ordinary promotion leaves HEAD moved, the lease integrated, nobody at work, and the promotion lost |
| CampaignEnds.LaterEvidenceDooms | src/unrest_harness/accepted_point_authority.py:236-276 | with nobody at work, the landing of a further evaluation or review of the integrated lease's candidate loses the promotion |
| CampaignEnds.StaleMoveDooms | src/unrest_harness/workspaces.py:532-560 | moving HEAD on evidence that went stale after it was checked loses the promotion |
| CampaignEnds.OnlyTheseLose | src/unrest_harness/evolution.py:500-944 | a step after which no run can complete a promotion, where one could before, is a crash, a clean-up, a candidate event, the landing of an evaluation or review, or moving HEAD on stale evidence |
| CampaignExample.EndsAreReached | src/unrest_harness/evolution.py:500-944 | a concrete campaign, opened, admitted, evaluated and reviewed, promotes when left alone; it is lost when the process dies before the lease is marked, when after a crash its workspace is cleaned up or its candidate evaluated again, and without a crash when another candidate is added before the last section |
| CampaignExample.PromotedIsRolledBack | src/unrest_harness/evolution.py:946-1055 | the promoted campaign of that run meets the hypotheses of the rollback results and is rolled back |
| CampaignRollback.RollbackCompletes | src/unrest_harness/evolution.py:946-1055 | a rollback attempt completes exactly when HEAD is back already or the predecessor validates, and then HEAD is back |
| CampaignRollback.RetryAfterCrash | src/unrest_harness/evolution.py:1848-1916 | a rollback that died after any durable write completes on retry under the same condition |
| CampaignRollback.RollbackAlwaysPossible | src/unrest_harness/evolution.py:946-1055 | in every reachable state that nobody holds, a grant naming the completed promotion under an unused fingerprint completes exactly when HEAD is back already or the predecessor validates |
| RollbackTransactions.TransactionsAreTrue | src/unrest_harness/evolution.py:1848-1916 | over every run each rollback transaction names the two revisions and says what is so; HEAD is back only with the intention on record, a rollback is completed only with the finding on record, and a transaction is closed only under a completed rollback |
| EvolutionManagers.EvolutionManager.InspectUnlocked | src/unrest_harness/evolution.py:1218-1280 | the loop that fills the lists and dictionaries computes the fold |
| EvolutionManagers.EvolutionManager.PromoteCandidate | src/unrest_harness/evolution.py:861-944 | returns the record a grant already has, or succeeds exactly when evidence stands and the lease is ready; the returned record is in the log, names HEAD's revision, the receipt on the one lease integrated for the grant and the grant's own preparation, and when new the grant's candidate and the request's receipt |
| EvolutionManagers.EvolutionManager.ReconcileOrIntegrate | src/unrest_harness/evolution.py:1763-1815 | the integration found or made is the three steps reconcile, move, mark |
| EvolutionManagers.EvolutionManager.RollbackPromotion | src/unrest_harness/evolution.py:946-1055 | is the five steps of a rollback; a returned record is in the log, names the two revisions HEAD went between and the grant's own preparation, its transaction is closed, and when new it names the grant's promotion and the request's receipt |
| EvolutionManagers.EvolutionManager.RestoreExactPredecessor | src/unrest_harness/evolution.py:1848-1916 | restores HEAD, with the intention written before and the result after, or changes nothing |
| Gates.CurrentValidatorsByTarget | src/unrest_harness/coordinator.py:1385-1450 | for every target of the gate exactly the live validators that cover it, that the gate transitively depends on, and that no other such validator depends on |
| Gates.SearchFindsDominance | src/unrest_harness/coordinator.py:1424-1445 | the downstream search that skips the gate finds a dominating validator exactly when one exists |
| Gates.CurrentIsAntichain | src/unrest_harness/coordinator.py:1385-1450 | current validators of a target are pairwise independent |
| Gates.CoveredHasCurrent | src/unrest_harness/coordinator.py:1385-1450 | above every covering validator there is a current one, so a covered target has one |
| Gates.ReadVerdicts | src/unrest_harness/coordinator.py:1275-1325 | a validator's evidence passes a target exactly when it is readable, from the current generation, and has exactly one item for the target, which passed |
| Gates.EvaluateGate | src/unrest_harness/coordinator.py:1241-1383 | clears exactly when every target has a current validator and every current validator's evidence passes it; otherwise the failed items are the uncovered targets if there are any, else the targets that do not clear |
| MissionRuns.WriteKeepsInv | src/unrest_harness/coordinator.py:1071-1140 | every single durable write keeps dependency safety and the consistency of open attention |
| MissionRuns.RunsAreSafe | src/unrest_harness/coordinator.py:156-191 | in every run, crashes included, a running or cleared task has its dependencies cleared, an unguarded failed one too, and gates never run |
| MissionRuns.ClearedReverts | src/unrest_harness/controller.py:917-965 | the only write that takes a cleared task back is a retry of its own listed failure item |
| MissionRuns.RevertsExactlyWhenListed | src/unrest_harness/controller.py:897-965 | a cleared task can be taken back if and only if attention is open, its failure item is listed and it is unguarded |
| MissionRuns.ClearedPersists | src/unrest_harness/controller.py:897-965 | over a run in which a task is never cleared while its failure item is listed, once cleared it stays cleared |
| MissionRuns.TornRoundTakesBack | src/unrest_harness/controller.py:303-333 | a concrete legal run in which a cleared task goes back to pending |
| Deadlock.FindBlockers | src/unrest_harness/coordinator.py:220-242 | the double loop collects exactly the failed tasks reached from pending ones through pending or failed dependencies |
| Deadlock.StuckHasBlocker | src/unrest_harness/coordinator.py:173-242 | when nothing runs, is runnable or is a ready gate, every pending task has a blocker above it |
| Deadlock.StuckMissionIsHeld | src/unrest_harness/coordinator.py:173-242 | in every run a stuck mission has pending tasks exactly when it has blockers |
| Deadlock.FailedGateHoldsInSilence | src/unrest_harness/coordinator.py:220-284 | a legal run ends stuck with pending work, no attention and only a failed gate as blocker |
| Coordination.ValidatorLane | src/unrest_harness/coordinator.py:509-552 | the lane is all runnable validators, in their order, of the first pending gate that waits for nothing else |
| Coordination.LaneReadyExactly | src/unrest_harness/coordinator.py:520-546 | a gate has a lane exactly when it waits for a validator and the runnable validators clearing would make it ready |
| Coordination.SelectDispatchTasks | src/unrest_harness/coordinator.py:554-583 | a ready lane goes first up to capacity; otherwise a validating slice whole, the work of the slice when there are two or more and they are isolated, or else its first task; never work beside validation |
| Coordination.ValidateFailureNeedsAttention | src/unrest_harness/coordinator.py:1452-1513 | attention is needed exactly when some target the handoff leaves open will be reported by no pending gate that depends on the validator |
| Coordination.DecisionsValidExactly | src/unrest_harness/controller.py:848-895 | each open item is decided once and nothing else is; only failed work is retried and only a closure report opens the next mission |
| Coordination.ProviderAdmitsExactly | src/unrest_harness/controller.py:335-356 | a provider's guard stands against every decision on its task but an abort or one on a closure report |
| Coordination.ValidateDecisions | src/unrest_harness/controller.py:848-895 | exactly the errors there are (open items undecided, unknown items, items decided twice, actions the kind does not admit), and none exactly when every open item is decided once with an action its kind admits |
| Coordinators.Coordinator.ApplyHandoffCollect | src/unrest_harness/coordinator.py:1071-1140 | a running task ends cleared or failed as its handoff says, nothing else moves; a failure asks for attention once, failed work so that it can be retried; a success asks when it requests it, and once more when a validator leaves a target that no pending gate will report |
| Coordinators.Coordinator.ReconcileProviderDenials | src/unrest_harness/coordinator.py:193-204 | exactly the guarded pending tasks fail |
| Coordinators.Coordinator.ReconcilePendingAttempts | src/unrest_harness/coordinator.py:1741-1803 | every task found running ends as its persisted or made-up handoff says, what was made up is persisted, exactly what they ask for is raised and nothing else changes; nothing was running when it reports nothing |
| Coordinators.Coordinator.TryEvaluateAGate | src/unrest_harness/coordinator.py:1225-1239 | the first ready gate is sealed as its evidence on disk decides and its item raised, or no gate is ready |
| Coordinators.Coordinator.RecoverStrandedFailure | src/unrest_harness/coordinator.py:220-284 | silent exactly when an attempt is active or no blocker is a work or validation task; otherwise the item of the first such blocker is open, added only when it was not, unless its failed handoff is missing or unreadable, which is an error |
| Coordinators.Coordinator.GuardDispatch | src/unrest_harness/coordinator.py:206-211 | a task is dropped from a selection exactly when a denial recorded in the meantime guards it, and then it has failed; nothing else moves |
| Coordinators.Coordinator.DispatchBatch | src/unrest_harness/coordinator.py:633-902 | the tasks that ran are started under their next attempt, end as their handoffs say, with one failure of an isolated batch failing all of it, and what they returned is persisted and what they ask for raised; those that did not were denied, or left for later when no worktrees could be had; nothing else moves; idle means all denied, or the first one without worktrees; an error means a denial recorded after the tasks were marked running |
| Coordinators.Coordinator.Step | src/unrest_harness/coordinator.py:136-191 | the first that applies of: resuming what was found running, sealing the first ready gate, dispatching the selected tasks, raising a retained failure, nothing; an advance strictly lowers the pending and running tasks; idle means that some pending task was just denied, or that the mission is stuck and only gates can be blockers unless an attempt is active |
| Coordinators.Coordinator.AdvanceProject | src/unrest_harness/controller.py:223-252 | at most pending plus running at entry plus one steps, whatever the dispatcher returns, and no more than the limit; what it reports is the phase it leaves |
| Coordinators.Coordinator.DecideAttention | src/unrest_harness/controller.py:303-354 | refused without change outside attention, on invalid decisions or against a provider guard; decided to the end exactly the decided failures move, the project goes where the last decision with an outcome sends it, the round is on record, the list is empty and nothing else changes |
| Coordinators.Coordinator.ApplyDecisions | src/unrest_harness/controller.py:897-965 | after any number of decisions exactly their failures have moved, and the next phase is that of the last decision with an outcome |
| Coordinators.Coordinator.ApplyOne | src/unrest_harness/controller.py:918-965 | one decision: what it moves and the project state it sends to, which is none exactly for continuing after a closure report |
| Lineage.ValidateLineageCycles | src/unrest_harness/controller.py:792-818 | succeeds exactly when the supersession graph has no cycle |
| Lineage.EdgeGraphMeaning | src/unrest_harness/controller.py:796-803 | the successor table holds exactly the listed edges |
| Lineage.CycleVisitor.Visit | src/unrest_harness/controller.py:806-815 | the recursion ends, reports a cycle only when there is one, and finishes only nodes that reach none |
| Lineage.Ancestors | src/unrest_harness/envelope.py:404-447 | the breadth-first walk lists every node above a start exactly once |
| TopologicalOrder.Order | src/unrest_harness/envelope.py:204-251 | Kahn's loop over indegrees and a sorted ready list takes the first available task each time; the result holds every visible task once, live predecessors first on acyclic input, and is the input when that was in dependency order |
| TopologicalOrder.OrderGuarantees | src/unrest_harness/envelope.py:204-251 | what any such greedy order guarantees |
| TopologicalOrder.PredecessorsComeFirst | src/unrest_harness/envelope.py:226-243 | on acyclic input every live visible predecessor comes first |
| ApprovalNative.NativeBinding.Consume | src/unrest_harness/approval_native.py:244-324 | one backend frame moves the binding exactly as the specification function says, errors included |
| ApprovalNative.RecordedDenial | src/unrest_harness/approval_native.py:269-321 | a recorded denial completes a review announced on the same thread and turn with the same immutable fields, and is the first one counted |
| ApprovalNative.AtMostOneDenial | src/unrest_harness/approval_native.py:233-328 | over any life of a binding, erasures included, a denial is recorded at most once |
| ApprovalLaws.SettledExactly | src/unrest_harness/approval_native.py:253-268 | over any life of a binding it is settled exactly when a turn of its thread was completed under its own id and none was started since, and its turn is the last one started |
| ApprovalLaws.InvalidatedExactly | src/unrest_harness/approval_native.py:244-324 | a frame invalidates a valid binding exactly when it contradicts the thread, the turn, an announced review or the one denial; and an invalid binding holds no denial |
| ApprovalLaws.OpenReviewsAreBounded | src/unrest_harness/approval_native.py:309-312 | no binding ever keeps more than 64 announced reviews open |
| ApprovalRouting.Routing.Allocate | src/unrest_harness/approval_relay.py:72-87 | is the table's allocation, refusals included |
| ApprovalRouting.Routing.Reply | src/unrest_harness/approval_relay.py:89-103 | is the table's routing of a reply |
| ApprovalRouting.AllocationKeepsTable | src/unrest_harness/approval_relay.py:72-87 | ids are new, original ids stay apart, nothing outstanding is disturbed, and at most 128 are outstanding |
| ApprovalRouting.OwnReply | src/unrest_harness/approval_relay.py:72-103 | whatever comes in between, the first reply to an issued id goes back under the original id of its own request and a second is refused |
| ApprovalRelay.ReplyGoesHome | src/unrest_harness/approval_relay.py:72-103 | in every interleaving, cancellations and requests of either side included, the first reply passed on under a forwarded request's id is shown to the adapter under that request's own id, and a later one ends the backend reader and is shown to nobody |
| ApprovalRelay.StepKeepsRelay | src/unrest_harness/approval_relay.py:164-273 | every stretch of every reader, deaths included, keeps the invariant |
| ApprovalRelay.AtMostOneRecovery | src/unrest_harness/approval_relay.py:164-273 | in every interleaving at most one approval frame, of the one recorded denial and for its thread; after the freeze at most one start, for that thread, and only once the approval was acknowledged |
| ApprovalRelay.ContinuationNeedsAcknowledgement | src/unrest_harness/approval_relay.py:212-229 | a start passes a frozen session exactly when it is armed, first, settled and for the denied thread; otherwise the reader ends and nothing is sent |
| ApprovalLaws.SubmissionExactly | src/unrest_harness/approval_relay.py:239-267 | a control message is taken up exactly when it is the one submission, the binding is valid and settled with a denial on record and nothing is outstanding either way; the approval is of that denial under a new id, and the submission is spent at once |
| ApprovalLaws.ArmingExactly | src/unrest_harness/approval_relay.py:268-273 | the continuation is armed exactly on an acknowledgement while the binding is valid and settled, and the denial is forgotten then |
| ApprovalLaws.AllocationExactly | src/unrest_harness/approval_relay.py:72-87 | an id is given out exactly while fewer than 128 are outstanding, to the adapter only for an id of its own that is proper and not in use; it names its side and its number |
| ApprovalLaws.AcknowledgementIsEmptyResult | src/unrest_harness/approval_relay.py:89-103 | in every interleaving an acknowledgement is the backend's empty result to that very request, passed on |
| ApprovalLaws.ContinuationFollowsEmptyResult | src/unrest_harness/approval_relay.py:212-273 | in every interleaving a start passes a frozen session only after the backend answered the one approval with an empty result |
| ApprovalLaws.AdapterFrameExactly | src/unrest_harness/approval_relay.py:208-237 | a frame of the adapter reaches the backend exactly unless it is forbidden or its id is refused: a request under an id of the relay's own, anything else as it is |
| ApprovalLaws.BackendFrameExactly | src/unrest_harness/approval_relay.py:164-181 | a frame that does not invalidate the binding is passed on, and exactly the first denial freezes the session |
| ApprovalLaws.RepliesExactly | src/unrest_harness/approval_relay.py:89-103 | a reply that answers nothing outstanding ends the reader; the one to the relay's own request is shown to nobody and settles it, acknowledged exactly when empty; the one to the adapter's request is shown under that request's id |
| ApprovalLaws.DeathIsFinal | src/unrest_harness/approval_relay.py:273-297 | a reader that died stays so whatever the others do |
| ApprovalLaws.WritersExactly | src/unrest_harness/approval_relay.py:237-273 | each thing to be written to the backend is written once, and its writer then listens, awaits its answer or is ready again |
| ApprovalLaws.DyingCancels | src/unrest_harness/approval_relay.py:89-100 | a control reader that dies awaiting its request cancels it, unless it was settled, and leaves its id to be swallowed |
| ApprovalLaws.NotificationsPass | src/unrest_harness/approval_relay.py:185-200 | what is no reply is shown to the adapter as it is, unless it is a request under an id already open or the 129th |
| ApprovalExample.OneRecoveryHappens | src/unrest_harness/approval_relay.py:164-273 | the one approval and the one continuation do happen in some interleaving |
| ApprovalRelay.AdapterNeverApproves | src/unrest_harness/approval_relay.py:210-238 | nothing the adapter says reaches the backend as an approval |

## Left out

- Unicode: which characters are alphanumeric, and which texts are in normal form, are parameters; everything holds for any table. Texts are sequences of code points, so UTF-8 decoding is not modelled.
- Recursion limits and the digit limit of integer conversion.
- SHA-256 is an uninterpreted function; freedom from collisions is a hypothesis where it is used.
- CanonicalJson: the reasons for which a value is outside the data model are one error here, and errors carry no path.
- EventLog: file names are numbers; short writes, `fsync` and a second writer (`concurrent_campaign_update`) are not modelled.
- SensitiveProjection.ProjectionMirrors: does not model the final sort of a mapping's entries, because a mapping is compared without its order; entries stay in input order.
- SensitiveValues.RenameKeys: keys of different types that compare equal in Python (`1` and `True`) cannot meet in one mapping and are not identified.
- CampaignSystem: events stand for the payloads the log keeps; how a payload is written and read back is not modelled, and dissent digests are given in their sorted order.
- CampaignSystem: one campaign, with HEAD moved only by its own operations; an integration outside a campaign, other branches and the working tree after `update-ref` are not modelled.
- CampaignSystem: receipts and digests are names made up by each step; a retry may issue a second promotion receipt, as in the source.
- CampaignSystem: `add_candidate` without a known lease raises a workspace error and records nothing, as here; the checks of ids, of digests and of the returned worktree are not modelled, and a commit equal to HEAD stands for an integration that could not be built.
- CampaignRecovery.RetryAfterCrash: nothing else happens between the crash and the retry; what may come between is `CampaignLoss.RetryAfterInterference` once the lease is marked, and `CampaignRecovery.AttemptExactly` otherwise.
- CampaignRecovery.AttemptExactly: the grant is taken as given, as `promote_candidate` takes it; the request with the check of its grant's scope is `CampaignAuthority.EntryExactly`.
- CampaignLoss.RetryAfterInterference: the grant is taken as given; through the entry a further evaluation or review of the candidate also makes the retry refused, which is `CampaignAuthority.EntryRetryAfterInterference`.
- CampaignAuthority: grants for other operations and for rollbacks, the project, issuer and operation fields of a grant, the validation policy, and the journal's states and its refusal of a request that is still being served elsewhere are not modelled; the plan is derived from the records when it is admitted, which covers its being derived once more just before.
- CampaignAuthority: a receipt carries an identifier of its own, so an evaluation or review is not recorded with a receipt already on record.
- CampaignFate.CanCompleteExactly: a run may return new leases, be given new grants by the host, and get any verdict from its evaluator and reviewer; whether they would ever give it is not modelled.
- CampaignEnds.OnlyTheseLose: names the kinds of steps; when a crash or a landing does lose is the condition of `CampaignFate.CanCompleteExactly` after it.
- EvolutionManagers.EvolutionManager.PromoteCandidate: does not model loading the evaluation and review receipts, which can refuse the promotion when one is missing or unreadable.
- EvolutionManagers.EvolutionManager.ReconcileOrIntegrate: a dirty parent, and a returned patch that fails to verify again, are folded into a commit that cannot be built.
- MissionRuns: patch decisions, `apply_patch`, terminal review, `close_mission` and the supervision policy; provider guards are a set that only grows.
- Coordinators.Coordinator.DispatchBatch: does not model contract-state updates, the order of attention items of a batch, which the source sorts by task id, or the worktree leases of an isolated batch beyond whether they could be had.
- Coordinators.Coordinator.Step: supervision polls and the initial contract state are left out, and a denial is recorded only at one of the looks at the guards.
- Coordinators.Coordinator.ApplyHandoffCollect: does not model contract-state updates, or handoffs blocked by a provider.
- Coordination.SelectDispatchTasks: the test for disjoint write scopes in a clean Git parent is a parameter.
- Coordination.ValidateDecisions: does not model patch decisions and their two errors; reports the same other errors, not their texts or order.
- Coordinators.Coordinator.DecideAttention: does not model patch decisions; a crash between two decisions leaves the earlier ones applied and the list open, as in the source.
- Coordinators.Coordinator.ApplyDecisions: does not model patch decisions.
- ApprovalNative.NativeBinding.Consume: whether a review has the closed shape and size of `provider_review.py`, and whether its action can be appealed, are facts of the frame; the shell word checks are not modelled.
- ApprovalRelay: frames admitted before the freeze may still be written after it; the private connection, timeouts and process cleanup appear only as deaths of a reader.
- Subprocesses, sockets, the ACP and MCP transports, the command line, configuration, prompt assembly, role and policy tables and reports.
