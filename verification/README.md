# Verified model of a CRM's agent, deal and platform core

A Dafny 4.11 model of the hardest behaviour of the Margince CRM backend and of its `craft` review gate, with
proofs of what that behaviour promises. Each component is modelled on its own tables: a table is a map or a sequence,
a transaction is one atomic step unless the code makes it several, and code that works step by step is a class or a
method proved against a specification whose properties are then proved as lemmas.

`dafny verify dfyconfig.toml` checks the whole project.

| files | what they model |
|---|---|
| `agents_domain`, `overnight_pass`, `batch` | the overnight pass: gate, tiers, green apply, yellow staging, decided dispatch, the morning batch |
| `deal_domain`, `close_date_hygiene`, `deal_reader`, `close_date_pass` | the stalled rule, close-date hygiene, the deal reader, the close-date producer and effector, and what the whole chain guarantees |
| `json_span`, `markers`, `closed_loop` | the craft gate: the JSON span scanner, bottom-up marker insertion, marker printing and parsing, the recomputed verdict and the residue |
| `outbox` | the at-least-once relay from the outbox table to the streams |
| `approvals` | approval items under interleaved approvers and the expiry sweep |
| `base64url`, `approval_tokens`, `tool_gate` | compact signed tokens, the ledger of used ones and the tool gate |
| `deal_lifecycle` | creating, advancing, archiving and restoring deals, with history, audit, events and frozen rates |
| `deal_queries`, `custom_columns`, `deal_update` | the list filter and the partial update compiled to numbered placeholders |
| `keyset_paging`, `keyset_cursor`, `activity_list`, `approvals_inbox` | cursor paging of the activity feed and the approvals inbox |
| `custom_field_engine`, `custom_fields` | slug derivation, DDL building, and the field catalog beside the physical columns |
| `rollup_math`, `stage_sums`, `rollup` | rounding, weighting and the pipeline roll-up, over exact reals |
| `retention` | the two-phase retention sweep and the erasure of a person |
| `wrappers`, `sequences`, `text`, `strings` | optional values and results; filtering and stable sorting; splitting, joining and trimming |

## What the proofs show about the code

Some properties one would expect do not hold as such. The model keeps the code as it is, and a lemma says exactly when
they do.

- A second close-date pass on the same day is not always quiet: a date a few days ahead in a fast pipeline is flagged
  again, and so is a stalled deal whose new date lies within sixty days (`SecondPassQuietIff`,
  `SecondPassFlagsStalledAgain`).
- The handle of an automatic close-date write cannot restore an empty date, because the update keeps the stored date
  when given none (`RollbackRestoresIff`).
- `.scss` files get markers but are not among the extensions the collector reads, so a finding there blocks without
  leaving residue (`ScssEscapesTheGate`, `ResidueIffBlocked`).
- A modify that is carried out directly publishes no `approval.decided` event, unlike every other decision
  (`DecisionsAnnouncedOnce`, `DirectModifyNotAnnounced`).
- A deal can be created open in a stage whose semantic is won or lost (`StatusMatchesStageIff`,
  `CreatedOpenInWonStage`).
- The rate frozen on closing is looked up by the deal's currency alone, whatever it converts to, and among rows of the
  same day any may be taken: a row to another currency that is not older than the latest to the base can be frozen
  (`FrozenRateIsToBaseIff`, `FrozenRateToAnotherCurrency`).
- With the stalled filter a page can come back short, and without a next cursor, although more stalled deals follow
  (`DealQueries.ListFiltered`, `PageRightIff`, `StalledPageCutShort`).
- The outbox keeps created_at order, in the table and on each stream, only while no transaction commits a row older than
  one already relayed or in the batch; created_at is the time a transaction began, so one may (`OutboxOrderIff`,
  `LateCommitBreaksOrder`). What holds always: every published row is on its stream, copies are exactly those of
  failures between adding and marking, and no row is left behind for good (`CopiesCounted`, `EveryRowCanBePublished`).
- A green proposal without a workspace id has had its effect when the pass aborts on its audit row (`CompletedPass`).
- Anonymizing a person leaves the email rows (`PersonDataGoneIff`, `AnonymizedKeepsEmail`). The comment on the worker
  says records on legal hold are skipped; a held lead is still blanked when a person converted from it is erased
  (`HeldLeadUntouchedIff`, `HeldLeadBlanked`).

## Assumptions taken from outside the modelled files

- The `touch_versioned` trigger (`backend/migrations/000001_init.up.sql:25-27`) bumps a row's version on every update;
  a new deal has version 1.
- The constraints of the deal table (`backend/migrations/000003_core_objects.up.sql:166-170`), the primary key of
  `consumed_approval_token` and the uniqueness of ids hold; ids are not empty. A method that pages asks for distinct ids
  for this reason.
- HMAC-SHA256, SHA-256, the JSON codec, the printing of timestamps and of uuids are abstract functions. Where a result
  needs one to be inverted by its reader, the lemma asks for that and for nothing else.
- There is one relay. Outbox ids are unique; timestamps may tie and rows may commit in any order of them.
- The clock runs in UTC: today is the UTC date of the instant, where the code takes the date in the clock's own location
  (`backend/internal/modules/agents/app/close_date_produce.go:27-28`).
- Text is compared byte by byte.

## Model

| member | source | states |
|---|---|---|
| `CloseDatePass.OpenDealsHaveFutureDates` | backend/internal/modules/agents/app/close_date_produce.go:24-64 | OVN-AC-1: when every velocity read succeeded, no open deal is left without a close date or with one before today, whatever it had before |
| `CloseDatePass.PassCorrectsDeals` | backend/internal/modules/agents/app/pass.go:37-67 | the chain produce, gate, route, apply never aborts on distinct deals, and the deal table ends with exactly the flagged deals changed, one write each |
| `CloseDatePass.GreenWritesLand` | backend/internal/modules/agents/adapters/close_date_effector.go:56-81 | every green write still matches the version its snapshot read, although earlier writes have bumped other rows |
| `CloseDatePass.ReviewUnlessClearlyOverdue` | backend/internal/modules/agents/app/close_date_hygiene.go:104-134 | every flagged deal gets one green write, and one human review of the right kind unless its date is overdue on an active, early deal outside the forecast; the proposals are written out field by field |
| `CloseDatePass.ProposalsCounted` | backend/internal/modules/agents/app/close_date_produce.go:103-166 | over the whole table there are as many green writes as flagged deals and as many reviews as flagged deals not clearly overdue |
| `CloseDatePass.CorrectedAt` | backend/internal/modules/agents/app/close_date_produce.go:109-166 | row by row: a flagged deal carries the proposed date and one more version, any other deal is untouched |
| `CloseDatePass.ProposedNotPast` | backend/internal/modules/agents/app/close_date_hygiene.go:92-98 | a proposed date is never before today, and is at least one stage velocity away |
| `CloseDatePass.FlaggedIff` | backend/internal/modules/agents/app/close_date_hygiene.go:44-78 | a live deal is flagged exactly without a date, or with one past, within seven days at a probability below forty, or within sixty days on a deal gone quiet |
| `CloseDatePass.ProposedDateIs` | backend/internal/modules/agents/app/close_date_hygiene.go:92-98 | the proposed date is one velocity away for each live open stage of the pipeline at or after the deal's position, and for one at least |
| `CloseDatePass.EachStageAddsOneVelocity` | backend/internal/modules/agents/adapters/deal_reader.go:70-82 | one more such stage in the stage table moves the date by exactly one velocity, any other stage leaves it |
| `CloseDatePass.VelocityIs` | backend/internal/modules/agents/app/close_date_hygiene.go:83-88 | the velocity is the observed median from twenty won deals on and fourteen days below that |
| `CloseDatePass.DatesAfterPass` | backend/internal/modules/agents/app/close_date_produce.go:24-64 | deal by deal, the table a pass leaves: a flagged deal has that date and one version more and is otherwise as it was |
| `CloseDatePass.SecondPassQuietIff` | backend/internal/modules/agents/app/close_date_hygiene.go:60-78 | a second pass on the same day proposes nothing exactly when no date the first pass left is unrealistically soon or stale; the first pass alone does not ensure it |
| `CloseDatePass.SecondPassQuiet` | backend/internal/modules/agents/app/batch.go:16-26 | with nothing stalled and every velocity above the unrealistic-soon window the second pass is quiet |
| `CloseDatePass.SecondPassFlagsStalledAgain` | backend/internal/modules/agents/app/close_date_hygiene.go:60-98 | a stalled deal whose second pass proposes a date anew |
| `CloseDatePass.RollbackRestoresIff` | backend/internal/modules/agents/adapters/close_date_effector.go:56-81 | replaying a rollback handle brings the prior date back exactly when there was one, because the update cannot clear a date |
| `CloseDatePass.Produce` | backend/internal/modules/agents/app/close_date_produce.go:24-64 | the loop with its velocity cache proposes the same as production that reads the velocity afresh for every deal, and stops at the same unreadable pipeline |
| `CloseDatePass.UpdateOutcome` | backend/internal/modules/deals/adapters/store_deal_update.go:97-119 | the guarded update changes the first live row with the id and the version asked for, keeps the stored date when given none, and is refused exactly without such a row |
| `CloseDatePass.ApplyOutcome` | backend/internal/modules/agents/adapters/close_date_effector.go:16-81 | only the four close-date actions reach the deal table; the handle carries the prior date and version |
| `CloseDatePass.DealStore.Update` | backend/internal/modules/deals/adapters/store_deal_update.go:97-119 | the guarded update writes the first live row with the id and version, or reports skew or absence and writes nothing |
| `CloseDatePass.DealStore.Apply` | backend/internal/modules/agents/adapters/close_date_effector.go:56-81 | the effector writes the deal and returns a restoring handle, or fails and leaves the table alone |
| `CloseDatePass.OvernightCloseDates` | backend/internal/modules/agents/app/pass.go:37-67 | one run end to end: degraded exactly if a needed velocity was unreadable, quiet exactly if nothing was flagged, and unless degraded every live deal ends with a close date not before today |
| `DealReader.MedianMeaning` | backend/internal/modules/agents/adapters/deal_reader.go:140-154 | at least half of the samples are at or below the median used and at least half at or above it |
| `DealReader.MedianIgnoresOrder` | backend/internal/modules/agents/adapters/deal_reader.go:119-154 | the median does not depend on the order in which the per-deal groups are visited |
| `DealReader.MedianNonNegative` | backend/internal/modules/agents/adapters/deal_reader.go:106-156 | the velocity is never negative, for any stage history, ordered or not |
| `DealReader.SamplesAre` | backend/internal/modules/agents/adapters/deal_reader.go:116-148 | the samples are the gaps of the pipeline's won live deals, each in time order, and of no other |
| `DealReader.TimesAre` | backend/internal/modules/agents/adapters/deal_reader.go:116-135 | a deal has one time for each of its history rows |
| `DealReader.GapsAre` | backend/internal/modules/agents/adapters/deal_reader.go:145-148 | a gap is the whole days between one time and the next |
| `DealReader.PipelineWonVelocity` | backend/internal/modules/agents/adapters/deal_reader.go:106-156 | the grouped row loop returns the median of all per-stage gaps of the won deals, and their number |
| `DealReader.ListOpenDeals` | backend/internal/modules/agents/adapters/deal_reader.go:30-102 | one snapshot per live deal with a stage, at its current version, in table order |
| `OvernightPass.CompletedPass` | backend/internal/modules/agents/app/pass.go:37-67 | a pass completes exactly when every green effect returns a handle and every proposal names its workspace (a green one without aborts after its effect, with no audit row); then each green proposal has had one effect, one audit row and one event, and each yellow one is staged once, both in order |
| `OvernightPass.LanesPartition` | backend/internal/modules/agents/app/pass.go:47-64 | a completed pass made exactly one call or one item of each gated proposal, by its tier, each following those of the proposals before it in its lane |
| `OvernightPass.FloorNeverReachesEffector` | backend/internal/modules/agents/app/tier.go:12-55 | completed or aborted, a pass hands the effector no D4-floor and no unregistered action type |
| `OvernightPass.GreenIff` | backend/internal/modules/agents/app/tier.go:28-47 | exactly the three registered action types are green |
| `OvernightPass.TargetParts` | backend/internal/modules/agents/app/attribution.go:21-43 | an audit row names the kind before the first colon of the target and the id after it |
| `OvernightPass.NoColon` | backend/internal/modules/agents/app/attribution.go:21-43 | a target without a colon is its own kind and id |
| `OvernightPass.GreenOutcome` | backend/internal/modules/agents/app/apply.go:22-59 | the effect is always made; rows follow exactly when it comes back with a handle and the proposal names its workspace |
| `OvernightPass.GreenRecords` | backend/internal/modules/agents/app/apply.go:37-57 | the audit row and event of the k-th green proposal: its workspace, target, action type, the handle of its own effect, and its own topic or the default one |
| `OvernightPass.YellowRecords` | backend/internal/modules/agents/app/stage.go:18-29 | the item of the k-th yellow proposal: its workspace, effect and action type in the overnight namespace |
| `OvernightPass.StagedProposalDispatches` | backend/internal/modules/agents/app/executor.go:53-96 | an approved staged proposal reaches the effector with the action type and effect it was proposed with; other decisions change nothing |
| `OvernightPass.DispatchOutcome` | backend/internal/modules/agents/app/executor.go:53-96 | an approved or modified item of the namespace is handed over under its own type and recorded once the effect went through; any other changes nothing |
| `OvernightPass.GateProposals` | backend/internal/modules/agents/app/gate.go:11-20 | exactly the proposals with source, evidence and confidence survive, in order |
| `OvernightPass.Runner.Apply` | backend/internal/modules/agents/app/apply.go:22-59 | effect first, then audit and event, only if a handle came back and the proposal names a workspace |
| `OvernightPass.Runner.Stage` | backend/internal/modules/agents/app/stage.go:18-29 | one pending item under the overnight namespace with its capture audit |
| `OvernightPass.Runner.RunPass` | backend/internal/modules/agents/app/pass.go:37-67 | the imperative pass ends in the state of the step-by-step specification and returns its canonical batch; an assembler failure touches nothing |
| `OvernightPass.Runner.HandleDecided` | backend/internal/modules/agents/app/executor.go:53-96 | one decided event: dispatch, audit and event, or nothing |
| `Batch.GroupAndRank` | backend/internal/modules/agents/app/batch.go:28-55 | the groups form the canonical batch of the input |
| `Batch.MostConfidentFirst` | backend/internal/modules/agents/app/batch.go:42-51 | in a group the more confident proposal stands first, one without a confidence counting as zero |
| `Sequences.StringLeqIff` | backend/internal/modules/agents/app/batch.go:37 | the string order: a prefix comes first, and otherwise the first character that differs decides |
| `Batch.BuildBatch` | backend/internal/modules/agents/app/batch.go:16-26 | run state and reason beside the canonical batch |
| `Batch.CanonicalBatchUnique` | backend/internal/modules/agents/app/batch.go:28-55 | increasing keys with stably ranked groups determine the batch completely |
| `Batch.SameSubsequencesSameBatch` | backend/internal/modules/agents/app/batch.go:28-55 | inputs with equal per-type subsequences give equal batches |
| `Batch.BatchPermutesInput` | backend/internal/modules/agents/app/batch.go:28-55 | the flattened groups hold every proposal exactly once |
| `Batch.KeyIffInput` | backend/internal/modules/agents/app/batch.go:28-55 | the group keys are exactly the action types of the input |
| `JsonSpan.ExtractJSON` | cli/craft/gate/critic.go:65-91 | the scanner returns the shortest brace-balanced span from the first brace, or nothing |
| `JsonSpan.FirstSpanUnique` | cli/craft/gate/critic.go:65-91 | there is only one such span |
| `JsonSpan.ObjectClosesOnlyAtEnd` | cli/craft/gate/critic.go:65-91 | scanning any serialised JSON object (sections 4 and 7 of RFC 8259) the depth returns to zero at its last brace and nowhere before |
| `JsonSpan.ObjectIsFirstSpan` | cli/craft/gate/critic.go:65-91 | in prose without a brace, then an object, then anything, the first span is that object |
| `JsonSpan.ObjectTextIsFirstSpan` | cli/craft/gate/critic.go:65-91 | the same for any object's text by the rules of sections 2 to 7 of RFC 8259, which `StringIsValue`, `ScalarIsValue`, `ArrayIsValue`, `ElementsGrow`, `ObjectIsValue` and `PairsGrow` state one by one |
| `JsonSpan.ExtractWrapped` | cli/craft/gate/critic.go:51-91 | the extracted text of a wrapped object is the object |
| `Markers.AnnotateContent` | cli/craft/gate/marker.go:79-100 | bottom-up insertion equals placing all markers at once; the file is left unwritten exactly when some line is out of range |
| `Markers.InsertOne` | cli/craft/gate/marker.go:90-96 | one bottom-up insertion extends the simultaneous placement by that finding, with the indentation of the original line |
| `Markers.TargetPosition` | cli/craft/gate/marker.go:79-100 | each line keeps its own markers directly above it |
| `Markers.MarkersCounted` | cli/craft/gate/marker.go:79-100 | how far a line moves is the number of findings at or above it |
| `Markers.MarkerIs` | cli/craft/gate/marker.go:51-107 | the whole comment written for a finding, in the style of its file's extension: dashes, a block comment or slashes |
| `Markers.ExtIff` | cli/craft/gate/marker.go:51-60 | a path has an extension exactly if it ends with it |
| `Markers.ExtIsExtension` | cli/craft/gate/marker.go:51-60 | an extension is one dot and what follows it in the last path element; a dot in a directory's name starts none |
| `Markers.ParsePrinted` | cli/craft/gate/marker.go:104-177 | a printed marker line reads back as its kind and its id, for every comment style and indentation |
| `Markers.DisputeReads` | cli/craft/gate/marker.go:169-172 | a line with a dispute tag reads as the leftmost one, its reason being what follows the bracket and an optional colon, trimmed |
| `Markers.FixReads` | cli/craft/gate/marker.go:173-175 | without a dispute tag a line reads as its leftmost fix tag |
| `Markers.PlainLineReadsAsNothing` | cli/craft/gate/marker.go:176 | a line without either opening reads as no marker |
| `Text.SplitJoin` | cli/craft/gate/marker.go:83-99 | joining lines and splitting again is the identity on lines without newlines |
| `Text.JoinSplit` | cli/craft/gate/marker.go:83-99 | splitting content and joining again is the identity |
| `Text.PartIff` | cli/craft/gate/marker.go:127-139 | a part before the last is exactly what stands between separators, or between the start and one |
| `Strings.TrimSpaceIs` | cli/craft/gate/marker.go:171 | trimming cuts Unicode white space, by its code points, off both ends and nothing else |
| `ClosedLoop.ComputeVerdict` | cli/craft/gate/verdict.go:17-24 | block exactly if some finding blocks under the rubric |
| `ClosedLoop.BlocksIff` | cli/craft/rubric/rubric.go:58-65 | a finding blocks exactly if it is a high-confidence blocker and the first rule of its category says that category may block |
| `ClosedLoop.Blocking` | cli/craft/gate/verdict.go:28-36 | exactly the blocking findings, in order |
| `ClosedLoop.Validate` | cli/craft/gate/verdict.go:46-89 | no problem exactly for a well-formed result with distinct ids |
| `ClosedLoop.DeletingMarkersRestores` | cli/craft/gate/marker.go:79-100 | deleting the inserted lines gives the original file back |
| `ClosedLoop.FileReadsBack` | cli/craft/gate/marker.go:127-177 | an annotated file reads back exactly its findings, with multiplicity, all as fixes |
| `ClosedLoop.ScannedIff` | cli/craft/gate/marker.go:127-142 | the walk reads exactly the files with one of seven extensions, in no directory of three names, outside cli/craft |
| `ClosedLoop.ResidueRecovers` | cli/craft/gate/residue.go:22-24 | the residue of an annotated tree is exactly the blocking (file, id) pairs whose path has one of seven extensions, lies in no directory named .git, node_modules or .swarm-worktrees, and is neither cli/craft nor below it |
| `ClosedLoop.ResidueIffBlocked` | cli/craft/gate/verdict.go:17-36 | the residue is non-empty exactly if some blocking finding is in such a file |
| `ClosedLoop.ScssEscapesTheGate` | cli/craft/gate/marker.go:51-60 | a stylesheet gets markers that the collector never reads |
| `ClosedLoop.ReviewAndGate` | cli/craft/gate/verdict.go:17-36 | for printable findings in such files the verdict blocks exactly if residue is left after annotating |
| `Outbox.PublishedIsPrefix` | backend/internal/platform/events/outbox.go:76-125 | if no transaction of the run commits a row older than one already published or in the batch, the published rows are a prefix of the outbox in created_at order |
| `Outbox.StreamsKeepOutboxOrder` | backend/internal/platform/events/outbox.go:76-125 | over every run, late commits and failures included, a stream holds only its own rows and every published one; first occurrences are in created_at order if none of its rows was committed late |
| `Outbox.CopiesCounted` | backend/internal/platform/events/outbox.go:76-125 | over every run, a row's own stream holds its entry once if it is published and once more per failure between XADD and its mark, and no other stream holds it |
| `Outbox.EntityTypeIs` | backend/internal/platform/events/outbox.go:41-47 | the entity type is what stands before the first dot of the topic |
| `Outbox.NoEntityType` | backend/internal/platform/events/outbox.go:41-47 | a topic without a dot, or starting with one, has the type "unknown" |
| `Outbox.RowsGoToTheirType` | backend/internal/platform/events/outbox.go:97-121 | over every run, a row whose topic has the type e before its first dot is added to its workspace's stream of type e and stands on no other |
| `Outbox.SharedStreamIff` | backend/internal/platform/events/outbox.go:41-47 | over every run, two published rows stand on one stream exactly if their workspaces and what stands before the first dot of their topics agree |
| `Outbox.StepKeepsInv` | backend/internal/platform/events/outbox.go:76-125 | each step keeps every count of sendings equal to what is published, lost or just being marked |
| `Outbox.OutboxOrderIff` | backend/internal/platform/events/outbox.go:76-125 | for any choice of rows and for published rows, sent rows or first sendings: the relay keeps created_at order at every moment of a run, however it goes on, exactly if no transaction commits a row older than one already relayed or in the batch |
| `Outbox.LateCommitBreaksOrder` | backend/migrations/000016_event_outbox.up.sql:2-10 | the run in which an older row commits late: the newer one is published without it and precedes it on the stream |
| `Outbox.EveryRowCanBePublished` | backend/internal/platform/events/outbox.go:76-125 | from every reachable state the relay can go on to publish every row |
| `Outbox.CopiesAddUp` | backend/internal/platform/events/outbox.go:76-125 | between batches all streams together hold one entry per published row plus one per failure between XADD and the mark |
| `Outbox.StreamKeyInjective` | backend/internal/platform/events/outbox.go:37-39 | two rows share a stream key exactly if workspace and entity type agree |
| `Outbox.Relayer.Query` | backend/internal/platform/events/outbox.go:77-87 | the batch: unpublished rows by created_at, at most a hundred, none left out that is older |
| `Outbox.Relayer.RelayRow` | backend/internal/platform/events/outbox.go:97-121 | publish, then mark; the fault decides what is left undone |
| `Outbox.Relayer.RelayBatch` | backend/internal/platform/events/outbox.go:76-125 | the loop is a run of the protocol over a batch ordered by created_at; it succeeds exactly if nothing fails and then has published its batch and no other row |
| `Approvals.ActionsRunOnce` | backend/internal/modules/approvals/app/decision.go:36-79 | under every interleaving an action runs at most once per item, only after that item was approved, with its stored payload, or directly modified, with the payload of the admitted modify call whose claim won; and none is forgotten |
| `Approvals.DecisionsAnnouncedOnce` | backend/internal/modules/approvals/app/decision.go:128-228 | no item is announced twice; when nothing is in flight exactly the decided items are announced, except those whose winning modify call was not yellow; each restage has its own original |
| `Approvals.DecidedStaysDecided` | backend/internal/modules/approvals/adapters/store.go:190-203 | an item that has left pending never changes again, whoever acts |
| `Approvals.StepKeepsInv` | backend/internal/modules/approvals/app/decision.go:36-228 | every step of every decider and of the sweep keeps items, executions, events and restages consistent |
| `Approvals.StagedIs` | backend/internal/modules/approvals/adapters/store.go:30-52 | a staged item is pending, holds the empty object for an empty payload, and expires when asked or after seventy-two hours |
| `Approvals.ClaimRecords` | backend/internal/modules/approvals/app/decision.go:36-228 | a claim on a pending item records what was decided and by whom, on that item alone |
| `Approvals.RestageCreatesOneItem` | backend/internal/modules/approvals/app/decision.go:190-228 | over every run an item is restaged exactly if a yellow modify call won it; the new item is the one that call added, pending, asks for the same with that call's payload and stands for no other item, and the original never runs |
| `Approvals.WinnerDecides` | backend/internal/modules/approvals/app/decision.go:128-228 | a modify call that claims a pending item settles it: the decision carries that call's payload and route |
| `Approvals.DirectModifyNotAnnounced` | backend/internal/modules/approvals/app/decision.go:190-228 | a modify carried out directly, run with the edited payload and announced nowhere |
| `Approvals.SweptExpiresOverdue` | backend/internal/modules/approvals/adapters/expiry.go:51-121 | a sweep expires exactly the overdue pending items and runs nothing |
| `Approvals.SweepIsRun` | backend/internal/modules/approvals/adapters/expiry.go:51-121 | an uninterrupted sweep is a run of the interleaving machine |
| `Approvals.Decider.Create` | backend/internal/modules/approvals/adapters/store.go:30-52 | one new pending row, with the default payload and expiry where none is given |
| `Approvals.Decider.CompareAndSet` | backend/internal/modules/approvals/adapters/store.go:190-203 | moves only a pending row |
| `Approvals.Decider.Approve` | backend/internal/modules/approvals/app/decision.go:36-79 | uninterrupted, exactly the run read, claim, execute; refused exactly if not pending |
| `Approvals.Decider.Reject` | backend/internal/modules/approvals/app/decision.go:85-124 | uninterrupted, exactly the run read, claim |
| `Approvals.Decider.Modify` | backend/internal/modules/approvals/app/decision.go:128-228 | uninterrupted, the direct or the restaging run; refused exactly if not pending or not admitted |
| `Approvals.Decider.ExpireOne` | backend/internal/modules/approvals/adapters/expiry.go:84-121 | one guarded expiry; a row decided meanwhile is skipped |
| `Approvals.Decider.ExpireOverdue` | backend/internal/modules/approvals/adapters/expiry.go:51-81 | the sweep over the ids read at its start |
| `Base64Url.DecodeEncode` | backend/internal/modules/approvals/adapters/token.go:40 | the unpadded base64url text of section 5 of RFC 4648 decodes to the bytes it came from and holds no dot |
| `Base64Url.EncodeDecodeIff` | backend/internal/modules/approvals/adapters/token.go:67-78 | the lenient decoder accepts more: re-encoding gives a text back exactly if it has no line break and no spare bits |
| `Base64Url.DecodesIff` | backend/internal/modules/approvals/adapters/token.go:67-78 | the lenient decoder reads exactly texts of the alphabet and line breaks whose letters are not one more than a multiple of four, and where the breaks stand makes no difference |
| `Base64Url.AlphabetIs` | backend/internal/modules/approvals/adapters/token.go:40 | the sixty-four characters in their order, by code point (section 5 of RFC 4648) |
| `ApprovalTokens.ParseSigned` | backend/internal/modules/approvals/adapters/token.go:48-89 | parsing a minted token gives back its claims, with the three-part split of section 7.1 of RFC 7515; minting fails exactly without a secret |
| `ApprovalTokens.AcceptedIsSigned` | backend/internal/modules/approvals/adapters/token.go:62-89 | whatever parses carries the MAC of its own first two parts under the key of the workspace it names |
| `ToolGate.EachTokenAdmitsOnce` | backend/internal/modules/approvals/adapters/token.go:96-148 | over every run no jti and no token admits two gated calls, and each admitted call had a genuine, unexpired token for its workspace, tool, diff and version |
| `ToolGate.ReplayRefused` | backend/internal/modules/approvals/adapters/token.go:121-148 | once a jti is consumed every later gated call on it is refused |
| `ToolGate.AdmissionUsesToken` | backend/internal/platform/toolgate/toolgate.go:69-81 | a gated call passes only by consuming its own jti; any other call leaves the ledger alone |
| `ToolGate.WhoPasses` | backend/internal/platform/toolgate/toolgate.go:48-81 | a human's call passes; an agent's passes without a token exactly when the tool is green, or dynamic with a registered resolver that answers green on the call's fields; any other needs a token that is genuine, made for it, in date and unused |
| `ToolGate.EveryPassAccounted` | backend/internal/platform/toolgate/toolgate.go:69-81 | over every run, an agent's call that passed was free by the resolvers of that moment, or stands in the log with the token that justified it |
| `ToolGate.ResolverInForce` | backend/internal/platform/toolgate/toolgate.go:37-41 | the resolver asked is the one last registered under the name |
| `ToolGate.MintedTokenAdmitted` | backend/internal/modules/approvals/adapters/token.go:96-118 | a token minted by the server is admitted exactly if it binds the call, has a jti, is in date and is unused |
| `ToolGate.BoundToDiff` | backend/internal/shared/ports/approvals/approvals.go:40-44 | a token minted for one diff binds another only if the digests agree |
| `ToolGate.Gate.ConsumeJti` | backend/internal/modules/approvals/adapters/token.go:121-148 | inserts a fresh jti, reports a used one, and inserts nothing on a database fault |
| `ToolGate.Gate.VerifyAndConsume` | backend/internal/modules/approvals/adapters/token.go:96-118 | consumes the jti exactly when every check passes |
| `ToolGate.Gate.EnforceCall` | backend/internal/platform/toolgate/toolgate.go:69-81 | the imperative gate admits what the specification admits and moves to its state |
| `DealLifecycle.EveryDealConsistent` | backend/internal/modules/deals/adapters/store_deal_advance.go:23-177 | over every run: open iff no closing time, lost iff a reason, no frozen rate while open, rate and date together, stage in pipeline, unbroken stage history, one audit row, event and version per gesture |
| `DealLifecycle.MovedConsistent` | backend/internal/modules/deals/adapters/store_deal_advance.go:153-177 | the CASE-by-CASE update keeps the row consistent on closing, reopening and plain moves |
| `DealLifecycle.AdvanceSucceedsIff` | backend/internal/modules/deals/adapters/store_deal_advance.go:23-100 | exactly when an advance is accepted: live, current, to a live stage of the pipeline, status agreeing, a reason if lost, and a rate at hand for a closed deal with an amount |
| `DealLifecycle.AdvanceRefusedBecause` | backend/internal/modules/deals/adapters/store_deal_advance.go:41-72 | which refusal a refused advance gets, in the order checked |
| `DealLifecycle.AdvanceOutcome` | backend/internal/modules/deals/adapters/store_deal_advance.go:74-177 | the deal after an advance: closing sets the time of the call, the reason if lost, and rate one of today in the base currency, else the rate and date of a latest row from the deal's currency, else what was there; reopening clears all four; open to open keeps all four; amount, currency and pipeline never change |
| `DealLifecycle.CreateOutcome` | backend/internal/modules/deals/adapters/store_deal.go:93-155 | the row, history, audit row and event of a new deal, and when it is refused |
| `DealLifecycle.ArchiveAndRestore` | backend/internal/modules/deals/adapters/store_deal.go:213-294 | archiving dates a live deal and restoring clears an archived one, with their log rows; nothing else changes |
| `DealLifecycle.ReopenUndoesClose` | backend/internal/modules/deals/adapters/store_deal_advance.go:153-177 | closing a deal and moving it back leaves its row as before, two versions on |
| `DealLifecycle.RestoreUndoesArchive` | backend/internal/modules/deals/adapters/store_deal.go:213-294 | restoring undoes archiving, leaving two audit rows and two events |
| `DealLifecycle.StatusMatchesStageIff` | backend/internal/modules/deals/adapters/store_deal_advance.go:61-76 | while stages are added, archived and renamed and rates loaded, a status is its stage's semantic exactly if the deal was advanced or created in an open stage |
| `DealLifecycle.CreatedOpenInWonStage` | backend/internal/modules/deals/adapters/store_deal.go:93-145 | a deal can be created open in a stage that means won |
| `DealLifecycle.FrozenRateIsToBaseIff` | backend/internal/modules/deals/adapters/store_deal_update.go:255-283 | in whatever order the rows stand, the rate and date frozen are the latest to the base currency exactly when every row to another currency is older than that one, or has its date and rate |
| `DealLifecycle.FrozenRateToAnotherCurrency` | backend/internal/modules/deals/adapters/store_deal_update.go:274-283 | a case where a rate to another currency is frozen |
| `DealLifecycle.DealStore.Create` | backend/internal/modules/deals/adapters/store_deal.go:93-155 | row, first history row, audit row and event together, or the refusal |
| `DealLifecycle.DealStore.Advance` | backend/internal/modules/deals/adapters/store_deal_advance.go:23-177 | the transaction step by step ends in the specified state or the specified refusal |
| `DealLifecycle.DealStore.Archive` | backend/internal/modules/deals/adapters/store_deal.go:213-251 | archives once; archiving again succeeds and writes nothing |
| `DealLifecycle.DealStore.Restore` | backend/internal/modules/deals/adapters/store_deal.go:256-294 | restores an archived deal, refuses a live or missing one |
| `DealQueries.BuildDealListWhere` | backend/internal/modules/deals/adapters/store_deal_list.go:59-150 | for every filter, row and state of the other tables the compiled clause holds exactly for the rows meant, and each later argument is used by one placeholder, in order |
| `DealQueries.BuildWhereBasic` | backend/internal/modules/deals/adapters/store_deal_list.go:59-93 | appending the basic filters adds exactly their meaning |
| `DealQueries.BuildWhereExtra` | backend/internal/modules/deals/adapters/store_deal_list.go:98-122 | appending the remaining fixed filters adds exactly their meaning |
| `DealQueries.BuildWhereCustom` | backend/internal/modules/deals/adapters/store_deal_list.go:124-137 | appending the custom filters adds exactly their meaning |
| `DealQueries.WantedIff` | backend/internal/modules/deals/adapters/store_deal_list.go:59-150 | what a listing asks for, column by column, with owners' grants, stakeholders, custom values and the stalled rule written out |
| `DealQueries.SortedKeysUnique` | backend/internal/modules/deals/adapters/store_deal_list.go:124-137 | the clause does not depend on map iteration order |
| `DealQueries.LaterArgsKeep` | backend/internal/modules/deals/adapters/store_deal_list.go:141-150 | arguments bound later do not disturb earlier clauses |
| `DealQueries.StalledAreOpen` | backend/internal/modules/deals/adapters/store_deal_list.go:100-106 | the open-status pre-filter followed by the stalled post-filter is the plain filter |
| `DealQueries.ListFiltered` | backend/internal/modules/deals/adapters/store_deal_list.go:198-257 | a page is always a leading part of the rows asked for; page and cursor are right exactly if the fetched rows fill a page or no stalled deal comes after them |
| `DealQueries.PageRightIff` | backend/internal/modules/deals/adapters/store_deal_list.go:198-257 | when the rows fetched suffice for the page and its cursor |
| `DealQueries.StalledPageCutShort` | backend/internal/modules/deals/adapters/store_deal_list.go:198-257 | a page that comes back empty and without a cursor although a stalled deal follows |
| `DealUpdate.BuildUpdate` | backend/internal/modules/deals/adapters/store_deal_update.go:42-119 | for every row the numbered UPDATE changes exactly the supplied columns, names no column twice and guards on the version through its last argument |
| `DealUpdate.DealUpdateCustomSet` | backend/internal/modules/deals/adapters/store_deal_update.go:138-157 | one clause per active column supplied with a fitting value, numbered in step with the arguments |
| `CustomColumns.FitsIff` | backend/internal/platform/customfields/active.go:110-145 | which values fit which columns, and what is stored |
| `CustomColumns.TruncIs` | backend/internal/platform/customfields/active.go:112-117 | a currency value is stored as the whole number on the way to zero |
| `KeysetPaging.WalkIsComplete` | backend/internal/modules/activities/adapters/store_activity_list.go:162-218 | following next-cursors ends, loses no row and repeats none, and every page but the last is full |
| `KeysetPaging.SelectedIsAfter` | backend/internal/modules/activities/adapters/store_activity_list.go:126-156 | cutting off at the cursor in the WHERE clause is cutting the ordered list off after the cursor's row |
| `ActivityList.FeedWalkIsComplete` | backend/internal/modules/activities/adapters/store_activity_list.go:72-218 | the walked pages are exactly the activities shown, in order, for every sort, direction, filter and limit |
| `ActivityList.ListFiltered` | backend/internal/modules/activities/adapters/store_activity_list.go:162-218 | a page is the specified slice; an unknown entity type or an unreadable cursor is refused |
| `ActivityList.ParsePrintedSort` | backend/internal/modules/activities/adapters/store_activity_list.go:42-67 | each of the six ways to sort can be asked for, whatever terms follow |
| `ActivityList.SortIs` | backend/internal/modules/activities/adapters/store_activity_list.go:38-67 | the six sort terms written out; an absent or unknown term means newest first |
| `ActivityList.ShownIff` | backend/internal/modules/activities/adapters/store_activity_list.go:111-132 | what the feed shows, filter by filter |
| `ActivityList.FeedInOrder` | backend/internal/modules/activities/adapters/store_activity_list.go:140-158 | the feed runs by the column asked for and then by id, in the direction asked for, a missing due date being the latest |
| `ActivityList.BadCursorIff` | backend/internal/modules/activities/adapters/store_activity_list.go:79-92 | a cursor is refused exactly if a non-empty part of it does not read |
| `ActivityList.PartialCursor` | backend/internal/modules/activities/adapters/store_activity_list.go:140-158 | nothing lies behind a cursor without a sort value, and only other times behind one without an id |
| `ActivityList.CursorReadsBack` | backend/internal/modules/activities/adapters/store_activity_list.go:198-215 | every cursor the feed issues reads back as the last row's key, a missing due date as infinity |
| `KeysetCursor.DecodeKeysetIff` | backend/internal/shared/kernel/sqlutil/sqlutil.go:93-112 | a cursor token reads back exactly when its sort value holds no NUL |
| `ApprovalsInbox.InboxWalkIsComplete` | backend/internal/modules/approvals/adapters/store.go:131-188 | the walked inbox pages are exactly the items of the workspace, status and kind asked for, in id order |
| `ApprovalsInbox.ListPage` | backend/internal/modules/approvals/adapters/store.go:131-188 | a page is the specified slice; an unreadable cursor is refused |
| `CustomFields.RunKeepsInv` | backend/internal/platform/customfields/create.go:64-136 | over every run each field has its column of the mapped type, a picklist's CHECK admits exactly its non-empty options, no two fields share a column, no column lacks a field, and stored values pass their CHECK |
| `CustomFields.EveryFieldHasItsColumn` | backend/internal/platform/customfields/options.go:33-103 | from empty tables, each field has its own column of its type with a CHECK exactly for a picklist and exactly its options |
| `CustomFields.NothingDisappears` | backend/internal/platform/customfields/lifecycle.go:55-128 | no column or field ever goes away, and type, column and retirement are final |
| `CustomFields.CreateSucceedsIff` | backend/internal/platform/customfields/create.go:64-100 | a valid scalar label is refused exactly if some workspace already has that column |
| `CustomFields.CreateOutcome` | backend/internal/platform/customfields/create.go:64-136 | a field created carries what was asked for under the slug of its label, with its column and one audit row; a fault or refusal leaves nothing |
| `CustomFields.RenameAndRetire` | backend/internal/platform/customfields/lifecycle.go:55-128 | a workspace renames or retires its own fields only, and nothing but label or status changes |
| `CustomFields.SetOptionsSucceedsIff` | backend/internal/platform/customfields/options.go:33-103 | options are set exactly on a workspace's own picklist, to a non-empty list that holds every value stored in the column |
| `CustomFields.StoreOutcome` | backend/internal/platform/customfields/engine.go:226-244 | a value reaches a column exactly if the column is there and its CHECK lists the value |
| `CustomFields.FieldStore.Create` | backend/internal/platform/customfields/create.go:64-136 | ALTER, catalog row and audit row together or not at all |
| `CustomFields.FieldStore.Rename` | backend/internal/platform/customfields/lifecycle.go:55-90 | changes a label only |
| `CustomFields.FieldStore.Retire` | backend/internal/platform/customfields/lifecycle.go:96-128 | changes a status only |
| `CustomFields.FieldStore.SetOptions` | backend/internal/platform/customfields/options.go:33-103 | options and CHECK together or not at all |
| `CustomFieldEngine.Validate` | backend/internal/platform/customfields/engine.go:88-112 | every violation in the order checked |
| `CustomFieldEngine.ViolationsComplete` | backend/internal/platform/customfields/engine.go:84-112 | an error is reported exactly if its field is at fault |
| `CustomFieldEngine.NoViolationIffValid` | backend/internal/platform/customfields/engine.go:84-112 | no error exactly for a valid spec |
| `CustomFieldEngine.DeriveSlugIsSlug` | backend/internal/platform/customfields/engine.go:119-135 | every label gives a non-empty slug of at most forty letters, digits and single inner underscores |
| `CustomFieldEngine.DeriveSlugFixedIff` | backend/internal/platform/customfields/engine.go:124-135 | the slugs are exactly the labels left as they are, so derivation is idempotent |
| `CustomFieldEngine.DeriveSlugIs` | backend/internal/platform/customfields/engine.go:124-135 | the slug is the label's runs of letters and digits in lower case, joined by underscores, "field" without any, cut to forty characters and never at an underscore |
| `CustomFieldEngine.AlnumIff` | backend/internal/platform/customfields/engine.go:114 | the characters a slug keeps, by code point |
| `CustomFieldEngine.LowerIs` | backend/internal/platform/customfields/engine.go:125 | lower-casing of one character, by code point |
| `CustomFieldEngine.CurrencyCodeIff` | backend/internal/platform/customfields/engine.go:99-101 | a currency code is three capital letters |
| `CustomFieldEngine.StructuralIff` | backend/internal/platform/customfields/engine.go:155-169 | a label is refused exactly if one of six phrases stands in it, in whatever case |
| `CustomFieldEngine.ValidSpecBuilds` | backend/internal/platform/customfields/engine.go:203-244 | no valid spec is ever rejected by the DDL builder: it adds cf_ and the slug to the named table with the mapped type, and only a picklist gets a CHECK |
| `CustomFieldEngine.BuildsIff` | backend/internal/platform/customfields/engine.go:143-224 | a statement is built exactly for a known type and names safe to write unquoted, the CHECK's included |
| `RollupMath.RoundIsNearestIff` | backend/internal/modules/deals/domain/rollup.go:9-14 | rounding gives the nearest integer, at a half the one further from zero |
| `RollupMath.RoundIsOdd` | backend/internal/modules/deals/domain/rollup.go:9-14 | rounding is odd |
| `RollupMath.RoundIsMonotone` | backend/internal/modules/deals/domain/rollup.go:9-14 | rounding is monotone |
| `RollupMath.WeightedWithinHalf` | backend/internal/modules/deals/domain/rollup.go:27-29 | a weighted value is within one half of its share of the base value |
| `RollupMath.WeightedWithinOne` | backend/internal/modules/deals/domain/rollup.go:18-29 | through both roundings it is within one of the exact share |
| `RollupMath.WeightedIsBetween` | backend/internal/modules/deals/domain/rollup.go:27-29 | a weighted value keeps the sign and never exceeds the value; zero and certainty are exact |
| `Rollup.TotalWithinCount` | backend/internal/modules/deals/domain/rollup.go:45-54 | the weighted total of n deals is within n of the exact one |
| `Rollup.RowIs` | backend/internal/modules/deals/adapters/store_rollup.go:130-146 | a deal's row: nothing without an amount, the amount itself in the base currency or in none, else its conversion within one half; the weighted value within one half of its share |
| `Rollup.UnweightedWithinHalfCount` | backend/internal/modules/deals/adapters/store_rollup.go:154-161 | the unweighted total of n deals is within n halves of the exact one, and n deals are counted |
| `StageSums.StagesAddUp` | backend/internal/modules/deals/adapters/store_rollup.go:119-167 | the stages' sums and counts add up to the totals |
| `StageSums.StageOrderIs` | backend/internal/modules/deals/adapters/store_rollup.go:148-164 | each stage with a deal is listed once and no other |
| `StageSums.StageOrderByFirst` | backend/internal/modules/deals/adapters/store_rollup.go:148-164 | stages stand in the order of their first deals |
| `Rollup.BuildRollup` | backend/internal/modules/deals/adapters/store_rollup.go:119-167 | all deals convert or the first without a rate is reported; stages in first-appearance order, conserving sums and counts |
| `Rollup.SumRollup` | backend/internal/modules/deals/domain/rollup.go:47-54 | the totals are the sums of the rounded rows |
| `Retention.OrderIrrelevant` | backend/internal/modules/gdpr/adapters/evaluator.go:84-95 | the same items in another order leave the same tables, but for the mark of a person both anonymized and erased, and the same audit rows |
| `Retention.PolicyOrderIrrelevant` | backend/internal/modules/gdpr/adapters/evaluator.go:99-119 | the items selected do not depend on the order of policies or of query rows |
| `Retention.SweepIsSwept` | backend/internal/modules/gdpr/adapters/evaluator.go:84-313 | a supported sweep runs to the end, and each row ends as its items say |
| `Retention.EachItemTakesEffect` | backend/internal/modules/gdpr/adapters/evaluator.go:203-313 | wherever it stands in the sweep, each selected record ends archived, blank or both as its policy says, blank meaning every personal field empty |
| `Retention.WorkItemIff` | backend/internal/modules/gdpr/adapters/evaluator.go:99-200 | a run works on exactly the records that are due under some policy: live, not on hold, older than its days, and an unpromoted lead, an activity or a transcript, a person with no consent and no activity in common with a deal, or a lost deal |
| `Retention.SupportedIff` | backend/internal/modules/gdpr/adapters/evaluator.go:228-301 | which kinds of record can be archived, anonymized and erased |
| `Retention.ErasureIs` | backend/internal/modules/gdpr/adapters/erasure.go:30-205 | what erasing a person does to every table, row by row |
| `Retention.NothingUndone` | backend/internal/modules/gdpr/adapters/evaluator.go:254-313 | no action undoes an earlier one |
| `Retention.PersonDataGoneIff` | backend/internal/modules/gdpr/adapters/erasure.go:30-115 | an anonymized person is free of personal data, email rows included, exactly if also erased or without emails; erased emails are suppressed |
| `Retention.AnonymizedKeepsEmail` | backend/internal/modules/gdpr/adapters/evaluator.go:277-301 | a case where anonymizing keeps an email address |
| `Retention.SweepStopsAtFirstUnsupported` | backend/internal/modules/gdpr/adapters/evaluator.go:228-251 | the first unsupported action ends the sweep with everything before it done |
| `Retention.HeldPersonUntouched` | backend/internal/modules/gdpr/adapters/evaluator.go:165-181 | a person on legal hold is left as it is |
| `Retention.DealsKeepPayload` | backend/internal/modules/gdpr/adapters/evaluator.go:165-186 | no sweep clears a deal's raw payload, and a held deal is left as it is |
| `Retention.HeldLeadUntouchedIff` | backend/internal/modules/gdpr/adapters/erasure.go:58-77 | a lead on legal hold is left as it is exactly if it was blank already or no person converted from it is erased |
| `Retention.HeldLeadBlanked` | backend/internal/modules/gdpr/adapters/erasure.go:58-77 | a held lead blanked by erasing the person converted from it |
| `Retention.RetentionWorker.CollectWorkItems` | backend/internal/modules/gdpr/adapters/evaluator.go:99-119 | every selected record once per policy that selects it |
| `Retention.RetentionWorker.ApplyAction` | backend/internal/modules/gdpr/adapters/evaluator.go:203-251 | statement by statement, one action with its audit row, or an error and no change |
| `Retention.RetentionWorker.EraseNormalized` | backend/internal/modules/gdpr/adapters/erasure.go:30-115 | the updates one after another, lead and links looked up after the person is blanked, come to what reading them first would |
| `Retention.RetentionWorker.ErasePersonData` | backend/internal/modules/gdpr/adapters/erasure.go:147-205 | emails captured before their rows go are suppressed after; the statements in order end in the specified erasure |
| `Retention.RetentionWorker.ProcessWorkspace` | backend/internal/modules/gdpr/adapters/evaluator.go:84-95 | both phases: a sweep over what was selected before the first action |

## Left out

- HTTP handlers, route wiring, configuration, the frontend, generated code, blob storage and the Redis and River
  clients: they carry no property of this kind.
- Real cryptography and JSON encoding: abstract functions, as listed above.
- Row-level security and workspaces: apart from approvals, tokens, custom fields and the list queries, one workspace's
  tables are modelled.
- Failures of the database or the datasource in the middle of a decision: the action of an approved item is not written
  through the decision's transaction, so no rollback of its effect is claimed. An execution is the call of the
  datasource dispatch; which action types it forwards is not modelled.
- The `audit.appended` outbox row that every audited write also leaves
  (`backend/internal/platform/audit/crmaudit.go:110-124`): "one event" in the deal lifecycle and the overnight pass
  counts the gesture's own event.
- DealLifecycle.EveryDealConsistent: does not count the `audit.appended` row each gesture also leaves in the outbox.
- OvernightPass.CompletedPass: audit and event writes fail for a missing workspace id and not otherwise. The audit
  writer's fallback to the caller's tenant does not help then, for row-level security refuses the row. An abort leaves
  the effect's call on record; the rollback of the caller's transaction is not modelled.
- The audit rows of approval decisions and their evidence texts; payloads of deal events and audit rows, which are
  modelled by their kind.
- The wording and date formatting inside close-date evidence and staged messages.
- CloseDatePass.Produce: the per-deal groups are visited in table order where the code ranges over a map;
  `MedianIgnoresOrder` shows that it makes no difference.
- CloseDatePass.DealStore.Update: models the close-date column of the deal update only.
- The deal update inside the lifecycle and the stage history: it can reopen a deal without clearing its closing time
  and reads the stage it moves from after the row has changed.
- Attachments archived with a deal, custom columns and other plain columns of the deal row, and idempotency keys.
- DealQueries.ListFiltered: takes the table in the order of the query's ORDER BY; the sort clause itself and casts that
  fail on malformed ids or unknown custom columns are not modelled.
- Paging over deals, pipelines and stages: their cursor is an id while the order may be another, so walks are not
  complete by design.
- ActivityList.ListFiltered: full-text search is an abstract predicate, and for a cursor with an empty part, which the
  feed never issues, only the refusals are stated.
- Exactly-once effects across the relay: a redelivered decision is dispatched again; only the dispatch of one event is
  stated.
- The traceparent header carried by the relay.
- File access in the gate: a tree is a map from paths to contents, in any order, and paths are compared as they stand.
- CustomFieldEngine.DeriveSlugIsSlug: other letters than A to Z, the dotted capital I and the Kelvin sign are left as
  they are by lower-casing here, which slug derivation cannot tell from their real lower case.
- Quoting of identifiers and literals in DDL: a statement is modelled by what it adds or replaces.
- RollupMath.WeightedWithinOne: over exact reals; floating-point rounding and 64-bit overflow are not modelled.
- Roll-up rates are the stored rates as of the date, given as a map; the lookup by date is not modelled.
- Timestamps and versions of rows the retention sweep writes, and the hash under which an email is suppressed: the
  suppression list holds the addresses themselves.
- Retention.RetentionWorker.ProcessWorkspace: one workspace; the loop over workspaces stops at the first that fails.
