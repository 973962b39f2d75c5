# DiagOps: a verified model of the diagnosis runtime

DiagOps diagnoses incidents with a set of model-driven specialists around a deterministic core.
This project models the core's algorithms and protocols in Dafny and proves what they promise:
in every run, for every input, in every interleaving.

| part | modules |
|---|---|
| the multi-turn agent run, and the validator that re-derives its label | `AgentRun`, `RunValidation`, `RunLabels`, `RunAgreement`, `CleanTurns`, `RunMasks`, `RunAcceptance`, `RunReview`, `RunVerdict`, `RunExamples`, `AgentDriver` |
| durable event streaming with live wake-ups | `EventStream`, `EventProgress`, `EventHubObject` |
| the dependency scheduler | `Scheduler` |
| the dictionary and the table repository | `Repositories`, `RepositoryStores` |
| trace timing, span selection, evidence ordering | `TraceTiming`, `SpanSelection`, `EvidenceOrder` |
| sharing out and shrinking tool history | `ToolHistory` |
| signal ranking, selection, segments, clusters, attributions | `QueueMerge`, `SignalSelection`, `BalancedRounds`, `Runs`, `AnomalySegments`, `Attributions` |
| the metric comparison table | `Comparison`, `ComparisonLaws` |
| the adaptive tool session | `ToolAdmission`, `ToolAdmissionSafety` |
| hybrid arbitration and its review | `HybridArbitration`, `HybridReview`, `ReviewChecks` |
| the publication gate | `PublicationGate`, `PublicationGuarantee`, `PublicationExamples` |
| the payload check with a shared node budget | `PayloadBudget` |
| stable sorting, grouping, round robin | `Sorting`, `Grouping`, `RoundRobin` |
| shared types | `Options`, `Vocabulary` |

`dafny verify dfyconfig.toml` checks the whole project.

## How the model relates to the code

A loop or a mutable object of the program is a method or a class here, and each such method is
proved equal to a function of its inputs or of the old state. The properties are lemmas about
those functions. Code between two suspension points is one step; the steps of different streams,
queries and writers interleave freely.

Times and durations are integers (whole ticks), measured values are reals, and texts that are
only compared appear as their rank in text order. What a model turn returns, which tools
succeed, whether a lease still holds, what redaction or the entity check says, and how long a
page is when rendered are parameters. Ids are distinct wherever the code keys a dictionary by
them; lemmas that need this say so.

## Where the code and the intent differ

The model follows the code. Each of these has a concrete input and an exact condition on what the
caller supplies.

- The validator resolves a first-attempt miss by a later recovery without looking at the round, so
  a specialist that recovers, is asked again and is then silent makes a PARTIAL result unacceptable
  (`RunExamples.SecondSilenceIsRejected`; exactly when: `RunMasks.SecondSilenceIsMasked`).
- The driver's own rule does not look at the step, so an opening coordinator failure of the
  missing-specialist category can be taken for resolved (`RunExamples.CoordinatorMissIsRejected`;
  exactly when: `RunMasks.OpeningMissIsMasked`). Neither of the program's own turn functions returns
  such a turn, nor an error with an empty text; a turn function supplied from outside may.
  For the program's own, the second silence is the only reason left
  (`RunAcceptance.BuiltInRunAccepted`).
- The tables enforce the foreign key on the investigation, the dictionaries have none: saving a row
  before its investigation's record is stopped by the tables and stored by the dictionaries
  (`Repositories.UnrecordedIsStopped`; exactly when: `Repositories.StepAgrees`,
  `Repositories.StoresAgree`).
- An id that another investigation already uses is moved by the tables and kept by the
  dictionaries (`Repositories.SharedIdMoves`; exactly when: `Repositories.SharedIdDiverges`), and
  plan, task or review ids of that kind, or ids repeated within a batch, stop only the tables
  (`Repositories.CollisionsConflict`).
- Expanding in both directions does not enter spans again that the upward pass selected, so it can
  miss descendants (`SpanSelection.BothMissesSibling`; exactly when: `SpanSelection.BothIsComplete`).
- A contradiction that names no cause makes a conflict in which no agent is in conflict
  (`HybridArbitration.NamelessContradictionConflicts`; exactly when:
  `HybridArbitration.ConflictNamesAgents`).
- The publication validators compare candidates by id. A review may list a candidate twice
  (`PublicationExamples.RepeatedCandidateIsPublished`; the counts add up exactly when no decided one
  is: `PublicationGuarantee.PublishedCountsPartition`). A report may carry another content under a
  decided id (`PublicationExamples.ReportedContentIsNotCompared`): its diagnoses are sound if they
  are the admitted entries themselves (`PublicationGuarantee.ReportedEvidenceIsSound`), any other
  content of the same ids is published too (`PublicationGuarantee.ReportContentIsFree`), unusable
  evidence included (`PublicationGuarantee.UnadmittedCanMiscite`). The contents of the review's own
  candidates are not compared with the submission's either
  (`PublicationGuarantee.ReviewContentIsFree`).

## Model

| member | source | states |
|---|---|---|
| `RunAgreement.RunEnds` | backend/diagnosis/agents_runtime.py:971-1232 | for every input of turns, every finished run keeps the record invariants; a failed one holds an unresolved failed task, and a reviewed one is labelled as the validator's rule demands exactly when it is not masked |
| `RunAcceptance.ReviewedRunAccepted` | backend/diagnosis/orchestrator.py:538-702 | a reviewed run is rejected for its review exactly when the checks of the review fail; otherwise it can only be rejected for its status, and is accepted exactly when a specialist's draft was usable, something completed (certain unless the last turn's error text is empty), and its inputs are neither a second silence nor an opening miss |
| `RunAcceptance.BuiltInRunAccepted` | backend/diagnosis/agents_runtime.py:1843-1858 | on the turns that the program's own turn functions return, a reviewed run is accepted exactly when its review passes, a draft was usable and no repaired specialist is silent when asked again |
| `RunVerdict.RunAcceptedExactly` | backend/diagnosis/orchestrator.py:538-702 | the whole verdict on a reviewed run of the program's own turns: accepted exactly when its active findings and the hypotheses carry the review, its evidence semantics hold, some draft was usable, and no repaired specialist is silent when asked again |
| `RunVerdict.RunReviewPasses` | backend/diagnosis/orchestrator.py:549-632 | for every reviewed run the review is built without raising, and passes the validator's rebuild exactly when the run's active findings and the hypotheses carry it |
| `RunVerdict.FindingsAreInOrder` | backend/diagnosis/coordination_review.py:505-538 | a run's revisions never make the search for active findings raise |
| `ReviewChecks.ReviewPassesExactly` | backend/diagnosis/orchestrator.py:578-632 | a built review has candidates, is spoken for by findings or the fallback, and cites existing evidence throughout, exactly when: without a root-cause finding, there are hypotheses, a conflict has a contradiction against one of them, and each cites evidence or is the last of its cause and contradicted; with one, a baseline promoted on its own in a fallback cites evidence |
| `ReviewChecks.RecordedAt` | backend/diagnosis/coordination_review.py:152-175 | recording gives evidence and findings to the last candidate of each contradicted cause and leaves every other candidate as it was |
| `RunAgreement.FailedRunAccepted` | backend/diagnosis/agents_runtime.py:1613-1666 | a run that ends without a review is always accepted as FAILED |
| `RunAcceptance.HonestRunAccepted` | backend/diagnosis/agents_runtime.py:1376-1607 | if the first turn does not call itself a missing specialist and the last turn's error text is not empty, the inputs alone decide: a reviewed run is rejected for its status exactly when no draft was usable or there is a second silence |
| `RunAcceptance.FindingsMean` | backend/diagnosis/agents_runtime.py:1453-1547 | a reviewed run has findings exactly when some draft was usable in the opening turn or, failing that, on the second attempt |
| `RunAcceptance.MaskedLabel` | backend/diagnosis/agents_runtime.py:1111-1232 | a second silence ends labelled PARTIAL, an opening miss COMPLETED |
| `RunMasks.SecondSilenceIsMasked` | backend/diagnosis/orchestrator.py:660-676 | a run is reviewed with every failure resolved although round 2 failed exactly when both attempts and the last turn are clean, the second attempt reaches every specialist the first missed, and the last turn leaves unnamed some of the specialists it asks, all of them repaired ones |
| `RunMasks.OpeningMissIsMasked` | backend/diagnosis/agents_runtime.py:1111-1131 | the driver resolves an opening coordinator failure exactly when that turn made no proposal and filed a missing specialist, and everything after it was clean and answered |
| `CleanTurns.CleanIsOrderly` | backend/diagnosis/agents_runtime.py:1376-1607 | a turn whose drafts are all usable, each specialist at most once, leaves exactly its coordinator's record and one for every requested specialist, completed when named and missing when not; in the first round its findings are the drafts in order |
| `CleanTurns.OnlyMissingIsClean` | backend/diagnosis/agents_runtime.py:1453-1600 | a turn whose failures are all filed as missing specialists had only usable drafts, each specialist at most once |
| `RunAcceptance.HonestIsNotMasked` | backend/diagnosis/orchestrator.py:660-676 | under those conditions a second silence is the only masking kind |
| `RunAgreement.TableMeans` | backend/diagnosis/orchestrator.py:677-702 | the status table accepts a reviewed result exactly when it has findings, something completed, and PARTIAL is claimed exactly when an unresolved failure exists |
| `RunAgreement.DirectLabel` | backend/diagnosis/agents_runtime.py:1134-1232 | without recollection, some record failed exactly when the validator finds an unresolved failure, and nothing is masked |
| `RunAgreement.RecollectedLabel` | backend/diagnosis/agents_runtime.py:1058-1131 | with recollection, the driver's partial flag and the validator's unresolved rule agree exactly when no failure is masked |
| `RunAgreement.WellFormedIsValid` | backend/diagnosis/orchestrator.py:470-536 | the invariants the driver keeps imply the validator's checks on ids within the run, mirrored tasks, cited evidence and revisions |
| `RunExamples.SecondSilenceIsRejected` | backend/diagnosis/orchestrator.py:660-676 | a concrete run of built-in turns whose repaired specialist reports a blocking gap, is asked again by the conflict rule and is silent: its review passes, it is labelled PARTIAL and rejected for its status |
| `RunExamples.CoordinatorMissIsRejected` | backend/diagnosis/agents_runtime.py:1111-1131 | a concrete run whose opening coordinator files its failure as a missing specialist, as only a turn function supplied from outside can, is labelled COMPLETED and rejected for its status |
| `RunReview.FirstRoundIsActive` | backend/diagnosis/coordination_review.py:505-538 | before the second round every finding is active |
| `RunReview.GapsConflict` | backend/diagnosis/coordination_review.py:44-79 | specialists that only report gaps are in conflict exactly when a gap blocks them |
| `RunReview.GapsFallBack` | backend/diagnosis/coordination_review.py:113-213 | with gaps only, the review falls back on its hypothesis, however the run ended |
| `RunValidation.ConsumedKeeps` | backend/diagnosis/agents_runtime.py:1376-1607 | consuming any turn keeps ids unique, every execution mirroring its task, evidence within what was supplied and revisions on the same agent's first-round finding |
| `RunValidation.TakeDraftKeeps` | backend/diagnosis/agents_runtime.py:1453-1547 | one captured draft, whatever it is (unknown, duplicated, invalid or admitted), keeps those invariants |
| `RunLabels.TakeDraftsFacts` | backend/diagnosis/agents_runtime.py:1453-1547 | after any list of drafts: only unusable-output failures were recorded, captured specialists have a finding of this round, and returned specialists are exactly the requested ones that were named |
| `RunLabels.CloseFacts` | backend/diagnosis/agents_runtime.py:1549-1600 | closing the specialists appends one execution each, completed exactly when the specialist has a finding and is not invalid, with the right failure category |
| `RunLabels.PartialMeansFailed` | backend/diagnosis/agents_runtime.py:1376-1607 | a turn is partial exactly when one of the records it appended failed |
| `RunLabels.NonrecoverableLeavesFailure` | backend/diagnosis/agents_runtime.py:1017-1057 | output that stops the run leaves a failed record that the validator does not count as resolved |
| `RunLabels.LayoutRecords` | backend/diagnosis/agents_runtime.py:1376-1607 | every record of a turn carries the turn's round, attempt and step, and a missing-specialist failure means the turn did not name that specialist |
| `AgentDriver.RunResult.ConsumeTurn` | backend/diagnosis/agents_runtime.py:1376-1607 | the loop over drafts and specialists, on the mutable result, computes the turn function |
| `AgentDriver.RunResult.AdmitDraft` | backend/diagnosis/agents_runtime.py:1453-1547 | one pass of that loop: a recorded failure, an invalid mark or a new finding |
| `AgentDriver.RunResult.CloseAll` | backend/diagnosis/agents_runtime.py:1549-1600 | the closing loop records every requested specialist |
| `AgentDriver.RunResult.Append` | backend/diagnosis/agents_runtime.py:2435-2485 | one record adds a task and its execution |
| `AgentDriver.RunResult.Run` | backend/diagnosis/agents_runtime.py:971-1232 | the whole driver, cancellation and timeouts included, computes the run function |
| `AgentDriver.RunResult.RecollectMissing` | backend/diagnosis/agents_runtime.py:1058-1131 | the second attempt asks only for the missing specialists |
| `AgentDriver.RunResult.SynthesizeRun` | backend/diagnosis/agents_runtime.py:1134-1232 | the conflict round, the review and the label |
| `EventStream.StepKeeps` | backend/runtime/event_hub.py:24-146 | every step (commit, publish, dispatch, deliver, subscribe, query, yield, page end, poll, receive, heartbeat, abandon) keeps the protocol invariant of every stream |
| `EventStream.ScheduleKeeps` | backend/runtime/event_hub.py:24-146 | so does every legal interleaving of steps |
| `EventStream.NoGapNoRepeat` | backend/runtime/event_hub.py:92-146 | in every interleaving a stream has yielded a prefix of the durable events after its start, strictly increasing, and its queue never exceeds the bound |
| `EventStream.NoLostWakeUp` | backend/runtime/event_hub.py:64-146 | an open stream that waits with no notice queued, scheduled or on its way has yielded every committed event |
| `EventProgress.OpenStreamCatchesUp` | backend/runtime/event_hub.py:64-146 | from any state of the protocol, an open stream comes to wait with every committed event yielded, by its own steps and the notices already on their way, and by nothing else |
| `EventProgress.ClosedStreamEnds` | backend/runtime/event_hub.py:117-146 | from any state of the protocol, a stream whose subscription was closed reaches the overflow exit by its own steps, whatever it is doing, without being disconnected or abandoned |
| `EventStream.ClosedStreamMoves` | backend/runtime/event_hub.py:24-29 | a stream waiting on a closed subscription has something to receive |
| `EventStream.ReconnectContinues` | backend/runtime/event_hub.py:92-146 | a stream that starts after the last sequence of another one continues it exactly |
| `EventStream.SubscriberIsolated` | backend/runtime/event_hub.py:79-90 | no step of one subscriber, overflow included, changes another stream, a log or another subscription |
| `EventStream.AfterIsSuffix` | backend/runtime/event_hub.py:107-115 | on an increasing log the durable query returns exactly the suffix above its cursor |
| `EventStream.YieldKeeps` | backend/runtime/event_hub.py:117-122 | yielding one event of a page keeps the yielded events one contiguous stretch of the log |
| `EventStream.CommitKeeps` | backend/runtime/event_hub.py:64-77 | a commit leaves an uncovered stream only with a notice on its way |
| `EventHubObject.EventHub.Subscribe` | backend/runtime/event_hub.py:43-52 | the object's method is the subscribe step |
| `EventHubObject.EventHub.Unsubscribe` | backend/runtime/event_hub.py:54-62 | closing removes exactly this subscription, and a run without subscribers leaves the table |
| `EventHubObject.EventHub.PublishSnapshot` | backend/runtime/event_hub.py:64-68 | publishing reads the run's subscribers once |
| `EventHubObject.EventHub.PublishOne` | backend/runtime/event_hub.py:69-77 | a closed subscriber is dropped, an open one gets a scheduled callback |
| `EventHubObject.EventHub.Deliver` | backend/runtime/event_hub.py:79-90 | a full queue closes only its own subscriber |
| `EventHubObject.EventHub.ReadPage` | backend/runtime/event_hub.py:107-115 | one page is read from the cursor on |
| `EventHubObject.EventHub.YieldNext` | backend/runtime/event_hub.py:117-122 | events at or below the cursor are skipped, others move it |
| `EventHubObject.EventHub.EndPage` | backend/runtime/event_hub.py:123-124 | a full page with progress is followed by another query |
| `EventHubObject.EventHub.Poll` | backend/runtime/event_hub.py:126-146 | disconnection and overflow leave the loop and unsubscribe |
| `Scheduler.Run` | backend/diagnosis/execution_engine.py:34-89 | for any graph, every task gets its order-free final status and exactly one execution; the cycle fallback implies a set of tasks that wait for each other, and is never reached on an acyclic graph |
| `Scheduler.Scan` | backend/diagnosis/execution_engine.py:47-72 | one priority scan settles only tasks whose status is decided, and without progress every pending task waits |
| `Scheduler.SkipPending` | backend/diagnosis/execution_engine.py:74-85 | the fallback records exactly the tasks that can never complete |
| `Scheduler.CompletesIsFixpoint` | backend/diagnosis/execution_engine.py:234-258 | a task completes exactly when its tools succeed and every dependency exists and completes |
| `Scheduler.CompletesIsLeast` | backend/diagnosis/execution_engine.py:234-258 | and this is the least such set: no other closed set is smaller |
| `Scheduler.KnotHasNoRank` | backend/diagnosis/execution_engine.py:74-85 | tasks that wait for each other admit no ranking of the graph |
| `Scheduler.RankedPlanHasNoKnot` | backend/diagnosis/execution_engine.py:74-85 | on an acyclic graph no tasks of the sorted plan wait for each other |
| `Scheduler.StuckIsKnot` | backend/diagnosis/execution_engine.py:47-85 | when a scan makes no progress, the pending tasks wait for each other |
| `Scheduler.StuckNeverCompletes` | backend/diagnosis/execution_engine.py:74-85 | and none of them completes under the order-free meaning |
| `Scheduler.BlockedIsSkipped` | backend/diagnosis/execution_engine.py:234-248 | a blocked task has a dependency that never completes |
| `Scheduler.ReadyCompletes` | backend/diagnosis/execution_engine.py:250-258 | a task whose dependencies are all completed in the run has them all in the order-free meaning |
| `Scheduler.SettleNext` | backend/diagnosis/execution_engine.py:49-69 | settling a task keeps one execution for each settled task, and a task that ran did so after all its dependencies had completed |
| `Scheduler.SameMembersStatus` | backend/diagnosis/execution_engine.py:40-48 | the final statuses do not depend on the order of the plan |
| `Scheduler.PlanKeepsTasks` | backend/diagnosis/execution_engine.py:302-303 | sorting by priority keeps the tasks and their distinct ids |
| `Repositories.StoresAgree` | backend/db/sqlite_repository.py:135-182 | on any sequence of saves and activations with ids of their own, tables and dictionaries give the same answers exactly when every step refers to an investigation with a record by then, inserts nothing or is refused; and then rows grouped by investigation and dictionaries hold the same content |
| `Repositories.RecordsFirstAgree` | backend/db/sqlite_repository.py:60-129 | in particular when each investigation's record is saved before anything else of it |
| `Repositories.StepAgrees` | backend/db/session.py:30-47 | one operation with ids of its own gets the same answer from both stores exactly when its investigation has a record, it inserts no row or it is refused; otherwise the dictionaries save and the tables, whose foreign keys are enforced, undo it |
| `Repositories.UnanswerableDiverges` | backend/db/schema.py:112-190 | and in that case the contents part as well |
| `Repositories.RunRooted` | backend/db/schema.py:112-190 | whatever the operations and their ids, every row of the tables belongs to an investigation with a record |
| `Repositories.UnrecordedIsStopped` | backend/db/sqlite_repository.py:485-507 | a concrete execution saved before its investigation: the dictionaries keep it, the tables refuse it |
| `Repositories.SharedIdDiverges` | backend/db/sqlite_repository.py:960-969 | upserting a batch keeps the stores the same exactly when none of its ids is stored under another investigation |
| `Repositories.SharedIdMoves` | backend/db/sqlite_repository.py:960-969 | a concrete execution saved for two recorded investigations: neither store objects, the table moves it, the dictionaries keep both |
| `Repositories.CollisionsConflict` | backend/db/sqlite_repository.py:421-479 | an operation that is not refused is stopped by the tables exactly when a batch repeats an id, a plan, task or review id is stored under another investigation, or a row is inserted for an investigation without a record; the dictionaries never stop one |
| `Repositories.UpsertAgrees` | backend/db/sqlite_repository.py:960-969 | delete-then-insert of a batch merges it into its investigation's bucket |
| `Repositories.ReplaceSdkAgrees` | backend/db/sqlite_repository.py:838-856 | deleting SDK rows and inserting the result keeps the custom items of the bucket |
| `Repositories.ReplaceTasksAgrees` | backend/db/sqlite_repository.py:918-937 | replacing the task rows of one investigation replaces exactly its list, order included |
| `Repositories.SaveReviewAgrees` | backend/db/sqlite_repository.py:673-695 | a review replaces the investigation's review in both stores |
| `Repositories.SaveResultAgrees` | backend/db/sqlite_repository.py:710-771 | foreign keys aside, saving a whole multi-agent result merges findings and executions and keeps or drops the review alike |
| `Repositories.ActivateAgrees` | backend/db/sqlite_repository.py:135-182 | activating a projection clears the same rows and entries |
| `Repositories.ItemsOfIsBucket` | backend/db/repositories.py:424-463 | the rows of one investigation read back as its bucket |
| `Repositories.TasksOfIsById` | backend/db/repositories.py:341-353 | the task rows read back as the task list by id |
| `Repositories.ReviewRowIsReview` | backend/db/sqlite_repository.py:773-784 | the review row found for an investigation is the stored review |
| `RepositoryStores.InMemoryRepository.SaveMultiAgentResult` | backend/db/repositories.py:477-529 | the dictionary updates compute the memory operation |
| `RepositoryStores.InMemoryRepository.SaveFindingList` | backend/db/repositories.py:424-461 | the same for findings, with the linkage checks before any write |
| `RepositoryStores.InMemoryRepository.ActivateProjection` | backend/db/repositories.py:191-231 | the same for activation |
| `RepositoryStores.SqliteRepository.SaveMultiAgentResult` | backend/db/sqlite_repository.py:710-771 | the delete and insert statements compute the table operation, duplicate keys and missing records included |
| `RepositoryStores.SqliteRepository.SaveFindingList` | backend/db/sqlite_repository.py:605-666 | the same for findings |
| `RepositoryStores.SqliteRepository.ActivateProjection` | backend/db/sqlite_repository.py:135-182 | the same for activation |
| `RepositoryStores.SqliteRepository.SaveTaskList` | backend/db/sqlite_repository.py:468-479 | the same for the task list |
| `RepositoryStores.SqliteRepository.SaveCoordinationReview` | backend/db/sqlite_repository.py:673-695 | the same for a review |
| `TraceTiming.WithChildTiming` | backend/providers/trace_timing.py:8-53 | every span gets a timing exactly when it has accepted children and is uniquely identified; covered is the measure of the union of their intervals, covered plus uncovered is the duration, the longest child is a longest one and the peer is the only one |
| `TraceTiming.Sweep` | backend/providers/trace_timing.py:33-37 | the sweep over sorted intervals returns the measure of their union |
| `TraceTiming.SweepStep` | backend/providers/trace_timing.py:35-37 | one interval adds exactly the ticks it does not share with those before it |
| `TraceTiming.UnionMeans` | backend/providers/trace_timing.py:33-37 | the union holds exactly the ticks inside some interval |
| `TraceTiming.UnionIsCovered` | backend/providers/trace_timing.py:18-37 | the intervals collected for a span cover exactly the ticks some accepted child is busy |
| `TraceTiming.CoverageBounds` | backend/providers/trace_timing.py:33-46 | covered lies between the longest child and the smaller of the span's duration and the children's sum |
| `TraceTiming.Index` | backend/providers/trace_timing.py:10-15 | the index lists under each parent exactly its children, and counts every identity |
| `TraceTiming.ObserveChildren` | backend/providers/trace_timing.py:18-29 | the loop over candidate children keeps exactly the accepted ones and their offsets |
| `TraceTiming.OnlyPeer` | backend/providers/trace_timing.py:38-43 | a peer is reported exactly when there is only one |
| `TraceTiming.UniqueIsOne` | backend/providers/trace_timing.py:11-13 | an identity counted once belongs to one span |
| `SpanSelection.ExpandSelection` | backend/providers/local_package.py:572-604 | on any parent links, cyclic ones included, the result is sorted, without repeats, and holds exactly the spans chosen for the direction |
| `SpanSelection.UpwardPass` | backend/providers/local_package.py:580-591 | the upward worklist ends with exactly the anchors and everything above one |
| `SpanSelection.DownwardPass` | backend/providers/local_package.py:592-603 | the downward worklist ends with exactly the base and what an anchor reaches through spans not selected before |
| `SpanSelection.DownstreamIsBelow` | backend/providers/local_package.py:592-603 | DOWNSTREAM selects exactly the anchors and all their descendants |
| `SpanSelection.BothIsSound` | backend/providers/local_package.py:572-604 | BOTH selects every ancestor and nothing that is neither above nor below an anchor |
| `SpanSelection.BothIsComplete` | backend/providers/local_package.py:572-604 | BOTH selects every descendant exactly when each child of a span that lies both above and below an anchor, without being one, is itself above an anchor |
| `SpanSelection.SkippedChild` | backend/providers/local_package.py:592-603 | the downstream pass never selects a child of such a span |
| `SpanSelection.BothMissesSibling` | backend/providers/local_package.py:572-604 | a concrete tree on which BOTH misses a descendant |
| `EvidenceOrder.OrderingPermutes` | backend/diagnosis/adaptive_tools.py:1111-1167 | the ordering is a permutation of the evidence, and every item that is not trace evidence keeps its place |
| `EvidenceOrder.OrderTraceEvidence` | backend/diagnosis/adaptive_tools.py:1111-1167 | grouping, contrast, promotion, flattening and refilling in loops compute that ordering |
| `EvidenceOrder.ContrastedPermutes` | backend/diagnosis/adaptive_tools.py:1142-1150 | the two-ended interleave permutes its queue |
| `EvidenceOrder.QueuesAreRanked` | backend/diagnosis/adaptive_tools.py:1139-1140 | before the contrast, every queue is in order of falling priority and the queues stand in that order of their first items |
| `EvidenceOrder.Contrast` | backend/diagnosis/adaptive_tools.py:1142-1150 | the two-pointer loop computes the interleave |
| `EvidenceOrder.PromotedLeads` | backend/diagnosis/adaptive_tools.py:1151-1164 | in a successful operation that also fails elsewhere, a fastest call leads the queue and the rest keeps its order |
| `EvidenceOrder.RefilledKeepsSlots` | backend/diagnosis/adaptive_tools.py:1166-1167 | each trace slot takes an item of the flattened queues, each other slot keeps its own |
| `EvidenceOrder.Refill` | backend/diagnosis/adaptive_tools.py:1166-1167 | the iterator over the flattened queues is never asked for more than it has |
| `EvidenceOrder.ArrangedKeepItems` | backend/diagnosis/adaptive_tools.py:1139-1164 | sorting, contrast and promotion keep the bag of all queues |
| `RoundRobin.FlattenPermutes` | backend/diagnosis/adaptive_tools.py:1164-1165 | flattening by rounds loses and repeats nothing |
| `RoundRobin.Flatten` | backend/diagnosis/adaptive_tools.py:1164-1165 | the nested comprehension is that flattening |
| `Grouping.GroupsKeepItems` | backend/diagnosis/adaptive_tools.py:1129-1138 | grouping by first appearance gives nonempty groups with different keys that hold every item once, under its own key |
| `ToolHistory.SharesAreFair` | backend/diagnosis/adaptive_tools.py:1256-1262 | on lengths in order, the loop's shares are nondecreasing, within the lengths, use all the room there is a need for, and no output gets more than one character above one that was cut |
| `ToolHistory.HistoryShares` | backend/diagnosis/adaptive_tools.py:1253-1262 | above the limit the outputs share exactly 6000 characters in this way |
| `ToolHistory.HandOutMeans` | backend/diagnosis/adaptive_tools.py:1256-1262 | the allocation loop over the sorted indices hands out exactly those shares |
| `ToolHistory.Allocate` | backend/diagnosis/adaptive_tools.py:1256-1262 | the loop itself, on a dictionary of allowances |
| `ToolHistory.CompactHistory` | backend/diagnosis/adaptive_tools.py:1235-1267 | within the limit the history is returned as it is; beyond it every output is cut to its share and every other entry stays |
| `ToolHistory.BoundedResponse` | backend/diagnosis/adaptive_tools.py:1170-1232 | a page that does not fit is reordered and compacted, then loses as few items from its end as makes it fit |
| `ToolHistory.BoundedMeans` | backend/diagnosis/adaptive_tools.py:1219-1231 | the bounded page fits or is empty, is a prefix of the ordered page, and its counters account for every omitted item |
| `QueueMerge.MergedKeepsQueues` | backend/diagnosis/signal_semantics.py:296-303 | restricted to one queue, a merge is that queue in its own order |
| `QueueMerge.MergedTakesLeastHead` | backend/diagnosis/signal_semantics.py:296-303 | every emitted item is minimal under the common key among the heads then available, the earliest queue first on ties |
| `QueueMerge.RankingPermutes` | backend/diagnosis/signal_semantics.py:276-303 | splitting, sorting and merging permutes the items |
| `QueueMerge.Merge` | backend/diagnosis/signal_semantics.py:296-303 | the loop that pops the best head computes the merge |
| `SignalSelection.FamilyRankingMeans` | backend/diagnosis/signal_semantics.py:276-303 | a family's ranking permutes it and keeps each basis in its own sorted order |
| `SignalSelection.FamilyHeadsCompareSupport` | backend/diagnosis/signal_semantics.py:306-326 | strengths of different bases are never compared: each item precedes the next item of every basis by support, onset and identity |
| `SignalSelection.SelectionSize` | backend/diagnosis/signal_semantics.py:155-196 | the selection has exactly as many items as there are merged observations, up to the limit |
| `SignalSelection.SelectionIsBalanced` | backend/diagnosis/signal_semantics.py:155-196 | it takes a prefix of each family's ranking; an earlier family has at least the smaller of its size and a later one's count, a later one at least that of its size and an earlier one's count minus one; and with room for all families each is reached |
| `SignalSelection.Select` | backend/diagnosis/signal_semantics.py:182-196 | the round-robin loop computes the selection |
| `SignalSelection.QueuesHoldFamilies` | backend/diagnosis/signal_semantics.py:165-180 | every merged observation is in exactly one queue, that of its family |
| `SignalSelection.FamiliesInPriority` | backend/diagnosis/signal_semantics.py:234-239 | the queues come in coverage priority |
| `SignalSelection.LeastIsLeast` | backend/diagnosis/signal_semantics.py:220-228 | the representative of an observation has the smallest sort key of its group |
| `SignalSelection.NamesMean` | backend/diagnosis/signal_semantics.py:220-228 | the merged names are the different nonempty names of the group, in order |
| `BalancedRounds.FirstRoundsAreBalanced` | backend/diagnosis/signal_semantics.py:182-196 | stopping round-robin at any limit leaves balanced prefixes of the queues |
| `BalancedRounds.TakeRounds` | backend/diagnosis/signal_semantics.py:182-196 | the loop with its early exit computes the first items in rounds |
| `AnomalySegments.SegmentsAreMaximalRuns` | backend/diagnosis/signal_semantics.py:105-152 | the segments are the maximal runs of anomalous points, in order, and their counts sum to the number of anomalous points |
| `AnomalySegments.SegmentMeans` | backend/diagnosis/signal_semantics.py:199-217 | a segment spans its first to last point, counts them, and its strength is the largest deviation capped at ten, always between one and ten |
| `AnomalySegments.MedianSplits` | backend/diagnosis/signal_semantics.py:115-132 | at least half of the values lie at or below the median that gives the baseline and the gap limit, and at least half at or above it |
| `AnomalySegments.DetectSegments` | backend/diagnosis/signal_semantics.py:105-152 | the scan with its open run computes the segments |
| `Runs.SpansAreMaximal` | backend/diagnosis/signal_semantics.py:136-152 | cutting point by point gives runs without unflagged points or long gaps, with one or the other between neighbours |
| `Runs.RunsAreUnique` | backend/diagnosis/signal_semantics.py:136-152 | there is only one way to cut a series into maximal runs |
| `Runs.RunsHoldAll` | backend/diagnosis/signal_semantics.py:136-152 | the runs hold as many points as are flagged |
| `Attributions.ClustersMean` | backend/diagnosis/coordination_review.py:400-416 | time clusters concatenate to the sorted evidence, none is empty, and gaps above the threshold are exactly at cluster boundaries |
| `Attributions.ClusterByTime` | backend/diagnosis/coordination_review.py:400-416 | the loop that opens and extends clusters computes them |
| `Attributions.ClustersKeepItems` | backend/diagnosis/coordination_review.py:381-397 | segment-aware clustering loses and repeats nothing |
| `Attributions.SegmentsStayApart` | backend/diagnosis/coordination_review.py:381-397 | each segment has one cluster of its own, and evidence without a segment is never mixed in |
| `Attributions.AttributionRankingMeans` | backend/diagnosis/coordination_review.py:289-323 | the attribution ranking is a permutation that keeps each cohort in its own sorted order |
| `Attributions.CohortHeadsCompareSupport` | backend/diagnosis/coordination_review.py:326-378 | each attribution precedes the next one of every cohort by support, onset and text, never by score |
| `Attributions.RankAttributions` | backend/diagnosis/coordination_review.py:289-323 | the loop over cohort heads computes the ranking |
| `ComparisonLaws.ComparisonIsLossless` | backend/diagnosis/evidence_comparison.py:44-127 | whatever is stripped from an item is in a row of the item's own group that cites it, with its profile over the group's buckets; every citation is a real observation of the cited item, with its means and their difference; at most 6 groups of at most 32 rows |
| `ComparisonLaws.NothingOmittedMovesAll` | backend/diagnosis/evidence_comparison.py:87-127 | if nothing was left out of the table, every item with complete observations was stripped |
| `ComparisonLaws.StepSound` | backend/diagnosis/evidence_comparison.py:51-127 | one item keeps the table sound, only grows it, and is left alone or moved |
| `ComparisonLaws.PlaceReal` | backend/diagnosis/evidence_comparison.py:87-115 | placing an observation keeps every citation founded, within one basis of units |
| `ComparisonLaws.PlaceAllCarries` | backend/diagnosis/evidence_comparison.py:87-115 | when all observations of an item were placed, each is in a row that cites the item |
| `Comparison.CompareEvidence` | backend/diagnosis/evidence_comparison.py:44-127 | the nested loops over items and observations compute the table |
| `Comparison.PlaceObservations` | backend/diagnosis/evidence_comparison.py:87-115 | the inner loop, with its cited, full and incomplete cases |
| `ToolAdmissionSafety.EveryRunIsSafe` | backend/diagnosis/adaptive_tools.py:359-640 | in every interleaving of queries, outcomes and record writes, admissions stay within both limits, no fingerprint is admitted twice, and a second attempt follows the first one's failed record |
| `ToolAdmissionSafety.AtMostTwoAttempts` | backend/diagnosis/adaptive_tools.py:537-640 | no query starts more than two provider attempts |
| `ToolAdmissionSafety.RemainingIsHonest` | backend/diagnosis/adaptive_tools.py:286-295 | when the shown number of remaining calls is positive, that many further queries of any agents meet no budget refusal, on entry or before a retry, however they interleave |
| `ToolAdmissionSafety.FreshQueryRefused` | backend/diagnosis/adaptive_tools.py:520-532 | a fresh query is refused for the budget exactly when its agent's count or the total is used up, and never while the shown number is positive |
| `ToolAdmissionSafety.StepWithinBudget` | backend/diagnosis/adaptive_tools.py:376-379 | each step keeps admissions within what was counted and within the limits |
| `ToolAdmissionSafety.StepRetryFollows` | backend/diagnosis/adaptive_tools.py:592-617 | each step keeps the order of record and retry |
| `ToolAdmission.AdaptiveToolSession.Invoke` | backend/diagnosis/adaptive_tools.py:359-535 | the checks in order, from the deadline to the budget, and admission |
| `ToolAdmission.AdaptiveToolSession.RecordFailureAndRetry` | backend/diagnosis/adaptive_tools.py:592-617 | the failed record is written before the budget is checked again |
| `ToolAdmission.AdaptiveToolSession.RemainingToolCalls` | backend/diagnosis/adaptive_tools.py:286-295 | the property computes the smallest of the limits left, and never less than zero |
| `HybridArbitration.AgreementMeans` | backend/diagnosis/coordination_review.py:82-110 | AGREEMENT exactly when the run completed, the baseline is valid, the concluding agents all concluded its cause and nothing active contradicts it |
| `HybridArbitration.AgentLeadsMeans` | backend/diagnosis/coordination_review.py:82-110 | AGENT_LEADS exactly when the run completed without a valid baseline, at least two agents concluded, all one cause, and nothing active contradicts it |
| `HybridArbitration.ConflictNamesAgents` | backend/diagnosis/coordination_review.py:44-110 | in a CONFLICT the conflicting agents are none exactly when there is no valid baseline, at most one concluded cause, no contradiction of it and no blocking gap |
| `HybridArbitration.NamedContradictionsNameAgents` | backend/diagnosis/coordination_review.py:44-110 | when every active contradiction names a cause, a CONFLICT names an agent |
| `HybridArbitration.NamelessContradictionConflicts` | backend/diagnosis/coordination_review.py:44-110 | a concrete CONFLICT without parties: a contradiction that names no cause |
| `HybridArbitration.SelectedMeans` | backend/diagnosis/coordination_review.py:563-575 | without a valid baseline the selected cause is exactly the one at least two agents concluded and every other has fewer |
| `HybridArbitration.ActiveMeans` | backend/diagnosis/coordination_review.py:505-538 | active findings are the SDK findings no revision replaces, and a revision replaces a first-round finding of the same agent and investigation |
| `HybridArbitration.ConclusionsMean` | backend/diagnosis/coordination_review.py:541-556 | each agent with a conclusion is represented once, by its latest one |
| `HybridArbitration.ConclusionIsLast` | backend/diagnosis/coordination_review.py:541-556 | an agent's conclusion is its latest, and among equally late ones the one that comes last |
| `HybridArbitration.CollectConclusions` | backend/diagnosis/coordination_review.py:541-556 | the loop over findings computes the conclusions |
| `HybridArbitration.FindConflicting` | backend/diagnosis/coordination_review.py:44-79 | the growing set of agents is the conflicting agents |
| `HybridReview.SelectedRanksFirst` | backend/diagnosis/coordination_review.py:113-213 | ranks are 1 to n, and whenever a cause is selected its candidate has rank 1 |
| `HybridReview.ContradictionsAreKept` | backend/diagnosis/coordination_review.py:152-175 | every active contradiction whose cause has a candidate or a hypothesis is listed, with its evidence, against a candidate of that cause |
| `HybridReview.PromotionPermutes` | backend/diagnosis/coordination_review.py:176-195 | promotion reorders the candidates and adds at most one, for a selected cause that had none |
| `HybridReview.ConcludedIsBuilt` | backend/diagnosis/coordination_review.py:578-617 | a concluded cause always has a candidate |
| `HybridReview.SupportIsListed` | backend/diagnosis/coordination_review.py:578-643 | every active root-cause finding supports a candidate of its cause that lists the finding and all its evidence |
| `HybridReview.BuiltFalls` | backend/diagnosis/coordination_review.py:600-603 | candidates built from findings stand in order of falling confidence |
| `HybridReview.BuildReview` | backend/diagnosis/coordination_review.py:113-213 | the loops that append, record, promote and rank compute the review |
| `PublicationGuarantee.PublishedCandidatesPartition` | backend/domain/v11_contracts.py:71-103 | when all three validators accept a final conclusion, the diagnoses are the decided candidates in decided order, each once, and with the alternatives they partition the review's candidate ids |
| `PublicationGuarantee.PublishedDiagnosisIsSound` | backend/diagnosis/result_validation.py:146-285 | each diagnosis has exactly one assessment, an ACCEPT with the seven checks once each, none failed, mechanism and symptom passed when the conclusion is firm, all on usable evidence of the same run; so does the admitted candidate, on two items when partial |
| `PublicationGuarantee.PublishedDecisionIsSound` | backend/diagnosis/result_validation.py:214-312 | the decision is the critic's, on usable evidence, after a completed critic review and lead adjudication of the final round; a tentative one is partial |
| `PublicationGuarantee.PublishedCountsPartition` | backend/domain/v11_contracts.py:71-103 | diagnoses and alternatives count every listed candidate exactly when no decided candidate is listed twice |
| `PublicationGuarantee.ReportedEvidenceIsSound` | backend/domain/v11_contracts.py:71-103 | if each reported diagnosis is, content and all, an admitted candidate of the submission, its evidence is usable and of the run, two items when the report is partial |
| `PublicationGuarantee.AdmittedReportIsUnique` | backend/domain/v11_contracts.py:88-103 | exactly one list of diagnoses meets that condition: the admitted entries of the decided ids in decided order |
| `PublicationGuarantee.ReportContentIsFree` | backend/domain/v11_contracts.py:88-103 | a published report can be shown with other diagnoses and alternatives exactly when their ids are the same in the same order |
| `PublicationGuarantee.UnadmittedCanMiscite` | backend/domain/v11_contracts.py:88-103 | whatever is published, each of its diagnoses can be given a content that cites unusable evidence and is published all the same |
| `PublicationGuarantee.ReviewContentIsFree` | backend/diagnosis/result_validation.py:198-199 | the review's own candidates are compared with the submission's by id only: any list of the same ids with onsets in order is published as well |
| `PublicationGuarantee.DecidedAssessmentIsSound` | backend/diagnosis/result_validation.py:315-359 | the assessment checks and the decision checks compose to one sound assessment for each decided candidate |
| `PublicationGuarantee.CoverMeansOnce` | backend/diagnosis/result_validation.py:315-341 | as many entries as candidates, covering all, means each exactly once |
| `PublicationGuarantee.PublishedPassedAll` | backend/domain/agent_findings.py:286-343 | the early exits of the result check cannot lead to publication |
| `PublicationExamples.RepeatedCandidateIsPublished` | backend/diagnosis/result_validation.py:198-199 | a concrete review that lists its decided candidate twice passes all three validators |
| `PublicationExamples.ReportedContentIsNotCompared` | backend/domain/v11_contracts.py:88-103 | a concrete report whose diagnosis cites unusable evidence passes, because only ids are compared |
| `PublicationGate.ValidateSupplementalTasks` | backend/diagnosis/result_validation.py:362-388 | the loop that links round-two tasks to assessments decides as the set of linked tasks does |
| `PayloadBudget.CheckMeans` | backend/domain/runtime.py:1063-1125 | a value is accepted exactly when the counter leaves room for its whole tree of at most 128 nodes and every value is within its own limits; acceptance adds exactly the node count |
| `PayloadBudget.Budget.Validate` | backend/domain/runtime.py:1063-1125 | the recursion that shares the mutable counter computes verdict and counter, the first error included |
| `PayloadBudget.ValidatePayload` | backend/domain/runtime.py:1063-1073 | a new counter accepts exactly the trees within all limits |
| `Sorting.SortIsSorted` | backend/diagnosis/signal_semantics.py:284-294 | sorting by a key gives the same items in key order |

## Left out

- Split-phase runs: `review_conflicts`, `synthesize` and stopping after the specialists reuse the turn functions and add persistence between phases.
- The adaptive strategy of the agent run: tool tasks materialised after the label is chosen can add failed tasks.
- Executions that a turn function returns itself: both built-in turn functions return none.
- RunAcceptance.ReviewedRunAccepted: the validator's checks of the review enter as one verdict; `RunVerdict.RunAcceptedExactly` replaces it by the rebuilt review's own checks and leaves only the evidence semantics as a verdict. When the last turn carries an error with an empty text, which the program's own turn functions never return, whether something completed is read off the run's records. Re-validation of typed records against their own schemas is left out.
- RunVerdict.RunAcceptedExactly: fields of the review that the validator compares with the summary (investigation, layer, provider, model, run status) are written by the driver from the same values and are not modelled; nor are its root-cause attributions.
- RunAgreement.WellFormedIsValid: that new ids differ from the stored ones, and that records carry the SDK layer and the run's investigation, which the driver writes as constants, are not modelled.
- Scheduler.Run: what a task's tools give back is a fixed input, so retries inside one tool call, tool-call records and context facts are not modelled.
- EventStream.NoLostWakeUp: threads, event loops and heartbeat durations are not modelled; a heartbeat may happen at any time, and the store returns the lowest sequences first.
- EventHubObject.EventHub.Subscribe: subscriptions are entries of one object's table, keyed by an identity, not separate heap objects.
- SQL text, transactions, row order by timestamp, context facts, tool calls, memory items and react traces of the repositories.
- TraceTiming.WithChildTiming: rounding of milliseconds; offsets are whole ticks.
- `select_trace_spans`: filters and sorts around the expansion.
- ToolHistory.CompactHistory: the rendered size is an arbitrary function of the page and an item's compaction an arbitrary function of the item; the total size after compaction is not bounded by the code either.
- ToolHistory.BoundedMeans: sharing one trace explanation for a page happens before the page is measured and is not modelled.
- Comparison.CompareEvidence: the sharing of trace explanations, text normalisation of times and the table's fixed rule text; numbers are integers, so a difference is always a number.
- AnomalySegments.DetectSegments: floating-point rounding in medians and ratios.
- Attributions.RankAttributions: the cluster score, component and reason texts are given with each attribution.
- ToolAdmission.AdaptiveToolSession.Invoke: query parsing, scope and permission checks are verdicts of the request; the evidence a query returns, idempotency keys and the parallel-step gate are not modelled.
- ToolAdmissionSafety.EveryRunIsSafe: a cancelled query may close its record twice; the number of terminal records is not stated.
- `RetryCoordinator` with other retry counts and its backoff delays: the session always uses one retry.
- HybridReview.BuildReview: the semantic evidence checks before and after, and summary and rationale texts.
- PublicationGate.ResultVerdict: the finding and tool-call checks before the review checks, text safety and entity scope enter as verdicts; field length limits are not modelled.
- The persistent runtime store, writer, leases, checkpoints, replay and phase executor are not part of this model.
- Web routes, the front end, settings, model clients, prompts, metric classification by name and RCA scoring: input, output, constants or small tables.
