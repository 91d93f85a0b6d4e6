# Verification of the Yorishiro protocols

Yorishiro is a schema-driven knowledge store. This project models the parts of it that are small protocols over
database tables, and the self-contained scripts around its tests, and proves what every run of them keeps. It is written in
Dafny 4.11; `dafny verify dfyconfig.toml` checks all of it.

How the model is laid out:

- **Schema forks** (`fork_graph`, `schema_forks`, `fork_history`, `fork_protocol`, `fork_updates`): the fork graph, the
  operations on fork, head and schema rows as a class, all runs of these operations, and `create` and `update` again as
  interleaved transactions on both backends.
- **Infer-fill** (`inference_store`, `inference_proposals`, `confirm_theory`, `confirm_outcome`, `inference_protocol`,
  `retried_job`, `infer_fill`, `infer_fill_outcome`): job and proposal rows, the `confirm` loops, what a confirm means and
  which rows it leaves, every run of the two coupled machines by any number of workers, one such run by example, and the
  work of one delivery and what it proposes.
- **Test receipts** (`name_order`, `test_plan`, `plan_laws`, `test_receipts`, `test_topology`, `topology_laws`,
  `test_execution`, `receipt_laws`): the plan validation, the receipt checker, the environment and filter of a test process,
  the receipt producer, and what plans, environments, accepted receipts and passed jobs say column by column.
- **Comment and string blanker** (`strip_code`, `strip_code_theory`, `lexeme_theory`): the lexer's loops, what its output
  keeps, and which texts are comments and literals.
- **Reindex scheduler** (`reindex_interval`, `interval_weights`, `reindex_schedules`): the interval reader with its grammar
  and the worth of its units, the tick, and runs.
- **Credit ledger** (`credit_ledger`): the ledger, and its interleaved transactions on both backends.
- **Triggers** (`embedding_triggers`): the full-text mirror and the revision triggers of both backends.

State that the source updates in place is a class whose methods are proved against functions of the old state; the lemmas
about runs speak of these functions, and a `Perform` method shows that a step of a run is a call of the class. What such a
function does is stated a second time in plain rows, columns and constants that do not mention it, and the two are proved to
agree. Reads, writes and clocks that come from outside are parameters. No proof relies on automatic induction: every lemma
switches it off, and a proof by induction calls the lemma itself on something smaller.

## What does not hold as one might expect

Each of these is stated with the input that shows it and with the exact condition under which the code does what is expected.

- `scan` numbers lines with `splitlines`, but the blanker keeps only newlines: a form feed or another such line break inside
  a comment shifts later findings (`SplitLinesSurviveExactlyWhen`, `FormFeedInACommentShiftsLines`). A lone carriage return
  would do the same, but `check_tree` reads its files as text, which turns it into a newline.
- The version of a new fork head is the newest plus one in 32 bits, so at the top of the range an update installs the oldest
  version (`UpdateInstallsNewestExactlyWhen`, `VersionWrapsAround`).
- `confirm` tests only the schema of the first proposal of an entity. After a takeover under a newer schema a proposal for an
  archived version can be confirmed, and of two proposals for one field only one value is stored
  (`ConfirmedProposalsAreCurrentExactlyWhen`, `ConfirmedValuesAreStoredExactlyWhen`,
  `TakenOverJobConfirmsAnArchivedProposal`).
- The `proposed` column of a completed job need not count its proposals, because they are committed before the job is
  completed (`ProposedCountsTheRowsExactlyWhen`; the run of `TakenOverJobConfirmsAnArchivedProposal` shows it).
- `perform_job` reads the attempt again after its claim, and a failed attempt can be resumed, so two workers can carry one
  attempt number (`WorkersShareExactlyWhen`, `TwoWorkersShareAnAttempt`, `ResumedAttemptIsSharedToo`).
- A scheduler tick can answer with an error after it has committed (`ErrorAfterCommitExactlyWhen`,
  `ErrorHidesACommittedTick`).
- Moving a provider key to another workspace raises the revision of the new workspace only
  (`SameProviderRevisionMeansSameKeyExactlyWhen`, `MovedKeyLeavesTheRevision`).

Where documentation and code differ the model follows the code: a comment in `create` credits one transaction-wide lock
with making the cycle search atomic, but on SQLite that lock does nothing and the rule for stale writes does the work.

## Model

| member | source | states |
|---|---|---|
| ForkGraph.AddingEdgeKeepsAcyclic | ee/models/workspace_schema_forks.rs:385-403 | an acyclic graph stays acyclic under a new edge if and only if the new edge's source could not reach its target |
| ForkGraph.PathWithOneMoreEdge | ee/models/workspace_schema_forks.rs:389-403 | a path over one more edge either avoids it or splits at it into old paths |
| ForkGraph.ExhaustedSearchMeansUnreachable | ee/models/workspace_schema_forks.rs:391-403 | a search with nothing pending that never met the target proves the target unreachable |
| SchemaForks.ForkStore.ForkEdges | ee/models/workspace_schema_forks.rs:147-185 | lists the source of every edge out of the workspace and nothing else |
| SchemaForks.ForkStore.FindsCycle | ee/models/workspace_schema_forks.rs:389-403 | the worklist loop terminates on every edge relation and reports a cycle if and only if the target is reachable from the source |
| SchemaForks.ForkStore.FindNextVersion | ee/models/workspace_schema_forks.rs:233-248 | the newest stored version of the name plus one, in 32-bit arithmetic |
| SchemaForks.ForkStore.FindLatestSource | ee/models/workspace_schema_forks.rs:108-145 | the active source schema with the newest version, if there is one |
| SchemaForks.NextComesNext | ee/models/workspace_schema_forks.rs:233-248 | the next version is 1 for a new name, and otherwise the largest stored version plus one, or the smallest 32-bit integer after the largest |
| SchemaForks.LatestIsNewestActive | ee/models/workspace_schema_forks.rs:108-145 | the row an update follows is active and no active row of its name is newer, whatever the order of the table |
| SchemaForks.ForkStore.PrepareHead | ee/models/workspace_schema_forks.rs:250-285 | refuses an invalid definition and a taken version; otherwise prepares the archived row of the next version |
| SchemaForks.ForkStore.Create | ee/models/workspace_schema_forks.rs:362-448 | succeeds if and only if the source schema is active, valid and of another workspace of the tenant that does not lead back; success adds exactly an archived head with the next version, a fork row that records its source and is not customized, and a history entry; every refusal in source order leaves the tables alone |
| SchemaForks.ForkStore.Resolve | ee/models/workspace_schema_forks.rs:478-516 | which definition an update installs, and every refusal of a definition or a follow |
| SchemaForks.ForkStore.PlanUpdate | ee/models/workspace_schema_forks.rs:453-528 | the tests of an update in source order, and the head row it will insert |
| SchemaForks.ForkStore.Update | ee/models/workspace_schema_forks.rs:453-553 | accepted if and only if the definition or the newest active source may be installed; then the new archived head holds exactly that definition, a local edit makes the fork customized and leaves its source columns, a follow makes it uncustomized and records the followed row and version; a refused update changes nothing |
| SchemaForks.ForkStore.Delete | ee/models/workspace_schema_forks.rs:558-592 | deletes exactly if the fork is found and no entity of the workspace uses a head it ever had; other forks keep their rows and histories, and no cycle appears |
| ForkHistory.EveryRunKeepsInv | ee/models/workspace_schema_forks.rs:362-592 | over every run of create, update, delete and the other schema writers the graph is acyclic, heads are in their history and versions are unique |
| ForkHistory.PathsStayInTheirTenant | ee/models/workspace_schema_forks.rs:147-185 | searching the edges of one tenant finds every path of the whole graph |
| ForkHistory.CreateKeepsAcyclic | ee/models/workspace_schema_forks.rs:389-436 | a successful create never closes a cycle |
| ForkHistory.UpdateKeepsEdges | ee/models/workspace_schema_forks.rs:517-540 | an update never changes the endpoints of an edge |
| ForkHistory.UpdateInstallsNewestExactlyWhen | ee/models/workspace_schema_forks.rs:233-285 | the new head is above every stored version of its name if and only if the newest stored version is not the largest 32-bit integer |
| ForkHistory.VersionWrapsAround | ee/models/workspace_schema_forks.rs:233-248 | a state that satisfies the invariant and an update of it that installs the smallest 32-bit version |
| ForkHistory.ReplacedHeadNeverReturns | ee/models/workspace_schema_forks.rs:517-551 | in every run a replaced head is never again the head of that fork |
| ForkHistory.UpdatesExpectingOneHeadConflict | ee/models/workspace_schema_forks.rs:471-477 | of two updates that expect the same head, whatever happens in between, the later one fails |
| ForkHistory.CustomizedForkStaysCustomized | ee/models/workspace_schema_forks.rs:496-500 | local edits survive every run without a forced follow |
| ForkHistory.LocalEditIsNeverFollowedAway | ee/models/workspace_schema_forks.rs:496-523 | after an accepted local update, at the end of every run without a forced follow the fork, if it still exists, is customized and every follow of it without force is refused |
| ForkHistory.Perform | ee/models/workspace_schema_forks.rs:362-592 | a create, update or delete in a run is the call of the store |
| ForkProtocol.InsertKeepsAcyclic | ee/models/workspace_schema_forks.rs:375-436 | an insert after an interleaved search, under the lock or the stale-write rule, closes no cycle |
| ForkProtocol.EveryInterleavingIsAcyclic | src/db.rs:516-540 | in every interleaving of creates, updates and deletes on either backend no reachable state has a workspace cycle |
| ForkProtocol.UnguardedCreatesCloseACycle | ee/models/workspace_schema_forks.rs:375-436 | without the lock and the stale-write rule two interleaved creates of opposite edges both pass their search and close a cycle |
| ForkProtocol.GuardsRefuseOneCreate | src/db.rs:516-540 | in that interleaving PostgreSQL refuses the second its lock and SQLite refuses its commit |
| ForkUpdates.WriteNeverMisses | ee/models/workspace_schema_forks.rs:529-540 | whoever holds the lock, or writes from the newest snapshot, still finds the head it read: the conditional write never misses |
| ForkUpdates.CommitKeepsTxn | ee/models/workspace_schema_forks.rs:467-477 | no commit by another update, delete, create or writer changes what an open update knows about its fork |
| ForkUpdates.EachHeadIsConsumedOnce | ee/models/workspace_schema_forks.rs:453-553 | in every interleaving on either backend no head of a fork is replaced twice, so of two updates that expect one head at most one commits |
| InferenceProposals.ProposalStore.CreateJob | ee/models/inference_jobs.rs:66-85 | a new job is claimable at attempt 0 and owned by nobody; a used id is refused; no other row changes and one running job per workspace is kept |
| InferenceProposals.ProposalStore.ClaimJob | ee/models/inference_jobs.rs:131-161 | answers true exactly for a claimable job of an idle workspace, whose caller then owns a new attempt, and with a conflict exactly for a busy one; one running job per workspace is kept |
| InferenceProposals.ProposalStore.ReconcileJob | ee/models/inference_jobs.rs:170-231 | answers true exactly for an admissible attempt of an idle workspace, which the caller then owns and did not before; asking again admits nobody; a refusal changes nothing |
| InferenceProposals.ProposalStore.CompleteJob | ee/models/inference_jobs.rs:237-263 | answers true exactly to the owner; then nobody owns the job and no attempt of it is ever admissible again |
| InferenceProposals.ProposalStore.FailJob | ee/models/inference_jobs.rs:268-291 | answers true exactly to the owner; then nobody owns the job and exactly this attempt and the next are admissible |
| InferenceProposals.ProposalStore.RetryJob | ee/models/inference_jobs.rs:294-317 | answers true exactly to the owner; then nobody owns the job, it is claimable and exactly the next attempt is admissible |
| InferenceStore.InsertedProperties | ee/models/inference_proposals.rs:119-141 | recording keeps every row and the uniqueness of delivery keys, and exactly the new keys appear, as pending rows |
| InferenceProposals.NewKeysAreNew | ee/models/inference_proposals.rs:119-141 | a new row has a workspace, job, entity, schema, version and field that no row had together before it |
| InferenceProposals.RecordMeans | ee/models/inference_proposals.rs:97-141 | column by column: every field of the batch has a row with its job, workspace, entity, schema, version and name; a new row holds one of them with its value, pending, and no other row has that key |
| InferenceProposals.FirstDeliveryWins | ee/models/inference_proposals.rs:119-141 | of several values for one field of an entity the first is recorded, unless the field had a proposal before |
| InferenceProposals.ProposalStore.RecordBatchAttempt | ee/models/inference_proposals.rs:88-141 | refused unless the job is running with that attempt; the answer is the number of rows the table grew by |
| InferenceProposals.ProposalStore.TransitionPending | ee/models/inference_proposals.rs:197-213 | no proposal of the job is pending afterwards, those that were have the status, no other row changed, and the answer is the number of changed rows |
| InferenceProposals.ProposalStore.Dismiss | ee/models/inference_proposals.rs:165-248 | reject and discard are refused unless the job is completed and has proposals; otherwise they settle exactly its pending rows and answer their number |
| InferenceProposals.ProposalStore.GroupByEntity | ee/models/inference_proposals.rs:258-275 | the groups are the pending proposals by entity, in listing order |
| InferenceProposals.ProposalStore.MergeFields | ee/models/inference_proposals.rs:336-339 | the merge of a group into the data |
| InferenceProposals.ProposalStore.JudgeGroup | ee/models/inference_proposals.rs:281-383 | the fate of a group, test by test; the later branch for data that is no object is unreachable |
| InferenceProposals.GroupIsTheRowsOf | ee/models/inference_proposals.rs:258-275 | a group holds exactly the pending rows of its entity, each once |
| InferenceProposals.MarksTheGroup | ee/models/inference_proposals.rs:443-467 | however many groups are done, marking the next one affects exactly its proposals, so the conflict over a changed count never arises |
| InferenceProposals.ProposalStore.ConfirmGroups | ee/models/inference_proposals.rs:280-406 | the loop ends with every group at its fate and exact counters, or with the error of a group that breaks |
| InferenceProposals.ProposalStore.Confirm | ee/models/inference_proposals.rs:250-414 | succeeds if and only if the call is confirmable, and then the tables are the fates of all groups; a failure leaves no trace and answers the error of the job, of having nothing pending, or of a breaking group |
| ConfirmTheory.ConfirmConserves | ee/models/inference_proposals.rs:250-414 | confirmed plus stale plus invalid is the number of pending proposals at the start |
| ConfirmTheory.ConfirmSettlesTheJob | ee/models/inference_proposals.rs:250-414 | no pending proposal of the job remains, one entity's proposals share one outcome, and no other proposal row changes |
| ConfirmTheory.ConfirmNeverOverwrites | ee/models/inference_proposals.rs:280-406 | a confirmed entity keeps every key and value, gains exactly the proposed fields, is valid under the active schema and has a snapshot |
| ConfirmTheory.OnlyConfirmedEntitiesChange | ee/models/inference_proposals.rs:280-406 | confirm writes no entity whose group it did not confirm |
| ConfirmTheory.MergedFrom | ee/models/inference_proposals.rs:336-339 | every merged value is an old one or comes from a proposal for that field |
| ConfirmOutcome.LastValueWins | ee/models/inference_proposals.rs:336-339 | of several proposals for one field the last one of the group is stored |
| ConfirmOutcome.GroupKeepsOrder | ee/models/inference_proposals.rs:258-275 | the proposals of a group stand in the order of the listing |
| ConfirmOutcome.ConfirmLeaves | ee/models/inference_proposals.rs:280-406 | for every entity with pending proposals, their status and its row: a confirmed entity holds the merged data under the group's schema and that schema's version, the caller and the time, in its workspace and of its type, with a snapshot of the row that was read; any other entity keeps its row, and loses its snapshot exactly if it was overtaken by another write |
| ConfirmOutcome.ConfirmLeavesTheRest | ee/models/inference_proposals.rs:280-406 | entities without pending proposals, their snapshots, jobs and schemas stay |
| ConfirmOutcome.OtherJobsKeepSnapshots | ee/models/inference_proposals.rs:371-383 | snapshots taken by other jobs stay |
| ConfirmOutcome.ReportCountsRows | ee/models/inference_proposals.rs:408-414 | each counter is the number of rows that were pending and have its status afterwards |
| ConfirmOutcome.BreaksUnlessJudged | ee/models/inference_proposals.rs:282-368 | a group stops the confirm unless its schema is in the workspace, some schema of the name is active, and the validator, if asked, decides |
| ConfirmOutcome.ConfirmableMeans | ee/models/inference_proposals.rs:250-283 | confirm goes through if and only if the job is completed and of the workspace, something is pending, and no group breaks |
| ConfirmTheory.ConfirmWritesOverARaceExactlyWhen | ee/models/entity_entities.rs:17-39 | by itself the conditional write would overwrite a replacement made between read and write if and only if the backend is SQLite or the timestamps are equal |
| ConfirmTheory.ConfirmedProposalsAreCurrentExactlyWhen | ee/models/inference_proposals.rs:282-309 | every confirmed proposal was made for the active schema if and only if its group names one schema |
| ConfirmTheory.ConfirmedValuesAreStoredExactlyWhen | ee/models/inference_proposals.rs:336-339 | every confirmed value is stored if and only if no two proposals of the group give one field two values |
| RetriedJob.TakenOverJobConfirmsAnArchivedProposal | ee/models/inference_proposals.rs:282-339 | a run from empty tables to a completed job whose confirm settles a proposal for an archived version as confirmed and stores its value, with a count that misses a row |
| InferenceProtocol.EveryRunKeepsInv | ee/models/inference_jobs.rs:66-317 | over every run of all job and proposal operations: one running job per workspace, unique delivery keys, and no proposal settled before its job is completed |
| InferenceProtocol.EveryHistoryIsSound | migration/src/m20261020_000021_create_inference_jobs.rs:80-90 | the same from empty tables |
| InferenceProtocol.Perform | ee/models/inference_jobs.rs:66-317 | a step of a run is a call of the store, in what it changes and in what the caller is told |
| InferenceProtocol.StepKeepsKeys | migration/src/m20261020_000022_create_inference_proposals.rs:53-67 | no operation ever makes two proposals with one delivery key |
| InferenceProtocol.JobsOverARun | ee/models/inference_jobs.rs:135-317 | attempts never fall and rise by at most one per step; a completed row never changes again in any column |
| InferenceProtocol.CompletesAtMostOnce | ee/models/inference_jobs.rs:237-263 | at most one step of any run is told that it completed a job |
| InferenceProtocol.LateWritesDoNothing | ee/models/inference_jobs.rs:170-317 | once the attempt exceeds `a`, every later complete, fail, retry, reconcile or recording that carries `a` or less changes no table and is told so |
| InferenceProtocol.ReconcileIsIdempotent | ee/models/inference_jobs.rs:165-231 | repeating a reconcile changes nothing more and admits nobody |
| InferenceProtocol.AdmissionsAreExclusive | ee/models/inference_jobs.rs:131-231 | two workers are never admitted to one attempt unless that attempt was failed in between |
| InferenceProtocol.AttemptCountsStarts | ee/models/inference_jobs.rs:135-231 | the attempt of a job is the number of admissions that started one, and is unchanged if and only if none did |
| InferenceProtocol.WorkersShareExactlyWhen | ee/workers/infer_fill.rs:285-313 | two admitted workers that read their attempt again hold one number if and only if no attempt is started between the two reads; then the second was admitted before the first's read, or resumed a failed attempt |
| InferenceProtocol.TwoWorkersShareAnAttempt | ee/workers/infer_fill.rs:285-313 | an admission and a recovery after which both workers' writes pass the fence |
| InferenceProtocol.ResumedAttemptIsSharedToo | ee/models/inference_jobs.rs:190-206 | a failed attempt whose resumption carries the same number |
| InferenceProtocol.CompletedSetIsFixed | ee/models/inference_proposals.rs:97-118 | the proposal set of a completed job is the same in every continuation |
| InferenceProtocol.SettledIsForever | ee/models/inference_proposals.rs:197-213 | proposals never disappear, only their status changes, and only out of pending |
| InferenceProtocol.NoProposalAfterASettledOne | ee/models/inference_proposals.rs:97-213 | no proposal of a job appears after one of its proposals has left pending |
| InferenceProtocol.RowsCountWrites | ee/models/inference_proposals.rs:119-141 | the proposals of a job are as many as its workers were told they wrote |
| InferenceProtocol.ProposedCountsTheRowsExactlyWhen | ee/workers/infer_fill.rs:190-199 | in every continuation the `proposed` column of a completed job counts its proposals if and only if nobody but the completing worker wrote any |
| InferFill.Missing | ee/workers/infer_fill.rs:129-134 | exactly the fields of the type that the data lacks |
| InferFill.BatchesAnswerMissingFields | ee/workers/infer_fill.rs:124-152 | every batch answers, for one row, only fields its type defines and its data lacks |
| InferFillOutcome.BatchesHoldTheAnswers | ee/workers/infer_fill.rs:124-152 | the batches hold exactly the provider's answers to missing fields: none is dropped, none invented |
| InferFillOutcome.RefusedMeans | ee/workers/infer_fill.rs:129-145 | the first loop fails at a row if and only if it lacks a field of its type and the provider fails for it |
| InferFillOutcome.TypedCountsRows | ee/workers/infer_fill.rs:124-127 | the counted rows are those whose type the schema defines |
| InferFill.PlanBatches | ee/workers/infer_fill.rs:120-152 | fails if and only if some answer does; otherwise every typed row is a batch or counted as skipped |
| InferFill.RecordBatches | ee/workers/infer_fill.rs:175-197 | writes nothing unless the attempt owns the job; otherwise the table grows by `proposed` rows that hold the answers, and a batch is skipped if and only if its entity gained no row |
| InferFill.PerformInferFill | ee/workers/infer_fill.rs:78-200 | when it succeeds, that every typed row is skipped or gained a proposal, and that a failure leaves no trace |
| InferFillOutcome.AttemptProposesTheAnswers | ee/workers/infer_fill.rs:154-197 | after a success every answer has a proposal under the job, entity, field and schema version, and every new proposal is pending and holds an answer |
| InferFillOutcome.AttemptSucceedsExactlyWhen | ee/workers/infer_fill.rs:78-200 | succeeds if and only if the actor may act, credentials and an active schema exist, the provider answers for every row that lacks something, and, if there is an answer, the actor still may, the schema is still the newest active one and the job still runs with that attempt |
| InferFillOutcome.AdmittedExactlyWhen | ee/workers/infer_fill.rs:236-313 | a delivery is admitted to a queued job, or to its attempt if that failed or comes next on an uncompleted job, and only in an idle workspace; then it runs with that attempt |
| InferFill.PerformJob | ee/workers/infer_fill.rs:236-388 | a delivery that is not admitted changes nothing; an admitted one completes the job with its counts, or records nothing and fails or requeues it with the error, and leaves every other job and table alone |
| NameOrder.SortedByCount | scripts/run_assigned_tests.py:421-423 | two lists sort to the same list if and only if they hold the same names equally often |
| NameOrder.OrderedIsUnique | scripts/run_assigned_tests.py:348-348 | an ordered arrangement is unique |
| NameOrder.FirstDifferenceDecides | scripts/run_assigned_tests.py:348-348 | names are ordered by the first character that differs, and a name stands before its extensions |
| TestPlan.CollectArtifacts | scripts/run_assigned_tests.py:81-92 | accepts if and only if every binary is well formed and listed once, and indexes them |
| TestPlan.AddJobs | scripts/run_assigned_tests.py:100-106 | accepts if and only if every job is known and no required identity was there before |
| TestPlan.CollectAssignments | scripts/run_assigned_tests.py:93-107 | accepts if and only if every assignment is executable and no required identity is demanded twice |
| TestPlan.ExpectedIsRequired | scripts/run_assigned_tests.py:93-107 | the collected identities are the required ones |
| TestPlan.CheckDedicated | scripts/run_assigned_tests.py:54-67 | the classification of PostgreSQL tests is complete, known and without duplicates |
| TestPlan.Provenance | scripts/run_assigned_tests.py:74-129 | accepts exactly the sound plans |
| PlanLaws.RequiredMeans | scripts/run_assigned_tests.py:93-107 | a test is required of an edition and job if and only if an assignment of that edition asks for it there and the job is not opt-in |
| PlanLaws.TestsAreInBinaries | scripts/run_assigned_tests.py:98-99 | the indexed binaries hold a test exactly if some listed binary of the edition and target does |
| PlanLaws.SoundClassification | scripts/run_assigned_tests.py:54-67 | the classification is sound if and only if its names are distinct, run on PostgreSQL and are declared, and it is present if any test runs there |
| PlanLaws.SoundMatrix | scripts/run_assigned_tests.py:116-121 | a given matrix is sound if and only if it lists each wanted cell once with its job's configuration |
| PlanLaws.SoundMeans | scripts/run_assigned_tests.py:74-129 | a plan is sound if and only if its head, binaries, assignments, programs, classification, matrix and helpers are, each written out |
| TestReceipts.CheckRows | scripts/run_assigned_tests.py:398-411 | accepts if and only if every row is expected, passed, timed and seen once |
| TestReceipts.CheckBinaries | scripts/run_assigned_tests.py:413-430 | accepts if and only if the binary rows are one per group of the test rows, each with exactly its names |
| TestReceipts.Aggregate | scripts/run_assigned_tests.py:382-435 | returns if and only if the receipts are valid, for different cells and cover the plan; its counts are the required identities and cells |
| TestReceipts.EveryRequiredTestRanOnce | scripts/run_assigned_tests.py:386-431 | in an accepted set every required identity has exactly one row |
| TestReceipts.EveryRowIsRequired | scripts/run_assigned_tests.py:398-411 | in an accepted set no row is for anything else, and each has the right binary, topology and times |
| TestReceipts.BinariesPartitionTheRows | scripts/run_assigned_tests.py:413-430 | the binary rows partition the test rows by target and fixture |
| TestReceipts.AcceptedRowsAreTheRequired | scripts/run_assigned_tests.py:431-435 | the accepted identities and cells are exactly the required ones |
| TestReceipts.CompleteReceiptsAreAccepted | scripts/run_assigned_tests.py:382-435 | valid and complete receipts for different cells, in any order, are accepted if and only if every required cell has one |
| ReceiptLaws.FixtureMeans | scripts/run_assigned_tests.py:70-71 | a PostgreSQL test runs in the dedicated fixture if the manifest lists it and in the shared one otherwise; every other test runs in the default one |
| ReceiptLaws.AcceptedReceiptsAreGood | scripts/run_assigned_tests.py:387-411 | an accepted receipt passed with the plan's fingerprints in its job's topology, and each of its rows passed for it with the planned binary within its time |
| ReceiptLaws.TestsRanInTheirFixture | scripts/run_assigned_tests.py:413-430 | every accepted row has a binary row that names it, exited with zero and has its fixture; for a PostgreSQL test without a database of its own, an observation that passed |
| ReceiptLaws.EvidenceOfAccepted | scripts/run_assigned_tests.py:412-412 | the helper rows of an accepted receipt are those of the edition whose parent is among its tests |
| TestTopology.PreparingTwiceIsPreparingOnce | scripts/run_assigned_tests.py:132-181 | what was prepared passes the checks again unchanged, with the topology a receipt is checked against |
| TopologyLaws.EnvironmentMeans | scripts/run_assigned_tests.py:132-181 | an environment is accepted if and only if its backends, URLs, names and helper URLs fit the job, each written out by variable |
| TopologyLaws.PreparedMeans | scripts/run_assigned_tests.py:165-176 | which variables are set and to what; every other one stays |
| TopologyLaws.SqlitePathMeans | scripts/run_assigned_tests.py:150-151 | the file of a SQLite URL is what follows its scheme |
| TopologyLaws.SqlitePathIgnoresTheQuery | scripts/run_assigned_tests.py:150-151 | a query after the path does not change the file |
| TestTopology.SelectionFlags | scripts/run_assigned_tests.py:203-216 | refuses unpermitted ignored tests; otherwise the flags make the binary run exactly the selected tests |
| TestExecution.SelectedAreRequired | scripts/run_assigned_tests.py:309-310 | a job selects exactly the required identities of its cell |
| TestExecution.GroupRows | scripts/run_assigned_tests.py:319-323 | the groups are the selected rows by target and fixture |
| TestExecution.SortedNamesIgnoreOrder | scripts/run_assigned_tests.py:348-423 | producer and checker list the same names although they see the rows in different orders |
| TestExecution.RunGroup | scripts/run_assigned_tests.py:341-370 | one group succeeds if and only if its processes do what is asked, and then records its binary and test rows |
| TestExecution.RunGroups | scripts/run_assigned_tests.py:340-372 | all groups succeed or the run fails; every selected test is recorded once |
| TestExecution.ExecuteJob | scripts/run_assigned_tests.py:303-379 | a passed receipt is complete and, if the clock never runs backwards, valid; a failed run leaves a receipt marked as failed |
| ReceiptLaws.StartableMeans | scripts/run_assigned_tests.py:303-339 | a job starts if and only if the plan is sound and of the revision, edition and job are known, the environment fits, there is time and everything needed, and a test belongs to it |
| ReceiptLaws.PassedJobRanItsTests | scripts/run_assigned_tests.py:340-370 | a passed job ran each of its tests in its fixture, in a process that listed exactly its group, exited with zero and, if shared, was observed without a database being created or dropped |
| ReceiptLaws.SharedGroupMustNotTouchDatabases | scripts/run_assigned_tests.py:355-357 | a PostgreSQL job with a test that has no database of its own fails if that group's process shows database DDL or was not observed |
| TestExecution.IssuedReceiptIsValid | scripts/run_assigned_tests.py:303-379 | a receipt from a passed run on a clock that never runs backwards is valid and complete |
| TestExecution.PassedJobsAreAccepted | scripts/run_assigned_tests.py:303-435 | receipts issued by passed runs, one per required cell and in any order, are accepted, and every required test ran exactly once |
| TestExecution.RunAndAggregate | scripts/run_assigned_tests.py:303-435 | running the jobs of exactly the required cells in any order and aggregating what they leave succeeds if and only if the plan is sound, no split is pending and every job passes; the counts are the required identities and cells |
| StripCode.ScanBlock | scripts/check_edition_boundary.py:68-78 | the depth loop stops where nesting returns to zero |
| StripCode.StripCode | scripts/check_edition_boundary.py:52-104 | the cursor loop computes the stripped text |
| StripCode.StripCovers | scripts/check_edition_boundary.py:52-104 | length and newline positions stay, and every character is the source's or a space |
| StripCode.StripIsInert | scripts/check_edition_boundary.py:52-104 | no double quote, no `//` and no `/*` in the output |
| StripCode.StripHasNoLiterals | scripts/check_edition_boundary.py:93-100 | blanking never makes a character literal appear |
| StripCode.StripIsIdempotent | scripts/check_edition_boundary.py:52-104 | stripping twice is stripping once, on every string |
| StripCodeTheory.BlockCommentsEndAtTheirMatchingClose | scripts/check_edition_boundary.py:68-78 | a block comment ends at its matching close, which is unique, or at the end of the text |
| StripCodeTheory.StringsEndAtTheirClosingQuote | scripts/check_edition_boundary.py:87-92 | a string literal ends at its one unescaped quote |
| StripCodeTheory.RawEndIsFirstDelimiter | scripts/check_edition_boundary.py:79-86 | a raw string ends at the first delimiter with its number of hashes |
| LexemeTheory.LexemesStartExactlyWhere | scripts/check_edition_boundary.py:60-103 | a comment or literal starts if and only if a comment opener, a quote, a raw string after a boundary or a character literal stands there |
| LexemeTheory.LineCommentsEndAtTheirNewline | scripts/check_edition_boundary.py:63-67 | a line comment ends at the next newline, which is kept, or at the end of the text |
| LexemeTheory.RawStringsOpenExactlyWhere | scripts/check_edition_boundary.py:79-82 | a raw string opens if and only if `r` or `br`, hashes and a quote stand after no letter, digit or underscore; prefix and hashes are read right |
| LexemeTheory.RawStringsEndAtTheirDelimiter | scripts/check_edition_boundary.py:82-86 | a raw string ends after the first quote with as many hashes as opened it, or at the end of the text |
| LexemeTheory.CharLiteralsAreFound | scripts/check_edition_boundary.py:93-97 | a character literal is found if and only if a plain, escaped, hex or braced one stands there, with its end |
| LexemeTheory.CharLiteralsEndAtTheirTick | scripts/check_edition_boundary.py:93-97 | and nothing else hides it |
| StripCodeTheory.NewlineLinesSurvive | scripts/check_env_reads.py:23-29 | a match on stripped text has the line number of that offset in the source |
| StripCodeTheory.LinesAreCountedFromOne | scripts/check_env_reads.py:23-29 | an offset after n newlines is on line n + 1 |
| StripCodeTheory.Violations | scripts/check_env_reads.py:23-29 | the reported lines are those of the matches in the source |
| StripCodeTheory.SplitLinesOnlyFall | scripts/check_edition_boundary.py:116-122 | the stripped text never has more lines than the source, so indexing the source lines is in range |
| StripCodeTheory.SplitLinesBreaksAre | scripts/check_edition_boundary.py:107-123 | the ten line breaks of `splitlines` by code point, and that a carriage return and newline together are one |
| StripCodeTheory.StripBlanksExactlyTheLexemes | scripts/check_edition_boundary.py:52-104 | a character outside every comment and literal is kept, and inside one it becomes a space unless it is a newline |
| StripCodeTheory.SplitLinesSurviveExactlyWhen | scripts/check_edition_boundary.py:107-123 | the line numbers of `scan` agree with the source if and only if no comment or literal of the source holds a line break other than a newline or the carriage return before one |
| StripCodeTheory.FormFeedInACommentShiftsLines | scripts/check_edition_boundary.py:107-123 | a text whose finding is numbered one line too low |
| ReindexInterval.SecondsIn | ee/models/tenant_reindex_schedules.rs:34-53 | the loop with checked arithmetic computes the exact total of the components, and refuses exactly what has none in 64 bits |
| ReindexInterval.SplitInvertsText | ee/models/tenant_reindex_schedules.rs:34-53 | components are read back from their text, so a text has one reading |
| ReindexInterval.ParseInterval | ee/models/tenant_reindex_schedules.rs:30-62 | the whole reader computes its specification |
| ReindexInterval.AcceptsExactlyTheGrammar | ee/models/tenant_reindex_schedules.rs:30-62 | an answer is given if and only if the text follows the grammar and its exact sum is positive and fits a duration; the answer is that sum |
| ReindexInterval.GrammarIsAccepted | ee/models/tenant_reindex_schedules.rs:55-61 | every text of the grammar is accepted with its exact sum, or refused because the sum is zero or too large |
| ReindexInterval.IntervalIgnoresOrder | ee/models/tenant_reindex_schedules.rs:30-62 | the order of the components does not matter |
| IntervalWeights.IntervalsWeighTheirUnits | ee/models/tenant_reindex_schedules.rs:30-62 | an answer n is given if and only if the text spells weeks, days, hours, minutes and seconds with n = 604800 w + 86400 d + 3600 h + 60 m + s, an absent unit counting 0, and 0 < n <= 9223372036854775 |
| IntervalWeights.NumbersAreDecimal | ee/models/tenant_reindex_schedules.rs:48-48 | the numeral of a number is read as that number |
| IntervalWeights.LeadingZerosCountNothing | ee/models/tenant_reindex_schedules.rs:48-48 | a leading zero changes no number |
| IntervalWeights.TrimKeepsTheMiddle | ee/models/tenant_reindex_schedules.rs:55-55 | trimming removes white space at both ends and nothing else |
| IntervalWeights.SpacesAndDigits | ee/models/tenant_reindex_schedules.rs:39-55 | the characters that count as white space and as digits |
| IntervalWeights.SixHours | ee/models/tenant_reindex_schedules.rs:30-62 | `PT6H` is 21600 seconds |
| IntervalWeights.FiveMinutes | ee/models/tenant_reindex_schedules.rs:30-62 | `PT5M` is 300 seconds |
| ReindexSchedules.Scheduler.Set | ee/models/tenant_reindex_schedules.rs:72-142 | accepted if and only if the zone is known and one interval of at least 300 seconds from now exists; due one interval from now |
| ReindexSchedules.NextDueMeans | ee/models/tenant_reindex_schedules.rs:30-142 | the next due time is one interval of at least 300 seconds from now, in nanoseconds, if that is a representable time |
| ReindexSchedules.SetMeans | ee/models/tenant_reindex_schedules.rs:72-142 | stored if and only if the zone is known and the interval usable; the row holds the text, the trimmed zone, now and one interval from now, and no other schedule changes |
| ReindexSchedules.Scheduler.ConsiderAll | ee/models/tenant_reindex_schedules.rs:243-333 | the loop plans exactly the due and active schedules, or fails if anything about a due one does |
| ReindexSchedules.Scheduler.DispatchBatch | ee/models/tenant_reindex_schedules.rs:383-408 | no failure if and only if every dispatch succeeds, and then each is recorded once |
| ReindexSchedules.Scheduler.Tick | ee/models/tenant_reindex_schedules.rs:177-361 | all or nothing, and when it answers Ok |
| ReindexSchedules.CommittedTick | ee/models/tenant_reindex_schedules.rs:243-350 | every firing schedule is at least 300 seconds ahead, each of its workspaces has exactly one more job, and nothing else changed |
| ReindexSchedules.WorksIsCommits | ee/models/tenant_reindex_schedules.rs:177-350 | a tick commits if and only if it owns the scheduler and nothing about a due schedule or its workspaces fails |
| ReindexSchedules.WorkingTickMovesSchedules | ee/models/tenant_reindex_schedules.rs:243-333 | a schedule that came due for a tenant that is not disabled is one interval ahead of now; every other schedule is as it was |
| ReindexSchedules.WorkingTickDispatches | ee/models/tenant_reindex_schedules.rs:270-350 | exactly the workspaces of such tenants get one more job each; a disabled tenant gets none |
| ReindexSchedules.TickIsAllOrNothing | ee/models/tenant_reindex_schedules.rs:177-361 | a tick that does not do all its work leaves the tables as they were, and when a tick answers Ok |
| ReindexSchedules.Perform | ee/models/tenant_reindex_schedules.rs:72-361 | a step of a run is a call of the scheduler |
| ReindexSchedules.ErrorAfterCommitExactlyWhen | ee/models/tenant_reindex_schedules.rs:335-361 | a tick answers with an error and has changed the tables if and only if it committed for some tenant and releasing ownership failed |
| ReindexSchedules.ErrorHidesACommittedTick | ee/models/tenant_reindex_schedules.rs:352-361 | a due schedule and a failed release: an error answer, the schedule a day ahead and a job for its workspace |
| ReindexSchedules.DispatchesAreSpaced | ee/models/tenant_reindex_schedules.rs:72-361 | over every run under a clock that never runs backwards, ticks that dispatch for one tenant are at least 300 seconds apart |
| ReindexSchedules.FiveMinutesBetweenDispatches | ee/models/tenant_reindex_schedules.rs:72-361 | the same in nanoseconds, for ticks that do their work for a due tenant that is not disabled |
| CreditLedger.Ledger.EarnCredits | ee/models/compute_credit_ledger.rs:46-60 | a positive amount raises the balance by exactly that amount; anything else is refused |
| CreditLedger.Ledger.DebitActual | ee/models/compute_credit_ledger.rs:112-136 | a debit succeeds if and only if it is positive and covered, and costs exactly its amount |
| CreditLedger.BalanceIsEarnedMinusSpent | ee/models/compute_credit_ledger.rs:138-163 | the balance is what was earned minus what was debited |
| CreditLedger.BalanceIgnoresOrder | ee/models/compute_credit_ledger.rs:138-163 | the balance does not depend on the order of the rows |
| CreditLedger.OtherCommitKeepsTxn | src/db.rs:516-540 | a commit by another transaction takes away nothing that a passed balance check counts on |
| CreditLedger.BeginSeesCommitted | ee/models/compute_credit_ledger.rs:107-136 | a begun transaction sees the committed balances |
| CreditLedger.EarningRaises | ee/models/compute_credit_ledger.rs:46-60 | earning raises what the transaction sees of that workspace, and only it, by the positive amount |
| CreditLedger.DebitingCosts | ee/models/compute_credit_ledger.rs:107-136 | a debit that passed its check was covered, and costs exactly what was checked |
| CreditLedger.CommitPublishes | ee/models/compute_credit_ledger.rs:107-136 | a commit makes what the transaction sees the committed balance; an abort changes nothing |
| CreditLedger.NoOverdraftEver | ee/models/compute_credit_ledger.rs:107-136 | in every interleaving of earning and debiting transactions on either backend the committed balance stays non-negative and is earned minus debited |
| CreditLedger.LedgerIsAppendOnly | ee/models/compute_credit_ledger.rs:89-105 | committed rows are never changed or removed |
| EmbeddingTriggers.Database.InsertEntity | migration/src/m20261020_000008_create_entities.rs:86-90 | an insert with its triggers, on either backend, raises the content revision of its workspace by one, no other revision or reindexing flag, and indexes the row |
| EmbeddingTriggers.Database.UpdateEntity | migration/src/m20261020_000027_create_entity_embeddings.rs:44-87 | an update of data, schema, type or workspace raises the content revisions of the old and the new workspace by one each, on either backend; any other update raises none |
| EmbeddingTriggers.Database.DeleteEntity | migration/src/m20261020_000008_create_entities.rs:92-94 | a delete raises the content revision of its workspace by one and removes the row from the index |
| EmbeddingTriggers.Database.TouchEntity | migration/src/m20261020_000027_create_entity_embeddings.rs:44-68 | the PostgreSQL trigger function raises exactly the workspaces the write concerns |
| EmbeddingTriggers.Database.FireEntity | migration/src/m20261020_000027_create_entity_embeddings.rs:72-87 | the SQLite triggers raise the same workspaces by the same amounts |
| EmbeddingTriggers.Database.WriteKey | migration/src/m20261020_000027_create_entity_embeddings.rs:57-86 | a provider key write raises the provider revision of the new key's workspace by one, marks it for reindexing, and changes no other workspace |
| EmbeddingTriggers.EveryHistoryMirrors | migration/src/m20261020_000008_create_entities.rs:84-101 | after any history the full-text index is the (id, data) projection of the entities |
| EmbeddingTriggers.IdChangeKeepsMirrorExactlyWhen | migration/src/m20261020_000008_create_entities.rs:96-100 | an update that changed an id would keep the mirror if and only if it also sets the data, or changes no id |
| EmbeddingTriggers.RevisionsCountWrites | migration/src/m20261020_000027_create_entity_embeddings.rs:44-87 | revisions count exactly the writes that concern a workspace, moves in and out included |
| EmbeddingTriggers.SameRevisionMeansSameContent | migration/src/m20261020_000027_create_entity_embeddings.rs:44-87 | an unchanged content revision means that no relevant write came between and the embedded rows are the same |
| EmbeddingTriggers.SameProviderRevisionMeansSameKeyExactlyWhen | migration/src/m20261020_000027_create_entity_embeddings.rs:57-86 | with an unchanged provider revision the key is the same if and only if no key was moved away |
| EmbeddingTriggers.MovedKeyLeavesTheRevision | migration/src/m20261020_000027_create_entity_embeddings.rs:57-86 | a key that leaves a workspace without a trace in its revisions |

## Left out

- HTTP controllers, OpenAPI, OAuth, Stripe, embedding and LLM clients, queue lifecycles, the outbox and import and export: plumbing or external services; where a protocol meets them they are parameters or steps of the environment.
- `spend` of the ledger: it checks no balance, so no balance property holds of it.
- Integer width, apart from the version of a fork head and the interval reader: attempts, counters and ledger amounts are unbounded here; a 32-bit attempt or a 64-bit sum that overflows is a database error in the source.
- Deleting a workspace with its rows: inference jobs, proposals and revisions are never removed in the model.
- InferenceProposals.ProposalStore.RecordBatchAttempt: a duplicate delivery key is skipped statement by statement, as SQLite does; PostgreSQL aborts the whole transaction instead, which leaves the tables as they were.
- InferenceProposals.ProposalStore.Confirm: the listing order of proposals, the verdict of `validate_data` and what other transactions make of an entity before the conditional write are parameters of the call; stored definitions are taken to be readable.
- ConfirmTheory.ConfirmWritesOverARaceExactlyWhen: speaks of the conditional write alone; the row lock taken before the read on PostgreSQL and the single writer on SQLite keep such a writer out, and neither is part of the call's model.
- InferFill.PerformJob: the lifecycle table, its heartbeat and the enqueued redelivery are not modelled, and no other worker acts during the call; interference is covered by the runs of InferenceProtocol, whose steps carry any attempt number.
- InferFill.PerformInferFill: the rows on an outdated schema are given, not selected.
- SchemaForks.ForkStore.Update: runs without interference; the interleaved update of ForkUpdates keeps only the current head of a fork, not its definitions and versions. Whether a definition validates is a flag of it.
- TestPlan.Provenance: hashes are compared but not computed, and the checks of hash and path syntax are flags; the comparison of sorted execution cells is stated as a duplicate-free list of the required cells. A missing key, which raises in the script, cannot be written in the model's records.
- TestExecution.ExecuteJob: processes, logs and files are parameters of the machine, and the groups run in some order rather than in sorted order, which neither receipt check depends on. Times are numbers; the script compares their ISO 8601 texts.
- TestTopology.SelectionFlags: what libtest does with exact skips and ignored tests is stated as a definition.
- StripCode.StripCode: what counts as a letter or digit before a raw string is a parameter; no equivalence with the lexical structure of Rust is claimed.
- The rule tables of `scan` and `violations`: only their line numbers are modelled, with the matches as given offsets.
- ReindexSchedules.Scheduler.Tick: schedules are visited in some order rather than by tenant id, and rounding of stored timestamps is not modelled; the largest representable time is a parameter.
- EmbeddingTriggers.Database.UpdateEntity: one row per write; the text form of an id is taken to determine the id, and upserts are an insert or an update.
- `relocated_binary`, `redact`, `passed_tests`, `manual_exclusions` and the embedding sync tokens: path handling, regular expressions and facts about one branch.
