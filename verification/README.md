# Verification model of the knowledge platform

A Dafny 4.11 model of the backend's protocols and algorithms, with proofs. It covers

- **indexing a document version over two stores** — status rows and active pointer
  changed by compare-and-set, vector points written in batches and compensated on
  failure — as a step relation for any number of workers (`VersionProtocol`) and as
  the saga of one call under every fault schedule (`Indexing`), as the interleaving of the
  steps of many such calls (`SagaProtocol`), with the embedding order recovery they use
  (`Embedding`) and the search that reads the result (`Retrieval`);
- **the approval workflow** — revision, run, step and attempt rows — as transactions
  (`WorkflowTables`), as a protocol composed with the indexing one
  (`WorkflowProtocol`), with the exact condition under which resuming a failed run can
  help (`WorkflowResume`), and as the service, repository and executor that refine it
  (`WorkflowService`, `WorkflowExecutor`);
- **the workflow definition validator**, an edge count and a depth-first search
  (`WorkflowDefinition`, `DefinitionRegistry`), and routing (`Routing`);
- **text to chunks**: paragraphs, sentences, oversized sentences, greedy packing with
  overlap (`Text`, `TextParser`, `Sentences`, `Units`, `Chunking`), and the greedy
  context builder under a token budget (`Context`);
- **refresh-token sessions** in a key-value store (`Sessions`, `SessionProtocol`);
- **streaming with retries**, usage records and event frames (`ChatStream`);
- **the file-storage saga** (`FileSaga`).

`dafny verify dfyconfig.toml` checks the whole project. The program itself was not run.

## How the parts fit

A transaction of one service call is one atomic step, and a commit that raises applies
nothing. Calls to the vector store, the object store and the model providers are steps
of their own and may take effect in part. Where the source changes rows or fields, a
class does so here, and each method is tied to a function on the tables; protocol
theorems are about these functions, over every interleaving. Loops of the source are
loops here, proved against a recursive specification or an exact property. Indexing keeps
a log of its calls to the outside with their answers, and its results are stated in terms
of the faults in that log. Each specification function has lemmas that say what it means
without it: which rows change, which condition decides, what reads back.

Some results differ from what one might expect of the code, with conditions that hold
for all inputs, and a concrete witness where one is named:

- An event stream ends without a terminal frame exactly if its last attempt has no done
  and ends in an error that is not a provider error (`ChatStream.Serve`; witness
  `UnendedStream`), since only the application's own errors are encoded.
- Approval commits exactly while the revision is submitted
  (`WorkflowTables.DecidesExactlyWhileSubmitted`); the expiry time is not looked at, so a
  revision that is due can still be approved (witness `LateApproval`).
- A file row stays in pending_upload exactly in the cases of `Faults.StrandsUpload`: the
  object is stored and the unguarded flush of the ready status raises; or the put or the
  commit of that status raises and recording the failure does too; or the put, or the
  deletion that compensates for it, raises an error the adapter does not translate. It
  stays in deleting in the cases of `Faults.StrandsDeletion`. No later call takes such a row
  or its object any further (`FileSaga.FileService.PerformAll`; witnesses `StrandedUpload`,
  `StrandedDeletion`). The faults are raised errors; a process that dies between two
  commits leaves the rows of the last one, as an untranslated error at that point does.
- The executor commits outside any handler. If its closing commit raises, or the call is
  cancelled or meets a database error before it, attempt, step and run stay running, and
  stay so for ever (`WorkflowExecutor.ExecuteIndexStep`,
  `WorkflowProtocol.OrphanStaysRunning`; witness `StrandedAttempt`).
- A version whose claiming call disappears stays processing for ever: a retry leaves it
  alone (`VersionProtocol.AbandonStrands`, `VersionProtocol.StuckStaysProcessing`).
- A failed run that may be resumed can succeed without a requeue of its version exactly if
  that version is pending: not if it is processing, indexed, failed or in cleanup_required
  (`WorkflowResume.ResumableSucceedsExactlyWhenPending`; witness `BarredRunIsReachable`).
- Two overlapping retries of one version can leave it indexed without its points: one's
  deletion arrives after the other's writes (`SagaProtocol.OverlappingRetriesDisagree`).
  While one call at a time retries a version, the stores agree after every step.
- A rotation with a clock behind the session's last use can shorten a sliding session
  (`SessionProtocol.ShrinksExactlyWhenTheClockStepsBack`; witness `ClockStepsBack`);
  single use and replay do not depend on clocks.

Every piece the oversize split makes fits the limit for any counter whatever, because a
trimmed prefix is one of the prefixes already counted; only the exact condition for
failing needs a counter that never counts a part higher than the whole.

## Model

| member | source | states |
|---|---|---|
| VersionProtocol.ActivePointsAtHighestIndexed | backend/app/db/repositories/knowledge_repository.py:325-358 | in every reachable state of any number of workers, a document's active pointer is its highest-numbered indexed version, and is empty exactly when none is indexed |
| VersionProtocol.RunAdvances | backend/app/db/repositories/knowledge_repository.py:325-358 | over any run the active number of a document never goes back and an indexed version stays indexed |
| VersionProtocol.NumbersAreExactlyOneToN | backend/app/db/repositories/knowledge_repository.py:137-155 | a document's version numbers are exactly 1..n, although workers insert numbers they read earlier |
| VersionProtocol.OwnerNeverMisses | backend/app/db/repositories/knowledge_repository.py:157-281 | a worker that claimed a version owns it alone, so its completing and its failing update both find their row |
| VersionProtocol.StepKeepsInv | backend/app/db/repositories/knowledge_repository.py:157-358 | every step (create, claim, complete, fail, requeue, crash) keeps numbering, active pointers, failure reasons and ownership right |
| VersionProtocol.RunKeepsInv | backend/app/db/repositories/knowledge_repository.py:137-358 | the same over every run, by any interleaving |
| VersionProtocol.CompletionKeepsActiveHighest | backend/app/db/repositories/knowledge_repository.py:325-358 | promotion compares numbers only, and still leaves the highest indexed version active |
| VersionProtocol.InsertKeepsDb | backend/app/models/document_version.py:34-52 | the unique keys let a stale number in only when it is still one past the highest |
| VersionProtocol.AbandonStrands | backend/app/services/knowledge_service.py:764-804 | a call that disappears with its claim leaves its version stuck: processing, and claimed by no worker |
| VersionProtocol.StuckStaysProcessing | backend/app/services/knowledge_service.py:677-804 | a stuck version stays processing in every later state: claims ask for pending, and retries requeue only failures |
| KnowledgeTables.KnowledgeRepository.UpdateStatus | backend/app/db/repositories/knowledge_repository.py:157-195 | a guarded UPDATE hits its row exactly when id, document and status match, and then changes status and reason only |
| KnowledgeTables.KnowledgeRepository.ClaimPendingVersion | backend/app/db/repositories/knowledge_repository.py:157-195 | only a pending version is claimed |
| KnowledgeTables.KnowledgeRepository.CompleteProcessingVersion | backend/app/db/repositories/knowledge_repository.py:197-232 | only a processing version becomes indexed |
| KnowledgeTables.KnowledgeRepository.FailProcessingVersion | backend/app/db/repositories/knowledge_repository.py:234-281 | only a processing version fails, into failed or cleanup_required |
| KnowledgeTables.KnowledgeRepository.RequeueFailedVersion | backend/app/db/repositories/knowledge_repository.py:283-323 | only a failed or cleanup_required version returns to pending |
| KnowledgeTables.KnowledgeRepository.PromoteActiveVersion | backend/app/db/repositories/knowledge_repository.py:325-358 | the pointer moves exactly when it was empty or points at a lower number |
| KnowledgeTables.VersionTransitions | backend/app/db/repositories/knowledge_repository.py:157-323 | from which status each guarded update hits, and the one row it then changes; documents and all other rows stay |
| KnowledgeTables.CompletionIsExact | backend/app/db/repositories/knowledge_repository.py:197-358 | completion hits a processing version only; its document then points at it unless the active version has the same or a higher number |
| VersionProtocol.WritesExactlyWhenEffective | backend/app/db/repositories/knowledge_repository.py:137-358 | the exact condition under which each step changes the tables, and what it then writes |
| VersionProtocol.WorkersHold | backend/app/db/repositories/knowledge_repository.py:137-358 | a worker holds the number it read until it inserts or disappears, and its claim until it completes, fails or disappears |
| Indexing.KnowledgeService.IndexDocumentVersion | backend/app/services/knowledge_service.py:764-887 | for every fault schedule: the two stores stay consistent (indexed means each chunk has the point of its own content, pending or failed means no point); other versions and active pointers are untouched unless completion committed; the recorded reason is that of exactly the faults met in this call (cleanup_required only after a raised deletion); the version is indexed if no fault was met and nothing in it is refused; an error escapes exactly if the last commit raised or the document was not seen |
| Indexing.KnowledgeService.RetryDocumentVersion | backend/app/services/knowledge_service.py:677-762 | the same for a retry: a processing or indexed version is left alone, clean-up comes before requeueing, each error has its own cause in the rows found or in the last answer of the outside, and it is refused exactly after a raised deletion in cleanup_required |
| Indexing.KnowledgeService.UpsertVectorPoints | backend/app/services/knowledge_service.py:905-956 | all batches are written, none larger than the batch size; or an upsert raised, and the error is its own if the deletion after it was applied, and clean-up needed exactly if that raised too |
| Indexing.KnowledgeService.CleanupFailedVectorWrite | backend/app/services/knowledge_service.py:958-983 | success means no point of the version is left; other versions' points stay either way |
| Indexing.KnowledgeService.EmbedChunkBatches | backend/app/services/knowledge_service.py:388-420 | each chunk is paired with the embedding of its own content, in chunk order, in calls of at most a batch; it fails exactly for a refused batch, a blank chunk or a batch size below one |
| Indexing.KnowledgeService.BuildVectorPoints | backend/app/services/knowledge_service.py:422-467 | one point per chunk vector, carrying the chunk's own base and version |
| Indexing.KnowledgeService.ClaimPending | backend/app/services/knowledge_service.py:469-501 | the claim commits alone; a failed commit leaves the tables as they were |
| Indexing.KnowledgeService.CompleteVersionIndexing | backend/app/services/knowledge_service.py:503-544 | status and active pointer move in one commit or not at all |
| Indexing.KnowledgeService.MarkVersionIndexingFailed | backend/app/services/knowledge_service.py:546-588 | the failure status and reason are recorded in one commit or not at all |
| Indexing.KnowledgeService.IndexClaimed | backend/app/services/knowledge_service.py:806-887 | once the version is claimed: indexed without a fault, failed with the reason of the faults met, or an escaping error with the row left processing |
| Indexing.KnowledgeService.UpsertBatch | backend/app/services/knowledge_service.py:934-956 | a batch that raises is followed by a deletion of the version's points, and the answer of that deletion decides which error is told |
| Indexing.KnowledgeService.HandleFailure | backend/app/services/knowledge_service.py:837-887 | each error is recorded under its own reason, or escapes with the row untouched |
| Indexing.KnowledgeService.Diagnose | backend/app/services/knowledge_service.py:837-887 | after a completion that could not be committed the points are deleted first, and the answer decides between the two reasons |
| Indexing.KnowledgeService.OneReason | backend/app/services/knowledge_service.py:837-887 | the set of faults met determines the reason, and excludes success |
| Indexing.KnowledgeService.CleanBeforeRetry | backend/app/services/knowledge_service.py:711-735 | a version is requeued only once its points are known to be gone |
| Indexing.WrittenInBatches | backend/app/services/knowledge_service.py:905-956 | writing batch after batch equals writing all points at once |
| Indexing.WrittenIsUpsert | backend/app/services/knowledge_service.py:934-942 | an upsert adds or replaces the points of its batch under their own chunk ids, and leaves all others |
| Indexing.WrittenTouchesOnlyItsVersion | backend/app/services/knowledge_service.py:905-956 | upserting a version's points leaves every other version's points as they were |
| Indexing.OneVersionAtATime | backend/app/services/knowledge_service.py:764-983 | a call that changes one row and one version's points keeps all versions consistent |
| Indexing.AgreementIsPerChunk | backend/app/services/knowledge_service.py:764-835 | an indexed version has, for each of its persisted chunks, the point of that chunk's own content in its document's base, and no other point; a pending or failed one has none |
| Indexing.ExecuteIndexNode | backend/app/workflow/knowledge_nodes.py:37-70 | success exactly if this call claimed the version, left it indexed and its last commit was good; what escapes is exactly a raised last commit or a document not seen; everything else, a version left failed or in clean-up included, is retryable |
| SagaProtocol.StoresAgreeAfterEveryStep | backend/app/services/knowledge_service.py:677-983 | from empty stores on, creations of documents and versions and the steps of calls on any number of versions interleave at every upsert, deletion and commit, each failing or dying anywhere: the stores agree after every step |
| SagaProtocol.StepKeepsInv | backend/app/services/knowledge_service.py:677-983 | each such step keeps what every call relies on about its version |
| SagaProtocol.MoveKeepsInv | backend/app/db/repositories/knowledge_repository.py:73-155 | new documents and new pending versions keep it too |
| SagaProtocol.ClosingCommitsNeverMiss | backend/app/services/knowledge_service.py:503-588 | a call that is on always finds the row for its next guarded update |
| SagaProtocol.LateCleanUpDisagrees | backend/app/services/knowledge_service.py:710-723 | why one call at a time retries a version: a clean-up that arrives once the version is indexed empties it |
| SagaProtocol.OverlappingRetriesDisagree | backend/app/services/knowledge_service.py:677-762 | two overlapping retries reach that state: both begin at cleanup_required, the second cleans, requeues and is indexed again, then the first one's deletion arrives and the stores disagree |
| Embedding.Embed | backend/app/ai/providers/openai_compatible.py:195-234 | an answer is accepted exactly when it has one item per text, and then each vector stands at its item's index |
| Embedding.EmbedThroughGateway | backend/app/ai/embedding_gateway.py:73-154 | rejected before the call exactly for no or blank texts; accepted exactly when count, indexes, dimensions and finiteness all fit |
| Embedding.AcceptedAnswerIsInTextOrder | backend/app/ai/providers/openai_compatible.py:209-234 | in whatever order the provider answers, the accepted vectors are the texts' embeddings in text order |
| Embedding.SortedCoverIsRange | backend/app/ai/providers/openai_compatible.py:216-226 | sorted indexes equal 0..n-1 when every index occurs, which is the check the provider code makes |
| Retrieval.SearchKnowledge | backend/app/services/knowledge_service.py:590-675 | stopping at top_k while looping equals keeping the live candidates in order and cutting afterwards |
| Retrieval.HitsAreAnOrderedSelection | backend/app/services/knowledge_service.py:640-675 | the hits are exactly the live candidates, in order |
| Retrieval.HitsKeepScoreOrder | backend/app/services/knowledge_service.py:640-675 | hits stay in descending score order |
| Retrieval.SearchIsExact | backend/app/db/repositories/knowledge_repository.py:388-438 | in every reachable state a search returns, of the candidates whose chunk is of its document's highest indexed version, in the base asked for and of a file that is ready and not deleted, the first top_k in candidate order, each with its own row: no one more, no one less |
| Retrieval.LiveIsSearchable | backend/app/db/repositories/knowledge_repository.py:388-438 | in every reachable state the join on the active pointer finds exactly those chunks |
| Retrieval.OrphanPointsNeverSurface | backend/app/db/repositories/knowledge_repository.py:388-438 | points of no, superseded or foreign chunks inserted anywhere among the candidates change nothing |
| WorkflowProtocol.FourTablesAgree | backend/app/services/workflow_service.py:64-335 | in every reachable state revision, run and the two steps agree: submitted iff waiting, rejected/expired/withdrawn iff cancelled, approved iff the index step exists, and run and index step fail with the same code |
| WorkflowProtocol.AtMostOneDecision | backend/app/services/workflow_service.py:258-335 | of all approvals, rejections, withdrawals and expiries of one revision at most one is applied |
| WorkflowProtocol.DecisionIsFinal | backend/app/services/workflow_service.py:258-335 | a decided revision row never changes again |
| WorkflowProtocol.AttemptsAreNumberedAndBounded | backend/app/workflow/executor.py:224-243 | attempts are numbered 1..n with n at most max_attempts, all but the last failed retryably, and the last runs exactly when its step does |
| WorkflowProtocol.FinishedAttemptsNeverChange | backend/app/db/repositories/workflow_repository.py:184-264 | a finished attempt is never written again |
| WorkflowProtocol.RunStatusFollowsTable | backend/app/workflow/state_machine.py:59-95 | every committed change of a run's status is the edge of the transition table that belongs to the action |
| WorkflowProtocol.TransitionTable | backend/app/workflow/state_machine.py:59-95 | where each event is allowed and where it leads; succeeded and cancelled runs take none |
| WorkflowProtocol.WritesExactlyWhenEffective | backend/app/services/workflow_service.py:64-335 | on coupled tables, the exact condition under which each action of users and executors writes, and the one transaction it then runs |
| WorkflowProtocol.RunsChangeFinitelyOften | backend/app/services/workflow_service.py:192-236 | a run sees at most 3 * max_attempts + 1 row-changing transactions after its submission, by an explicit measure |
| WorkflowProtocol.OrphanStaysRunning | backend/app/workflow/executor.py:245-297 | an attempt whose executor is gone before its closing commit stays running with its step and run for ever: resume, decision and claim all refuse it |
| WorkflowProtocol.CrashOrphans | backend/app/workflow/executor.py:245-297 | a raised closing commit, or a cancellation before it, orphans the attempt |
| WorkflowProtocol.EndedNodeStrandsItsVersion | backend/app/workflow/knowledge_nodes.py:37-70 | an execution that ends while its node holds a version leaves that version stuck processing |
| WorkflowProtocol.NodeNeverMissesItsVersion | backend/app/workflow/knowledge_nodes.py:37-70 | a node that claimed its run's version can always complete it |
| WorkflowResume.FailedAttemptBars | backend/app/workflow/knowledge_nodes.py:58-66 | an attempt that fails while its version is not pending bars its run |
| WorkflowResume.ResumeAloneNeverSucceeds | backend/app/services/workflow_service.py:192-236 | a barred run never succeeds by resuming: resume requeues run and step, and not the version the node needs pending |
| WorkflowResume.RetryClaimsForItself | backend/app/services/knowledge_service.py:677-762 | a retry of the version, undisturbed, claims it for itself and does not let the run in |
| WorkflowResume.ResumableSucceedsExactlyWhenPending | backend/app/services/workflow_service.py:192-236 | a run that may be resumed has some sequence of actions without a requeue of its version that ends with it succeeded, exactly if that version is pending |
| WorkflowResume.ReachableResumableSucceedsExactlyWhenPending | backend/app/services/workflow_service.py:192-236 | the same in every reachable state, with no further assumption |
| WorkflowResume.UndisturbedResumeSucceeds | backend/app/workflow/executor.py:130-276 | with the version pending, resume, claim, node and close succeed one after the other, and so does the run |
| WorkflowResume.FailedRunIsBarredExactly | backend/app/workflow/knowledge_nodes.py:37-70 | a failed run is barred exactly when its version is not pending |
| WorkflowResume.BarredRunIsReachable | backend/app/workflow/knowledge_nodes.py:58-66 | a witness: from empty tables, one version, its approved revision and one retryable failure end in a run that may be resumed and is barred |
| WorkflowProtocol.SucceededMeansPublished | backend/app/workflow/executor.py:130-276 | once succeeded, now and in every later state: the revision is approved, the version indexed, and the document active at that number or above |
| WorkflowProtocol.ClosingUpdateNeverMisses | backend/app/workflow/executor.py:245-297 | an executor in flight always finds its attempt, step and run to close |
| WorkflowProtocol.ActionKeepsInv | backend/app/services/workflow_service.py:64-335 | every action of users, executors and knowledge workers keeps the joint invariant |
| WorkflowTables.SubmitKeeps | backend/app/services/workflow_service.py:64-128 | submission keeps the four tables coupled |
| WorkflowTables.DecideKeeps | backend/app/services/workflow_service.py:258-335 | every decision keeps them coupled |
| WorkflowTables.ClaimKeeps | backend/app/workflow/executor.py:224-243 | claiming a step keeps them coupled |
| WorkflowTables.ClaimCouples | backend/app/workflow/executor.py:224-243 | a claim succeeds exactly when the index step is pending, and gives the next attempt number |
| WorkflowTables.CompleteKeeps | backend/app/workflow/executor.py:245-276 | completing keeps them coupled |
| WorkflowTables.FailKeeps | backend/app/workflow/executor.py:278-297 | failing keeps them coupled |
| WorkflowTables.ResumeKeeps | backend/app/services/workflow_service.py:192-236 | resuming keeps them coupled |
| WorkflowTables.LateApproval | backend/app/services/workflow_service.py:140-150 | a witness that approval does not look at the expiry time: coupled tables in which a revision that is due is approved |
| WorkflowTables.SubmitsExactlyNewIds | backend/app/services/workflow_service.py:64-128 | submission commits exactly for new ids, and writes these three rows |
| WorkflowTables.SubmissionAndDecisionGuards | backend/app/services/workflow_service.py:64-335 | in any tables, the exact condition under which a submission and a decision commit |
| WorkflowTables.ClosingGuards | backend/app/workflow/executor.py:245-297 | in any tables, the exact condition under which closing commits; a completion ends its run exactly if no other step of it is pending |
| WorkflowTables.FirstStepIsEarliest | backend/app/db/repositories/workflow_repository.py:36-135 | the step taken is the earliest with the status asked for, and none is taken only if none has it |
| WorkflowTables.DecidesExactlyWhileSubmitted | backend/app/services/workflow_service.py:258-335 | a decision commits exactly while the revision is submitted, and settles revision, run and steps together |
| WorkflowTables.ResumesExactlyRetryableFailures | backend/app/services/workflow_service.py:192-236 | a run is resumed exactly when it failed retryably with attempts left |
| WorkflowTables.RunningAttemptIsLast | backend/app/db/repositories/workflow_repository.py:184-264 | a running attempt is the last one of a running index step of a running run |
| WorkflowService.WorkflowRepository.ApproveWaitingRunAndStep | backend/app/db/repositories/workflow_repository.py:74-100 | both guarded updates hit, or the caller is told |
| WorkflowService.WorkflowRepository.CancelWaitingRunAndStep | backend/app/db/repositories/workflow_repository.py:102-122 | the same for cancelling |
| WorkflowService.WorkflowRepository.CompleteAttemptAndStep | backend/app/db/repositories/workflow_repository.py:184-218 | attempt and step succeed together, from running only |
| WorkflowService.WorkflowRepository.FailAttemptStepAndRun | backend/app/db/repositories/workflow_repository.py:220-264 | attempt, step and run fail together with one code, from running only |
| WorkflowService.WorkflowRepository.RequeueFailedRunAndStep | backend/app/db/repositories/workflow_repository.py:266-286 | failed run and step go back to running and pending |
| WorkflowService.WorkflowRepository.CompleteRunIfNoPendingSteps | backend/app/db/repositories/workflow_repository.py:288-308 | a running run without pending steps succeeds; otherwise nothing changes |
| WorkflowService.WorkflowRepository.UpdateSubmittedDecision | backend/app/db/repositories/knowledge_revision_repository.py:36-60 | only a submitted revision is decided |
| WorkflowService.SubmitRevisionForApproval | backend/app/services/workflow_service.py:64-128 | refines the protocol's submission: run, waiting step and revision in one commit, only for a pending version and new ids |
| WorkflowService.DecideRevision | backend/app/services/workflow_service.py:258-335 | refines the protocol's decision; each error has its exact condition, and on coupled tables the answer is determined by the revision's status and the commit |
| WorkflowService.ReconcileExpiredRevision | backend/app/services/workflow_service.py:176-190 | expires exactly what is still submitted and due |
| WorkflowService.ResumeFailedRun | backend/app/services/workflow_service.py:192-236 | refines the protocol's resume, with the exact condition of each refusal |
| WorkflowService.ClaimNextStep | backend/app/workflow/executor.py:224-243 | refines the protocol's claim; a raised commit escapes and changes nothing |
| WorkflowService.CompleteClaimedStep | backend/app/workflow/executor.py:245-276 | refines the protocol's completion, reports that the state changed, or escapes with a raised commit |
| WorkflowService.FailClaimedStep | backend/app/workflow/executor.py:278-297 | refines the protocol's failure, reports that the state changed, or escapes with a raised commit |
| WorkflowExecutor.ExecuteIndexStep | backend/app/workflow/executor.py:130-297 | one call from claim to close: closed exactly if the closing transaction is reached and commits, otherwise (a raised commit, a cancellation, a database error before the node) the claimed rows stay running; the run succeeds exactly if this very call claimed and indexed its version, fails for good exactly for a definition error, a raised last commit of the node or a document not seen, and retryably in every other case |
| WorkflowExecutor.CloseClaimedStep | backend/app/workflow/executor.py:165-297 | each node outcome closes attempt, step and run with its own status and code, exactly if the commit succeeds |
| WorkflowExecutor.RunIndexNode | backend/app/workflow/executor.py:157-190 | a retryable error of the node stays retryable, any other exception does not, and a version left failed or in clean-up is always the former |
| WorkflowExecutor.StrandedAttempt | backend/app/workflow/executor.py:245-276 | a witness: the claim commits, the closing commit raises, attempt and run stay running |
| DefinitionRegistry.ValidateDefinition | backend/app/workflow/registry.py:105-191 | a definition is accepted exactly when its node, type and binding checks hold and its steps form a tree rooted at the start; a rejection names a real defect |
| DefinitionRegistry.Traversal.Visit | backend/app/workflow/registry.py:169-183 | the depth-first search ends, and either finds a real cycle or finishes the step with everything below it and no edge back |
| DefinitionRegistry.RejectionRefutes | backend/app/workflow/registry.py:105-191 | no definition with a named defect is acceptable |
| DefinitionRegistry.SearchProvesTree | backend/app/workflow/registry.py:105-191 | edge counts of at most one plus a finished search from the start give the tree |
| DefinitionRegistry.CheckEdges | backend/app/workflow/registry.py:139-166 | after a step its targets exist, have one predecessor so far, and take its output type |
| DefinitionRegistry.SearchFromStart | backend/app/workflow/registry.py:168-191 | no cycle and nothing unreachable means all steps are reachable and none leads back to the start |
| DefinitionRegistry.RegisterDefinitions | backend/app/workflow/registry.py:73-93 | a list is registered exactly when each definition is accepted and keys differ, and the table holds just these |
| WorkflowDefinition.TreeEdgeCount | backend/app/workflow/registry.py:139-166 | an accepted definition has one edge fewer than steps |
| WorkflowDefinition.WalkNeverRepeats | backend/app/workflow/registry.py:139-191 | no walk from the start of a rooted tree meets a step twice |
| Routing.RouteVisitsEachStepOnce | backend/app/workflow/routing.py:40-50 | for any node outputs, following the selected steps visits none twice and ends within the number of steps |
| Routing.HopsAreTyped | backend/app/workflow/routing.py:40-90 | each selected step exists and takes the type the previous node returns |
| Routing.SelectCaseIsExact | backend/app/workflow/routing.py:68-90 | a branch target is found exactly when a case has the value, and it is that case's target |
| Routing.SelectNextIsExact | backend/app/workflow/routing.py:40-90 | the linear successor, or the target of the one case whose value the selector holds; each error has its exact condition |
| Routing.BuildNodeInput | backend/app/workflow/routing.py:20-38 | exactly the bound fields, each from its declared source, or the error of the first binding whose source has none |
| Routing.StartNeedsNoPreviousOutput | backend/app/workflow/registry.py:124-137 | the start step never asks for an output that cannot exist |
| Routing.ApprovalIsAccepted | backend/app/workflow/knowledge_revision_definition.py:47-90 | the production definition passes its own validation |
| Routing.ApprovalRoutes | backend/app/workflow/knowledge_revision_definition.py:47-90 | approved leads to the index step, any other decision nowhere |
| TextParser.Parse | backend/app/knowledge/parsers/text.py:73-102 | errors exactly for a wrong type, bad encoding or blank text; otherwise the blocks are the paragraphs and show what the file shows |
| TextParser.ParagraphBlocks | backend/app/knowledge/parsers/text.py:22-64 | the accumulating loop with its flush computes the specified blocks, or the no-text error |
| TextParser.BlocksAreParagraphs | backend/app/knowledge/parsers/text.py:22-64 | blocks are in order, numbered from 0, and each is the stripped text of a maximal run of non-blank lines |
| TextParser.BlocksAreTheMaximalRuns | backend/app/knowledge/parsers/text.py:22-64 | the line ranges of the blocks are the maximal runs of non-blank lines, no more and no fewer |
| TextParser.BlocksKeepVisible | backend/app/knowledge/parsers/text.py:22-64 | the blocks show what the lines show: only whitespace is dropped |
| TextParser.SplitLinesKeepsVisible | backend/app/knowledge/parsers/text.py:87-93 | splitting into lines loses only line breaks |
| TextParser.LinesAreUnbroken | backend/app/knowledge/parsers/text.py:87-93 | no line holds a line break |
| TextParser.SplitLinesIsExact | backend/app/knowledge/parsers/text.py:87-93 | the text is cut at every line break and nowhere else: unbroken lines, one break between each and the next, at most one after the last, and CR LF is one break |
| TextParser.LinesReadBack | backend/app/knowledge/parsers/text.py:87-93 | a text made of lines ended by LF, by CR LF or by CR splits into those lines |
| TextParser.ParagraphReadsBack | backend/app/knowledge/parsers/text.py:22-64 | a block's text, split again, gives its lines: each without trailing whitespace, the first without leading whitespace |
| Text.StripIsExact | backend/app/knowledge/parsers/text.py:22-64 | stripping takes the outer whitespace and nothing else |
| Sentences.SpansAreTheSplit | backend/app/knowledge/chunking.py:91-92 | the pieces are cut at every boundary of the regular expression and nowhere else |
| Sentences.SentencesAreExact | backend/app/knowledge/chunking.py:157-165 | after a sentence mark all whitespace goes, elsewhere a run of at least two line feeds; the sentences are the pieces in between that show something, stripped, in order |
| Sentences.BlankIsOneSentence | backend/app/knowledge/chunking.py:157-165 | the fallback: a blank text is one empty sentence |
| Sentences.SentencesKeepVisible | backend/app/knowledge/chunking.py:157-165 | sentences show what the text shows and have no outer whitespace |
| Units.LongestFittingPrefix | backend/app/knowledge/chunking.py:198-207 | the loop returns the trimmed longest prefix whose shorter prefixes all fit |
| Units.SplitOversizedUnit | backend/app/knowledge/chunking.py:167-196 | the cutting loop ends for every counter and equals its specification |
| Units.PiecesFit | backend/app/knowledge/chunking.py:167-207 | every piece fits the token limit after trimming, with no assumption on the counter |
| Units.PiecesKeepVisible | backend/app/knowledge/chunking.py:167-196 | cutting loses only whitespace |
| Units.CutIsGreedy | backend/app/knowledge/chunking.py:167-207 | every piece and all its beginnings fit, no piece could reach the next visible character, and only whitespace lies between the pieces |
| Units.SplitUnitIsExact | backend/app/knowledge/chunking.py:167-196 | a sentence that fits stays whole; another becomes its greedy pieces, numbered from 0, with its block and lines |
| Units.UnitsSucceed | backend/app/knowledge/chunking.py:140-196 | cutting a document fails only if some visible character alone exceeds the limit |
| Units.UnitsSucceedExactlyWhenCharactersFit | backend/app/knowledge/chunking.py:140-196 | exactly then, if the counter never counts a part higher than the whole |
| Units.UnitsKeepTheFile | backend/app/knowledge/chunking.py:140-207 | from file text to units nothing visible is lost |
| Units.UnitsGood | backend/app/knowledge/chunking.py:140-196 | each unit fits, is a passage of its block that shows something, and carries the block's index and lines |
| Units.UnitsForBlock | backend/app/knowledge/chunking.py:140-155 | sentences and their pieces, in order |
| Chunking.Chunk | backend/app/knowledge/chunking.py:115-138 | for any counter: errors as specified, otherwise the drafts are the windows of a packing |
| Chunking.Pack | backend/app/knowledge/chunking.py:123-138 | the loop produces a packing: a window closes exactly when the next unit does not fit |
| Chunking.OverlapForNextChunk | backend/app/knowledge/chunking.py:209-226 | the overlap is the longest run of last units found one by one within both limits |
| Chunking.WindowsAdvance | backend/app/knowledge/chunking.py:115-138 | both ends of successive windows move forward without a gap, and what they share fits the overlap limit |
| Chunking.OverlapsAsideNothingRepeats | backend/app/knowledge/chunking.py:115-138 | dropping overlaps gives back the unit list |
| Chunking.PackingIsUnique | backend/app/knowledge/chunking.py:115-138 | counter and limits determine the windows completely |
| Chunking.DraftsFit | backend/app/knowledge/chunking.py:115-138 | no draft exceeds max_tokens |
| Chunking.DraftShowsItsUnits | backend/app/knowledge/chunking.py:228-247 | a draft shows what its units show and is never blank |
| Chunking.DraftCitesItsUnits | backend/app/knowledge/chunking.py:228-247 | a draft cites each of its units in order, names its first and last block, and counts the tokens of its content |
| Chunking.DraftContentGrows | backend/app/knowledge/chunking.py:228-259 | its content is the text of its units with a blank line between each and the next |
| Chunking.ChunksKeepTheFile | backend/app/knowledge/chunking.py:115-207 | from text file to chunks, overlaps aside, the chunks show the file's text |
| Context.Build | backend/app/knowledge/context.py:66-115 | the loop returns the specified choice, content, citations and use, or the first hit's error |
| Context.ChosenInOrder | backend/app/knowledge/context.py:86-115 | chosen hits keep their order |
| Context.OmittedExactlyOnOverflow | backend/app/knowledge/context.py:100-106 | a hit is left out exactly when adding it to the choices before it would go over budget |
| Context.LabelsMatch | backend/app/knowledge/context.py:86-126 | citation i names hit i's own chunk, document, file and place under the label source-i, and fragment i carries this label around the hit's text |
| Context.ContentGrows | backend/app/knowledge/context.py:96-127 | each choice adds a blank line and one fragment: the opening tag with the citation's label, the hit's whole text without outer whitespace, the closing tag |
| Context.HitErrorTells | backend/app/knowledge/context.py:15-127 | a hit is refused exactly for a blank identifier, an empty locator or blank content, in this order |
| Context.FirstErrorIsFirst | backend/app/knowledge/context.py:86-115 | the error reported is that of the first hit with one |
| Context.CitationsAreDistinct | backend/app/knowledge/context.py:86-97 | labels source-1..source-n are distinct |
| Context.UseIsTheCount | backend/app/knowledge/context.py:86-115 | used_tokens is within budget, and is the count of the delivered content unless that is empty and yet costs something |
| Context.Calculate | backend/app/knowledge/budget.py:63-119 | a budget exists exactly when prompt, messages and output are valid and space is left; it gives the context everything that prompt, messages, output and margin leave; each error has its condition |
| Context.RetrieveContext | backend/app/services/rag_chat_service.py:72-111 | prompt, query, context, output and margin together fit the model's window, for every counter |
| SessionProtocol.EachTokenRotatesAtMostOnce | backend/app/db/repositories/session_repository.py:85-109 | in any run each issued token is rotated successfully at most once |
| SessionProtocol.OnlyTheNewestIsAccepted | backend/app/db/repositories/session_repository.py:85-109 | a session accepts its newest token only, and only while it lives |
| SessionProtocol.ReplayEndsTheSession | backend/app/db/repositories/session_repository.py:85-109 | presenting a superseded token ends the live session, and it accepts nothing ever after |
| SessionProtocol.SessionEndsExactly | backend/app/db/repositories/session_repository.py:85-184 | in any run a live session ends exactly by its key's time-out, a replay of it, its owner's logout with the current token, or a revocation by its owner; then it is gone for good; nobody else's action ends it |
| SessionProtocol.RevokeAllLogsOutEveryDevice | backend/app/db/repositories/session_repository.py:161-184 | one bulk revocation by a user with a live session ends all of that user's sessions and no one else's |
| SessionProtocol.ExpiryGrowsWithinItsBound | backend/app/core/security.py:185-224 | while a session lives, and its rotations do not see the clock behind its last use, its expiry never shrinks and never passes its fixed absolute bound |
| SessionProtocol.ExpiryIsGoverned | backend/app/core/security.py:185-224 | in any run, with any clock: sliding sessions expire ttl days after their last use, or at the absolute maximum after creation if that is sooner; absolute ones ttl days after creation |
| SessionProtocol.ShrinksExactlyWhenTheClockStepsBack | backend/app/core/security.py:206-224 | an accepted rotation shrinks the expiry exactly in sliding mode with the clock behind the last use, unless the bound decides |
| SessionProtocol.ClockStepsBack | backend/app/core/security.py:206-224 | a witness: a login and one rotation with the clock a day back shorten the session |
| SessionProtocol.BoundNeverMoves | backend/app/db/repositories/session_repository.py:85-109 | the absolute bound of a living session never moves, with any clock |
| SessionProtocol.NeverPastTheBound | backend/app/core/security.py:206-224 | the expiry never passes the bound, with any clock |
| SessionProtocol.RunKeepsInv | backend/app/db/repositories/session_repository.py:85-184 | index, tokens and readable records stay right over every interleaving of login, refresh, logout, revocation, listing and time-out, with any clock |
| SessionProtocol.Refresh | backend/app/services/auth_service.py:180-260 | a refresh succeeds exactly for its owner's active account, in time, with the current token; any other token from there removes the session, and any earlier refusal changes nothing |
| Sessions.RotatedKeeps | backend/app/db/repositories/session_repository.py:85-109 | rotation keeps the index right exactly if a successful caller names the owner, which is what the refresh guard ensures |
| Sessions.RevokedAllKeeps | backend/app/db/repositories/session_repository.py:161-184 | bulk revocation keeps the index right |
| Sessions.RevokedAllTakesEverySession | backend/app/db/repositories/session_repository.py:161-184 | with the index right it ends exactly the user's live sessions, and no other's |
| Sessions.RevokedAllEndsJust | backend/app/db/repositories/session_repository.py:161-184 | bulk revocation ends the user's listed sessions and the current one and empties the user's set; without a live current session of the user it does nothing |
| Sessions.ListingIsExact | backend/app/db/repositories/session_repository.py:382-418 | with the index right a listing is exactly the user's live sessions, most recently used first |
| Sessions.WithoutStaleKeeps | backend/app/db/repositories/session_repository.py:382-418 | dropping stale entries leaves exactly the user's live sessions in the set |
| Sessions.SessionRepository.Create | backend/app/db/repositories/session_repository.py:208-242 | hash and index entry are written together, and nothing else changes |
| Sessions.SessionRepository.Rotate | backend/app/db/repositories/session_repository.py:85-109 | the script's three answers: nothing, the end of this one session, or its new token, last use and expiry; no other session or entry changes |
| Sessions.SessionRepository.DeleteIfMatches | backend/app/db/repositories/session_repository.py:121-137 | on matching user and token the session and its entry are gone, and no other; otherwise nothing changes |
| Sessions.SessionRepository.Revoke | backend/app/db/repositories/session_repository.py:141-152 | the named user's session and its entry are gone, and no other; otherwise nothing changes |
| Sessions.SessionRepository.RevokeAll | backend/app/db/repositories/session_repository.py:161-184 | removes the user's indexed sessions and the current one, and returns their exact count, at least 1 |
| Sessions.SessionRepository.ListForUser | backend/app/db/repositories/session_repository.py:382-418 | the existing members of the user's sorted set by falling score; stale entries are removed |
| ChatStream.Stream | backend/app/ai/gateway.py:153-245 | the retry loop ends at the one determined attempt and returns what it gives |
| ChatStream.OneAttemptIsSeen | backend/app/ai/gateway.py:153-245 | the caller sees one attempt's events cut at the first done; earlier attempts were silent and met a passing fault; at most max_retry_attempts + 1 are made; which error is told for which ending, the deadline in a wait included |
| ChatStream.LastAttemptIsUnique | backend/app/ai/gateway.py:153-245 | provider script and clock determine which attempt is the last |
| ChatStream.CutHasOneDone | backend/app/ai/gateway.py:184-219 | done is the last event of a stream, or does not occur |
| ChatStream.ConsumeStream | backend/app/services/chat_service.py:360-451 | exactly one usage record is handed over per stream: success iff done was delivered, otherwise cancelled or failed, with the last usage seen; it is stored exactly if it can be saved |
| ChatStream.RecordTells | backend/app/services/chat_service.py:360-451 | success exactly if done was delivered, cancelled exactly if the consumer left before it, else failed with the stream's own error; the last usage delivered; whether text was delivered |
| ChatStream.EncodeStarted | backend/app/api/ai_sse.py:60-79 | one frame per event, from which the event reads back, then at most one error; the frames end in exactly one done or error if and only if the error is one of the application's own |
| ChatStream.Serve | backend/app/services/chat_service.py:360-451 | provider to client: one record, success iff done; the frames end in exactly one done or error iff the last attempt has a done or does not end in an error of another kind |
| ChatStream.Generate | backend/app/ai/gateway.py:124-151 | retries retryable faults only, at most max_retry_attempts times, and times out whenever the total deadline passes in a call or a wait |
| ChatStream.OneCallIsTold | backend/app/ai/gateway.py:124-151 | one answer or one told fault: every earlier call met a passing fault; a deadline in the last call or in the wait after it is a time-out; each other fault is told by its kind |
| ChatStream.UnendedStream | backend/app/api/ai_sse.py:60-79 | a witness: a begun stream that meets an error of another kind ends without a terminal frame |
| FileSaga.FileService.Upload | backend/app/services/file_service.py:77-209 | under every put, delete, flush and commit failure, errors no handler takes included: the row left and the error told are determined call by call; ready rows have their object, failed ones do not; exactly when the row stays pending and when its object is left |
| FileSaga.FileService.StoreAndPublish | backend/app/services/file_service.py:113-199 | the same from the pending row on |
| FileSaga.FileService.Compensate | backend/app/services/file_service.py:117-151 | after a failed upload the row is failed for its own reason if the object is known to be gone, left for clean-up if not, and untouched if that could not be saved |
| FileSaga.FileService.DeleteFile | backend/app/services/file_service.py:248-347 | only the owner of a ready file gets through; the row left and the error told are determined call by call; deleted means the object is gone; exactly when the row stays deleting and when nothing changes |
| FileSaga.FileService.PerformAll | backend/app/services/file_service.py:77-472 | a pending or deleting row and its object stay as they are, whatever calls follow and whatever fails in them |
| FileSaga.StrandedUpload | backend/app/services/file_service.py:163-166 | a witness: the object is stored, the flush of ready raises, and the row stays pending |
| FileSaga.StrandedDeletion | backend/app/services/file_service.py:283-306 | a witness: a row left deleting with its object |
| FileSaga.LostObject | backend/app/services/file_service.py:349-472 | a witness: an object lost outside is noticed by a download and its row ends deleted by clean-up |
| FileSaga.FileService.DownloadFile | backend/app/services/file_service.py:349-405 | an object is found missing only after an outside loss and if opening raises nothing else, and is then handed to clean-up |
| FileSaga.FileService.GetOwned | backend/app/db/repositories/file_repository.py:18-29 | a file is found exactly by its owner while it is ready and not deleted |
| FileSaga.FileService.CleanupFile | backend/app/services/file_service.py:407-472 | the unsupported-reason error is never returned; each other answer has its exact condition; success is exactly a deletion and a saved status, and ends in the reason's own status |
| FileSaga.FileService.SaveStatus | backend/app/db/repositories/file_repository.py:65-79 | status, reason and deletion time are saved together or not at all |
## Left out

- Indexing.KnowledgeService.RetryDocumentVersion: one call at a time retries a version; what two overlapping retries can do is shown in `SagaProtocol.OverlappingRetriesDisagree`, and the re-read after a requeue that hit nothing is not modelled.
- WorkflowService.ResumeFailedRun: its checks and its update are one atomic step; a resume interleaved between them is not modelled.
- Sessions.SessionRepository.ListForUser: reading the sorted set, the hashes and dropping stale entries are one step here, three round trips in the code.
- ChatStream.ConsumeStream: takes a stream that ends the way the gateway's streams are proved to end; cancellation during the saving of the usage record, and the time and cost fields of the record, are not modelled.
- WorkflowExecutor.ExecuteIndexStep: a cancellation in the middle of indexing is modelled by the version's call ending there (`SagaProtocol`, `Crash` in `WorkflowProtocol`), not inside this method.
- FileSaga.FileService.DeleteFile: operations on one file run one after another; concurrent ones are not modelled.
- Units.UnitsSucceedExactlyWhenCharactersFit: the converse direction assumes that no part of a text counts more than the whole; the other direction has no assumption.
- Context.UseIsTheCount: for an empty context the code reports 0 without counting, so there the use is the count only if the counter gives 0 for the empty text.
- Embedding.EmbedThroughGateway: the lookup of the model alias and its error are left out.
- Owners: ownership filters of knowledge bases, documents, runs and revisions are reduced to whether the row is visible.
- Workflow payloads: node outputs, run inputs and reason texts are not stored in the tables; failure codes and statuses are.
- Persisting chunks: reuse of a version by its processing fingerprint appears only as the unique key on it.
- Search errors: the blank query, the missing base and the store's own errors before the candidates are known.
- The Markdown and PDF parsers, upload inspection, prompt templates, login with its rate limiter, cost rounding and health checks.
- Uninterpreted: tokenizers, embeddings, hashes, signed tokens and the UTF-8 decoder; token and id freshness are hypotheses of the protocols.
- Clocks: time-outs are outcomes of a script, key expiry may happen at any moment, and identifiers are natural numbers.
- HTTP routes, schemas, settings, migrations, logging and SDK behaviour.
