/**
 The four workflow tables, the transactions that change them, and the run
 transition table. Rows are keyed by the columns their unique constraints name,
 so a step is (run, step name) and an attempt is (step, attempt number).
 */
module WorkflowTables {
  import opened Prelude
  import opened KnowledgeTables

  type RunId = nat
  type RevisionId = nat

  datatype RunStatus = RunPending | RunRunning | RunWaitingApproval | RunSucceeded | RunFailed | RunCancelled

  datatype StepStatus = StepPending | StepRunning | StepWaiting | StepSucceeded | StepFailed | StepCancelled

  datatype AttemptStatus = AttemptRunning | AttemptWaiting | AttemptSucceeded | AttemptFailed | AttemptCancelled

  datatype RevisionStatus = Submitted | Approved | Rejected | Expired | Withdrawn

  datatype FailureCode = NodeRetryable | NodeExecutionFailed

  datatype RunEvent = Start | WaitForApproval | Approve | Reject | Expire | Complete | Fail | Resume | Cancel

  /** The two steps of the approval definition, in step_index order. */
  datatype StepName = ApprovalStep | IndexStep

  /** max_attempts of a step definition. */
  type Positive = n: nat | n > 0 witness 1

  datatype StepKey = StepKey(run: RunId, name: StepName)

  datatype AttemptKey = AttemptKey(step: StepKey, number: nat)

  datatype RunRow = RunRow(
    revision: RevisionId,
    document: DocumentId,
    version: VersionId,
    maxAttempts: Positive,
    status: RunStatus,
    failure: Option<FailureCode>)

  datatype StepRow = StepRow(status: StepStatus, failure: Option<FailureCode>)

  datatype AttemptRow = AttemptRow(status: AttemptStatus, failure: Option<FailureCode>)

  datatype RevisionRow = RevisionRow(
    run: RunId,
    document: DocumentId,
    version: VersionId,
    status: RevisionStatus,
    expiresAt: int,
    decidedBy: Option<UserId>)

  datatype WorkflowDb = WorkflowDb(
    revisions: map<RevisionId, RevisionRow>,
    runs: map<RunId, RunRow>,
    steps: map<StepKey, StepRow>,
    attempts: map<AttemptKey, AttemptRow>)

  /** WORKFLOW_RUN_TRANSITIONS: the edges a run status may take. */
  function NextRunStatus(status: RunStatus, event: RunEvent): Option<RunStatus> {
    match (status, event)
    case (RunPending, Start) => Some(RunRunning)
    case (RunPending, Cancel) => Some(RunCancelled)
    case (RunRunning, WaitForApproval) => Some(RunWaitingApproval)
    case (RunRunning, Complete) => Some(RunSucceeded)
    case (RunRunning, Fail) => Some(RunFailed)
    case (RunWaitingApproval, Approve) => Some(RunRunning)
    case (RunWaitingApproval, Reject) => Some(RunCancelled)
    case (RunWaitingApproval, Expire) => Some(RunCancelled)
    case (RunWaitingApproval, Cancel) => Some(RunCancelled)
    case (RunFailed, Resume) => Some(RunRunning)
    case _ => None
  }

  // ---- Guarded rows ------------------------------------------------------

  predicate RunIs(db: WorkflowDb, r: RunId, status: RunStatus) {
    r in db.runs && db.runs[r].status == status
  }

  predicate StepIs(db: WorkflowDb, key: StepKey, status: StepStatus) {
    key in db.steps && db.steps[key].status == status
  }

  predicate AttemptIs(db: WorkflowDb, key: AttemptKey, status: AttemptStatus) {
    key in db.attempts && db.attempts[key].status == status
  }

  predicate RevisionIs(db: WorkflowDb, rev: RevisionId, status: RevisionStatus) {
    rev in db.revisions && db.revisions[rev].status == status
  }

  function WithRun(db: WorkflowDb, r: RunId, status: RunStatus, failure: Option<FailureCode>): WorkflowDb
    requires r in db.runs
  {
    db.(runs := db.runs[r := db.runs[r].(status := status, failure := failure)])
  }

  function WithStep(db: WorkflowDb, key: StepKey, status: StepStatus, failure: Option<FailureCode>): WorkflowDb {
    db.(steps := db.steps[key := StepRow(status, failure)])
  }

  function WithAttempt(db: WorkflowDb, key: AttemptKey, status: AttemptStatus, failure: Option<FailureCode>): WorkflowDb {
    db.(attempts := db.attempts[key := AttemptRow(status, failure)])
  }

  function WithRevision(db: WorkflowDb, rev: RevisionId, status: RevisionStatus, decider: Option<UserId>): WorkflowDb
    requires rev in db.revisions
  {
    db.(revisions := db.revisions[rev := db.revisions[rev].(status := status, decidedBy := decider)])
  }

  function AttemptsOf(db: WorkflowDb, key: StepKey): set<AttemptKey> {
    set a | a in db.attempts && a.step == key
  }

  /** get_attempt_count. */
  function AttemptCount(db: WorkflowDb, key: StepKey): nat {
    |AttemptsOf(db, key)|
  }

  /** get_next_pending_step / get_failed_step: the lowest step_index with this status. */
  function FirstStepWith(db: WorkflowDb, r: RunId, status: StepStatus): Option<StepKey> {
    if StepIs(db, StepKey(r, ApprovalStep), status) then Some(StepKey(r, ApprovalStep))
    else if StepIs(db, StepKey(r, IndexStep), status) then Some(StepKey(r, IndexStep))
    else None
  }

  /** No step of the run has the status, or it is the earliest that has. */
  lemma FirstStepIsEarliest(db: WorkflowDb, r: RunId, status: StepStatus)
    ensures match FirstStepWith(db, r, status)
            case None => !StepIs(db, StepKey(r, ApprovalStep), status) && !StepIs(db, StepKey(r, IndexStep), status)
            case Some(key) =>
              && key.run == r && StepIs(db, key, status)
              && (key.name == IndexStep ==> !StepIs(db, StepKey(r, ApprovalStep), status))
  {}

  predicate NoPendingSteps(db: WorkflowDb, r: RunId) {
    forall key :: key in db.steps && key.run == r ==> db.steps[key].status != StepPending
  }

  // ---- Transactions: None means rolled back ------------------------------

  /** submit_revision_for_approval, once the version has been found pending. */
  function SubmitTx(db: WorkflowDb, rev: RevisionId, r: RunId, d: DocumentId, v: VersionId, expiresAt: int, maxAttempts: Positive): Option<WorkflowDb> {
    if rev in db.revisions || r in db.runs || StepKey(r, ApprovalStep) in db.steps then None
    else Some(db.(
      runs := db.runs[r := RunRow(rev, d, v, maxAttempts, RunWaitingApproval, None)],
      steps := db.steps[StepKey(r, ApprovalStep) := StepRow(StepWaiting, None)],
      revisions := db.revisions[rev := RevisionRow(r, d, v, Submitted, expiresAt, None)]))
  }

  predicate Decidable(db: WorkflowDb, rev: RevisionId) {
    && RevisionIs(db, rev, Submitted)
    && RunIs(db, db.revisions[rev].run, RunWaitingApproval)
    && StepIs(db, StepKey(db.revisions[rev].run, ApprovalStep), StepWaiting)
  }

  /** _decide_revision: every guard holds, or nothing is written. */
  function DecideTx(db: WorkflowDb, rev: RevisionId, decision: RevisionStatus, decider: Option<UserId>): Option<WorkflowDb> {
    if !Decidable(db, rev) || decision == Submitted then None
    else
      var r := db.revisions[rev].run;
      var decided := WithRevision(db, rev, decision, decider);
      if decision != Approved then
        Some(WithRun(WithStep(decided, StepKey(r, ApprovalStep), StepCancelled, None), r, RunCancelled, None))
      else if StepKey(r, IndexStep) in db.steps then None
      else
        var resumed := WithRun(WithStep(decided, StepKey(r, ApprovalStep), StepSucceeded, None), r, RunRunning, None);
        Some(WithStep(resumed, StepKey(r, IndexStep), StepPending, None))
  }

  /** _claim_next_step: the earliest pending step of a running run gets a numbered attempt. */
  function ClaimTx(db: WorkflowDb, r: RunId): Option<(WorkflowDb, AttemptKey)> {
    if !RunIs(db, r, RunRunning) || FirstStepWith(db, r, StepPending).None? then None
    else
      var key := FirstStepWith(db, r, StepPending).value;
      var attempt := AttemptKey(key, AttemptCount(db, key) + 1);
      if attempt in db.attempts then None
      else Some((WithAttempt(WithStep(db, key, StepRunning, None), attempt, AttemptRunning, None), attempt))
  }

  /** _complete_claimed_step: attempt and step succeed; the run too when nothing is pending. */
  function CompleteTx(db: WorkflowDb, attempt: AttemptKey): Option<WorkflowDb> {
    if !AttemptIs(db, attempt, AttemptRunning) || !StepIs(db, attempt.step, StepRunning) then None
    else
      var done := WithStep(WithAttempt(db, attempt, AttemptSucceeded, None), attempt.step, StepSucceeded, None);
      if RunIs(done, attempt.step.run, RunRunning) && NoPendingSteps(done, attempt.step.run)
      then Some(WithRun(done, attempt.step.run, RunSucceeded, None))
      else Some(done)
  }

  /** _fail_claimed_step: all three rows fail together. */
  function FailTx(db: WorkflowDb, attempt: AttemptKey, code: FailureCode): Option<WorkflowDb> {
    if !AttemptIs(db, attempt, AttemptRunning) || !StepIs(db, attempt.step, StepRunning) || !RunIs(db, attempt.step.run, RunRunning)
    then None
    else
      Some(WithRun(WithStep(WithAttempt(db, attempt, AttemptFailed, Some(code)), attempt.step, StepFailed, Some(code)),
                   attempt.step.run, RunFailed, Some(code)))
  }

  predicate Resumable(db: WorkflowDb, r: RunId) {
    && RunIs(db, r, RunFailed)
    && db.runs[r].failure == Some(NodeRetryable)
    && FirstStepWith(db, r, StepFailed).Some?
    && AttemptCount(db, FirstStepWith(db, r, StepFailed).value) < db.runs[r].maxAttempts
  }

  /** resume_failed_run: checks and update in one atomic step. */
  function ResumeTx(db: WorkflowDb, r: RunId): Option<WorkflowDb> {
    if !Resumable(db, r) then None
    else Some(WithStep(WithRun(db, r, RunRunning, None), FirstStepWith(db, r, StepFailed).value, StepPending, None))
  }

  // ---- What each transaction asks for, in any tables -----------------------

  /** A submission asks for three new keys, a decision for three rows that wait and, to approve, a free place for the index step. */
  lemma SubmissionAndDecisionGuards(db: WorkflowDb, rev: RevisionId, r: RunId, d: DocumentId, v: VersionId, expiresAt: int,
                                    maxAttempts: Positive, decision: RevisionStatus, decider: Option<UserId>)
    ensures SubmitTx(db, rev, r, d, v, expiresAt, maxAttempts).Some? <==>
              rev !in db.revisions && r !in db.runs && StepKey(r, ApprovalStep) !in db.steps
    ensures DecideTx(db, rev, decision, decider).Some? <==>
              && decision != Submitted && rev in db.revisions && db.revisions[rev].status == Submitted
              && var run := db.revisions[rev].run;
                 && run in db.runs && db.runs[run].status == RunWaitingApproval
                 && StepKey(run, ApprovalStep) in db.steps && db.steps[StepKey(run, ApprovalStep)].status == StepWaiting
                 && (decision == Approved ==> StepKey(run, IndexStep) !in db.steps)
  {}

  /** Closing asks for the running rows; a completion ends a running run exactly if no other step of it is pending. */
  lemma ClosingGuards(db: WorkflowDb, a: AttemptKey, code: FailureCode)
    ensures CompleteTx(db, a).Some? <==>
              && a in db.attempts && db.attempts[a].status == AttemptRunning
              && a.step in db.steps && db.steps[a.step].status == StepRunning
    ensures CompleteTx(db, a).Some? && RunIs(db, a.step.run, RunRunning) ==>
              (RunIs(CompleteTx(db, a).value, a.step.run, RunSucceeded) <==>
                 forall key :: key in db.steps && key.run == a.step.run && key != a.step ==> db.steps[key].status != StepPending)
    ensures CompleteTx(db, a).Some? && !RunIs(db, a.step.run, RunRunning) ==> CompleteTx(db, a).value.runs == db.runs
    ensures FailTx(db, a, code).Some? <==>
              && CompleteTx(db, a).Some? && a.step.run in db.runs && db.runs[a.step.run].status == RunRunning
  {}

  // ---- What one run's rows look like together ----------------------------

  ghost predicate AttemptsNumbered(db: WorkflowDb, key: StepKey, n: nat) {
    && AttemptCount(db, key) == n
    && forall a :: a in AttemptsOf(db, key) <==> a.step == key && 1 <= a.number <= n
  }

  /** All attempts before the n-th have failed in a way that may be retried. */
  ghost predicate EarlierFailed(db: WorkflowDb, key: StepKey, n: nat) {
    forall a :: a in AttemptsOf(db, key) && a.number < n ==> db.attempts[a] == AttemptRow(AttemptFailed, Some(NodeRetryable))
  }

  ghost predicate LastIs(db: WorkflowDb, key: StepKey, status: AttemptStatus, failure: Option<FailureCode>) {
    var last := AttemptKey(key, AttemptCount(db, key));
    last in db.attempts && db.attempts[last] == AttemptRow(status, failure)
  }

  /** The index step: its status, its attempts and the run's status tell one story. */
  ghost predicate IndexCoupled(db: WorkflowDb, r: RunId)
    requires r in db.runs
  {
    var key := StepKey(r, IndexStep);
    var n := AttemptCount(db, key);
    && key in db.steps
    && AttemptsNumbered(db, key, n) && n <= db.runs[r].maxAttempts
    && match db.steps[key].status
       case StepPending =>
         && db.runs[r].status == RunRunning && db.steps[key].failure == None
         && n < db.runs[r].maxAttempts && EarlierFailed(db, key, n + 1)
       case StepRunning =>
         && db.runs[r].status == RunRunning && db.steps[key].failure == None
         && n >= 1 && EarlierFailed(db, key, n) && LastIs(db, key, AttemptRunning, None)
       case StepSucceeded =>
         && db.runs[r].status == RunSucceeded && db.steps[key].failure == None
         && n >= 1 && EarlierFailed(db, key, n) && LastIs(db, key, AttemptSucceeded, None)
       case StepFailed =>
         && db.runs[r].status == RunFailed && db.steps[key].failure == db.runs[r].failure
         && n >= 1 && EarlierFailed(db, key, n) && LastIs(db, key, AttemptFailed, db.runs[r].failure)
       case _ => false
  }

  ghost predicate RunCoupled(db: WorkflowDb, r: RunId)
    requires r in db.runs
  {
    var run, key := db.runs[r], StepKey(r, ApprovalStep);
    && run.revision in db.revisions
    && var revision := db.revisions[run.revision];
    && revision.run == r && revision.document == run.document && revision.version == run.version
    && key in db.steps && db.steps[key].failure == None && AttemptsOf(db, key) == {}
    && (run.failure.Some? <==> run.status == RunFailed)
    && match revision.status
       case Submitted =>
         && run.status == RunWaitingApproval && db.steps[key].status == StepWaiting
         && StepKey(r, IndexStep) !in db.steps && AttemptsOf(db, StepKey(r, IndexStep)) == {}
       case Approved =>
         && db.steps[key].status == StepSucceeded && IndexCoupled(db, r)
       case _ =>
         && run.status == RunCancelled && db.steps[key].status == StepCancelled
         && StepKey(r, IndexStep) !in db.steps && AttemptsOf(db, StepKey(r, IndexStep)) == {}
  }

  /** No row refers to a run or revision that does not exist. */
  ghost predicate ForeignKeys(db: WorkflowDb) {
    && (forall rev :: rev in db.revisions ==> db.revisions[rev].run in db.runs && db.runs[db.revisions[rev].run].revision == rev)
    && (forall key :: key in db.steps ==> key.run in db.runs)
    && (forall a :: a in db.attempts ==> a.step in db.steps)
  }

  ghost predicate Coupled(db: WorkflowDb) {
    ForeignKeys(db) && forall r :: r in db.runs ==> RunCoupled(db, r)
  }

  // ---- Every transaction keeps the tables coupled -------------------------

  /** Every row that changed, appeared or vanished belongs to run r. */
  ghost predicate TouchesOnly(db: WorkflowDb, db': WorkflowDb, r: RunId) {
    && (forall q :: q != r && (q in db.runs || q in db'.runs) ==> q in db.runs && q in db'.runs && db'.runs[q] == db.runs[q])
    && (forall rev :: rev in db.revisions && db.revisions[rev].run != r ==> rev in db'.revisions && db'.revisions[rev] == db.revisions[rev])
    && (forall key: StepKey :: key.run != r && (key in db.steps || key in db'.steps) ==>
          key in db.steps && key in db'.steps && db'.steps[key] == db.steps[key])
    && (forall a: AttemptKey :: a.step.run != r && (a in db.attempts || a in db'.attempts) ==>
          a in db.attempts && a in db'.attempts && db'.attempts[a] == db.attempts[a])
  }

  lemma UntouchedRunStaysCoupled(db: WorkflowDb, db': WorkflowDb, r: RunId, q: RunId)
    requires q in db.runs && q != r && RunCoupled(db, q) && TouchesOnly(db, db', r)
    ensures q in db'.runs && RunCoupled(db', q)
  {
    assert AttemptsOf(db', StepKey(q, ApprovalStep)) == AttemptsOf(db, StepKey(q, ApprovalStep));
    assert AttemptsOf(db', StepKey(q, IndexStep)) == AttemptsOf(db, StepKey(q, IndexStep));
  }

  lemma CoupledByOneRun(db: WorkflowDb, db': WorkflowDb, r: RunId)
    requires forall q :: q in db.runs ==> RunCoupled(db, q)
    requires TouchesOnly(db, db', r) && ForeignKeys(db')
    requires r in db'.runs && RunCoupled(db', r)
    ensures Coupled(db')
  {
    forall q | q in db'.runs ensures RunCoupled(db', q) {
      if q != r { UntouchedRunStaysCoupled(db, db', r, q); }
    }
  }

  /** An update of existing rows of one run adds no reference. */
  ghost predicate SameShape(db: WorkflowDb, db': WorkflowDb) {
    && db'.runs.Keys == db.runs.Keys && db'.revisions.Keys == db.revisions.Keys && db.steps.Keys <= db'.steps.Keys
    && (forall q :: q in db.runs ==> db'.runs[q].revision == db.runs[q].revision)
    && (forall rev :: rev in db.revisions ==> db'.revisions[rev].run == db.revisions[rev].run)
    && (forall key :: key in db'.steps ==> key.run in db.runs)
    && (forall a :: a in db'.attempts ==> a.step in db'.steps)
  }

  /** The columns that submission wrote. */
  ghost predicate SameColumns(db: WorkflowDb, db': WorkflowDb) {
    && (forall q :: q in db.runs ==>
          && q in db'.runs && db'.runs[q].document == db.runs[q].document
          && db'.runs[q].version == db.runs[q].version && db'.runs[q].maxAttempts == db.runs[q].maxAttempts)
    && (forall rev :: rev in db.revisions ==>
          && rev in db'.revisions && db'.revisions[rev].document == db.revisions[rev].document
          && db'.revisions[rev].version == db.revisions[rev].version && db'.revisions[rev].expiresAt == db.revisions[rev].expiresAt)
  }

  lemma DecideKeepsColumns(db: WorkflowDb, rev: RevisionId, decision: RevisionStatus, decider: Option<UserId>)
    requires DecideTx(db, rev, decision, decider).Some?
    ensures SameColumns(db, DecideTx(db, rev, decision, decider).value)
  {}

  /** No transaction after submission changes what was submitted. */
  lemma ClosingKeepsColumns(db: WorkflowDb, r: RunId, a: AttemptKey, code: FailureCode)
    ensures ClaimTx(db, r).Some? ==> SameColumns(db, ClaimTx(db, r).value.0)
    ensures CompleteTx(db, a).Some? ==> SameColumns(db, CompleteTx(db, a).value)
    ensures FailTx(db, a, code).Some? ==> SameColumns(db, FailTx(db, a, code).value)
    ensures ResumeTx(db, r).Some? ==> SameColumns(db, ResumeTx(db, r).value)
  {}

  lemma SameShapeKeepsKeys(db: WorkflowDb, db': WorkflowDb)
    requires ForeignKeys(db) && SameShape(db, db')
    ensures ForeignKeys(db')
  {}

  lemma SubmitShape(db: WorkflowDb, rev: RevisionId, r: RunId, d: DocumentId, v: VersionId, expiresAt: int, maxAttempts: Positive)
    requires ForeignKeys(db) && SubmitTx(db, rev, r, d, v, expiresAt, maxAttempts).Some?
    ensures TouchesOnly(db, SubmitTx(db, rev, r, d, v, expiresAt, maxAttempts).value, r)
    ensures ForeignKeys(SubmitTx(db, rev, r, d, v, expiresAt, maxAttempts).value)
  {}

  lemma SubmitCouples(db: WorkflowDb, rev: RevisionId, r: RunId, d: DocumentId, v: VersionId, expiresAt: int, maxAttempts: Positive)
    requires ForeignKeys(db) && SubmitTx(db, rev, r, d, v, expiresAt, maxAttempts).Some?
    ensures RunCoupled(SubmitTx(db, rev, r, d, v, expiresAt, maxAttempts).value, r)
  {}

  lemma SubmitKeeps(db: WorkflowDb, rev: RevisionId, r: RunId, d: DocumentId, v: VersionId, expiresAt: int, maxAttempts: Positive)
    requires Coupled(db) && SubmitTx(db, rev, r, d, v, expiresAt, maxAttempts).Some?
    ensures Coupled(SubmitTx(db, rev, r, d, v, expiresAt, maxAttempts).value)
  {
    SubmitShape(db, rev, r, d, v, expiresAt, maxAttempts);
    SubmitCouples(db, rev, r, d, v, expiresAt, maxAttempts);
    CoupledByOneRun(db, SubmitTx(db, rev, r, d, v, expiresAt, maxAttempts).value, r);
  }

  lemma DecideTouches(db: WorkflowDb, rev: RevisionId, decision: RevisionStatus, decider: Option<UserId>)
    requires ForeignKeys(db) && DecideTx(db, rev, decision, decider).Some?
    ensures TouchesOnly(db, DecideTx(db, rev, decision, decider).value, db.revisions[rev].run)
  {}

  lemma DecideShape(db: WorkflowDb, rev: RevisionId, decision: RevisionStatus, decider: Option<UserId>)
    requires ForeignKeys(db) && DecideTx(db, rev, decision, decider).Some?
    ensures SameShape(db, DecideTx(db, rev, decision, decider).value)
  {}

  lemma DecideCouples(db: WorkflowDb, rev: RevisionId, decision: RevisionStatus, decider: Option<UserId>)
    requires DecideTx(db, rev, decision, decider).Some?
    requires db.runs[db.revisions[rev].run].revision == rev && RunCoupled(db, db.revisions[rev].run)
    ensures db.revisions[rev].run in DecideTx(db, rev, decision, decider).value.runs
    ensures RunCoupled(DecideTx(db, rev, decision, decider).value, db.revisions[rev].run)
  {}

  lemma DecideKeeps(db: WorkflowDb, rev: RevisionId, decision: RevisionStatus, decider: Option<UserId>)
    requires Coupled(db) && DecideTx(db, rev, decision, decider).Some?
    ensures Coupled(DecideTx(db, rev, decision, decider).value)
  {
    DecideTouches(db, rev, decision, decider);
    DecideShape(db, rev, decision, decider);
    DecideCouples(db, rev, decision, decider);
    SameShapeKeepsKeys(db, DecideTx(db, rev, decision, decider).value);
    CoupledByOneRun(db, DecideTx(db, rev, decision, decider).value, db.revisions[rev].run);
  }

  lemma AttemptsGrow(db: WorkflowDb, key: StepKey, status: AttemptStatus, failure: Option<FailureCode>)
    requires AttemptsNumbered(db, key, AttemptCount(db, key))
    ensures
      var attempt := AttemptKey(key, AttemptCount(db, key) + 1);
      var db' := WithAttempt(db, attempt, status, failure);
      && attempt !in db.attempts
      && AttemptCount(db', key) == AttemptCount(db, key) + 1
      && AttemptsNumbered(db', key, AttemptCount(db, key) + 1)
  {
    var attempt := AttemptKey(key, AttemptCount(db, key) + 1);
    var db' := WithAttempt(db, attempt, status, failure);
    assert attempt !in AttemptsOf(db, key);
    assert AttemptsOf(db', key) == AttemptsOf(db, key) + {attempt};
  }

  lemma ClaimShape(db: WorkflowDb, r: RunId)
    requires ForeignKeys(db) && ClaimTx(db, r).Some?
    ensures TouchesOnly(db, ClaimTx(db, r).value.0, r) && SameShape(db, ClaimTx(db, r).value.0)
  {}

  lemma ClaimCouples(db: WorkflowDb, r: RunId)
    requires RunIs(db, r, RunRunning) && RunCoupled(db, r)
    ensures ClaimTx(db, r).Some? <==> StepIs(db, StepKey(r, IndexStep), StepPending)
    ensures ClaimTx(db, r).Some? ==>
              && ClaimTx(db, r).value.1 == AttemptKey(StepKey(r, IndexStep), AttemptCount(db, StepKey(r, IndexStep)) + 1)
              && r in ClaimTx(db, r).value.0.runs && RunCoupled(ClaimTx(db, r).value.0, r)
  {
    var key := StepKey(r, IndexStep);
    AttemptsGrow(db, key, AttemptRunning, None);
    if ClaimTx(db, r).Some? {
      var db' := ClaimTx(db, r).value.0;
      assert AttemptsOf(db', StepKey(r, ApprovalStep)) == AttemptsOf(db, StepKey(r, ApprovalStep));
      assert AttemptsOf(db', key) == AttemptsOf(WithAttempt(db, ClaimTx(db, r).value.1, AttemptRunning, None), key);
    }
  }

  lemma ClaimKeeps(db: WorkflowDb, r: RunId)
    requires Coupled(db) && ClaimTx(db, r).Some?
    ensures Coupled(ClaimTx(db, r).value.0)
  {
    ClaimShape(db, r);
    ClaimCouples(db, r);
    SameShapeKeepsKeys(db, ClaimTx(db, r).value.0);
    CoupledByOneRun(db, ClaimTx(db, r).value.0, r);
  }

  lemma CompleteShape(db: WorkflowDb, a: AttemptKey)
    requires ForeignKeys(db) && CompleteTx(db, a).Some?
    ensures TouchesOnly(db, CompleteTx(db, a).value, a.step.run) && SameShape(db, CompleteTx(db, a).value)
  {}

  /** A running attempt is the last one of the index step, and its run is running. */
  lemma RunningAttemptIsLast(db: WorkflowDb, a: AttemptKey)
    requires a.step.run in db.runs && RunCoupled(db, a.step.run) && AttemptIs(db, a, AttemptRunning)
    ensures a == AttemptKey(StepKey(a.step.run, IndexStep), AttemptCount(db, a.step))
    ensures StepIs(db, a.step, StepRunning) && RunIs(db, a.step.run, RunRunning)
  {
    assert a in AttemptsOf(db, a.step);
    assert a.step == StepKey(a.step.run, a.step.name);
    assert a.step.name == IndexStep;
    assert 1 <= a.number <= AttemptCount(db, a.step);
    assert a.number == AttemptCount(db, a.step) && a == AttemptKey(a.step, a.number);
  }

  lemma CompleteCouples(db: WorkflowDb, a: AttemptKey)
    requires a.step.run in db.runs && RunCoupled(db, a.step.run) && AttemptIs(db, a, AttemptRunning)
    requires ForeignKeys(db)
    ensures CompleteTx(db, a).Some? && RunIs(CompleteTx(db, a).value, a.step.run, RunSucceeded)
    ensures RunCoupled(CompleteTx(db, a).value, a.step.run)
  {
    RunningAttemptIsLast(db, a);
    var r := a.step.run;
    var db' := CompleteTx(db, a).value;
    forall key: StepKey | key.run == r ensures key == StepKey(r, ApprovalStep) || key == StepKey(r, IndexStep) {
      match key.name
      case ApprovalStep =>
      case IndexStep =>
    }
    assert AttemptsOf(db', StepKey(r, ApprovalStep)) == AttemptsOf(db, StepKey(r, ApprovalStep));
    assert AttemptsOf(db', StepKey(r, IndexStep)) == AttemptsOf(db, StepKey(r, IndexStep));
  }

  lemma CompleteKeeps(db: WorkflowDb, a: AttemptKey)
    requires Coupled(db) && CompleteTx(db, a).Some?
    ensures Coupled(CompleteTx(db, a).value)
  {
    CompleteShape(db, a);
    CompleteCouples(db, a);
    SameShapeKeepsKeys(db, CompleteTx(db, a).value);
    CoupledByOneRun(db, CompleteTx(db, a).value, a.step.run);
  }

  lemma FailShape(db: WorkflowDb, a: AttemptKey, code: FailureCode)
    requires ForeignKeys(db) && FailTx(db, a, code).Some?
    ensures TouchesOnly(db, FailTx(db, a, code).value, a.step.run) && SameShape(db, FailTx(db, a, code).value)
  {}

  lemma FailCouples(db: WorkflowDb, a: AttemptKey, code: FailureCode)
    requires a.step.run in db.runs && RunCoupled(db, a.step.run) && AttemptIs(db, a, AttemptRunning)
    ensures FailTx(db, a, code).Some? && RunIs(FailTx(db, a, code).value, a.step.run, RunFailed)
    ensures RunCoupled(FailTx(db, a, code).value, a.step.run)
  {
    RunningAttemptIsLast(db, a);
    var r := a.step.run;
    var db' := FailTx(db, a, code).value;
    assert AttemptsOf(db', StepKey(r, ApprovalStep)) == AttemptsOf(db, StepKey(r, ApprovalStep));
    assert AttemptsOf(db', StepKey(r, IndexStep)) == AttemptsOf(db, StepKey(r, IndexStep));
  }

  lemma FailKeeps(db: WorkflowDb, a: AttemptKey, code: FailureCode)
    requires Coupled(db) && FailTx(db, a, code).Some?
    ensures Coupled(FailTx(db, a, code).value)
  {
    FailShape(db, a, code);
    FailCouples(db, a, code);
    SameShapeKeepsKeys(db, FailTx(db, a, code).value);
    CoupledByOneRun(db, FailTx(db, a, code).value, a.step.run);
  }

  lemma ResumeShape(db: WorkflowDb, r: RunId)
    requires ForeignKeys(db) && ResumeTx(db, r).Some?
    ensures TouchesOnly(db, ResumeTx(db, r).value, r) && SameShape(db, ResumeTx(db, r).value)
  {}

  lemma ResumeCouples(db: WorkflowDb, r: RunId)
    requires r in db.runs && RunCoupled(db, r) && ResumeTx(db, r).Some?
    ensures r in ResumeTx(db, r).value.runs && RunCoupled(ResumeTx(db, r).value, r)
  {}

  lemma ResumeKeeps(db: WorkflowDb, r: RunId)
    requires Coupled(db) && ResumeTx(db, r).Some?
    ensures Coupled(ResumeTx(db, r).value)
  {
    ResumeShape(db, r);
    ResumeCouples(db, r);
    SameShapeKeepsKeys(db, ResumeTx(db, r).value);
    CoupledByOneRun(db, ResumeTx(db, r).value, r);
  }

  // ---- When each transaction commits ----------------------------------------

  /** New ids can always be submitted, and start waiting on all three rows. */
  lemma SubmitsExactlyNewIds(db: WorkflowDb, rev: RevisionId, r: RunId, d: DocumentId, v: VersionId, expiresAt: int, maxAttempts: Positive)
    requires ForeignKeys(db)
    ensures SubmitTx(db, rev, r, d, v, expiresAt, maxAttempts).Some? <==> rev !in db.revisions && r !in db.runs
    ensures SubmitTx(db, rev, r, d, v, expiresAt, maxAttempts).Some? ==>
              var db' := SubmitTx(db, rev, r, d, v, expiresAt, maxAttempts).value;
              && rev in db'.revisions && db'.revisions[rev] == RevisionRow(r, d, v, Submitted, expiresAt, None)
              && r in db'.runs && db'.runs[r] == RunRow(rev, d, v, maxAttempts, RunWaitingApproval, None)
              && StepKey(r, ApprovalStep) in db'.steps && db'.steps[StepKey(r, ApprovalStep)] == StepRow(StepWaiting, None)
  {}

  /** A decision commits exactly while the revision is submitted, and settles run and steps with it. */
  lemma DecidesExactlyWhileSubmitted(db: WorkflowDb, rev: RevisionId, decision: RevisionStatus, decider: Option<UserId>)
    requires rev in db.revisions && db.revisions[rev].run in db.runs && db.runs[db.revisions[rev].run].revision == rev
    requires RunCoupled(db, db.revisions[rev].run) && decision != Submitted
    ensures DecideTx(db, rev, decision, decider).Some? <==> RevisionIs(db, rev, Submitted)
    ensures DecideTx(db, rev, decision, decider).Some? ==>
              var db', r := DecideTx(db, rev, decision, decider).value, db.revisions[rev].run;
              && db'.revisions[rev] == db.revisions[rev].(status := decision, decidedBy := decider)
              && (if decision == Approved
                  then RunIs(db', r, RunRunning) && StepIs(db', StepKey(r, ApprovalStep), StepSucceeded) && StepIs(db', StepKey(r, IndexStep), StepPending)
                  else RunIs(db', r, RunCancelled) && StepIs(db', StepKey(r, ApprovalStep), StepCancelled) && StepKey(r, IndexStep) !in db'.steps)
  {}

  /** A run is resumed exactly when its last failure was retryable and attempts are left; its attempts stay. */
  lemma ResumesExactlyRetryableFailures(db: WorkflowDb, r: RunId)
    requires r in db.runs && RunCoupled(db, r)
    ensures ResumeTx(db, r).Some? <==>
              db.runs[r].status == RunFailed && db.runs[r].failure == Some(NodeRetryable) && AttemptCount(db, StepKey(r, IndexStep)) < db.runs[r].maxAttempts
    ensures ResumeTx(db, r).Some? ==>
              var db' := ResumeTx(db, r).value;
              && RunIs(db', r, RunRunning) && db'.runs[r].failure == None && db'.attempts == db.attempts
              && StepKey(r, IndexStep) in db'.steps && db'.steps[StepKey(r, IndexStep)] == StepRow(StepPending, None)
  {}

  /** Approval does not look at the expiry time: at any time there are coupled tables in which a revision that is due is approved. */
  lemma LateApproval(now: int) returns (db: WorkflowDb, rev: RevisionId)
    ensures Coupled(db) && RevisionIs(db, rev, Submitted) && db.revisions[rev].expiresAt <= now
    ensures DecideTx(db, rev, Approved, Some(0)).Some?
  {
    var empty := WorkflowDb(map[], map[], map[], map[]);
    rev := 1;
    SubmitKeeps(empty, rev, 1, 1, 1, now, 3);
    db := SubmitTx(empty, rev, 1, 1, 1, now, 3).value;
  }
}
