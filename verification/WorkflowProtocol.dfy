/**
 The approval workflow over whole runs: services decide and resume, executors
 claim a step, let the index node work, and close it, while the version
 protocol goes on underneath. Every committed transaction is one step.
 */
module WorkflowProtocol {
  import opened Prelude
  import opened KnowledgeTables
  import opened WorkflowTables
  import V = VersionProtocol

  type ExecutorId = nat

  /**
   An executor between its two transactions. The index node claims the run's version as
   a worker of the version protocol; `sawIndexed` once that very claim has been completed.
   */
  datatype Execution = Execution(attempt: AttemptKey, worker: Option<V.WorkerId>, sawIndexed: bool)

  datatype Action =
    | Knowledge(step: V.Step)
    | Submit(rev: RevisionId, r: RunId, d: DocumentId, v: VersionId, expiresAt: int, maxAttempts: Positive)
    | Decide(rev: RevisionId, decision: RevisionStatus, decider: UserId)
    | ReconcileExpired(rev: RevisionId, now: int)
    | ClaimStep(e: ExecutorId, r: RunId)
    | NodeClaims(e: ExecutorId, w: V.WorkerId)
    | NodeCompletes(e: ExecutorId)
    | NodeFails(e: ExecutorId, cleanupRequired: bool, reason: FailureReason)
    | CompleteStep(e: ExecutorId)
    | FailStep(e: ExecutorId, code: FailureCode)
    | Crash(e: ExecutorId)
    | ResumeRun(r: RunId)

  datatype System = System(kn: V.System, wf: WorkflowDb, executions: map<ExecutorId, Execution>)

  const INITIAL := System(V.INITIAL, WorkflowDb(map[], map[], map[], map[]), map[])

  predicate VersionIndexed(kn: V.System, v: VersionId) {
    v in kn.db.versions && kn.db.versions[v].status == Indexed
  }

  function Commit(s: System, tx: Option<WorkflowDb>): System {
    if tx.Some? then s.(wf := tx.value) else s
  }

  /** The worker a step of the version protocol is made by. */
  function WorkerOf(step: V.Step): Option<V.WorkerId> {
    match step
    case ReadNextNumber(w, _) => Some(w)
    case InsertVersion(w, _, _) => Some(w)
    case Claim(w, _, _) => Some(w)
    case Complete(w) => Some(w)
    case Fail(w, _, _) => Some(w)
    case Abandon(w) => Some(w)
    case AddDocument(_, _, _) => None
    case Requeue(_, _) => None
  }

  /** No other worker acts under the name of an execution's node. */
  predicate Unheld(s: System, worker: Option<V.WorkerId>) {
    worker.Some? ==> forall e :: e in s.executions ==> s.executions[e].worker != worker
  }

  predicate Holds(s: System, e: ExecutorId) {
    e in s.executions && s.executions[e].worker.Some?
  }

  /** The document and version of an execution's run. */
  function SubjectOf(s: System, e: ExecutorId): (DocumentId, VersionId)
    requires e in s.executions && s.executions[e].attempt.step.run in s.wf.runs
  {
    var run := s.wf.runs[s.executions[e].attempt.step.run];
    (run.document, run.version)
  }

  /** The node finds its version pending; otherwise it has nothing to claim. */
  predicate MayClaimVersion(s: System, e: ExecutorId, w: V.WorkerId) {
    && e in s.executions && s.executions[e].attempt.step.run in s.wf.runs
    && s.executions[e].worker == None && !s.executions[e].sawIndexed && w !in s.kn.owners
    && Claimed(s.kn.db, SubjectOf(s, e).0, SubjectOf(s, e).1).Some?
  }

  /** The node's own claim is there to be completed. */
  predicate MayPublish(s: System, e: ExecutorId) {
    && Holds(s, e) && s.executions[e].attempt.step.run in s.wf.runs
    && s.executions[e].worker.value in s.kn.owners && s.kn.owners[s.executions[e].worker.value] == SubjectOf(s, e)
    && Completed(s.kn.db, SubjectOf(s, e).0, SubjectOf(s, e).1).Some?
  }

  /** What an action does to the version tables: at most one step of the version protocol. */
  function VersionStep(s: System, action: Action): Option<V.Step> {
    match action
    case Knowledge(step) => if Unheld(s, WorkerOf(step)) then Some(step) else None
    case NodeClaims(e, w) =>
      if MayClaimVersion(s, e, w) then Some(V.Claim(w, SubjectOf(s, e).0, SubjectOf(s, e).1)) else None
    case NodeCompletes(e) => if MayPublish(s, e) then Some(V.Complete(s.executions[e].worker.value)) else None
    case NodeFails(e, cleanupRequired, reason) =>
      if Holds(s, e) then Some(V.Fail(s.executions[e].worker.value, cleanupRequired, reason)) else None
    case FailStep(e, _) => if Holds(s, e) then Some(V.Abandon(s.executions[e].worker.value)) else None
    case Crash(e) => if Holds(s, e) then Some(V.Abandon(s.executions[e].worker.value)) else None
    case _ => None
  }

  function KnowledgeAfter(s: System, action: Action): V.System {
    match VersionStep(s, action)
    case None => s.kn
    case Some(step) => V.After(s.kn, step)
  }

  function ExecutionsAfterNode(s: System, action: Action): map<ExecutorId, Execution> {
    match action
    case NodeClaims(e, w) =>
      if MayClaimVersion(s, e, w) then s.executions[e := s.executions[e].(worker := Some(w))] else s.executions
    case NodeCompletes(e) =>
      if MayPublish(s, e) then s.executions[e := s.executions[e].(worker := None, sawIndexed := true)] else s.executions
    case NodeFails(e, _, _) =>
      if Holds(s, e) then s.executions[e := s.executions[e].(worker := None)] else s.executions
    case _ => s.executions
  }

  /** The effect of one action; an action whose guard fails leaves everything alone. */
  function After(s: System, action: Action): System {
    WorkflowAfter(s.(executions := ExecutionsAfterNode(s, action)), action).(kn := KnowledgeAfter(s, action))
  }

  function WorkflowAfter(s: System, action: Action): System {
    match action
    case Submit(rev, r, d, v, expiresAt, maxAttempts) =>
      if v in s.kn.db.versions && s.kn.db.versions[v].document == d && s.kn.db.versions[v].status == Pending
      then Commit(s, SubmitTx(s.wf, rev, r, d, v, expiresAt, maxAttempts)) else s
    case Decide(rev, decision, decider) =>
      if decision in {Approved, Rejected, Withdrawn} then Commit(s, DecideTx(s.wf, rev, decision, Some(decider))) else s
    case ReconcileExpired(rev, now) =>
      if RevisionIs(s.wf, rev, Submitted) && s.wf.revisions[rev].expiresAt <= now
      then Commit(s, DecideTx(s.wf, rev, Expired, None)) else s
    case ClaimStep(e, r) =>
      if e in s.executions || ClaimTx(s.wf, r).None? then s
      else s.(wf := ClaimTx(s.wf, r).value.0, executions := s.executions[e := Execution(ClaimTx(s.wf, r).value.1, None, false)])
    case CompleteStep(e) =>
      if e in s.executions && s.executions[e].sawIndexed
      then Commit(s.(executions := s.executions - {e}), CompleteTx(s.wf, s.executions[e].attempt)) else s
    case FailStep(e, code) =>
      if e in s.executions
      then Commit(s.(executions := s.executions - {e}), FailTx(s.wf, s.executions[e].attempt, code)) else s
    case Crash(e) => s.(executions := s.executions - {e})
    case ResumeRun(r) => Commit(s, ResumeTx(s.wf, r))
    case _ => s
  }

  function Run(s: System, actions: seq<Action>): System
    decreases |actions|
  {
    if actions == [] then s else Run(After(s, actions[0]), actions[1..])
  }

  // ---- Invariant -------------------------------------------------------

  ghost predicate ExecutionsInv(s: System) {
    && (forall e :: e in s.executions ==> AttemptIs(s.wf, s.executions[e].attempt, AttemptRunning))
    && (forall e, f :: e in s.executions && f in s.executions && e != f ==>
          s.executions[e].attempt.step.run != s.executions[f].attempt.step.run)
  }

  /** Runs refer to existing versions; only an indexed one lets its run succeed. */
  ghost predicate RunsPublished(kn: V.System, wf: WorkflowDb) {
    forall r :: r in wf.runs ==>
      && VersionExists(kn, wf.runs[r].document, wf.runs[r].version)
      && (wf.runs[r].status == RunSucceeded ==> VersionIndexed(kn, wf.runs[r].version))
  }

  ghost predicate SawIndexed(s: System) {
    forall e :: e in s.executions && s.executions[e].sawIndexed ==>
      && s.executions[e].attempt.step.run in s.wf.runs
      && VersionIndexed(s.kn, s.wf.runs[s.executions[e].attempt.step.run].version)
  }

  ghost predicate PublishedInv(s: System) {
    RunsPublished(s.kn, s.wf) && SawIndexed(s)
  }

  ghost predicate Inv(s: System) {
    V.Inv(s.kn) && Coupled(s.wf) && ExecutionsInv(s) && PublishedInv(s)
  }

  // ---- What each action does to the tables --------------------------------

  /** The run an action is about; only its rows may change. */
  function RunOf(s: System, action: Action): RunId {
    match action
    case Submit(rev, r, d, v, expiresAt, maxAttempts) => r
    case Decide(rev, decision, decider) => if rev in s.wf.revisions then s.wf.revisions[rev].run else 0
    case ReconcileExpired(rev, now) => if rev in s.wf.revisions then s.wf.revisions[rev].run else 0
    case ClaimStep(e, r) => r
    case CompleteStep(e) => if e in s.executions then s.executions[e].attempt.step.run else 0
    case FailStep(e, code) => if e in s.executions then s.executions[e].attempt.step.run else 0
    case ResumeRun(r) => r
    case _ => 0
  }

  /** Either nothing is written, or exactly one transaction commits. */
  ghost predicate Committed(s: System, action: Action, wf: WorkflowDb) {
    match action
    case Submit(rev, r, d, v, expiresAt, maxAttempts) =>
      VersionExists(s.kn, d, v) && SubmitTx(s.wf, rev, r, d, v, expiresAt, maxAttempts) == Some(wf)
    case Decide(rev, decision, decider) => DecideTx(s.wf, rev, decision, Some(decider)) == Some(wf)
    case ReconcileExpired(rev, now) => DecideTx(s.wf, rev, Expired, None) == Some(wf)
    case ClaimStep(e, r) => ClaimTx(s.wf, r).Some? && ClaimTx(s.wf, r).value.0 == wf
    case CompleteStep(e) =>
      e in s.executions && s.executions[e].sawIndexed && CompleteTx(s.wf, s.executions[e].attempt) == Some(wf)
    case FailStep(e, code) => e in s.executions && FailTx(s.wf, s.executions[e].attempt, code) == Some(wf)
    case ResumeRun(r) => ResumeTx(s.wf, r) == Some(wf)
    case _ => false
  }

  predicate VersionExists(kn: V.System, d: DocumentId, v: VersionId) {
    v in kn.db.versions && kn.db.versions[v].document == d
  }

  lemma OneTransactionOrNone(s: System, action: Action)
    ensures After(s, action).wf == s.wf || Committed(s, action, After(s, action).wf)
  {}

  lemma CommitTouches(s: System, action: Action, wf: WorkflowDb)
    requires ForeignKeys(s.wf) && Committed(s, action, wf)
    ensures TouchesOnly(s.wf, wf, RunOf(s, action)) && RunOf(s, action) in wf.runs
  {
    match action
    case Submit(rev, r, d, v, expiresAt, maxAttempts) => SubmitShape(s.wf, rev, r, d, v, expiresAt, maxAttempts);
    case Decide(rev, decision, decider) => DecideTouches(s.wf, rev, decision, Some(decider));
    case ReconcileExpired(rev, now) => DecideTouches(s.wf, rev, Expired, None);
    case ClaimStep(e, r) => ClaimShape(s.wf, r);
    case CompleteStep(e) => CompleteShape(s.wf, s.executions[e].attempt);
    case FailStep(e, code) => FailShape(s.wf, s.executions[e].attempt, code);
    case ResumeRun(r) => ResumeShape(s.wf, r);
  }

  lemma CommitKeepsCoupled(s: System, action: Action, wf: WorkflowDb)
    requires Coupled(s.wf) && Committed(s, action, wf)
    ensures Coupled(wf)
  {
    match action
    case Submit(rev, r, d, v, expiresAt, maxAttempts) => SubmitKeeps(s.wf, rev, r, d, v, expiresAt, maxAttempts);
    case Decide(rev, decision, decider) => DecideKeeps(s.wf, rev, decision, Some(decider));
    case ReconcileExpired(rev, now) => DecideKeeps(s.wf, rev, Expired, None);
    case ClaimStep(e, r) => ClaimKeeps(s.wf, r);
    case CompleteStep(e) => CompleteKeeps(s.wf, s.executions[e].attempt);
    case FailStep(e, code) => FailKeeps(s.wf, s.executions[e].attempt, code);
    case ResumeRun(r) => ResumeKeeps(s.wf, r);
  }

  lemma ActionKeepsCoupled(s: System, action: Action)
    requires Coupled(s.wf)
    ensures Coupled(After(s, action).wf)
  {
    OneTransactionOrNone(s, action);
    if After(s, action).wf != s.wf {
      CommitKeepsCoupled(s, action, After(s, action).wf);
    }
  }

  /** A running attempt pins its run: running, with a running index step and nothing pending. */
  lemma AttemptPinsRun(wf: WorkflowDb, a: AttemptKey)
    requires a.step.run in wf.runs && RunCoupled(wf, a.step.run) && AttemptIs(wf, a, AttemptRunning)
    ensures
      && a.step == StepKey(a.step.run, IndexStep)
      && RunIs(wf, a.step.run, RunRunning) && StepIs(wf, a.step, StepRunning)
      && FirstStepWith(wf, a.step.run, StepPending) == None
      && StepIs(wf, StepKey(a.step.run, ApprovalStep), StepSucceeded)
  {
    RunningAttemptIsLast(wf, a);
  }

  /** A transaction that commits on a run finds no running attempt there but the one it closes. */
  lemma RunningAttemptRefuses(s: System, action: Action, wf: WorkflowDb, a: AttemptKey)
    requires a.step == StepKey(a.step.run, IndexStep)
    requires RunIs(s.wf, a.step.run, RunRunning) && StepIs(s.wf, a.step, StepRunning)
    requires FirstStepWith(s.wf, a.step.run, StepPending) == None && StepIs(s.wf, StepKey(a.step.run, ApprovalStep), StepSucceeded)
    requires Committed(s, action, wf) && !action.CompleteStep? && !action.FailStep?
    ensures RunOf(s, action) != a.step.run
  {}

  /** A transaction that commits finds no execution of another worker on its run. */
  lemma NoStrangerOnTheRun(s: System, action: Action, wf: WorkflowDb, f: ExecutorId)
    requires Coupled(s.wf) && ExecutionsInv(s) && Committed(s, action, wf) && f in s.executions
    requires !(action.CompleteStep? && action.e == f) && !(action.FailStep? && action.e == f)
    ensures s.executions[f].attempt.step.run != RunOf(s, action)
  {
    AttemptPinsRun(s.wf, s.executions[f].attempt);
    if !action.CompleteStep? && !action.FailStep? {
      RunningAttemptRefuses(s, action, wf, s.executions[f].attempt);
    }
  }

  /** Executions come from a claim, keep their attempt, and end with their closing transaction. */
  lemma ExecutionsAfter(s: System, action: Action, f: ExecutorId)
    requires f in After(s, action).executions
    ensures
      var e' := After(s, action).executions[f];
      if f in s.executions then
        && e'.attempt == s.executions[f].attempt
        && !(action.CompleteStep? && action.e == f && s.executions[f].sawIndexed) && !(action.FailStep? && action.e == f)
        && (e'.sawIndexed ==> s.executions[f].sawIndexed || (action == NodeCompletes(f) && MayPublish(s, f)))
      else
        action.ClaimStep? && action.e == f && ClaimTx(s.wf, action.r).Some? && e' == Execution(ClaimTx(s.wf, action.r).value.1, None, false)
  {}

  lemma CommitKeepsAttempt(s: System, action: Action, f: ExecutorId)
    requires Coupled(s.wf) && ExecutionsInv(s) && Committed(s, action, After(s, action).wf)
    requires f in s.executions && f in After(s, action).executions
    ensures AttemptIs(After(s, action).wf, s.executions[f].attempt, AttemptRunning)
    ensures s.executions[f].attempt.step.run != RunOf(s, action)
  {
    ExecutionsAfter(s, action, f);
    CommitTouches(s, action, After(s, action).wf);
    NoStrangerOnTheRun(s, action, After(s, action).wf, f);
  }

  lemma ActionKeepsExecutions(s: System, action: Action)
    requires Coupled(s.wf) && ExecutionsInv(s)
    ensures ExecutionsInv(After(s, action))
  {
    var s' := After(s, action);
    OneTransactionOrNone(s, action);
    forall f | f in s'.executions
      ensures AttemptIs(s'.wf, s'.executions[f].attempt, AttemptRunning)
      ensures f in s.executions ==> s'.executions[f].attempt == s.executions[f].attempt
      ensures f !in s.executions ==>
                && action.ClaimStep? && action.e == f && s'.executions[f].attempt.step.run == action.r
                && forall g :: g in s.executions ==> s.executions[g].attempt.step.run != action.r
    {
      ExecutionsAfter(s, action, f);
      if f in s.executions {
        if s'.wf != s.wf { CommitKeepsAttempt(s, action, f); }
      } else {
        assert Committed(s, action, s'.wf);
        forall g | g in s.executions ensures s.executions[g].attempt.step.run != action.r {
          NoStrangerOnTheRun(s, action, s'.wf, g);
        }
      }
    }
  }

  /** A run's document and version are fixed at submission. */
  ghost predicate SameSubjects(wf: WorkflowDb, wf': WorkflowDb) {
    forall r :: r in wf.runs ==> r in wf'.runs && wf'.runs[r].version == wf.runs[r].version && wf'.runs[r].document == wf.runs[r].document
  }

  lemma ActionKeepsSubjects(s: System, action: Action)
    ensures SameSubjects(s.wf, After(s, action).wf)
  {}

  lemma OtherTransactionsNeverSucceed(s: System, action: Action, wf: WorkflowDb, r: RunId)
    requires Committed(s, action, wf) && !action.CompleteStep? && RunIs(wf, r, RunSucceeded)
    ensures RunIs(s.wf, r, RunSucceeded)
  {}

  lemma CompletionSucceedsItsRunOnly(wf: WorkflowDb, a: AttemptKey, r: RunId)
    requires CompleteTx(wf, a).Some? && RunIs(CompleteTx(wf, a).value, r, RunSucceeded) && !RunIs(wf, r, RunSucceeded)
    ensures a.step.run == r
  {}

  /** Only completion makes a run succeed, and completion needs the node's success. */
  lemma OnlyCompletionSucceeds(s: System, action: Action, r: RunId)
    requires RunIs(After(s, action).wf, r, RunSucceeded) && !RunIs(s.wf, r, RunSucceeded)
    ensures action.CompleteStep? && action.e in s.executions && s.executions[action.e].sawIndexed
    ensures action.CompleteStep? ==> s.executions[action.e].attempt.step.run == r
  {
    OneTransactionOrNone(s, action);
    if action.CompleteStep? {
      CompletionSucceedsItsRunOnly(s.wf, s.executions[action.e].attempt, r);
    } else {
      OtherTransactionsNeverSucceed(s, action, After(s, action).wf, r);
    }
  }

  lemma NewRunHasVersion(s: System, action: Action, r: RunId)
    requires r in After(s, action).wf.runs && r !in s.wf.runs
    ensures VersionExists(s.kn, After(s, action).wf.runs[r].document, After(s, action).wf.runs[r].version)
  {}

  lemma WorkflowKeepsRunsPublished(s: System, action: Action)
    requires PublishedInv(s)
    ensures RunsPublished(s.kn, After(s, action).wf)
  {
    var wf' := After(s, action).wf;
    ActionKeepsSubjects(s, action);
    forall r | r in wf'.runs
      ensures VersionExists(s.kn, wf'.runs[r].document, wf'.runs[r].version)
      ensures wf'.runs[r].status == RunSucceeded ==> VersionIndexed(s.kn, wf'.runs[r].version)
    {
      if r !in s.wf.runs { NewRunHasVersion(s, action, r); }
      if wf'.runs[r].status == RunSucceeded && !RunIs(s.wf, r, RunSucceeded) {
        OnlyCompletionSucceeds(s, action, r);
      }
    }
  }

  /** The version tables move by at most one step of their protocol, which keeps what is indexed. */
  lemma KnowledgeAdvances(s: System, action: Action)
    requires V.Inv(s.kn)
    ensures After(s, action).kn == KnowledgeAfter(s, action)
    ensures V.Inv(KnowledgeAfter(s, action))
    ensures V.Advances(s.kn.db, KnowledgeAfter(s, action).db) && V.KeepsVersions(s.kn.db, KnowledgeAfter(s, action).db)
  {
    match VersionStep(s, action)
    case None =>
    case Some(step) =>
      V.StepKeepsInv(s.kn, step);
      V.StepAdvances(s.kn, step);
      V.StepKeepsVersions(s.kn, step);
  }

  lemma PublishedSurvives(kn: V.System, kn': V.System, wf: WorkflowDb)
    requires RunsPublished(kn, wf) && V.Advances(kn.db, kn'.db) && V.KeepsVersions(kn.db, kn'.db)
    ensures RunsPublished(kn', wf)
  {}

  /** Completing the node's own claim makes the run's version indexed. */
  lemma OwnCompletionIndexes(s: System, e: ExecutorId)
    requires MayPublish(s, e)
    ensures VersionIndexed(KnowledgeAfter(s, NodeCompletes(e)), SubjectOf(s, e).1)
  {}

  lemma ActionKeepsSawIndexed(s: System, action: Action)
    requires V.Inv(s.kn) && SawIndexed(s)
    ensures SawIndexed(After(s, action))
  {
    var s' := After(s, action);
    ActionKeepsSubjects(s, action);
    KnowledgeAdvances(s, action);
    forall e | e in s'.executions && s'.executions[e].sawIndexed
      ensures s'.executions[e].attempt.step.run in s'.wf.runs
      ensures VersionIndexed(s'.kn, s'.wf.runs[s'.executions[e].attempt.step.run].version)
    {
      ExecutionsAfter(s, action, e);
      if !s.executions[e].sawIndexed {
        OwnCompletionIndexes(s, e);
      }
    }
  }

  lemma ActionKeepsPublished(s: System, action: Action)
    requires V.Inv(s.kn) && PublishedInv(s)
    ensures PublishedInv(After(s, action))
  {
    KnowledgeAdvances(s, action);
    WorkflowKeepsRunsPublished(s, action);
    PublishedSurvives(s.kn, After(s, action).kn, After(s, action).wf);
    ActionKeepsSawIndexed(s, action);
  }

  lemma ActionKeepsInv(s: System, action: Action)
    requires Inv(s)
    ensures Inv(After(s, action))
  {
    KnowledgeAdvances(s, action);
    ActionKeepsCoupled(s, action);
    ActionKeepsExecutions(s, action);
    ActionKeepsPublished(s, action);
  }

  lemma {:induction false} RunKeepsInv(s: System, actions: seq<Action>)
    requires Inv(s)
    ensures Inv(Run(s, actions))
    decreases |actions|
  {
    if actions == [] {
    } else {
      ActionKeepsInv(s, actions[0]);
      RunKeepsInv(After(s, actions[0]), actions[1..]);
    }
  }

  // ---- The tables agree, in every reachable state --------------------------

  /** Revision, run and the two steps of a run say the same. */
  ghost predicate TablesAgree(wf: WorkflowDb, r: RunId)
    requires r in wf.runs
  {
    var run, approval, index := wf.runs[r], StepKey(r, ApprovalStep), StepKey(r, IndexStep);
    && run.revision in wf.revisions
    && wf.revisions[run.revision].run == r
    && approval in wf.steps
    && var revision := wf.revisions[run.revision].status;
    && (revision == Submitted <==> run.status == RunWaitingApproval)
    && (revision == Submitted <==> StepIs(wf, approval, StepWaiting))
    && (revision in {Rejected, Expired, Withdrawn} <==> run.status == RunCancelled)
    && (revision in {Rejected, Expired, Withdrawn} <==> StepIs(wf, approval, StepCancelled))
    && (revision == Approved <==> StepIs(wf, approval, StepSucceeded))
    && (revision == Approved <==> index in wf.steps)
    && (run.status == RunRunning <==> StepIs(wf, index, StepPending) || StepIs(wf, index, StepRunning))
    && (run.status == RunSucceeded <==> StepIs(wf, index, StepSucceeded))
    && (run.status == RunFailed <==> StepIs(wf, index, StepFailed))
    && (run.status == RunFailed ==> run.failure.Some? && wf.steps[index].failure == run.failure)
    && (run.status != RunFailed ==> run.failure == None)
  }

  lemma CoupledRunAgrees(wf: WorkflowDb, r: RunId)
    requires r in wf.runs && RunCoupled(wf, r)
    ensures TablesAgree(wf, r)
  {}

  /** In every reachable state the four tables agree about every run. */
  lemma FourTablesAgree(actions: seq<Action>, r: RunId)
    requires r in Run(INITIAL, actions).wf.runs
    ensures TablesAgree(Run(INITIAL, actions).wf, r)
  {
    RunKeepsInv(INITIAL, actions);
    CoupledRunAgrees(Run(INITIAL, actions).wf, r);
  }

  lemma AttemptIsOfTheIndexStep(wf: WorkflowDb, a: AttemptKey)
    requires a in wf.attempts && a.step.run in wf.runs && RunCoupled(wf, a.step.run)
    ensures a.step == StepKey(a.step.run, IndexStep) && a in AttemptsOf(wf, a.step)
  {
    assert a in AttemptsOf(wf, a.step);
    assert a.step == StepKey(a.step.run, a.step.name);
    assert a.step.name == IndexStep;
  }

  lemma NumberedIsPresent(wf: WorkflowDb, r: RunId, a: AttemptKey)
    requires r in wf.runs && RunCoupled(wf, r) && a.step == StepKey(r, IndexStep) && 1 <= a.number <= AttemptCount(wf, a.step)
    ensures a in wf.attempts
  {}

  lemma PresentIsNumbered(wf: WorkflowDb, r: RunId, a: AttemptKey)
    requires r in wf.runs && RunCoupled(wf, r) && a in wf.attempts && a.step == StepKey(r, IndexStep)
    ensures 1 <= a.number <= AttemptCount(wf, a.step)
    ensures a.number < AttemptCount(wf, a.step) ==> wf.attempts[a] == AttemptRow(AttemptFailed, Some(NodeRetryable))
  {
    assert a in AttemptsOf(wf, a.step);
  }

  lemma LastAttemptFollowsItsStep(wf: WorkflowDb, r: RunId)
    requires r in wf.runs && RunCoupled(wf, r)
    ensures
      var key := StepKey(r, IndexStep);
      && AttemptCount(wf, key) <= wf.runs[r].maxAttempts
      && (AttemptIs(wf, AttemptKey(key, AttemptCount(wf, key)), AttemptRunning) <==> StepIs(wf, key, StepRunning))
  {
    var last := AttemptKey(StepKey(r, IndexStep), AttemptCount(wf, StepKey(r, IndexStep)));
    if AttemptIs(wf, last, AttemptRunning) {
      RunningAttemptIsLast(wf, last);
    }
  }

  /** Attempts of the index step are numbered 1..n, only the last can be running, and n is bounded. */
  ghost predicate AttemptsInOrder(wf: WorkflowDb, r: RunId)
    requires r in wf.runs
  {
    var key := StepKey(r, IndexStep);
    var n := AttemptCount(wf, key);
    && n <= wf.runs[r].maxAttempts
    && (forall a :: a in wf.attempts && a.step.run == r <==> a.step == key && 1 <= a.number <= n)
    && (forall a :: a in wf.attempts && a.step == key && a.number < n ==> wf.attempts[a] == AttemptRow(AttemptFailed, Some(NodeRetryable)))
    && (AttemptIs(wf, AttemptKey(key, n), AttemptRunning) <==> StepIs(wf, key, StepRunning))
  }

  lemma AttemptsOfCoupledRun(wf: WorkflowDb, r: RunId)
    requires r in wf.runs && RunCoupled(wf, r)
    ensures AttemptsInOrder(wf, r)
  {
    LastAttemptFollowsItsStep(wf, r);
    var key := StepKey(r, IndexStep);
    forall a | a in wf.attempts && a.step.run == r
      ensures a.step == key && 1 <= a.number <= AttemptCount(wf, key)
      ensures a.number < AttemptCount(wf, key) ==> wf.attempts[a] == AttemptRow(AttemptFailed, Some(NodeRetryable))
    {
      AttemptIsOfTheIndexStep(wf, a);
      PresentIsNumbered(wf, r, a);
    }
    forall a: AttemptKey | a.step == key && 1 <= a.number <= AttemptCount(wf, key) ensures a in wf.attempts {
      NumberedIsPresent(wf, r, a);
    }
  }

  lemma AttemptsAreNumberedAndBounded(actions: seq<Action>, r: RunId)
    requires r in Run(INITIAL, actions).wf.runs
    ensures AttemptsInOrder(Run(INITIAL, actions).wf, r)
  {
    RunKeepsInv(INITIAL, actions);
    AttemptsOfCoupledRun(Run(INITIAL, actions).wf, r);
  }

  // ---- Decisions --------------------------------------------------------

  ghost predicate DecisionsStand(wf: WorkflowDb, wf': WorkflowDb) {
    forall rev :: rev in wf.revisions && wf.revisions[rev].status != Submitted ==>
      rev in wf'.revisions && wf'.revisions[rev] == wf.revisions[rev]
  }

  lemma ActionKeepsDecisions(s: System, action: Action)
    ensures DecisionsStand(s.wf, After(s, action).wf)
  {}

  lemma {:induction false} DecisionIsFinal(s: System, actions: seq<Action>)
    ensures DecisionsStand(s.wf, Run(s, actions).wf)
    decreases |actions|
  {
    if actions == [] {
    } else {
      ActionKeepsDecisions(s, actions[0]);
      DecisionIsFinal(After(s, actions[0]), actions[1..]);
    }
  }

  /** This action settles the revision. */
  ghost predicate Settles(s: System, action: Action, rev: RevisionId) {
    RevisionIs(s.wf, rev, Submitted) && !RevisionIs(After(s, action).wf, rev, Submitted)
  }

  lemma {:induction false} RunInTwoParts(s: System, a: seq<Action>, b: seq<Action>)
    ensures Run(s, a + b) == Run(Run(s, a), b)
    decreases |a|
  {
    if a == [] {
      assert a + b == b;
    } else {
      assert (a + b)[1..] == a[1..] + b;
      RunInTwoParts(After(s, a[0]), a[1..], b);
    }
  }

  lemma RunOneMore(s: System, actions: seq<Action>, i: nat)
    requires i < |actions|
    ensures Run(s, actions[..i + 1]) == After(Run(s, actions[..i]), actions[i])
  {
    RunInTwoParts(s, actions[..i], [actions[i]]);
    PrefixGrows(actions, i);
    assert [actions[i]][1..] == [];
    assert Run(Run(s, actions[..i]), [actions[i]]) == Run(After(Run(s, actions[..i]), actions[i]), []);
  }

  lemma RunOnward(s: System, actions: seq<Action>, i: nat, j: nat)
    requires i <= j <= |actions|
    ensures Run(s, actions[..j]) == Run(Run(s, actions[..i]), actions[i..j])
  {
    RunInTwoParts(s, actions[..i], actions[i..j]);
    assert actions[..i] + actions[i..j] == actions[..j];
  }

  /** Of all the approvals, rejections, withdrawals and expiries of one revision, at most one is applied. */
  lemma AtMostOneDecision(s: System, actions: seq<Action>, i: nat, j: nat, rev: RevisionId)
    requires i < j < |actions|
    requires Settles(Run(s, actions[..i]), actions[i], rev)
    ensures !Settles(Run(s, actions[..j]), actions[j], rev)
  {
    RunOneMore(s, actions, i);
    RevisionsPersist(Run(s, actions[..i]), actions[i], rev);
    DecisionIsFinal(Run(s, actions[..i + 1]), actions[i + 1..j]);
    RunOnward(s, actions, i + 1, j);
  }

  lemma RevisionsPersist(s: System, action: Action, rev: RevisionId)
    requires rev in s.wf.revisions
    ensures rev in After(s, action).wf.revisions
  {}

  // ---- Transition table and finiteness -------------------------------------

  /** The event of the transition table that an action stands for. */
  ghost function EventOf(action: Action): Option<RunEvent> {
    match action
    case Decide(_, decision, _) => DecisionEvent(decision)
    case ReconcileExpired(_, _) => Some(Expire)
    case CompleteStep(_) => Some(Complete)
    case FailStep(_, _) => Some(Fail)
    case ResumeRun(_) => Some(Resume)
    case _ => None
  }

  ghost function DecisionEvent(decision: RevisionStatus): Option<RunEvent> {
    match decision
    case Approved => Some(Approve)
    case Rejected => Some(Reject)
    case Withdrawn => Some(Cancel)
    case Expired => Some(Expire)
    case Submitted => None
  }

  /** The status changed along the edge of this event. */
  ghost predicate Takes(before: RunStatus, event: Option<RunEvent>, after: RunStatus) {
    event.Some? && NextRunStatus(before, event.value) == Some(after)
  }

  lemma DecideFollowsTable(wf: WorkflowDb, rev: RevisionId, decision: RevisionStatus, decider: Option<UserId>)
    requires DecideTx(wf, rev, decision, decider).Some?
    ensures
      var r := wf.revisions[rev].run;
      r in DecideTx(wf, rev, decision, decider).value.runs
      && Takes(wf.runs[r].status, DecisionEvent(decision), DecideTx(wf, rev, decision, decider).value.runs[r].status)
  {}

  lemma CompleteFollowsTable(wf: WorkflowDb, a: AttemptKey)
    requires CompleteTx(wf, a).Some? && a.step.run in wf.runs
    ensures a.step.run in CompleteTx(wf, a).value.runs
    ensures var after := CompleteTx(wf, a).value.runs[a.step.run];
            after == wf.runs[a.step.run] || Takes(wf.runs[a.step.run].status, Some(Complete), after.status)
  {}

  lemma FailFollowsTable(wf: WorkflowDb, a: AttemptKey, code: FailureCode)
    requires FailTx(wf, a, code).Some?
    ensures a.step.run in FailTx(wf, a, code).value.runs
    ensures Takes(wf.runs[a.step.run].status, Some(Fail), FailTx(wf, a, code).value.runs[a.step.run].status)
  {}

  lemma ResumeFollowsTable(wf: WorkflowDb, r: RunId)
    requires ResumeTx(wf, r).Some?
    ensures r in ResumeTx(wf, r).value.runs && Takes(wf.runs[r].status, Some(Resume), ResumeTx(wf, r).value.runs[r].status)
  {}

  /** Every change of a run's status is the edge of the transition table that belongs to the action. */
  lemma RunStatusFollowsTable(s: System, action: Action, r: RunId)
    requires ForeignKeys(s.wf) && r in s.wf.runs
    ensures r in After(s, action).wf.runs
    ensures
      var before, after := s.wf.runs[r].status, After(s, action).wf.runs[r].status;
      before == after || Takes(before, EventOf(action), after)
  {
    var wf' := After(s, action).wf;
    OneTransactionOrNone(s, action);
    if wf' != s.wf {
      CommitTouches(s, action, wf');
      if RunOf(s, action) == r {
        match action
        case Decide(rev, decision, decider) => DecideFollowsTable(s.wf, rev, decision, Some(decider));
        case ReconcileExpired(rev, now) => DecideFollowsTable(s.wf, rev, Expired, None);
        case CompleteStep(e) => CompleteFollowsTable(s.wf, s.executions[e].attempt);
        case FailStep(e, code) => FailFollowsTable(s.wf, s.executions[e].attempt, code);
        case ResumeRun(q) => ResumeFollowsTable(s.wf, q);
        case _ =>
      }
    }
  }

  /** Where each event is allowed, and where it leads: succeeded and cancelled runs take none. */
  lemma TransitionTable(status: RunStatus, event: RunEvent)
    ensures NextRunStatus(status, event).Some? <==>
              match event
              case Start => status == RunPending
              case Cancel => status == RunPending || status == RunWaitingApproval
              case WaitForApproval => status == RunRunning
              case Complete => status == RunRunning
              case Fail => status == RunRunning
              case Approve => status == RunWaitingApproval
              case Reject => status == RunWaitingApproval
              case Expire => status == RunWaitingApproval
              case Resume => status == RunFailed
    ensures NextRunStatus(status, event).Some? ==>
              NextRunStatus(status, event).value ==
              match event
              case WaitForApproval => RunWaitingApproval
              case Complete => RunSucceeded
              case Fail => RunFailed
              case Start => RunRunning
              case Approve => RunRunning
              case Resume => RunRunning
              case Reject => RunCancelled
              case Expire => RunCancelled
              case Cancel => RunCancelled
  {}

  // ---- Which actions take effect ---------------------------------------------

  /** The one action that changes the workflow tables now, and when. */
  ghost predicate Effective(s: System, action: Action) {
    match action
    case Submit(rev, r, d, v, _, _) =>
      && v in s.kn.db.versions && s.kn.db.versions[v].document == d && s.kn.db.versions[v].status == Pending
      && rev !in s.wf.revisions && r !in s.wf.runs
    case Decide(rev, decision, _) => decision != Submitted && decision != Expired && RevisionIs(s.wf, rev, Submitted)
    case ReconcileExpired(rev, now) => RevisionIs(s.wf, rev, Submitted) && s.wf.revisions[rev].expiresAt <= now
    case ClaimStep(e, r) => e !in s.executions && RunIs(s.wf, r, RunRunning) && StepIs(s.wf, StepKey(r, IndexStep), StepPending)
    case CompleteStep(e) => e in s.executions && s.executions[e].sawIndexed
    case FailStep(e, _) => e in s.executions
    case ResumeRun(r) =>
      && RunIs(s.wf, r, RunFailed) && s.wf.runs[r].failure == Some(NodeRetryable)
      && AttemptCount(s.wf, StepKey(r, IndexStep)) < s.wf.runs[r].maxAttempts
    case _ => false
  }

  /** In coupled tables an action writes exactly when it is effective, and then runs its one transaction. */
  lemma WritesExactlyWhenEffective(s: System, action: Action)
    requires Coupled(s.wf) && ExecutionsInv(s)
    ensures Effective(s, action) <==> Committed(s, action, After(s, action).wf)
    ensures !Effective(s, action) ==> After(s, action).wf == s.wf
  {
    match action
    case Submit(rev, r, d, v, expiresAt, maxAttempts) => SubmitsExactlyNewIds(s.wf, rev, r, d, v, expiresAt, maxAttempts);
    case Decide(rev, decision, decider) => DecisionCommits(s.wf, rev, decision, Some(decider));
    case ReconcileExpired(rev, now) => DecisionCommits(s.wf, rev, Expired, None);
    case ClaimStep(e, r) => if RunIs(s.wf, r, RunRunning) { ClaimCouples(s.wf, r); }
    case CompleteStep(e) => if e in s.executions { CompleteCouples(s.wf, s.executions[e].attempt); }
    case FailStep(e, code) => if e in s.executions { FailCouples(s.wf, s.executions[e].attempt, code); }
    case ResumeRun(r) => if r in s.wf.runs { ResumesExactlyRetryableFailures(s.wf, r); }
    case _ =>
  }

  lemma DecisionCommits(wf: WorkflowDb, rev: RevisionId, decision: RevisionStatus, decider: Option<UserId>)
    requires Coupled(wf)
    ensures DecideTx(wf, rev, decision, decider).Some? <==> decision != Submitted && RevisionIs(wf, rev, Submitted)
  {
    if rev in wf.revisions && decision != Submitted {
      DecidesExactlyWhileSubmitted(wf, rev, decision, decider);
    }
  }

  /** How many more row-changing transactions a run can still see. */
  ghost function Remaining(wf: WorkflowDb, r: RunId): int
    requires r in wf.runs
  {
    var key := StepKey(r, IndexStep);
    var left := 3 * (wf.runs[r].maxAttempts - AttemptCount(wf, key));
    if wf.runs[r].status == RunWaitingApproval then 3 * wf.runs[r].maxAttempts + 1
    else if key !in wf.steps then 0
    else match wf.steps[key].status
         case StepPending => left
         case StepRunning => left + 2
         case StepFailed => left + 1
         case _ => left
  }

  lemma RemainingIsNatural(wf: WorkflowDb, r: RunId)
    requires Coupled(wf) && r in wf.runs
    ensures 0 <= Remaining(wf, r) <= 3 * wf.runs[r].maxAttempts + 1
  {
    assert RunCoupled(wf, r);
  }

  lemma UntouchedRemaining(wf: WorkflowDb, wf': WorkflowDb, q: RunId, r: RunId)
    requires TouchesOnly(wf, wf', q) && r in wf.runs && r != q
    ensures r in wf'.runs && Remaining(wf', r) == Remaining(wf, r)
  {
    assert AttemptsOf(wf', StepKey(r, IndexStep)) == AttemptsOf(wf, StepKey(r, IndexStep));
  }

  lemma DecideUsesOne(wf: WorkflowDb, rev: RevisionId, decision: RevisionStatus, decider: Option<UserId>)
    requires Coupled(wf) && DecideTx(wf, rev, decision, decider).Some?
    ensures
      var wf', r := DecideTx(wf, rev, decision, decider).value, wf.revisions[rev].run;
      r in wf'.runs && Remaining(wf', r) < Remaining(wf, r)
  {}

  lemma ClaimUsesOne(wf: WorkflowDb, r: RunId)
    requires Coupled(wf) && ClaimTx(wf, r).Some?
    ensures r in ClaimTx(wf, r).value.0.runs && Remaining(ClaimTx(wf, r).value.0, r) < Remaining(wf, r)
  {
    var key := StepKey(r, IndexStep);
    assert RunCoupled(wf, r);
    AttemptsGrow(wf, key, AttemptRunning, None);
    ClaimCouples(wf, r);
    assert AttemptsOf(ClaimTx(wf, r).value.0, key) == AttemptsOf(WithAttempt(wf, ClaimTx(wf, r).value.1, AttemptRunning, None), key);
  }

  lemma ClosingKeepsAttempts(wf: WorkflowDb, a: AttemptKey, wf': WorkflowDb)
    requires CompleteTx(wf, a) == Some(wf') || exists code :: FailTx(wf, a, code) == Some(wf')
    ensures AttemptsOf(wf', a.step) == AttemptsOf(wf, a.step)
    ensures a.step in wf'.steps && wf'.steps[a.step].status in {StepSucceeded, StepFailed}
    ensures a.step.run in wf.runs ==>
              && a.step.run in wf'.runs && wf'.runs[a.step.run].maxAttempts == wf.runs[a.step.run].maxAttempts
              && (RunIs(wf, a.step.run, RunRunning) ==> !RunIs(wf', a.step.run, RunWaitingApproval))
  {}

  /** Closing an index step takes it out of running without a new attempt. */
  lemma ClosedMeasure(wf: WorkflowDb, wf': WorkflowDb, key: StepKey)
    requires key == StepKey(key.run, IndexStep) && StepIs(wf, key, StepRunning) && RunIs(wf, key.run, RunRunning)
    requires AttemptsOf(wf', key) == AttemptsOf(wf, key)
    requires key in wf'.steps && wf'.steps[key].status in {StepSucceeded, StepFailed}
    requires key.run in wf'.runs && !RunIs(wf', key.run, RunWaitingApproval)
    requires wf'.runs[key.run].maxAttempts == wf.runs[key.run].maxAttempts
    ensures Remaining(wf', key.run) < Remaining(wf, key.run)
  {}

  lemma CloseUsesOne(wf: WorkflowDb, a: AttemptKey, wf': WorkflowDb)
    requires a.step.run in wf.runs && RunCoupled(wf, a.step.run) && (CompleteTx(wf, a) == Some(wf') || exists code :: FailTx(wf, a, code) == Some(wf'))
    ensures a.step.run in wf'.runs && Remaining(wf', a.step.run) < Remaining(wf, a.step.run)
  {
    RunningAttemptIsLast(wf, a);
    ClosingKeepsAttempts(wf, a, wf');
    ClosedMeasure(wf, wf', a.step);
  }

  lemma ResumeUsesOne(wf: WorkflowDb, r: RunId)
    requires Coupled(wf) && ResumeTx(wf, r).Some?
    ensures r in ResumeTx(wf, r).value.runs && Remaining(ResumeTx(wf, r).value, r) < Remaining(wf, r)
  {
    assert RunCoupled(wf, r);
    assert AttemptsOf(ResumeTx(wf, r).value, StepKey(r, IndexStep)) == AttemptsOf(wf, StepKey(r, IndexStep));
  }

  /** An action either commits a transaction on run r, which uses up part of its measure, or leaves the measure alone. */
  lemma ActionUsesMeasure(s: System, action: Action, r: RunId)
    requires Coupled(s.wf) && r in s.wf.runs
    ensures r in After(s, action).wf.runs
    ensures if Committed(s, action, After(s, action).wf) && RunOf(s, action) == r && After(s, action).wf != s.wf
            then Remaining(After(s, action).wf, r) < Remaining(s.wf, r)
            else Remaining(After(s, action).wf, r) == Remaining(s.wf, r)
  {
    var wf' := After(s, action).wf;
    OneTransactionOrNone(s, action);
    if wf' != s.wf {
      CommitTouches(s, action, wf');
      if RunOf(s, action) != r {
        UntouchedRemaining(s.wf, wf', RunOf(s, action), r);
      } else {
        match action
        case Decide(rev, decision, decider) => DecideUsesOne(s.wf, rev, decision, Some(decider));
        case ReconcileExpired(rev, now) => DecideUsesOne(s.wf, rev, Expired, None);
        case ClaimStep(e, q) => ClaimUsesOne(s.wf, q);
        case CompleteStep(e) => CloseUsesOne(s.wf, s.executions[e].attempt, wf');
        case FailStep(e, code) => CloseUsesOne(s.wf, s.executions[e].attempt, wf');
        case ResumeRun(q) => ResumeUsesOne(s.wf, q);
        case _ =>
      }
    }
  }

  /** The number of actions that change rows of run r. */
  ghost function Changes(s: System, actions: seq<Action>, r: RunId): nat
    decreases |actions|
  {
    if actions == [] then 0
    else
      var next := After(s, actions[0]);
      (if next.wf != s.wf && RunOf(s, actions[0]) == r then 1 else 0) + Changes(next, actions[1..], r)
  }

  /** However long the schedule, a run changes at most 3 * max_attempts + 1 times after its submission. */
  lemma {:induction false} RunsChangeFinitelyOften(s: System, actions: seq<Action>, r: RunId)
    requires Inv(s) && r in s.wf.runs
    ensures r in Run(s, actions).wf.runs
    ensures Changes(s, actions, r) + Remaining(Run(s, actions).wf, r) <= Remaining(s.wf, r)
    ensures Changes(s, actions, r) <= 3 * s.wf.runs[r].maxAttempts + 1
    decreases |actions|
  {
    RemainingIsNatural(s.wf, r);
    if actions == [] {
    } else {
      ActionKeepsInv(s, actions[0]);
      ActionUsesMeasure(s, actions[0], r);
      OneTransactionOrNone(s, actions[0]);
      RunsChangeFinitelyOften(After(s, actions[0]), actions[1..], r);
      RunKeepsInv(After(s, actions[0]), actions[1..]);
      RemainingIsNatural(Run(s, actions).wf, r);
    }
  }

  // ---- History and publication ---------------------------------------------

  ghost predicate FinishedAttemptsStand(wf: WorkflowDb, wf': WorkflowDb) {
    forall a :: a in wf.attempts && wf.attempts[a].status != AttemptRunning ==>
      a in wf'.attempts && wf'.attempts[a] == wf.attempts[a]
  }

  lemma ActionKeepsHistory(s: System, action: Action)
    ensures FinishedAttemptsStand(s.wf, After(s, action).wf)
  {}

  lemma {:induction false} FinishedAttemptsNeverChange(s: System, actions: seq<Action>)
    ensures FinishedAttemptsStand(s.wf, Run(s, actions).wf)
    decreases |actions|
  {
    if actions == [] {
    } else {
      ActionKeepsHistory(s, actions[0]);
      FinishedAttemptsNeverChange(After(s, actions[0]), actions[1..]);
    }
  }

  lemma NoCommitOnSucceeded(s: System, action: Action, wf: WorkflowDb, r: RunId)
    requires Coupled(s.wf) && RunIs(s.wf, r, RunSucceeded) && Committed(s, action, wf)
    ensures RunOf(s, action) != r
  {
    match action
    case CompleteStep(e) => RunningAttemptIsLast(s.wf, s.executions[e].attempt);
    case FailStep(e, code) => RunningAttemptIsLast(s.wf, s.executions[e].attempt);
    case _ =>
  }

  /** succeeded is terminal: no transaction finds anything to change on such a run. */
  lemma ActionKeepsSucceeded(s: System, action: Action, r: RunId)
    requires Coupled(s.wf) && RunIs(s.wf, r, RunSucceeded)
    ensures RunIs(After(s, action).wf, r, RunSucceeded)
    ensures After(s, action).wf.runs[r] == s.wf.runs[r]
  {
    OneTransactionOrNone(s, action);
    if After(s, action).wf != s.wf {
      NoCommitOnSucceeded(s, action, After(s, action).wf, r);
      CommitTouches(s, action, After(s, action).wf);
    }
  }

  lemma {:induction false} SucceededStays(s: System, actions: seq<Action>, r: RunId)
    requires Inv(s) && RunIs(s.wf, r, RunSucceeded)
    ensures RunIs(Run(s, actions).wf, r, RunSucceeded) && Run(s, actions).wf.runs[r] == s.wf.runs[r]
    decreases |actions|
  {
    if actions == [] {
    } else {
      ActionKeepsSucceeded(s, actions[0], r);
      ActionKeepsInv(s, actions[0]);
      SucceededStays(After(s, actions[0]), actions[1..], r);
    }
  }

  lemma SucceededIsPublishedNow(s: System, r: RunId)
    requires Inv(s) && RunIs(s.wf, r, RunSucceeded)
    ensures
      && RevisionIs(s.wf, s.wf.runs[r].revision, Approved)
      && VersionIndexed(s.kn, s.wf.runs[r].version)
      && s.kn.db.versions[s.wf.runs[r].version].document == s.wf.runs[r].document
      && V.ActiveNumber(s.kn.db, s.wf.runs[r].document) >= s.kn.db.versions[s.wf.runs[r].version].number
  {
    assert RunCoupled(s.wf, r);
    ActiveCoversIndexed(s.kn.db, s.wf.runs[r].version);
  }

  lemma ActiveCoversIndexed(db: Tables, v: VersionId)
    requires V.RowsWellFormed(db) && V.ActivesInv(db) && v in db.versions && db.versions[v].status == Indexed
    ensures V.ActiveNumber(db, db.versions[v].document) >= db.versions[v].number
  {}

  /** A run once seen succeeded: approved, indexed, and active at its number or above, now and ever after. */
  lemma SucceededMeansPublished(actions: seq<Action>, later: seq<Action>, r: RunId)
    requires RunIs(Run(INITIAL, actions).wf, r, RunSucceeded)
    ensures
      var s := Run(Run(INITIAL, actions), later);
      && RunIs(s.wf, r, RunSucceeded)
      && RevisionIs(s.wf, s.wf.runs[r].revision, Approved)
      && VersionIndexed(s.kn, s.wf.runs[r].version)
      && s.kn.db.versions[s.wf.runs[r].version].document == s.wf.runs[r].document
      && V.ActiveNumber(s.kn.db, s.wf.runs[r].document) >= s.kn.db.versions[s.wf.runs[r].version].number
  {
    RunKeepsInv(INITIAL, actions);
    SucceededStays(Run(INITIAL, actions), later, r);
    RunKeepsInv(Run(INITIAL, actions), later);
    SucceededIsPublishedNow(Run(Run(INITIAL, actions), later), r);
  }

  lemma OwnerCloses(wf: WorkflowDb, a: AttemptKey)
    requires Coupled(wf) && AttemptIs(wf, a, AttemptRunning)
    ensures CompleteTx(wf, a).Some? && forall code :: FailTx(wf, a, code).Some?
  {
    RunningAttemptIsLast(wf, a);
  }

  /** An executor in flight always finds its attempt, step and run where it left them. */
  lemma ClosingUpdateNeverMisses(actions: seq<Action>, e: ExecutorId)
    requires e in Run(INITIAL, actions).executions
    ensures
      var s := Run(INITIAL, actions);
      && CompleteTx(s.wf, s.executions[e].attempt).Some?
      && forall code :: FailTx(s.wf, s.executions[e].attempt, code).Some?
  {
    RunKeepsInv(INITIAL, actions);
    OwnerCloses(Run(INITIAL, actions).wf, Run(INITIAL, actions).executions[e].attempt);
  }

  // ---- The node's own claim ---------------------------------------------------

  /** A node that claimed owns its run's version, and no two nodes share a worker. */
  ghost predicate WorkersInv(s: System) {
    && (forall e :: Holds(s, e) ==>
          && s.executions[e].attempt.step.run in s.wf.runs
          && s.executions[e].worker.value in s.kn.owners && s.kn.owners[s.executions[e].worker.value] == SubjectOf(s, e))
    && (forall e, f :: Holds(s, e) && Holds(s, f) && e != f ==> s.executions[e].worker != s.executions[f].worker)
  }

  lemma OwnersStay(kn: V.System, step: V.Step, w: V.WorkerId)
    requires w in kn.owners && WorkerOf(step) != Some(w)
    ensures w in V.After(kn, step).owners && V.After(kn, step).owners[w] == kn.owners[w]
  {}

  /** A claim held after an action was held before it, or was made by it. */
  lemma HeldAfter(s: System, action: Action, e: ExecutorId)
    requires Holds(After(s, action), e)
    ensures if Holds(s, e) then After(s, action).executions[e] == s.executions[e]
            else exists w :: action == NodeClaims(e, w) && MayClaimVersion(s, e, w) && After(s, action).executions[e] == s.executions[e].(worker := Some(w))
  {
    if !Holds(s, e) {
      assert action.NodeClaims? && action == NodeClaims(e, action.w);
    }
  }

  /** Another action's version step is made by another worker. */
  lemma StepOfAnother(s: System, action: Action, e: ExecutorId)
    requires WorkersInv(s) && Holds(s, e) && Holds(After(s, action), e) && VersionStep(s, action).Some?
    ensures WorkerOf(VersionStep(s, action).value) != s.executions[e].worker
  {}

  lemma ActionKeepsClaim(s: System, action: Action, e: ExecutorId)
    requires WorkersInv(s) && Holds(After(s, action), e)
    ensures var s' := After(s, action);
            && s'.executions[e].attempt.step.run in s'.wf.runs
            && s'.executions[e].worker.value in s'.kn.owners && s'.kn.owners[s'.executions[e].worker.value] == SubjectOf(s', e)
  {
    HeldAfter(s, action, e);
    ActionKeepsSubjects(s, action);
    if Holds(s, e) && VersionStep(s, action).Some? {
      StepOfAnother(s, action, e);
      OwnersStay(s.kn, VersionStep(s, action).value, s.executions[e].worker.value);
    }
  }

  lemma ActionKeepsWorkers(s: System, action: Action)
    requires WorkersInv(s)
    ensures WorkersInv(After(s, action))
  {
    var s' := After(s, action);
    forall e | Holds(s', e)
      ensures s'.executions[e].attempt.step.run in s'.wf.runs
      ensures s'.executions[e].worker.value in s'.kn.owners && s'.kn.owners[s'.executions[e].worker.value] == SubjectOf(s', e)
    {
      ActionKeepsClaim(s, action, e);
    }
    forall e, f | Holds(s', e) && Holds(s', f) && e != f ensures s'.executions[e].worker != s'.executions[f].worker {
      HeldAfter(s, action, e);
      HeldAfter(s, action, f);
    }
  }

  lemma {:induction false} RunKeepsWorkers(s: System, actions: seq<Action>)
    requires WorkersInv(s)
    ensures WorkersInv(Run(s, actions))
    decreases |actions|
  {
    if actions == [] {
    } else {
      ActionKeepsWorkers(s, actions[0]);
      RunKeepsWorkers(After(s, actions[0]), actions[1..]);
    }
  }

  /** In every reachable state a node that claimed its run's version can complete it: nobody else can take it away. */
  lemma NodeNeverMissesItsVersion(actions: seq<Action>, e: ExecutorId)
    requires Holds(Run(INITIAL, actions), e)
    ensures MayPublish(Run(INITIAL, actions), e)
  {
    RunKeepsInv(INITIAL, actions);
    RunKeepsWorkers(INITIAL, actions);
    var s := Run(INITIAL, actions);
    assert V.OwnsProcessing(s.kn.db, s.kn.owners[s.executions[e].worker.value]);
  }

  lemma EndingReleases(s: System, action: Action)
    requires (action.Crash? || action.FailStep?) && Holds(s, action.e)
    ensures After(s, action).kn == V.After(s.kn, V.Abandon(s.executions[action.e].worker.value))
  {}

  /** An execution that ends while its node holds a version leaves that version processing, with nobody to finish it. */
  lemma EndedNodeStrandsItsVersion(s: System, action: Action)
    requires V.OwnersInv(s.kn) && WorkersInv(s) && (action.Crash? || action.FailStep?) && Holds(s, action.e)
    ensures V.Stuck(After(s, action).kn, SubjectOf(s, action.e).1)
  {
    EndingReleases(s, action);
    V.AbandonStrands(s.kn, s.executions[action.e].worker.value);
  }

  // ---- Attempts nobody will close -----------------------------------------------

  /** The attempt runs in the tables, but its executor is gone. */
  ghost predicate Orphaned(s: System, a: AttemptKey) {
    AttemptIs(s.wf, a, AttemptRunning) && forall e :: e in s.executions ==> s.executions[e].attempt != a
  }

  /** A raised closing commit, or a cancellation before it, orphans the attempt it should have closed. */
  lemma CrashOrphans(s: System, e: ExecutorId)
    requires ExecutionsInv(s) && e in s.executions
    ensures Orphaned(After(s, Crash(e)), s.executions[e].attempt)
  {}

  lemma NoCommitOnOrphan(s: System, action: Action, wf: WorkflowDb, a: AttemptKey)
    requires Coupled(s.wf) && ExecutionsInv(s) && Orphaned(s, a) && Committed(s, action, wf)
    ensures RunOf(s, action) != a.step.run
  {
    AttemptPinsRun(s.wf, a);
    match action
    case CompleteStep(e) => OneRunningAttempt(s.wf, a, s.executions[e].attempt);
    case FailStep(e, code) => OneRunningAttempt(s.wf, a, s.executions[e].attempt);
    case _ => RunningAttemptRefuses(s, action, wf, a);
  }

  lemma OneRunningAttempt(wf: WorkflowDb, a: AttemptKey, b: AttemptKey)
    requires Coupled(wf) && AttemptIs(wf, a, AttemptRunning) && AttemptIs(wf, b, AttemptRunning)
    ensures a.step.run == b.step.run ==> a == b
  {
    RunningAttemptIsLast(wf, a);
    RunningAttemptIsLast(wf, b);
  }

  lemma OrphanKeepsRunning(s: System, action: Action, a: AttemptKey)
    requires Coupled(s.wf) && ExecutionsInv(s) && Orphaned(s, a)
    ensures AttemptIs(After(s, action).wf, a, AttemptRunning)
  {
    OneTransactionOrNone(s, action);
    var wf := After(s, action).wf;
    if wf != s.wf {
      NoCommitOnOrphan(s, action, wf, a);
      CommitTouches(s, action, wf);
    }
  }

  lemma OrphanOneStep(s: System, action: Action, a: AttemptKey)
    requires Coupled(s.wf) && ExecutionsInv(s) && Orphaned(s, a)
    ensures Orphaned(After(s, action), a)
  {
    OrphanKeepsRunning(s, action, a);
    forall e | e in After(s, action).executions ensures After(s, action).executions[e].attempt != a {
      ExecutionsAfter(s, action, e);
    }
  }

  /** An orphaned attempt, its step and its run stay running for ever: resume, decision and claim all refuse them. */
  lemma {:induction false} OrphanStaysRunning(s: System, actions: seq<Action>, a: AttemptKey)
    requires Inv(s) && Orphaned(s, a)
    ensures Orphaned(Run(s, actions), a)
    ensures StepIs(Run(s, actions).wf, a.step, StepRunning) && RunIs(Run(s, actions).wf, a.step.run, RunRunning)
    decreases |actions|
  {
    if actions == [] {
      RunningAttemptIsLast(s.wf, a);
    } else {
      OrphanOneStep(s, actions[0], a);
      ActionKeepsInv(s, actions[0]);
      OrphanStaysRunning(After(s, actions[0]), actions[1..], a);
    }
  }
}
