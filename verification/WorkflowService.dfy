/**
 The workflow repository, service and executor over one database session. Each
 conditional UPDATE reports whether it hit its row; a transaction commits only
 when all of them did, which is what makes it the single step of the protocol.
 */
module WorkflowService {
  import opened Prelude
  import opened KnowledgeTables
  import opened WorkflowTables

  datatype ServiceError = RunNotFound | ApprovalConflict | NotRetryable | RetryExhausted | StateChanged | DatabaseError

  class WorkflowRepository {
    var committed: WorkflowDb
    var working: WorkflowDb

    constructor (db: WorkflowDb)
      ensures Clean() && committed == db
    {
      committed, working := db, db;
    }

    predicate Clean()
      reads this
    {
      working == committed
    }

    method Commit()
      modifies this
      ensures committed == old(working) && working == old(working)
    {
      committed := working;
    }

    method Rollback()
      modifies this
      ensures committed == old(committed) && working == old(committed)
    {
      working := committed;
    }

    // ---- Single guarded statements ---------------------------------------

    method UpdateRun(r: RunId, from: RunStatus, to: RunStatus, failure: Option<FailureCode>) returns (hit: bool)
      modifies this`working
      ensures hit == RunIs(old(working), r, from)
      ensures working == if hit then WithRun(old(working), r, to, failure) else old(working)
    {
      hit := r in working.runs && working.runs[r].status == from;
      if hit {
        working := working.(runs := working.runs[r := working.runs[r].(status := to, failure := failure)]);
      }
    }

    method UpdateStep(key: StepKey, from: StepStatus, to: StepStatus, failure: Option<FailureCode>) returns (hit: bool)
      modifies this`working
      ensures hit == StepIs(old(working), key, from)
      ensures working == if hit then WithStep(old(working), key, to, failure) else old(working)
    {
      hit := key in working.steps && working.steps[key].status == from;
      if hit {
        working := working.(steps := working.steps[key := StepRow(to, failure)]);
      }
    }

    method UpdateAttempt(a: AttemptKey, from: AttemptStatus, to: AttemptStatus, failure: Option<FailureCode>) returns (hit: bool)
      modifies this`working
      ensures hit == AttemptIs(old(working), a, from)
      ensures working == if hit then WithAttempt(old(working), a, to, failure) else old(working)
    {
      hit := a in working.attempts && working.attempts[a].status == from;
      if hit {
        working := working.(attempts := working.attempts[a := AttemptRow(to, failure)]);
      }
    }

    method UpdateSubmittedDecision(rev: RevisionId, decision: RevisionStatus, decider: Option<UserId>) returns (hit: bool)
      modifies this`working
      ensures hit == RevisionIs(old(working), rev, Submitted)
      ensures working == if hit then WithRevision(old(working), rev, decision, decider) else old(working)
    {
      hit := rev in working.revisions && working.revisions[rev].status == Submitted;
      if hit {
        var row := working.revisions[rev].(status := decision, decidedBy := decider);
        working := working.(revisions := working.revisions[rev := row]);
      }
    }

    /** An INSERT; a second row under the same unique key is an integrity error. */
    method CreateStep(key: StepKey, status: StepStatus) returns (inserted: bool)
      modifies this`working
      ensures inserted == (key !in old(working).steps)
      ensures working == if inserted then WithStep(old(working), key, status, None) else old(working)
    {
      inserted := key !in working.steps;
      if inserted {
        working := working.(steps := working.steps[key := StepRow(status, None)]);
      }
    }

    method CreateAttempt(a: AttemptKey) returns (inserted: bool)
      modifies this`working
      ensures inserted == (a !in old(working).attempts)
      ensures working == if inserted then WithAttempt(old(working), a, AttemptRunning, None) else old(working)
    {
      inserted := a !in working.attempts;
      if inserted {
        working := working.(attempts := working.attempts[a := AttemptRow(AttemptRunning, None)]);
      }
    }

    // ---- Statements that belong together ----------------------------------

    method ApproveWaitingRunAndStep(r: RunId) returns (both: bool)
      modifies this`working
      ensures both <==> StepIs(old(working), StepKey(r, ApprovalStep), StepWaiting) && RunIs(old(working), r, RunWaitingApproval)
      ensures both ==> working == WithRun(WithStep(old(working), StepKey(r, ApprovalStep), StepSucceeded, None), r, RunRunning, None)
      ensures working.revisions == old(working).revisions
      ensures StepKey(r, IndexStep) in working.steps <==> StepKey(r, IndexStep) in old(working).steps
    {
      var step := UpdateStep(StepKey(r, ApprovalStep), StepWaiting, StepSucceeded, None);
      var run := UpdateRun(r, RunWaitingApproval, RunRunning, None);
      both := step && run;
    }

    method CancelWaitingRunAndStep(r: RunId) returns (both: bool)
      modifies this`working
      ensures both <==> StepIs(old(working), StepKey(r, ApprovalStep), StepWaiting) && RunIs(old(working), r, RunWaitingApproval)
      ensures both ==> working == WithRun(WithStep(old(working), StepKey(r, ApprovalStep), StepCancelled, None), r, RunCancelled, None)
    {
      var step := UpdateStep(StepKey(r, ApprovalStep), StepWaiting, StepCancelled, None);
      var run := UpdateRun(r, RunWaitingApproval, RunCancelled, None);
      both := step && run;
    }

    method CompleteAttemptAndStep(a: AttemptKey) returns (both: bool)
      modifies this`working
      ensures both <==> AttemptIs(old(working), a, AttemptRunning) && StepIs(old(working), a.step, StepRunning)
      ensures both ==> working == WithStep(WithAttempt(old(working), a, AttemptSucceeded, None), a.step, StepSucceeded, None)
    {
      var attempt := UpdateAttempt(a, AttemptRunning, AttemptSucceeded, None);
      var step := UpdateStep(a.step, StepRunning, StepSucceeded, None);
      both := attempt && step;
    }

    method FailAttemptStepAndRun(a: AttemptKey, code: FailureCode) returns (all: bool)
      modifies this`working
      ensures all <==> AttemptIs(old(working), a, AttemptRunning) && StepIs(old(working), a.step, StepRunning)
                       && RunIs(old(working), a.step.run, RunRunning)
      ensures all ==> Some(working) == FailTx(old(working), a, code)
    {
      var attempt := UpdateAttempt(a, AttemptRunning, AttemptFailed, Some(code));
      var step := UpdateStep(a.step, StepRunning, StepFailed, Some(code));
      var run := UpdateRun(a.step.run, RunRunning, RunFailed, Some(code));
      all := attempt && step && run;
    }

    method RequeueFailedRunAndStep(r: RunId, key: StepKey) returns (both: bool)
      modifies this`working
      ensures both <==> RunIs(old(working), r, RunFailed) && key.run == r && StepIs(old(working), key, StepFailed)
      ensures both ==> working == WithStep(WithRun(old(working), r, RunRunning, None), key, StepPending, None)
    {
      var run := UpdateRun(r, RunFailed, RunRunning, None);
      var step := false;
      if key.run == r {
        step := UpdateStep(key, StepFailed, StepPending, None);
      }
      both := run && step;
    }

    method CompleteRunIfNoPendingSteps(r: RunId) returns (completed: bool)
      modifies this`working
      ensures completed == (RunIs(old(working), r, RunRunning) && NoPendingSteps(old(working), r))
      ensures working == if completed then WithRun(old(working), r, RunSucceeded, None) else old(working)
    {
      completed := false;
      if forall key :: key in working.steps && key.run == r ==> working.steps[key].status != StepPending {
        completed := UpdateRun(r, RunRunning, RunSucceeded, None);
      }
    }
  }

  // ---- Service: submission, decision, resume --------------------------------

  method SubmitRevisionForApproval(repo: WorkflowRepository, rev: RevisionId, r: RunId, d: DocumentId, v: VersionId,
                                   version: Option<VersionRow>, expiresAt: int, maxAttempts: Positive, commits: bool)
    returns (e: Option<ServiceError>)
    requires repo.Clean()
    modifies repo
    ensures repo.Clean()
    ensures e.None? <==> version.Some? && version.value.status == Pending
                         && SubmitTx(old(repo.committed), rev, r, d, v, expiresAt, maxAttempts).Some? && commits
    ensures repo.committed == if e.None? then SubmitTx(old(repo.committed), rev, r, d, v, expiresAt, maxAttempts).value else old(repo.committed)
    ensures (version.None? || version.value.status != Pending) <==> e == Some(ApprovalConflict)
    ensures e.Some? ==> e.value in {ApprovalConflict, DatabaseError}
    ensures ForeignKeys(old(repo.committed)) ==>
              (e.None? <==> version.Some? && version.value.status == Pending && commits
                            && rev !in old(repo.committed).revisions && r !in old(repo.committed).runs)
  {
    if ForeignKeys(repo.committed) {
      SubmitsExactlyNewIds(repo.committed, rev, r, d, v, expiresAt, maxAttempts);
    }
    if version.None? || version.value.status != Pending {
      return Some(ApprovalConflict);
    }
    if r in repo.working.runs {
      return Some(DatabaseError);
    }
    repo.working := repo.working.(runs := repo.working.runs[r := RunRow(rev, d, v, maxAttempts, RunWaitingApproval, None)]);
    var inserted := repo.CreateStep(StepKey(r, ApprovalStep), StepWaiting);
    if !inserted || rev in repo.working.revisions {
      repo.Rollback();
      return Some(DatabaseError);
    }
    repo.working := repo.working.(revisions := repo.working.revisions[rev := RevisionRow(r, d, v, Submitted, expiresAt, None)]);
    if !commits {
      repo.Rollback();
      return Some(DatabaseError);
    }
    repo.Commit();
    return None;
  }

  datatype DecisionResult = Applied | AlreadyDecided | DecisionFailed(error: ServiceError)

  /** The decision reaches its updates: the revision is submitted and its approval step exists. */
  ghost predicate Undecided(db: WorkflowDb, rev: RevisionId) {
    && RevisionIs(db, rev, Submitted) && db.revisions[rev].run in db.runs
    && StepKey(db.revisions[rev].run, ApprovalStep) in db.steps
  }

  /** The database refuses it: the index step is there already, or all updates hit and the commit raises. */
  ghost predicate Refuses(db: WorkflowDb, rev: RevisionId, decision: RevisionStatus, commits: bool)
    requires rev in db.revisions
  {
    var r := db.revisions[rev].run;
    if decision == Approved && StepKey(r, IndexStep) in db.steps then true
    else !commits && RunIs(db, r, RunWaitingApproval) && StepIs(db, StepKey(r, ApprovalStep), StepWaiting)
  }

  /** _decide_revision for approve, reject, withdraw and expire. */
  method DecideRevision(repo: WorkflowRepository, rev: RevisionId, decision: RevisionStatus, decider: Option<UserId>, commits: bool)
    returns (result: DecisionResult)
    requires repo.Clean() && decision != Submitted
    modifies repo
    ensures repo.Clean()
    ensures result.Applied? <==> DecideTx(old(repo.committed), rev, decision, decider).Some? && commits
    ensures repo.committed ==
            if result.Applied? then DecideTx(old(repo.committed), rev, decision, decider).value else old(repo.committed)
    ensures result.AlreadyDecided? <==>
              rev in old(repo.committed).revisions && old(repo.committed).revisions[rev].run in old(repo.committed).runs
              && old(repo.committed).revisions[rev].status == decision
    ensures result == DecisionFailed(RunNotFound) <==>
              rev !in old(repo.committed).revisions || old(repo.committed).revisions[rev].run !in old(repo.committed).runs
    ensures result.DecisionFailed? ==> result.error in {RunNotFound, ApprovalConflict, DatabaseError}
    ensures result == DecisionFailed(DatabaseError) <==> Undecided(old(repo.committed), rev) && Refuses(old(repo.committed), rev, decision, commits)
    ensures Coupled(old(repo.committed)) && rev in old(repo.committed).revisions ==>
              result == if old(repo.committed).revisions[rev].status == decision then AlreadyDecided
                        else if old(repo.committed).revisions[rev].status != Submitted then DecisionFailed(ApprovalConflict)
                        else if commits then Applied else DecisionFailed(DatabaseError)
  {
    if rev !in repo.working.revisions || repo.working.revisions[rev].run !in repo.working.runs {
      return DecisionFailed(RunNotFound);
    }
    var revision := repo.working.revisions[rev];
    if revision.status != Submitted {
      return if revision.status == decision then AlreadyDecided else DecisionFailed(ApprovalConflict);
    }
    if StepKey(revision.run, ApprovalStep) !in repo.working.steps {
      return DecisionFailed(ApprovalConflict);
    }
    var revisionChanged := repo.UpdateSubmittedDecision(rev, decision, decider);
    var runChanged;
    if decision == Approved {
      runChanged := repo.ApproveWaitingRunAndStep(revision.run);
      var inserted := repo.CreateStep(StepKey(revision.run, IndexStep), StepPending);
      if !inserted {
        repo.Rollback();
        return DecisionFailed(DatabaseError);
      }
    } else {
      runChanged := repo.CancelWaitingRunAndStep(revision.run);
    }
    if revisionChanged && runChanged {
      if !commits {
        repo.Rollback();
        return DecisionFailed(DatabaseError);
      }
      repo.Commit();
      return Applied;
    }
    repo.Rollback();
    return DecisionFailed(ApprovalConflict);
  }

  /** reconcile_expired_revision: lazily expires, and only what is still submitted and due. */
  method ReconcileExpiredRevision(repo: WorkflowRepository, rev: RevisionId, now: int, commits: bool) returns (result: DecisionResult)
    requires repo.Clean()
    modifies repo
    ensures repo.Clean()
    ensures result.Applied? <==>
              && commits && rev in old(repo.committed).revisions && old(repo.committed).revisions[rev].expiresAt <= now
              && DecideTx(old(repo.committed), rev, Expired, None).Some?
    ensures repo.committed == if result.Applied? then DecideTx(old(repo.committed), rev, Expired, None).value else old(repo.committed)
    ensures Coupled(old(repo.committed)) ==>
              result == if rev !in old(repo.committed).revisions then DecisionFailed(RunNotFound)
                        else if old(repo.committed).revisions[rev].status != Submitted || old(repo.committed).revisions[rev].expiresAt > now
                        then AlreadyDecided
                        else if commits then Applied else DecisionFailed(DatabaseError)
  {
    if rev !in repo.working.revisions {
      return DecisionFailed(RunNotFound);
    }
    var revision := repo.working.revisions[rev];
    if revision.status != Submitted || revision.expiresAt > now {
      return AlreadyDecided;
    }
    result := DecideRevision(repo, rev, Expired, None, commits);
  }

  ghost predicate RetryableFailure(db: WorkflowDb, r: RunId) {
    RunIs(db, r, RunFailed) && db.runs[r].failure == Some(NodeRetryable)
  }

  datatype ResumeResult = Resumed | NothingToResume | ResumeFailed(error: ServiceError)

  method ResumeFailedRun(repo: WorkflowRepository, r: RunId, commits: bool) returns (result: ResumeResult)
    requires repo.Clean()
    modifies repo
    ensures repo.Clean()
    ensures result.Resumed? <==> ResumeTx(old(repo.committed), r).Some? && commits
    ensures repo.committed == if result.Resumed? then ResumeTx(old(repo.committed), r).value else old(repo.committed)
    ensures result.NothingToResume? <==> RunIs(old(repo.committed), r, RunSucceeded) || RunIs(old(repo.committed), r, RunRunning)
    ensures result == ResumeFailed(RunNotFound) <==> r !in old(repo.committed).runs
    ensures result == ResumeFailed(RetryExhausted) <==>
              RetryableFailure(old(repo.committed), r) && FirstStepWith(old(repo.committed), r, StepFailed).Some? && !Resumable(old(repo.committed), r)
    ensures result == ResumeFailed(DatabaseError) <==> Resumable(old(repo.committed), r) && !commits
    ensures result == ResumeFailed(NotRetryable) <==>
              && r in old(repo.committed).runs && old(repo.committed).runs[r].status !in {RunSucceeded, RunRunning}
              && (!RetryableFailure(old(repo.committed), r) || FirstStepWith(old(repo.committed), r, StepFailed).None?)
    ensures Coupled(old(repo.committed)) && RetryableFailure(old(repo.committed), r) ==>
              result == if AttemptCount(old(repo.committed), StepKey(r, IndexStep)) >= old(repo.committed).runs[r].maxAttempts
                        then ResumeFailed(RetryExhausted) else if commits then Resumed else ResumeFailed(DatabaseError)
  {
    if r !in repo.working.runs {
      return ResumeFailed(RunNotFound);
    }
    var run := repo.working.runs[r];
    if run.status == RunSucceeded || run.status == RunRunning {
      return NothingToResume;
    }
    if run.status != RunFailed || run.failure != Some(NodeRetryable) {
      return ResumeFailed(NotRetryable);
    }
    var step := FirstStepWith(repo.working, r, StepFailed);
    if step.None? {
      return ResumeFailed(NotRetryable);
    }
    if AttemptCount(repo.working, step.value) >= run.maxAttempts {
      return ResumeFailed(RetryExhausted);
    }
    var requeued := repo.RequeueFailedRunAndStep(r, step.value);
    if !commits {
      repo.Rollback();
      return ResumeFailed(DatabaseError);
    }
    repo.Commit();
    return Resumed;
  }

  // ---- Executor: the two short transactions ---------------------------------

  /** Each commits outside any handler: a raised commit escapes, and the session that closes rolls back. */
  method ClaimNextStep(repo: WorkflowRepository, r: RunId, commits: bool) returns (claim: Result<Option<AttemptKey>, ServiceError>)
    requires repo.Clean()
    modifies repo
    ensures repo.Clean()
    ensures Coupled(old(repo.committed)) && ClaimTx(old(repo.committed), r).None? ==> claim == Ok(None)
    ensures match ClaimTx(old(repo.committed), r)
            case None => claim in {Ok(None), Err(DatabaseError)} && repo.committed == old(repo.committed)
            case Some(claimed) =>
              if commits then claim == Ok(Some(claimed.1)) && repo.committed == claimed.0
              else claim == Err(DatabaseError) && repo.committed == old(repo.committed)
  {
    if r !in repo.working.runs || repo.working.runs[r].status != RunRunning {
      return Ok(None);
    }
    if Coupled(repo.committed) {
      ClaimCouples(repo.committed, r);
    }
    var step := FirstStepWith(repo.working, r, StepPending);
    if step.None? {
      repo.Rollback();
      return Ok(None);
    }
    var number := AttemptCount(repo.working, step.value) + 1;
    var claimed := repo.UpdateStep(step.value, StepPending, StepRunning, None);
    var inserted := repo.CreateAttempt(AttemptKey(step.value, number));
    if !inserted || !commits {
      repo.Rollback();
      return Err(DatabaseError);
    }
    repo.Commit();
    return Ok(Some(AttemptKey(step.value, number)));
  }

  method CompleteClaimedStep(repo: WorkflowRepository, a: AttemptKey, commits: bool) returns (e: Option<ServiceError>)
    requires repo.Clean()
    modifies repo
    ensures repo.Clean()
    ensures match CompleteTx(old(repo.committed), a)
            case None => e == Some(StateChanged) && repo.committed == old(repo.committed)
            case Some(db) =>
              if commits then e == None && repo.committed == db else e == Some(DatabaseError) && repo.committed == old(repo.committed)
  {
    var both := repo.CompleteAttemptAndStep(a);
    if !both {
      repo.Rollback();
      return Some(StateChanged);
    }
    var completed := repo.CompleteRunIfNoPendingSteps(a.step.run);
    if !commits {
      repo.Rollback();
      return Some(DatabaseError);
    }
    repo.Commit();
    return None;
  }

  method FailClaimedStep(repo: WorkflowRepository, a: AttemptKey, code: FailureCode, commits: bool) returns (e: Option<ServiceError>)
    requires repo.Clean()
    modifies repo
    ensures repo.Clean()
    ensures match FailTx(old(repo.committed), a, code)
            case None => e == Some(StateChanged) && repo.committed == old(repo.committed)
            case Some(db) =>
              if commits then e == None && repo.committed == db else e == Some(DatabaseError) && repo.committed == old(repo.committed)
  {
    var all := repo.FailAttemptStepAndRun(a, code);
    if !all {
      repo.Rollback();
      return Some(StateChanged);
    }
    if !commits {
      repo.Rollback();
      return Some(DatabaseError);
    }
    repo.Commit();
    return None;
  }
}
