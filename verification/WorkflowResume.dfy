/**
 Whether a failed run can still succeed by resuming it. Resume requeues run and step but
 not the version, and the index node needs the version pending; so it can exactly then.
 */
module WorkflowResume {
  import opened Prelude
  import opened KnowledgeTables
  import opened WorkflowTables
  import opened WorkflowProtocol
  import V = VersionProtocol

  // ---- When it cannot ----------------------------------------------------------------

  /** The run has not succeeded, its version is not there to be claimed, and no node of the run has claimed it before. */
  ghost predicate Barred(s: System, r: RunId) {
    && r in s.wf.runs && s.wf.runs[r].status != RunSucceeded
    && s.wf.runs[r].version in s.kn.db.versions && s.kn.db.versions[s.wf.runs[r].version].status != Pending
    && (forall e :: e in s.executions && s.executions[e].attempt.step.run == r ==>
          s.executions[e].worker == None && !s.executions[e].sawIndexed)
  }

  lemma FailStepLeaves(s: System, e: ExecutorId, code: FailureCode)
    requires e in s.executions && FailTx(s.wf, s.executions[e].attempt, code).Some?
    ensures var r, s' := s.executions[e].attempt.step.run, After(s, FailStep(e, code));
            && r in s.wf.runs && r in s'.wf.runs && s'.wf.runs[r].status == RunFailed && s'.wf.runs[r].version == s.wf.runs[r].version
            && s'.executions == s.executions - {e} && s'.kn.db == s.kn.db
  {}

  /** An attempt that fails while its version is not pending bars its run. */
  lemma FailedAttemptBars(s: System, e: ExecutorId, code: FailureCode)
    requires Coupled(s.wf) && ExecutionsInv(s) && e in s.executions && s.executions[e].attempt.step.run in s.wf.runs
    requires SubjectOf(s, e).1 in s.kn.db.versions && s.kn.db.versions[SubjectOf(s, e).1].status != Pending
    ensures Barred(After(s, FailStep(e, code)), s.executions[e].attempt.step.run)
  {
    OwnerCloses(s.wf, s.executions[e].attempt);
    FailStepLeaves(s, e, code);
  }

  predicate Requeues(action: Action, v: VersionId) {
    action.Knowledge? && action.step.Requeue? && action.step.v == v
  }

  lemma OnlyRequeueMakesPending(kn: V.System, step: V.Step, v: VersionId)
    requires v in kn.db.versions && kn.db.versions[v].status != Pending && !(step.Requeue? && step.v == v)
    ensures v in V.After(kn, step).db.versions && V.After(kn, step).db.versions[v].status != Pending
  {}

  lemma BarredExecutions(s: System, action: Action, r: RunId, e: ExecutorId)
    requires Barred(s, r) && e in After(s, action).executions && After(s, action).executions[e].attempt.step.run == r
    ensures After(s, action).executions[e].worker == None && !After(s, action).executions[e].sawIndexed
  {
    ExecutionsAfter(s, action, e);
  }

  lemma BarredOneStep(s: System, action: Action, r: RunId)
    requires Barred(s, r) && !Requeues(action, s.wf.runs[r].version)
    ensures Barred(After(s, action), r) && After(s, action).wf.runs[r].version == s.wf.runs[r].version
  {
    ActionKeepsSubjects(s, action);
    if RunIs(After(s, action).wf, r, RunSucceeded) {
      OnlyCompletionSucceeds(s, action, r);
    }
    if VersionStep(s, action).Some? {
      OnlyRequeueMakesPending(s.kn, VersionStep(s, action).value, s.wf.runs[r].version);
    }
    forall e | e in After(s, action).executions && After(s, action).executions[e].attempt.step.run == r
      ensures After(s, action).executions[e].worker == None && !After(s, action).executions[e].sawIndexed
    {
      BarredExecutions(s, action, r, e);
    }
  }

  /**
   Once an attempt left its version failed, in clean-up, or indexed without closing its run, no number of
   resumes makes the run succeed: only a requeue of the version could, and resume does not requeue it.
   */
  lemma {:induction false} ResumeAloneNeverSucceeds(s: System, actions: seq<Action>, r: RunId)
    requires Barred(s, r) && forall i :: 0 <= i < |actions| ==> !Requeues(actions[i], s.wf.runs[r].version)
    ensures Barred(Run(s, actions), r)
    decreases |actions|
  {
    if actions == [] {
    } else {
      BarredOneStep(s, actions[0], r);
      ResumeAloneNeverSucceeds(After(s, actions[0]), actions[1..], r);
    }
  }

  /** A retry requeues the version and claims it for itself; undisturbed, that does not let the run in either. */
  lemma RetryClaimsForItself(s: System, r: RunId, w: V.WorkerId)
    requires Barred(s, r) && w !in s.kn.owners && Unheld(s, Some(w))
    ensures var run := s.wf.runs[r];
            Barred(Run(s, [Knowledge(V.Requeue(run.document, run.version)), Knowledge(V.Claim(w, run.document, run.version))]), r)
  {
    var run := s.wf.runs[r];
    var requeue, claim := Knowledge(V.Requeue(run.document, run.version)), Knowledge(V.Claim(w, run.document, run.version));
    var middle := After(s, requeue);
    assert [requeue, claim][1..] == [claim] && [claim][1..] == [];
    assert Run(s, [requeue, claim]) == Run(middle, [claim]) == After(middle, claim);
    assert middle.wf == s.wf && middle.executions == s.executions && After(middle, claim).wf == s.wf && After(middle, claim).executions == s.executions;
  }

  // ---- When it can ---------------------------------------------------------------------

  /** Some sequence of actions without a requeue of the run's version ends with the run succeeded. */
  ghost predicate CanSucceed(s: System, r: RunId)
    requires r in s.wf.runs
  {
    exists actions :: NoRequeue(actions, s.wf.runs[r].version) && RunIs(Run(s, actions).wf, r, RunSucceeded)
  }

  ghost predicate NoRequeue(actions: seq<Action>, v: VersionId) {
    forall i :: 0 <= i < |actions| ==> !Requeues(actions[i], v)
  }

  /** The run is claimed by `e`, whose node has got as far as `worker` and `sawIndexed` say. */
  ghost predicate ClaimedBy(s: System, r: RunId, e: ExecutorId, worker: Option<V.WorkerId>, sawIndexed: bool) {
    && r in s.wf.runs && e in s.executions && s.executions[e] == Execution(s.executions[e].attempt, worker, sawIndexed)
    && s.executions[e].attempt.step.run == r && AttemptIs(s.wf, s.executions[e].attempt, AttemptRunning)
  }

  lemma Resuming(s: System, r: RunId)
    requires r in s.wf.runs && RunCoupled(s.wf, r) && Resumable(s.wf, r)
    ensures var s' := After(s, ResumeRun(r));
            && s'.kn == s.kn && s'.executions == s.executions
            && RunIs(s'.wf, r, RunRunning) && StepIs(s'.wf, StepKey(r, IndexStep), StepPending)
  {
    ResumesExactlyRetryableFailures(s.wf, r);
  }

  lemma Claiming(s: System, r: RunId, e: ExecutorId)
    requires RunIs(s.wf, r, RunRunning) && RunCoupled(s.wf, r)
    requires StepIs(s.wf, StepKey(r, IndexStep), StepPending) && e !in s.executions
    ensures After(s, ClaimStep(e, r)).kn == s.kn && ClaimedBy(After(s, ClaimStep(e, r)), r, e, None, false)
  {
    ClaimCouples(s.wf, r);
  }

  lemma NodeClaiming(s: System, r: RunId, e: ExecutorId, w: V.WorkerId)
    requires ClaimedBy(s, r, e, None, false) && w !in s.kn.owners
    requires Claimed(s.kn.db, s.wf.runs[r].document, s.wf.runs[r].version).Some?
    ensures var s' := After(s, NodeClaims(e, w));
            && s'.wf == s.wf && ClaimedBy(s', r, e, Some(w), false) && s'.executions.Keys == s.executions.Keys
            && w in s'.kn.owners && s'.kn.owners[w] == (s.wf.runs[r].document, s.wf.runs[r].version)
            && Completed(s'.kn.db, s.wf.runs[r].document, s.wf.runs[r].version).Some?
  {
    assert MayClaimVersion(s, e, w);
  }

  lemma NodeCompleting(s: System, r: RunId, e: ExecutorId, w: V.WorkerId)
    requires ClaimedBy(s, r, e, Some(w), false)
    requires w in s.kn.owners && s.kn.owners[w] == (s.wf.runs[r].document, s.wf.runs[r].version)
    requires Completed(s.kn.db, s.wf.runs[r].document, s.wf.runs[r].version).Some?
    ensures var s' := After(s, NodeCompletes(e));
            s'.wf == s.wf && ClaimedBy(s', r, e, None, true)
  {
    assert MayPublish(s, e);
  }

  lemma Closing(s: System, r: RunId, e: ExecutorId)
    requires ClaimedBy(s, r, e, None, true) && RunCoupled(s.wf, r) && ForeignKeys(s.wf)
    ensures RunIs(After(s, CompleteStep(e)).wf, r, RunSucceeded)
  {
    CompleteCouples(s.wf, s.executions[e].attempt);
  }

  /** The five actions of an undisturbed resume. */
  function UndisturbedResume(r: RunId, e: ExecutorId, w: V.WorkerId): seq<Action> {
    [ResumeRun(r), ClaimStep(e, r), NodeClaims(e, w), NodeCompletes(e), CompleteStep(e)]
  }

  lemma FiveActions(s: System, a: Action, b: Action, c: Action, d: Action, e: Action)
    ensures Run(s, [a, b, c, d, e]) == After(After(After(After(After(s, a), b), c), d), e)
  {
    var s1 := After(s, a);
    var s2 := After(s1, b);
    var s3 := After(s2, c);
    var s4 := After(s3, d);
    assert [a, b, c, d, e][1..] == [b, c, d, e] && [b, c, d, e][1..] == [c, d, e] && [c, d, e][1..] == [d, e];
    assert [d, e][1..] == [e] && [e][1..] == [];
    assert Run(s4, [e]) == After(s4, e);
    assert Run(s3, [d, e]) == Run(s4, [e]);
    assert Run(s2, [c, d, e]) == Run(s3, [d, e]);
    assert Run(s1, [b, c, d, e]) == Run(s2, [c, d, e]);
  }

  /** With its version pending, a resumed run that nobody disturbs succeeds. */
  lemma UndisturbedResumeSucceeds(s: System, r: RunId, e: ExecutorId, w: V.WorkerId)
    requires Coupled(s.wf) && Resumable(s.wf, r) && e !in s.executions && w !in s.kn.owners
    requires VersionExists(s.kn, s.wf.runs[r].document, s.wf.runs[r].version)
    requires s.kn.db.versions[s.wf.runs[r].version].status == Pending
    ensures RunIs(Run(s, UndisturbedResume(r, e, w)).wf, r, RunSucceeded)
  {
    var s1 := After(s, ResumeRun(r));
    var s2 := After(s1, ClaimStep(e, r));
    var s3 := After(s2, NodeClaims(e, w));
    var s4 := After(s3, NodeCompletes(e));
    Resuming(s, r);
    ActionKeepsSubjects(s, ResumeRun(r));
    ActionKeepsCoupled(s, ResumeRun(r));
    Claiming(s1, r, e);
    ActionKeepsSubjects(s1, ClaimStep(e, r));
    ActionKeepsCoupled(s1, ClaimStep(e, r));
    NodeClaiming(s2, r, e, w);
    NodeCompleting(s3, r, e, w);
    Closing(s4, r, e);
    FiveActions(s, ResumeRun(r), ClaimStep(e, r), NodeClaims(e, w), NodeCompletes(e), CompleteStep(e));
  }

  /** A failed run has no execution in flight. */
  lemma FailedRunIsIdle(s: System, r: RunId, e: ExecutorId)
    requires Coupled(s.wf) && ExecutionsInv(s) && RunIs(s.wf, r, RunFailed) && e in s.executions
    ensures s.executions[e].attempt.step.run != r
  {
    AttemptPinsRun(s.wf, s.executions[e].attempt);
  }

  lemma FailedRunIsBarredExactly(s: System, r: RunId)
    requires Coupled(s.wf) && ExecutionsInv(s) && RunIs(s.wf, r, RunFailed)
    requires VersionExists(s.kn, s.wf.runs[r].document, s.wf.runs[r].version)
    ensures Barred(s, r) <==> s.kn.db.versions[s.wf.runs[r].version].status != Pending
  {
    forall e | e in s.executions ensures s.executions[e].attempt.step.run != r {
      FailedRunIsIdle(s, r, e);
    }
  }

  /**
   A run that may be resumed can succeed without a requeue of its version exactly if that
   version is pending: not if it is processing, indexed, failed or left for clean-up.
   */
  lemma ResumableSucceedsExactlyWhenPending(s: System, r: RunId)
    requires Coupled(s.wf) && ExecutionsInv(s) && Resumable(s.wf, r)
    requires VersionExists(s.kn, s.wf.runs[r].document, s.wf.runs[r].version)
    ensures CanSucceed(s, r) <==> s.kn.db.versions[s.wf.runs[r].version].status == Pending
  {
    FailedRunIsBarredExactly(s, r);
    if Barred(s, r) {
      BarredCannotSucceed(s, r);
    } else {
      PendingCanSucceed(s, r);
    }
  }

  lemma PendingCanSucceed(s: System, r: RunId)
    requires Coupled(s.wf) && Resumable(s.wf, r) && VersionExists(s.kn, s.wf.runs[r].document, s.wf.runs[r].version)
    requires s.kn.db.versions[s.wf.runs[r].version].status == Pending
    ensures CanSucceed(s, r)
  {
    var e, w := MaxOrZero(s.executions.Keys) + 1, MaxOrZero(s.kn.owners.Keys) + 1;
    UndisturbedResumeSucceeds(s, r, e, w);
    UndisturbedRequeuesNothing(r, e, w, s.wf.runs[r].version);
    SucceedsBy(s, r, UndisturbedResume(r, e, w));
  }

  lemma UndisturbedRequeuesNothing(r: RunId, e: ExecutorId, w: V.WorkerId, v: VersionId)
    ensures NoRequeue(UndisturbedResume(r, e, w), v)
  {}

  lemma SucceedsBy(s: System, r: RunId, actions: seq<Action>)
    requires r in s.wf.runs && NoRequeue(actions, s.wf.runs[r].version) && RunIs(Run(s, actions).wf, r, RunSucceeded)
    ensures CanSucceed(s, r)
  {}

  lemma BarredCannotSucceed(s: System, r: RunId)
    requires Barred(s, r)
    ensures !CanSucceed(s, r)
  {
    forall actions | NoRequeue(actions, s.wf.runs[r].version) ensures !RunIs(Run(s, actions).wf, r, RunSucceeded) {
      ResumeAloneNeverSucceeds(s, actions, r);
    }
  }

  /** The same in every reachable state. */
  lemma ReachableResumableSucceedsExactlyWhenPending(actions: seq<Action>, r: RunId)
    requires Resumable(Run(INITIAL, actions).wf, r)
    ensures var s := Run(INITIAL, actions);
            && s.wf.runs[r].version in s.kn.db.versions
            && (CanSucceed(s, r) <==> s.kn.db.versions[s.wf.runs[r].version].status == Pending)
  {
    RunKeepsInv(INITIAL, actions);
    ResumableSucceedsExactlyWhenPending(Run(INITIAL, actions), r);
  }

  // ---- A run that gets there -------------------------------------------------------------

  /** A document and its first version. */
  const CREATION: seq<Action> :=
    [Knowledge(V.AddDocument(1, 1, 1)), Knowledge(V.ReadNextNumber(1, 1)), Knowledge(V.InsertVersion(1, 1, 1))]

  /** Its revision is submitted and approved, and an executor claims the index step. */
  const APPROVAL: seq<Action> := [Submit(1, 1, 1, 1, 0, 3), Decide(1, Approved, 1), ClaimStep(1, 1)]

  /** The node claims the version and fails it; the attempt fails retryably. */
  const FAILURE: seq<Action> := [NodeClaims(1, 1), NodeFails(1, false, EmbeddingFailed), FailStep(1, NodeRetryable)]

  lemma ThreeActions(s: System, a: Action, b: Action, c: Action)
    ensures Run(s, [a, b, c]) == After(After(After(s, a), b), c)
  {
    var s1 := After(s, a);
    var s2 := After(s1, b);
    assert [a, b, c][1..] == [b, c] && [b, c][1..] == [c] && [c][1..] == [];
    assert Run(s2, [c]) == After(s2, c);
    assert Run(s1, [b, c]) == Run(s2, [c]);
  }

  lemma Created()
    ensures var s := Run(INITIAL, CREATION);
            && s.wf == INITIAL.wf && s.executions == map[] && s.kn.owners == map[]
            && VersionExists(s.kn, 1, 1) && s.kn.db.versions[1].status == Pending
  {
    ThreeActions(INITIAL, CREATION[0], CREATION[1], CREATION[2]);
    assert NumbersOf(After(INITIAL, CREATION[0]).kn.db, 1) == {};
  }

  /** Approved and about to be claimed for the first time. */
  ghost predicate ReadyToClaim(wf: WorkflowDb) {
    && 1 in wf.runs && RunCoupled(wf, 1) && wf.runs[1].status == RunRunning && StepIs(wf, StepKey(1, IndexStep), StepPending)
    && wf.runs[1].document == 1 && wf.runs[1].version == 1 && wf.runs[1].maxAttempts == 3
    && wf.attempts == map[]
  }

  lemma Deciding(s: System)
    requires s.wf == INITIAL.wf && VersionExists(s.kn, 1, 1) && s.kn.db.versions[1].status == Pending
    ensures var s' := After(After(s, APPROVAL[0]), APPROVAL[1]);
            s'.kn == s.kn && s'.executions == s.executions && ReadyToClaim(s'.wf)
  {
    var s1 := After(s, APPROVAL[0]);
    SubmitCouples(s.wf, 1, 1, 1, 1, 0, 3);
    DecideCouples(s1.wf, 1, Approved, Some(1));
  }

  lemma FirstClaim(s: System)
    requires ReadyToClaim(s.wf) && s.executions == map[]
    ensures var s' := After(s, ClaimStep(1, 1));
            && s'.kn == s.kn && ClaimedBy(s', 1, 1, None, false) && s'.executions.Keys == {1} && RunCoupled(s'.wf, 1)
            && s'.wf.runs[1] == s.wf.runs[1] && AttemptCount(s'.wf, StepKey(1, IndexStep)) == 1
  {
    Claiming(s, 1, 1);
    ClaimCouples(s.wf, 1);
    assert AttemptsOf(s.wf, StepKey(1, IndexStep)) == {};
    assert AttemptsOf(ClaimTx(s.wf, 1).value.0, StepKey(1, IndexStep)) == {AttemptKey(StepKey(1, IndexStep), 1)};
  }

  lemma Approving(s: System)
    requires s.wf == INITIAL.wf && s.executions == map[] && VersionExists(s.kn, 1, 1) && s.kn.db.versions[1].status == Pending
    ensures var s' := Run(s, APPROVAL);
            && s'.kn == s.kn && ClaimedBy(s', 1, 1, None, false) && s'.executions.Keys == {1}
            && s'.wf.runs[1].document == 1 && s'.wf.runs[1].version == 1 && s'.wf.runs[1].maxAttempts == 3
            && AttemptCount(s'.wf, StepKey(1, IndexStep)) == 1 && RunCoupled(s'.wf, 1)
  {
    ThreeActions(s, APPROVAL[0], APPROVAL[1], APPROVAL[2]);
    Deciding(s);
    FirstClaim(After(After(s, APPROVAL[0]), APPROVAL[1]));
  }

  /** The node's version fails: its claim is gone, and the version is not pending. */
  lemma NodeFailing(s: System, r: RunId, e: ExecutorId, w: V.WorkerId)
    requires ClaimedBy(s, r, e, Some(w), false)
    requires w in s.kn.owners && s.kn.owners[w] == (s.wf.runs[r].document, s.wf.runs[r].version)
    requires Completed(s.kn.db, s.wf.runs[r].document, s.wf.runs[r].version).Some?
    ensures var s' := After(s, NodeFails(e, false, EmbeddingFailed));
            && s'.wf == s.wf && ClaimedBy(s', r, e, None, false) && s'.executions.Keys == s.executions.Keys
            && s.wf.runs[r].version in s'.kn.db.versions && s'.kn.db.versions[s.wf.runs[r].version].status == Failed
  {}

  lemma FailingRetryably(s: System, r: RunId, e: ExecutorId)
    requires ClaimedBy(s, r, e, None, false) && RunCoupled(s.wf, r)
    requires AttemptCount(s.wf, StepKey(r, IndexStep)) < s.wf.runs[r].maxAttempts
    ensures FailTx(s.wf, s.executions[e].attempt, NodeRetryable).Some?
    ensures Resumable(After(s, FailStep(e, NodeRetryable)).wf, r)
  {
    var a := s.executions[e].attempt;
    RunningAttemptIsLast(s.wf, a);
    FailCouples(s.wf, a, NodeRetryable);
    ClosingKeepsAttempts(s.wf, a, FailTx(s.wf, a, NodeRetryable).value);
  }

  lemma Failing(s: System)
    requires ClaimedBy(s, 1, 1, None, false) && RunCoupled(s.wf, 1) && s.kn.owners == map[] && s.executions.Keys == {1}
    requires s.wf.runs[1].document == 1 && s.wf.runs[1].version == 1 && s.wf.runs[1].maxAttempts == 3
    requires AttemptCount(s.wf, StepKey(1, IndexStep)) == 1
    requires VersionExists(s.kn, 1, 1) && s.kn.db.versions[1].status == Pending
    ensures Resumable(Run(s, FAILURE).wf, 1) && Barred(Run(s, FAILURE), 1)
  {
    var s1 := After(s, NodeClaims(1, 1));
    var s2 := After(s1, NodeFails(1, false, EmbeddingFailed));
    ThreeActions(s, NodeClaims(1, 1), NodeFails(1, false, EmbeddingFailed), FailStep(1, NodeRetryable));
    NodeClaiming(s, 1, 1, 1);
    NodeFailing(s1, 1, 1, 1);
    FailingRetryably(s2, 1, 1);
    FailStepLeaves(s2, 1, NodeRetryable);
  }

  lemma InThreeParts(s: System, a: seq<Action>, b: seq<Action>, c: seq<Action>)
    ensures Run(s, a + b + c) == Run(Run(Run(s, a), b), c)
  {
    RunInTwoParts(s, a, b);
    RunInTwoParts(s, a + b, c);
  }

  /** A reachable run that may be resumed and yet can never succeed that way: its version failed. */
  lemma BarredRunIsReachable()
    ensures var s := Run(INITIAL, CREATION + APPROVAL + FAILURE);
            Resumable(s.wf, 1) && Barred(s, 1) && !CanSucceed(s, 1)
  {
    var s1 := Run(INITIAL, CREATION);
    var s2 := Run(s1, APPROVAL);
    InThreeParts(INITIAL, CREATION, APPROVAL, FAILURE);
    Created();
    Approving(s1);
    Failing(s2);
    BarredCannotSucceed(Run(s2, FAILURE), 1);
  }
}
