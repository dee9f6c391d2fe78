/**
 One call of the executor from claim to close. The node runs between the two
 transactions; its outcome alone decides how the claimed step is closed.
 */
module WorkflowExecutor {
  import opened Prelude
  import opened KnowledgeTables
  import opened WorkflowTables
  import opened WorkflowService
  import Embedding
  import Indexing

  datatype NodeOutcome = BadConfiguration | Returns | RaisesRetryable | RaisesOther

  /** The failure code a closing transaction writes; none when the node returned its output. */
  function CodeFor(outcome: NodeOutcome): Option<FailureCode> {
    match outcome
    case Returns => None
    case RaisesRetryable => Some(NodeRetryable)
    case RaisesOther => Some(NodeExecutionFailed)
    case BadConfiguration => Some(NodeExecutionFailed)
  }

  /** The rows a claimed step ends with, given what the node did. */
  ghost predicate ClosedAs(db: WorkflowDb, a: AttemptKey, code: Option<FailureCode>) {
    && a in db.attempts && a.step in db.steps && a.step.run in db.runs
    && match code
       case None =>
         && db.attempts[a] == AttemptRow(AttemptSucceeded, None) && db.steps[a.step] == StepRow(StepSucceeded, None)
         && db.runs[a.step.run].status == RunSucceeded
       case Some(c) =>
         && db.attempts[a] == AttemptRow(AttemptFailed, code) && db.steps[a.step] == StepRow(StepFailed, code)
         && db.runs[a.step.run].status == RunFailed && db.runs[a.step.run].failure == code
  }

  /** The claimed tables, or the closed ones: nothing in between. */
  ghost predicate ClosedOrClaimed(claimed: WorkflowDb, db: WorkflowDb, a: AttemptKey, outcome: NodeOutcome, closed: bool) {
    if closed then ClosedAs(db, a, CodeFor(outcome)) else db == claimed
  }

  ghost predicate SameSubject(before: WorkflowDb, after: WorkflowDb, r: RunId) {
    r in before.runs && r in after.runs && after.runs[r].document == before.runs[r].document && after.runs[r].version == before.runs[r].version
  }

  /**
   Transaction two, after the node: it always finds the claimed rows. Its commit is made
   outside any handler, so the attempt is closed exactly if that commit succeeds.
   */
  method CloseClaimedStep(repo: WorkflowRepository, a: AttemptKey, outcome: NodeOutcome, commits: bool)
    requires repo.Clean() && Coupled(repo.committed) && AttemptIs(repo.committed, a, AttemptRunning)
    modifies repo
    ensures repo.Clean() && Coupled(repo.committed)
    ensures ClosedOrClaimed(old(repo.committed), repo.committed, a, outcome, commits)
    ensures SameSubject(old(repo.committed), repo.committed, a.step.run)
    ensures commits <==> !AttemptIs(repo.committed, a, AttemptRunning)
  {
    ghost var before := repo.committed;
    RunningAttemptIsLast(before, a);
    if outcome == Returns {
      CompleteCouples(before, a);
      CompleteKeeps(before, a);
      var error := CompleteClaimedStep(repo, a, commits);
    } else {
      var code := if outcome == RaisesRetryable then NodeRetryable else NodeExecutionFailed;
      FailCouples(before, a, code);
      FailKeeps(before, a, code);
      var error := FailClaimedStep(repo, a, code, commits);
    }
  }

  /** Transaction one, before the node. */
  method ClaimKeepingTablesCoupled(repo: WorkflowRepository, r: RunId, commits: bool) returns (attempt: Option<AttemptKey>)
    requires repo.Clean() && Coupled(repo.committed)
    modifies repo
    ensures repo.Clean() && Coupled(repo.committed)
    ensures attempt.Some? <==> ClaimTx(old(repo.committed), r).Some? && commits
    ensures match attempt
            case None => repo.committed == old(repo.committed)
            case Some(a) =>
              && repo.committed == ClaimTx(old(repo.committed), r).value.0 && a == ClaimTx(old(repo.committed), r).value.1
              && a.step.run == r && r in repo.committed.runs && AttemptIs(repo.committed, a, AttemptRunning)
  {
    ghost var before := repo.committed;
    var claim := ClaimNextStep(repo, r, commits);
    attempt := if claim.Ok? then claim.value else None;
    if attempt.Some? {
      ClaimKeeps(before, r);
      ClaimCouples(before, r);
    }
  }

  /**
   The outcome of running the index node for a run's document and version: retryable unless the call left the
   version indexed, or the last thing the outside answered was a raised commit or a document not seen.
   */
  method RunIndexNode(service: Indexing.KnowledgeService, d: DocumentId, v: VersionId) returns (outcome: NodeOutcome)
    requires service.Valid()
    modifies service.repository, service.store, service.world
    ensures service.Valid()
    ensures outcome != BadConfiguration
    ensures outcome == RaisesOther <==> !NodeTold(service, old(service.world.log))
    ensures outcome == Returns <==>
      && NodeTold(service, old(service.world.log))
      && Indexing.PublishedByThisCall(old(service.repository.committed), service.repository.committed, d, v)
    ensures Claimed(old(service.repository.committed), d, v).Some? && v in service.repository.committed.versions ==>
      (service.repository.committed.versions[v].status in {Failed, CleanupRequired} <==> outcome == RaisesRetryable)
    ensures service.WillIndex(old(service.repository.committed), d, v) ==> outcome == Returns
  {
    var result := Indexing.ExecuteIndexNode(service, d, v);
    outcome := match result
      case Published(_, _) => Returns
      case Retryable => RaisesRetryable
      case Escaped(_) => RaisesOther;
  }

  /** The node's last transaction, begun after the log `before`, was committed. */
  ghost predicate NodeTold(service: Indexing.KnowledgeService, before: seq<Indexing.Call>)
    reads service, service.world
  {
    service.EndedWith(before, Indexing.Committed(true))
  }

  /** What happens between the claim's commit and the node: nothing, a definition error, or an error of the database. */
  datatype Preparation = Prepared | Misconfigured | DatabaseRaises

  /** How one call can be cut short: a raised commit at either end, an error before the node, or a cancellation once it is through. */
  datatype Interruption = Interruption(claimCommits: bool, preparation: Preparation, cancelled: bool, closeCommits: bool)

  /** The closing transaction is reached and commits. */
  ghost predicate Closes(cut: Interruption) {
    cut.preparation != DatabaseRaises && cut.closeCommits && (cut.preparation == Prepared ==> !cut.cancelled)
  }

  /** The code that a call which closes its step writes, given how its node ended. */
  ghost predicate ClosesWith(cut: Interruption, committed: bool, published: bool, code: Option<FailureCode>) {
    if cut.preparation == Misconfigured || !committed then code == Some(NodeExecutionFailed)
    else code == if published then None else Some(NodeRetryable)
  }

  /**
   execute_next_async with the index node. Once the claim is committed, the attempt is closed exactly
   if the closing transaction is reached and commits; otherwise the claimed rows stay running. The run
   succeeds exactly if this very call claimed and indexed its version; it fails for good exactly if the
   node's last commit raised or its document was not seen, and retryably in every other case.
   */
  method ExecuteIndexStep(repo: WorkflowRepository, service: Indexing.KnowledgeService, r: RunId, cut: Interruption)
    returns (attempt: Option<AttemptKey>)
    requires repo.Clean() && Coupled(repo.committed) && service.Valid()
    modifies repo, service.repository, service.store, service.world
    ensures repo.Clean() && Coupled(repo.committed) && service.Valid()
    ensures attempt.Some? <==> ClaimTx(old(repo.committed), r).Some? && cut.claimCommits
    ensures attempt.None? ==> repo.committed == old(repo.committed)
    ensures attempt.None? || cut.preparation != Prepared ==> service.repository.committed == old(service.repository.committed)
    ensures attempt.Some? ==>
      && attempt.value == ClaimTx(old(repo.committed), r).value.1 && attempt.value.step.run == r
      && (AttemptIs(repo.committed, attempt.value, AttemptRunning) <==> !Closes(cut))
      && (!Closes(cut) ==> repo.committed == ClaimTx(old(repo.committed), r).value.0)
      && SameSubject(old(repo.committed), repo.committed, r)
    ensures attempt.Some? && Closes(cut) ==> exists code ::
      && ClosedAs(repo.committed, attempt.value, code)
      && ClosesWith(cut, NodeTold(service, old(service.world.log)),
                    Indexing.PublishedByThisCall(old(service.repository.committed), service.repository.committed,
                                                 old(repo.committed).runs[r].document, old(repo.committed).runs[r].version), code)
    ensures attempt.Some? && cut.preparation == Prepared && Closes(cut) ==>
      var v := old(repo.committed).runs[r].version;
      Claimed(old(service.repository.committed), old(repo.committed).runs[r].document, v).Some?
      && v in service.repository.committed.versions && service.repository.committed.versions[v].status in {Failed, CleanupRequired} ==>
        r in repo.committed.runs && repo.committed.runs[r].failure == Some(NodeRetryable)
    ensures attempt.Some? && cut.preparation == Prepared && Closes(cut)
            && service.WillIndex(old(service.repository.committed), old(repo.committed).runs[r].document, old(repo.committed).runs[r].version) ==>
      RunIs(repo.committed, r, RunSucceeded)
  {
    attempt := ClaimKeepingTablesCoupled(repo, r, cut.claimCommits);
    if attempt.None? {
      return;
    }
    var run := repo.committed.runs[r];
    RunningAttemptIsLast(repo.committed, attempt.value);
    if cut.preparation == DatabaseRaises {
      return;
    }
    if cut.preparation == Misconfigured {
      CloseClaimedStep(repo, attempt.value, BadConfiguration, cut.closeCommits);
      return;
    }
    var outcome := RunIndexNode(service, run.document, run.version);
    if !cut.cancelled {
      CloseClaimedStep(repo, attempt.value, outcome, cut.closeCommits);
    }
  }

  // ---- A call that strands its attempt ------------------------------------------------

  /** Tables with one approved run, ready to be claimed. */
  method ReadyTables() returns (db: WorkflowDb)
    ensures Coupled(db) && ClaimTx(db, 1).Some?
  {
    var empty := WorkflowDb(map[], map[], map[], map[]);
    var submitted := SubmitTx(empty, 1, 1, 1, 1, 0, 3).value;
    SubmitKeeps(empty, 1, 1, 1, 1, 0, 3);
    db := DecideTx(submitted, 1, Approved, Some(1)).value;
    DecideKeeps(submitted, 1, Approved, Some(1));
    ClaimCouples(db, 1);
  }

  /** A service with nothing in its tables and stores. */
  method EmptyService() returns (service: Indexing.KnowledgeService)
    ensures service.Valid() && fresh(service.repository) && fresh(service.store) && fresh(service.world)
  {
    var knowledge := new KnowledgeRepository(Tables(map[], map[]));
    var store := new Indexing.VectorStore();
    var world := new Indexing.World((n, texts) => Embedding.Unreachable, n => Indexing.Applied, n => true, n => true);
    service := new Indexing.KnowledgeService(knowledge, store, world, map[], text => text == "", 1, 1, 1, text => [], map[]);
  }

  /** A call whose claim commits and whose closing commit raises: its attempt and its run are left running. */
  method StrandedAttempt() returns (db: WorkflowDb, attempt: AttemptKey)
    ensures AttemptIs(db, attempt, AttemptRunning) && RunIs(db, attempt.step.run, RunRunning)
  {
    var ready := ReadyTables();
    var repo := new WorkflowRepository(ready);
    var service := EmptyService();
    var claimed := ExecuteIndexStep(repo, service, 1, Interruption(true, Prepared, false, false));
    RunningAttemptIsLast(repo.committed, claimed.value);
    return repo.committed, claimed.value;
  }
}
