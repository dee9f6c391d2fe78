/**
 Indexing and retrying of any number of versions at once. Claims, upserts, deletions and
 commits of different calls interleave one by one, and each may fail or leave its call for
 dead; only a version is retried by one call at a time. The two stores agree after every step.
 */
module SagaProtocol {
  import opened Prelude
  import opened KnowledgeTables
  import opened Embedding
  import opened Indexing

  type CallId = nat

  /** Where a call stands between two of its steps. */
  datatype Phase =
    | Writing(done: nat)
    | Undoing(reason: FailureReason)
    | Recording(reason: FailureReason)
    | Cleaning
    | Requeueing

  datatype Saga = Saga(d: DocumentId, v: VersionId, phase: Phase)

  datatype State = State(db: Tables, points: Points, sagas: map<CallId, Saga>)

  /** What does not change: the persisted chunks, their embeddings, and which version a chunk is of. */
  datatype Setting = Setting(chunks: ChunkTable, embedding: string -> Vector, home: map<ChunkId, VersionId>)

  datatype Event =
    | Claims(w: CallId, d: DocumentId, v: VersionId)
    | EmbeddingFails(w: CallId)
    | Upserts(w: CallId, to: nat)
    | UpsertRaises(w: CallId, to: nat)
    | Deletes(w: CallId)
    | DeleteRaises(w: CallId)
    | Completes(w: CallId)
    | CompletionRaises(w: CallId)
    | Records(w: CallId)
    | Retries(w: CallId, d: DocumentId, v: VersionId)
    | Requeues(w: CallId)
    | Dies(w: CallId)

  ghost function Expected(k: Setting, db: Tables, d: DocumentId, v: VersionId): seq<VectorPoint>
    requires d in db.documents
  {
    ExpectedPoints(ListChunks(k.chunks, v), db.documents[d].base, v, k.embedding)
  }

  /** A batch of which any part may have arrived. */
  ghost predicate PartlyWritten(before: Points, after: Points, batch: seq<VectorPoint>) {
    && (forall c :: c in before && !(exists p :: p in batch && p.chunkId == c) ==> c in after && after[c] == before[c])
    && (forall c :: c in after ==> (c in before && after[c] == before[c]) || (after[c] in batch && after[c].chunkId == c))
  }

  /** A deletion of which any part may have taken effect. */
  ghost predicate PartlyDeleted(before: Points, after: Points, v: VersionId) {
    && PointsElsewhere(after, v) == PointsElsewhere(before, v)
    && (forall c :: c in after ==> c in before && after[c] == before[c])
  }

  function At(s: State, w: CallId, phase: Phase): State
    requires w in s.sagas
  {
    s.(sagas := s.sagas[w := s.sagas[w].(phase := phase)])
  }

  function Over(s: State, w: CallId): State {
    s.(sagas := s.sagas - {w})
  }

  /** A retry begins: with the clean-up if one is required. */
  function Retrying(s: State, w: CallId, d: DocumentId, v: VersionId): State
    requires v in s.db.versions
  {
    s.(sagas := s.sagas[w := Saga(d, v, if s.db.versions[v].status == CleanupRequired then Cleaning else Requeueing)])
  }

  /** Call `w` is on, and its document exists. */
  predicate On(s: State, w: CallId) {
    w in s.sagas && s.sagas[w].d in s.db.documents
  }

  ghost predicate Step(k: Setting, s: State, e: Event, s': State) {
    match e
    case Claims(w, d, v) =>
      && w !in s.sagas && Claimed(s.db, d, v).Some?
      && s' == State(Claimed(s.db, d, v).value, s.points, s.sagas[w := Saga(d, v, Writing(0))])
    case EmbeddingFails(w) =>
      && On(s, w) && s.sagas[w].phase == Writing(0)
      && s' == At(s, w, Recording(if ListChunks(k.chunks, s.sagas[w].v) == [] then MissingChunks else EmbeddingFailed))
    case Upserts(w, to) =>
      && On(s, w) && s.sagas[w].phase.Writing?
      && var all := Expected(k, s.db, s.sagas[w].d, s.sagas[w].v);
         && s.sagas[w].phase.done < to <= |all|
         && s' == At(s, w, Writing(to)).(points := Written(s.points, all[s.sagas[w].phase.done..to]))
    case UpsertRaises(w, to) =>
      && On(s, w) && s.sagas[w].phase.Writing?
      && var all := Expected(k, s.db, s.sagas[w].d, s.sagas[w].v);
         && s.sagas[w].phase.done < to <= |all|
         && PartlyWritten(s.points, s'.points, all[s.sagas[w].phase.done..to])
         && s' == At(s, w, Undoing(VectorStoreFailed)).(points := s'.points)
    case Deletes(w) =>
      && On(s, w)
      && var rest := s.(points := PointsElsewhere(s.points, s.sagas[w].v));
         (match s.sagas[w].phase
          case Undoing(reason) => s' == At(rest, w, Recording(reason))
          case Cleaning => s' == At(rest, w, Requeueing)
          case _ => false)
    case DeleteRaises(w) =>
      && On(s, w) && PartlyDeleted(s.points, s'.points, s.sagas[w].v)
      && var rest := s.(points := s'.points);
         (match s.sagas[w].phase
          case Undoing(_) => s' == At(rest, w, Recording(VectorCleanupFailed))
          case Cleaning => s' == Over(rest, w)
          case _ => false)
    case Completes(w) =>
      && On(s, w) && s.sagas[w].phase == Writing(|Expected(k, s.db, s.sagas[w].d, s.sagas[w].v)|)
      && Completed(s.db, s.sagas[w].d, s.sagas[w].v).Some?
      && s' == Over(s, w).(db := Completed(s.db, s.sagas[w].d, s.sagas[w].v).value)
    case CompletionRaises(w) =>
      && On(s, w) && s.sagas[w].phase == Writing(|Expected(k, s.db, s.sagas[w].d, s.sagas[w].v)|)
      && s' == At(s, w, Undoing(IndexStateWriteFailed))
    case Records(w) =>
      && On(s, w) && s.sagas[w].phase.Recording?
      && var reason := s.sagas[w].phase.reason;
         var failed := Finished(s.db, s.sagas[w].d, s.sagas[w].v, TargetStatus(reason == VectorCleanupFailed), Some(reason));
         failed.Some? && s' == Over(s, w).(db := failed.value)
    case Retries(w, d, v) =>
      && w !in s.sagas && v in s.db.versions && s.db.versions[v].document == d && s.db.versions[v].status in {Failed, CleanupRequired}
      && (forall x :: x in s.sagas ==> s.sagas[x].v != v)
      && s' == Retrying(s, w, d, v)
    case Requeues(w) =>
      && On(s, w) && s.sagas[w].phase == Requeueing && Requeued(s.db, s.sagas[w].d, s.sagas[w].v).Some?
      && s' == Over(s, w).(db := Requeued(s.db, s.sagas[w].d, s.sagas[w].v).value)
    case Dies(w) => w in s.sagas && s' == Over(s, w)
  }

  // ---- The invariant -------------------------------------------------------------------

  /** What a call may rely on about its version between its steps. */
  ghost predicate Holds(k: Setting, db: Tables, points: Points, saga: Saga) {
    && saga.v in db.versions && db.versions[saga.v].document == saga.d && saga.d in db.documents
    && var status, mine := db.versions[saga.v].status, PointsOf(points, saga.v);
       match saga.phase
       case Writing(done) =>
         && status == Processing && done <= |Expected(k, db, saga.d, saga.v)|
         && mine == Written(map[], Expected(k, db, saga.d, saga.v)[..done])
       case Undoing(_) => status == Processing
       case Recording(reason) => status == Processing && (reason != VectorCleanupFailed ==> mine == map[])
       case Cleaning => status == CleanupRequired
       case Requeueing => status in {Failed, CleanupRequired} && mine == map[]
  }

  ghost predicate AllHold(k: Setting, s: State) {
    forall w :: w in s.sagas ==> Holds(k, s.db, s.points, s.sagas[w])
  }

  ghost predicate OneCallPerVersion(s: State) {
    forall w, x :: w in s.sagas && x in s.sagas && w != x ==> s.sagas[w].v != s.sagas[x].v
  }

  /** Every point is of a version that exists. */
  ghost predicate PointsKnown(s: State) {
    forall c :: c in s.points ==> s.points[c].version in s.db.versions
  }

  ghost predicate Inv(k: Setting, s: State) {
    && PointsKnown(s)
    && ChunksKeyed(k.chunks, k.home) && PointsKeyed(s.points, k.home)
    && Consistent(s.db, k.chunks, s.points, k.embedding)
    && AllHold(k, s) && OneCallPerVersion(s)
  }

  // ---- One step is about one version -----------------------------------------------------

  /** The version an event is about. */
  function VersionOf(s: State, e: Event): VersionId {
    match e
    case Claims(_, _, v) => v
    case Retries(_, _, v) => v
    case _ => if e.w in s.sagas then s.sagas[e.w].v else 0
  }

  lemma ExpectedIsBatch(k: Setting, db: Tables, d: DocumentId, v: VersionId, i: nat, j: nat)
    requires ChunksKeyed(k.chunks, k.home) && d in db.documents && i <= j <= |Expected(k, db, d, v)|
    ensures BatchOf(Expected(k, db, d, v)[i..j], k.home, v)
  {}

  /** The next batch arrives whole. */
  lemma UpsertKeeps(k: Setting, points: Points, all: seq<VectorPoint>, v: VersionId, i: nat, j: nat)
    requires PointsKeyed(points, k.home) && i <= j <= |all| && BatchOf(all[i..j], k.home, v)
    requires PointsOf(points, v) == Written(map[], all[..i])
    ensures PointsKeyed(Written(points, all[i..j]), k.home)
    ensures PointsElsewhere(Written(points, all[i..j]), v) == PointsElsewhere(points, v)
    ensures PointsOf(Written(points, all[i..j]), v) == Written(map[], all[..j])
  {
    WrittenTouchesOnlyItsVersion(points, all[i..j], k.home, v);
    WrittenInBatches(map[], all[..i], all[i..j]);
    assert all[..i] + all[i..j] == all[..j];
  }

  lemma StepKeepsOtherRows(k: Setting, s: State, e: Event, s': State)
    requires Step(k, s, e, s')
    ensures SameBut(s.db, s'.db, VersionOf(s, e))
  {}

  /** Writing the next points of a call's version. */
  lemma Upserted(k: Setting, s: State, saga: Saga, to: nat)
    requires ChunksKeyed(k.chunks, k.home) && PointsKeyed(s.points, k.home) && Holds(k, s.db, s.points, saga)
    requires saga.phase.Writing? && saga.phase.done < to <= |Expected(k, s.db, saga.d, saga.v)|
    ensures var all := Expected(k, s.db, saga.d, saga.v);
            var after := Written(s.points, all[saga.phase.done..to]);
            && PointsKeyed(after, k.home) && PointsElsewhere(after, saga.v) == PointsElsewhere(s.points, saga.v)
            && PointsOf(after, saga.v) == Written(map[], all[..to])
  {
    ExpectedIsBatch(k, s.db, saga.d, saga.v, saga.phase.done, to);
    UpsertKeeps(k, s.points, Expected(k, s.db, saga.d, saga.v), saga.v, saga.phase.done, to);
  }

  lemma PartlyUpserted(k: Setting, s: State, saga: Saga, to: nat, after: Points)
    requires ChunksKeyed(k.chunks, k.home) && PointsKeyed(s.points, k.home) && saga.d in s.db.documents
    requires saga.phase.Writing? && saga.phase.done < to <= |Expected(k, s.db, saga.d, saga.v)|
    requires PartlyWritten(s.points, after, Expected(k, s.db, saga.d, saga.v)[saga.phase.done..to])
    ensures PointsKeyed(after, k.home) && PointsElsewhere(after, saga.v) == PointsElsewhere(s.points, saga.v)
  {
    ExpectedIsBatch(k, s.db, saga.d, saga.v, saga.phase.done, to);
    PartialWriteTouchesOnlyItsVersion(s.points, after, Expected(k, s.db, saga.d, saga.v)[saga.phase.done..to], k.home, saga.v);
  }

  lemma StepKeepsOtherPoints(k: Setting, s: State, e: Event, s': State)
    requires ChunksKeyed(k.chunks, k.home) && PointsKeyed(s.points, k.home) && AllHold(k, s) && Step(k, s, e, s')
    ensures PointsKeyed(s'.points, k.home)
    ensures PointsElsewhere(s'.points, VersionOf(s, e)) == PointsElsewhere(s.points, VersionOf(s, e))
  {
    if e.Upserts? {
      Upserted(k, s, s.sagas[e.w], e.to);
    } else if e.UpsertRaises? {
      PartlyUpserted(k, s, s.sagas[e.w], e.to, s'.points);
    }
  }

  /** The calls on other versions hold what they held. */
  lemma OthersHold(k: Setting, s: State, s': State, v: VersionId, saga: Saga)
    requires Holds(k, s.db, s.points, saga) && saga.v != v
    requires SameBut(s.db, s'.db, v) && PointsElsewhere(s'.points, v) == PointsElsewhere(s.points, v)
    ensures Holds(k, s'.db, s'.points, saga)
  {
    PointsOfElsewhere(s.points, s'.points, saga.v, v);
  }

  /** A call that begins. */
  lemma BegunHolds(k: Setting, s: State, e: Event, s': State)
    requires (e.Claims? || e.Retries?) && Step(k, s, e, s') && e.v in s.db.versions && s.db.versions[e.v].document in s.db.documents
    requires VersionMatches(s.db, k.chunks, s.points, k.embedding, e.v)
    ensures e.w in s'.sagas && s'.sagas[e.w].v == e.v && Holds(k, s'.db, s'.points, s'.sagas[e.w])
  {}

  /** A call that goes on. */
  lemma MovedHolds(k: Setting, s: State, e: Event, s': State)
    requires !e.Claims? && !e.Retries? && Step(k, s, e, s') && e.w in s'.sagas && Holds(k, s.db, s.points, s.sagas[e.w])
    requires e.Upserts? ==>
      PointsOf(s'.points, s.sagas[e.w].v) == Written(map[], Expected(k, s.db, s.sagas[e.w].d, s.sagas[e.w].v)[..e.to])
    ensures s'.sagas[e.w].v == s.sagas[e.w].v && Holds(k, s'.db, s'.points, s'.sagas[e.w])
  {}

  /** The call that moved holds what its new phase asks for. */
  lemma MoverHolds(k: Setting, s: State, e: Event, s': State)
    requires Inv(k, s) && Step(k, s, e, s') && e.w in s'.sagas
    ensures Holds(k, s'.db, s'.points, s'.sagas[e.w]) && s'.sagas[e.w].v == VersionOf(s, e)
  {
    if e.Claims? || e.Retries? {
      assert VersionMatches(s.db, k.chunks, s.points, k.embedding, e.v);
      BegunHolds(k, s, e, s');
    } else {
      assert Holds(k, s.db, s.points, s.sagas[e.w]);
      if e.Upserts? {
        Upserted(k, s, s.sagas[e.w], e.to);
      }
      MovedHolds(k, s, e, s');
    }
  }

  /** The version the step was about matches its new status. */
  lemma VersionStillMatches(k: Setting, s: State, e: Event, s': State)
    requires Inv(k, s) && Step(k, s, e, s')
    ensures VersionOf(s, e) in s'.db.versions && s'.db.versions[VersionOf(s, e)].document in s'.db.documents
    ensures VersionMatches(s'.db, k.chunks, s'.points, k.embedding, VersionOf(s, e))
  {
    match e
    case Claims(w, d, v) => assert VersionMatches(s.db, k.chunks, s.points, k.embedding, v);
    case Retries(w, d, v) => assert VersionMatches(s.db, k.chunks, s.points, k.embedding, v);
    case Completes(w) =>
      var saga := s.sagas[w];
      assert Holds(k, s.db, s.points, saga);
      var all := Expected(k, s.db, saga.d, saga.v);
      assert all[..|all|] == all;
    case _ =>
      assert Holds(k, s.db, s.points, s.sagas[e.w]);
      assert VersionMatches(s.db, k.chunks, s.points, k.embedding, s.sagas[e.w].v);
  }

  /** Only the call of the event appears, moves or ends, and no two calls meet on a version. */
  lemma StepKeepsCallsApart(k: Setting, s: State, e: Event, s': State)
    requires Inv(k, s) && Step(k, s, e, s')
    ensures forall x :: x in s'.sagas && x != e.w ==> x in s.sagas && s'.sagas[x] == s.sagas[x] && s.sagas[x].v != VersionOf(s, e)
  {
    forall x | x in s'.sagas && x != e.w
      ensures x in s.sagas && s'.sagas[x] == s.sagas[x] && s.sagas[x].v != VersionOf(s, e)
    {
      assert x in s.sagas;
      assert Holds(k, s.db, s.points, s.sagas[x]);
    }
  }

  lemma PointsStayKnown(s: State, s': State, v: VersionId)
    requires PointsKnown(s) && SameBut(s.db, s'.db, v) && v in s'.db.versions
    requires PointsElsewhere(s'.points, v) == PointsElsewhere(s.points, v)
    ensures PointsKnown(s')
  {
    forall c | c in s'.points && s'.points[c].version != v ensures s'.points[c].version in s'.db.versions {
      assert c in PointsElsewhere(s'.points, v) && c in PointsElsewhere(s.points, v);
    }
  }

  lemma StepKeepsInv(k: Setting, s: State, e: Event, s': State)
    requires Inv(k, s) && Step(k, s, e, s')
    ensures Inv(k, s')
  {
    StepKeepsOtherRows(k, s, e, s');
    StepKeepsOtherPoints(k, s, e, s');
    VersionStillMatches(k, s, e, s');
    StepKeepsCallsApart(k, s, e, s');
    PointsStayKnown(s, s', VersionOf(s, e));
    OneVersionAtATime(s.db, s'.db, k.chunks, s.points, s'.points, k.embedding, VersionOf(s, e));
    forall x | x in s'.sagas ensures Holds(k, s'.db, s'.points, s'.sagas[x]) && (x == e.w ==> s'.sagas[x].v == VersionOf(s, e)) {
      if x == e.w {
        MoverHolds(k, s, e, s');
      } else {
        OthersHold(k, s, s', VersionOf(s, e), s.sagas[x]);
      }
    }
  }

  // ---- New documents and versions -------------------------------------------------------------

  /** A step of a call, or a creation: a document, or a version with the chunks the setting lists for it. */
  datatype Move =
    | Call(e: Event)
    | NewDocument(d: DocumentId, base: BaseId, file: FileId)
    | NewVersion(d: DocumentId, v: VersionId, number: nat, fingerprint: nat)

  ghost predicate Moves(k: Setting, s: State, m: Move, s': State) {
    match m
    case Call(e) => Step(k, s, e, s')
    case NewDocument(d, base, file) =>
      && d !in s.db.documents
      && s' == s.(db := s.db.(documents := s.db.documents[d := DocumentRow(base, file, None)]))
    case NewVersion(d, v, number, fingerprint) =>
      && Insertable(s.db, d, v, number, fingerprint)
      && s' == s.(db := Inserted(s.db, d, v, number, fingerprint))
  }

  /** Old rows and documents are there as they were, and new versions are pending. */
  ghost predicate Grows(db: Tables, db': Tables) {
    && (forall d :: d in db.documents ==> d in db'.documents && db'.documents[d] == db.documents[d])
    && (forall v :: v in db.versions ==> v in db'.versions && db'.versions[v] == db.versions[v])
    && (forall v :: v in db'.versions && v !in db.versions ==> db'.versions[v].status == Pending && db'.versions[v].document in db'.documents)
  }

  lemma NewVersionHasNoPoints(s: State, v: VersionId)
    requires PointsKnown(s) && v !in s.db.versions
    ensures PointsOf(s.points, v) == map[]
  {}

  lemma GrowthKeepsInv(k: Setting, s: State, s': State)
    requires Inv(k, s) && Grows(s.db, s'.db) && s'.points == s.points && s'.sagas == s.sagas
    ensures Inv(k, s')
  {
    forall v | v in s'.db.versions
      ensures s'.db.versions[v].document in s'.db.documents && VersionMatches(s'.db, k.chunks, s'.points, k.embedding, v)
    {
      if v in s.db.versions {
        assert VersionMatches(s.db, k.chunks, s.points, k.embedding, v);
      } else {
        NewVersionHasNoPoints(s, v);
      }
    }
    forall w | w in s'.sagas ensures Holds(k, s'.db, s'.points, s'.sagas[w]) {
      assert Holds(k, s.db, s.points, s.sagas[w]);
    }
  }

  lemma MoveKeepsInv(k: Setting, s: State, m: Move, s': State)
    requires Inv(k, s) && Moves(k, s, m, s')
    ensures Inv(k, s')
  {
    if m.Call? {
      StepKeepsInv(k, s, m.e, s');
    } else {
      GrowthKeepsInv(k, s, s');
    }
  }

  // ---- Every interleaving ---------------------------------------------------------------------

  const START := State(Tables(map[], map[]), map[], map[])

  /** `states[i]` is the state before move `i`, from empty tables and an empty store on. */
  ghost predicate Run(k: Setting, states: seq<State>, moves: seq<Move>) {
    && |states| == |moves| + 1 && states[0] == START
    && (forall i {:trigger Moves(k, states[i], moves[i], states[i + 1])} :: 0 <= i < |moves| ==> Moves(k, states[i], moves[i], states[i + 1]))
  }

  lemma MoveAt(k: Setting, states: seq<State>, moves: seq<Move>, i: nat)
    requires Run(k, states, moves) && i < |moves|
    ensures Moves(k, states[i], moves[i], states[i + 1])
  {}

  /**
   However creations, claims, upserts, deletions, commits and deaths of calls interleave: indexed
   versions have exactly their expected points, pending and failed ones have none, and points of
   an unfinished version are never taken for those of another.
   */
  lemma {:induction false} StoresAgreeAfterEveryStep(k: Setting, states: seq<State>, moves: seq<Move>, n: nat)
    requires ChunksKeyed(k.chunks, k.home) && Run(k, states, moves) && n <= |moves|
    ensures Inv(k, states[n]) && Consistent(states[n].db, k.chunks, states[n].points, k.embedding)
  {
    if n == 0 {
    } else {
      StoresAgreeAfterEveryStep(k, states, moves, n - 1);
      MoveAt(k, states, moves, n - 1);
      MoveKeepsInv(k, states[n - 1], moves[n - 1], states[n]);
    }
  }

  /** In any such run a call that is on finds its next guarded update: nobody else has moved its version. */
  lemma ClosingCommitsNeverMiss(k: Setting, states: seq<State>, moves: seq<Move>, n: nat, w: CallId)
    requires ChunksKeyed(k.chunks, k.home) && Run(k, states, moves) && n <= |moves| && w in states[n].sagas
    ensures var s, saga := states[n], states[n].sagas[w];
            match saga.phase
            case Cleaning => true
            case Requeueing => Requeued(s.db, saga.d, saga.v).Some?
            case _ =>
              Completed(s.db, saga.d, saga.v).Some? && forall c, r :: Finished(s.db, saga.d, saga.v, TargetStatus(c), Some(r)).Some?
  {
    StoresAgreeAfterEveryStep(k, states, moves, n);
    assert Holds(k, states[n].db, states[n].points, states[n].sagas[w]);
  }

  // ---- Overlapping retries -----------------------------------------------------------------------

  /** Why a version is retried by one call at a time: a clean-up that lags behind another retry empties a version already indexed. */
  lemma LateCleanUpDisagrees(k: Setting, s: State, w: CallId, s': State)
    requires On(s, w) && s.sagas[w].phase == Cleaning && s.sagas[w].v in s.db.versions
    requires s.db.versions[s.sagas[w].v].document in s.db.documents && s.db.versions[s.sagas[w].v].status == Indexed
    requires Consistent(s.db, k.chunks, s.points, k.embedding) && PointsOf(s.points, s.sagas[w].v) != map[]
    requires Step(k, s, Deletes(w), s')
    ensures !Consistent(s'.db, k.chunks, s'.points, k.embedding)
  {
    var v := s.sagas[w].v;
    assert VersionMatches(s.db, k.chunks, s.points, k.embedding, v);
    assert PointsOf(s'.points, v) == map[];
    assert !VersionMatches(s'.db, k.chunks, s'.points, k.embedding, v);
  }

  /** A call whose version was emptied writes all of it and completes. */
  lemma IndexedAgain(k: Setting, s: State, c: CallId, d: DocumentId, v: VersionId) returns (s1: State, s2: State, s3: State)
    requires ChunksKeyed(k.chunks, k.home) && PointsKeyed(s.points, k.home) && PointsOf(s.points, v) == map[]
    requires c !in s.sagas && d in s.db.documents && Claimed(s.db, d, v).Some? && ListChunks(k.chunks, v) != []
    ensures Step(k, s, Claims(c, d, v), s1) && Step(k, s1, Upserts(c, |ListChunks(k.chunks, v)|), s2) && Step(k, s2, Completes(c), s3)
    ensures s3.sagas == s.sagas && SameBut(s.db, s3.db, v) && PointsElsewhere(s3.points, v) == PointsElsewhere(s.points, v)
    ensures v in s3.db.versions && s3.db.versions[v].document == d && s3.db.versions[v].status == Indexed
    ensures PointsOf(s3.points, v) == Written(map[], Expected(k, s.db, d, v)) != map[]
  {
    var all := Expected(k, s.db, d, v);
    s1 := State(Claimed(s.db, d, v).value, s.points, s.sagas[c := Saga(d, v, Writing(0))]);
    s2 := At(s1, c, Writing(|all|)).(points := Written(s.points, all[0..|all|]));
    s3 := Over(s2, c).(db := Completed(s1.db, d, v).value);
    assert Expected(k, s1.db, d, v) == all;
    ExpectedIsBatch(k, s.db, d, v, 0, |all|);
    assert all[..0] == [] && all[0..|all|] == all && all[..|all|] == all;
    UpsertKeeps(k, s.points, all, v, 0, |all|);
    assert all[|all| - 1].chunkId in Written(map[], all);
    assert s3.sagas == s.sagas;
  }

  /** Two retries of a version left for clean-up begin; the second one cleans and requeues it. */
  lemma SecondRetryGoesFirst(k: Setting, s: State, d: DocumentId, v: VersionId, a: CallId, b: CallId)
    returns (both: State, cleaned: State, requeued: State)
    requires v in s.db.versions && s.db.versions[v].document == d && d in s.db.documents && s.db.versions[v].status == CleanupRequired
    requires a !in s.sagas && b !in s.sagas && a != b && PointsKeyed(s.points, k.home)
    ensures both == Retrying(Retrying(s, a, d, v), b, d, v)
    ensures Step(k, both, Deletes(b), cleaned) && Step(k, cleaned, Requeues(b), requeued)
    ensures requeued == State(Requeued(s.db, d, v).value, PointsElsewhere(s.points, v), s.sagas[a := Saga(d, v, Cleaning)])
    ensures PointsKeyed(requeued.points, k.home) && PointsOf(requeued.points, v) == map[]
    ensures Claimed(requeued.db, d, v).Some? && SameBut(s.db, requeued.db, v) && PointsElsewhere(requeued.points, v) == PointsElsewhere(s.points, v)
  {
    both := Retrying(Retrying(s, a, d, v), b, d, v);
    cleaned := At(both.(points := PointsElsewhere(both.points, v)), b, Requeueing);
    requeued := Over(cleaned, b).(db := Requeued(s.db, d, v).value);
    assert requeued.sagas == s.sagas[a := Saga(d, v, Cleaning)];
  }

  /** The version is then indexed again, and the stores agree. */
  lemma ThenIndexed(k: Setting, s: State, requeued: State, d: DocumentId, v: VersionId, c: CallId)
    returns (s1: State, s2: State, indexed: State)
    requires ChunksKeyed(k.chunks, k.home) && Consistent(s.db, k.chunks, s.points, k.embedding)
    requires PointsKeyed(requeued.points, k.home) && PointsOf(requeued.points, v) == map[] && c !in requeued.sagas
    requires d in requeued.db.documents && Claimed(requeued.db, d, v).Some? && ListChunks(k.chunks, v) != []
    requires SameBut(s.db, requeued.db, v) && PointsElsewhere(requeued.points, v) == PointsElsewhere(s.points, v)
    ensures Step(k, requeued, Claims(c, d, v), s1) && Step(k, s1, Upserts(c, |ListChunks(k.chunks, v)|), s2) && Step(k, s2, Completes(c), indexed)
    ensures Consistent(indexed.db, k.chunks, indexed.points, k.embedding) && indexed.sagas == requeued.sagas
    ensures d in indexed.db.documents && v in indexed.db.versions && indexed.db.versions[v].document == d
    ensures indexed.db.versions[v].status == Indexed && PointsOf(indexed.points, v) != map[]
  {
    s1, s2, indexed := IndexedAgain(k, requeued, c, d, v);
    OneVersionAtATime(s.db, indexed.db, k.chunks, s.points, indexed.points, k.embedding, v);
  }

  /**
   What two overlapping retries of one version can do. Both begin at a version left for clean-up; the
   second cleans, requeues, and the version is indexed again; then the first one's clean-up arrives.
   */
  lemma OverlappingRetriesDisagree(k: Setting, s: State, d: DocumentId, v: VersionId, a: CallId, b: CallId, c: CallId)
    returns (both: State, cleaned: State, requeued: State, s1: State, s2: State, indexed: State, emptied: State)
    requires Inv(k, s) && v in s.db.versions && s.db.versions[v].document == d && s.db.versions[v].status == CleanupRequired
    requires (forall x :: x in s.sagas ==> s.sagas[x].v != v) && ListChunks(k.chunks, v) != []
    requires a !in s.sagas && b !in s.sagas && c !in s.sagas && a != b && a != c && b != c
    ensures both == Retrying(Retrying(s, a, d, v), b, d, v)
    ensures Step(k, both, Deletes(b), cleaned) && Step(k, cleaned, Requeues(b), requeued)
    ensures Step(k, requeued, Claims(c, d, v), s1)
    ensures Step(k, s1, Upserts(c, |ListChunks(k.chunks, v)|), s2) && Step(k, s2, Completes(c), indexed)
    ensures Consistent(indexed.db, k.chunks, indexed.points, k.embedding) && Step(k, indexed, Deletes(a), emptied)
    ensures !Consistent(emptied.db, k.chunks, emptied.points, k.embedding)
  {
    both, cleaned, requeued := SecondRetryGoesFirst(k, s, d, v, a, b);
    s1, s2, indexed := ThenIndexed(k, s, requeued, d, v, c);
    emptied := At(indexed.(points := PointsElsewhere(indexed.points, v)), a, Requeueing);
    LateCleanUpDisagrees(k, indexed, a, emptied);
  }
}
