/**
 Any number of workers share the version table. A worker is one call of the
 service: it creates a version (a read of the highest number, then an insert
 that the unique keys may refuse), or it claims a pending version and later
 completes it, fails it, or disappears. Every run is a sequence of such steps.
 */
module VersionProtocol {
  import opened Prelude
  import opened KnowledgeTables

  type WorkerId = nat

  datatype Step =
    | AddDocument(d: DocumentId, base: BaseId, file: FileId)
    | ReadNextNumber(w: WorkerId, d: DocumentId)
    | InsertVersion(w: WorkerId, v: VersionId, fingerprint: nat)
    | Claim(w: WorkerId, d: DocumentId, v: VersionId)
    | Complete(w: WorkerId)
    | Fail(w: WorkerId, cleanupRequired: bool, reason: FailureReason)
    | Abandon(w: WorkerId)
    | Requeue(d: DocumentId, v: VersionId)

  /** `drafts` holds numbers read but not yet inserted, `owners` the claims in flight. */
  datatype System = System(
    db: Tables,
    drafts: map<WorkerId, (DocumentId, nat)>,
    owners: map<WorkerId, (DocumentId, VersionId)>)

  const INITIAL := System(Tables(map[], map[]), map[], map[])

  /** What one step does; a refused step leaves the tables as they were. */
  function After(s: System, step: Step): System {
    match step
    case AddDocument(d, base, file) =>
      if d in s.db.documents then s
      else s.(db := s.db.(documents := s.db.documents[d := DocumentRow(base, file, None)]))
    case ReadNextNumber(w, d) =>
      if d !in s.db.documents then s
      else s.(drafts := s.drafts[w := (d, NextNumber(s.db, d))])
    case InsertVersion(w, v, fingerprint) =>
      if w !in s.drafts then s
      else
        var (d, number) := s.drafts[w];
        var rest := s.(drafts := s.drafts - {w});
        if Insertable(s.db, d, v, number, fingerprint)
        then rest.(db := Inserted(s.db, d, v, number, fingerprint))
        else rest
    case Claim(w, d, v) =>
      if w in s.owners || Claimed(s.db, d, v).None? then s
      else s.(db := Claimed(s.db, d, v).value, owners := s.owners[w := (d, v)])
    case Complete(w) =>
      if w !in s.owners || Completed(s.db, s.owners[w].0, s.owners[w].1).None? then s
      else s.(db := Completed(s.db, s.owners[w].0, s.owners[w].1).value, owners := s.owners - {w})
    case Fail(w, cleanupRequired, reason) =>
      if w !in s.owners then s
      else
        var (d, v) := s.owners[w];
        var rest := s.(owners := s.owners - {w});
        var failed := Finished(s.db, d, v, TargetStatus(cleanupRequired), Some(reason));
        if failed.Some? then rest.(db := failed.value) else rest
    case Abandon(w) =>
      s.(drafts := s.drafts - {w}, owners := s.owners - {w})
    case Requeue(d, v) =>
      if Requeued(s.db, d, v).None? then s else s.(db := Requeued(s.db, d, v).value)
  }

  function Run(s: System, steps: seq<Step>): System
    decreases |steps|
  {
    if steps == [] then s else Run(After(s, steps[0]), steps[1..])
  }

  // ---- Invariant -------------------------------------------------------

  ghost predicate RowsWellFormed(db: Tables) {
    forall v :: v in db.versions ==>
      && db.versions[v].document in db.documents
      && db.versions[v].number >= 1
      && (db.versions[v].failure.Some? <==> db.versions[v].status in {Failed, CleanupRequired})
  }

  ghost predicate UniqueKeys(db: Tables) {
    forall u, v :: u in db.versions && v in db.versions && u != v
                   && db.versions[u].document == db.versions[v].document ==>
      db.versions[u].number != db.versions[v].number && db.versions[u].fingerprint != db.versions[v].fingerprint
  }

  /** Some version of document d carries this number; zero always counts as used. */
  ghost predicate NumberUsed(db: Tables, d: DocumentId, number: nat) {
    number == 0 || exists v :: v in db.versions && db.versions[v].document == d && db.versions[v].number == number
  }

  ghost predicate NoGaps(db: Tables) {
    forall v, n: nat {:trigger v in db.versions, NumberUsed(db, db.versions[v].document, n)} ::
      v in db.versions && n <= db.versions[v].number ==> NumberUsed(db, db.versions[v].document, n)
  }

  ghost predicate IsHighestIndexed(db: Tables, d: DocumentId, v: VersionId) {
    && v in db.versions
    && db.versions[v].document == d
    && db.versions[v].status == Indexed
    && forall u :: u in db.versions && db.versions[u].document == d && db.versions[u].status == Indexed ==>
         db.versions[u].number <= db.versions[v].number
  }

  ghost predicate ActiveIsHighest(db: Tables, d: DocumentId)
    requires d in db.documents
  {
    match db.documents[d].active
    case None => forall u :: u in db.versions && db.versions[u].document == d ==> db.versions[u].status != Indexed
    case Some(a) => IsHighestIndexed(db, d, a)
  }

  ghost predicate ActivesInv(db: Tables) {
    forall d :: d in db.documents ==> ActiveIsHighest(db, d)
  }

  ghost predicate DbInv(db: Tables) {
    && RowsWellFormed(db)
    && UniqueKeys(db)
    && NoGaps(db)
    && ActivesInv(db)
  }

  ghost predicate DraftsInv(s: System) {
    forall w :: w in s.drafts ==>
      && s.drafts[w].0 in s.db.documents
      && s.drafts[w].1 >= 1
      && NumberUsed(s.db, s.drafts[w].0, s.drafts[w].1 - 1)
  }

  ghost predicate OwnsProcessing(db: Tables, claim: (DocumentId, VersionId)) {
    claim.1 in db.versions && db.versions[claim.1].document == claim.0 && db.versions[claim.1].status == Processing
  }

  ghost predicate OwnersInv(s: System) {
    && (forall w :: w in s.owners ==> OwnsProcessing(s.db, s.owners[w]))
    && (forall w, x :: w in s.owners && x in s.owners && w != x ==> s.owners[w].1 != s.owners[x].1)
  }

  ghost predicate Inv(s: System) {
    DbInv(s.db) && DraftsInv(s) && OwnersInv(s)
  }

  // ---- Preservation ----------------------------------------------------

  /** The same rows with the same document, number and fingerprint. */
  ghost predicate SameKeys(db: Tables, db': Tables) {
    && db'.versions.Keys == db.versions.Keys
    && forall u :: u in db.versions ==>
         && db'.versions[u].document == db.versions[u].document
         && db'.versions[u].number == db.versions[u].number
         && db'.versions[u].fingerprint == db.versions[u].fingerprint
  }

  /** Only version v has changed, and only in status and failure. */
  ghost predicate OnlyStatusOf(db: Tables, db': Tables, v: VersionId) {
    && SameKeys(db, db')
    && v in db.versions
    && forall u :: u in db.versions && u != v ==> db'.versions[u] == db.versions[u]
  }

  ghost predicate KeepsUsedNumbers(db: Tables, db': Tables) {
    forall d, n: nat {:trigger NumberUsed(db', d, n)} :: NumberUsed(db, d, n) ==> NumberUsed(db', d, n)
  }

  lemma SameKeysKeepUsedNumbers(db: Tables, db': Tables)
    requires SameKeys(db, db')
    ensures KeepsUsedNumbers(db, db')
  {}

  lemma SameKeysKeepNumbering(db: Tables, db': Tables)
    requires SameKeys(db, db') && UniqueKeys(db) && NoGaps(db)
    ensures UniqueKeys(db') && NoGaps(db')
  {
    SameKeysKeepUsedNumbers(db, db');
  }

  lemma UnindexedChangeKeepsActives(db: Tables, db': Tables, v: VersionId)
    requires ActivesInv(db) && OnlyStatusOf(db, db', v) && db'.documents == db.documents
    requires db.versions[v].status != Indexed && db'.versions[v].status != Indexed
    ensures ActivesInv(db')
  {}

  lemma UnindexedChangeKeepsDb(db: Tables, db': Tables, v: VersionId)
    requires DbInv(db) && OnlyStatusOf(db, db', v) && db'.documents == db.documents
    requires db.versions[v].status != Indexed && db'.versions[v].status != Indexed
    requires db'.versions[v].failure.Some? <==> db'.versions[v].status in {Failed, CleanupRequired}
    ensures DbInv(db')
  {
    SameKeysKeepNumbering(db, db');
    UnindexedChangeKeepsActives(db, db', v);
  }

  /** Promotion compares numbers only, yet it always leaves the highest indexed version active. */
  lemma CompletionKeepsActiveHighest(db: Tables, d: DocumentId, v: VersionId, e: DocumentId)
    requires RowsWellFormed(db) && UniqueKeys(db) && e in db.documents && ActiveIsHighest(db, e)
    requires Completed(db, d, v).Some?
    ensures e in Completed(db, d, v).value.documents && ActiveIsHighest(Completed(db, d, v).value, e)
  {
    var db' := Completed(db, d, v).value;
    assert db'.versions[v] == db.versions[v].(status := Indexed, failure := None);
    if e == d {
      match db.documents[d].active
      case None =>
        assert IsHighestIndexed(db', d, v);
      case Some(a) =>
        assert a != v && db.versions[a].number != db.versions[v].number;
        assert IsHighestIndexed(db', d, if db.versions[a].number < db.versions[v].number then v else a);
    }
  }

  lemma CompletionChangesOneRow(db: Tables, d: DocumentId, v: VersionId)
    requires Completed(db, d, v).Some?
    ensures OnlyStatusOf(db, Completed(db, d, v).value, v)
    ensures Completed(db, d, v).value.documents.Keys == db.documents.Keys
  {}

  lemma CompletionKeepsRows(db: Tables, d: DocumentId, v: VersionId)
    requires RowsWellFormed(db) && Completed(db, d, v).Some?
    ensures RowsWellFormed(Completed(db, d, v).value)
  {}

  lemma CompletionKeepsActives(db: Tables, d: DocumentId, v: VersionId, db': Tables)
    requires RowsWellFormed(db) && UniqueKeys(db) && ActivesInv(db) && Completed(db, d, v) == Some(db')
    requires db'.documents.Keys == db.documents.Keys
    ensures ActivesInv(db')
  {
    forall e | e in db'.documents ensures ActiveIsHighest(db', e) {
      assert ActiveIsHighest(db, e);
      CompletionKeepsActiveHighest(db, d, v, e);
    }
  }

  lemma CompletionKeepsDb(db: Tables, d: DocumentId, v: VersionId)
    requires DbInv(db) && Completed(db, d, v).Some?
    ensures DbInv(Completed(db, d, v).value)
  {
    CompletionChangesOneRow(db, d, v);
    SameKeysKeepNumbering(db, Completed(db, d, v).value);
    CompletionKeepsRows(db, d, v);
    CompletionKeepsActives(db, d, v, Completed(db, d, v).value);
  }

  lemma InsertKeepsUsedNumbers(db: Tables, d: DocumentId, v: VersionId, number: nat, fingerprint: nat)
    requires Insertable(db, d, v, number, fingerprint)
    ensures KeepsUsedNumbers(db, Inserted(db, d, v, number, fingerprint))
  {
    var db' := Inserted(db, d, v, number, fingerprint);
    forall c, n: nat | NumberUsed(db, c, n) ensures NumberUsed(db', c, n) {
      if n != 0 {
        var u :| u in db.versions && db.versions[u].document == c && db.versions[u].number == n;
        assert u != v && db'.versions[u] == db.versions[u];
      }
    }
  }

  /** A stale number can only be inserted when it is still exactly one past the highest. */
  lemma InsertKeepsDb(db: Tables, d: DocumentId, v: VersionId, number: nat, fingerprint: nat)
    requires DbInv(db) && Insertable(db, d, v, number, fingerprint)
    requires number >= 1 && NumberUsed(db, d, number - 1)
    ensures DbInv(Inserted(db, d, v, number, fingerprint))
  {
    var db' := Inserted(db, d, v, number, fingerprint);
    InsertKeepsUsedNumbers(db, d, v, number, fingerprint);
    forall u, n: nat | u in db'.versions && n <= db'.versions[u].number
      ensures NumberUsed(db', db'.versions[u].document, n)
    {
      if u == v && n == number {
        assert db'.versions[v].number == n;
      } else if u == v {
        if number - 1 != 0 {
          var p :| p in db.versions && db.versions[p].document == d && db.versions[p].number == number - 1;
          assert NumberUsed(db, db.versions[p].document, n);
        } else {
          assert NumberUsed(db, d, n);
        }
      } else {
        assert NumberUsed(db, db.versions[u].document, n);
      }
    }
    forall e | e in db'.documents ensures ActiveIsHighest(db', e) {
      assert ActiveIsHighest(db, e);
    }
  }

  lemma NextNumberFollowsAUsedOne(db: Tables, d: DocumentId)
    ensures NumberUsed(db, d, NextNumber(db, d) - 1)
  {}

  lemma DraftsSurvive(s: System, db': Tables)
    requires DraftsInv(s) && KeepsUsedNumbers(s.db, db') && s.db.documents.Keys <= db'.documents.Keys
    ensures DraftsInv(s.(db := db'))
  {}

  /** Changing a version nobody owns disturbs no owner. */
  lemma OwnersSurvive(s: System, db': Tables, v: VersionId)
    requires OwnersInv(s) && OnlyStatusOf(s.db, db', v)
    requires s.db.versions[v].status != Processing
    ensures OwnersInv(s.(db := db'))
    ensures forall w :: w in s.owners ==> s.owners[w].1 != v
  {}

  /** The owner leaves together with its version; the other claims are elsewhere. */
  lemma FinishKeepsInv(s: System, w: WorkerId, db': Tables)
    requires Inv(s) && w in s.owners && OnlyStatusOf(s.db, db', s.owners[w].1)
    requires DbInv(db') && db'.documents.Keys == s.db.documents.Keys
    ensures Inv(s.(db := db', owners := s.owners - {w}))
  {
    var s' := s.(db := db', owners := s.owners - {w});
    SameKeysKeepUsedNumbers(s.db, db');
    DraftsSurvive(s, db');
    assert DraftsInv(s');
    forall x | x in s'.owners ensures OwnsProcessing(db', s'.owners[x]) {
      assert s.owners[x].1 != s.owners[w].1 && OwnsProcessing(s.db, s.owners[x]);
    }
  }

  lemma ClaimKeepsOwners(s: System, w: WorkerId, d: DocumentId, v: VersionId, db': Tables)
    requires OwnersInv(s) && w !in s.owners && Claimed(s.db, d, v) == Some(db')
    ensures OnlyStatusOf(s.db, db', v)
    ensures OwnersInv(s.(db := db', owners := s.owners[w := (d, v)]))
  {}

  lemma ClaimKeepsInv(s: System, w: WorkerId, d: DocumentId, v: VersionId)
    requires Inv(s)
    ensures Inv(After(s, Claim(w, d, v)))
  {
    if w !in s.owners && Claimed(s.db, d, v).Some? {
      var db' := Claimed(s.db, d, v).value;
      ClaimKeepsOwners(s, w, d, v, db');
      UnindexedChangeKeepsDb(s.db, db', v);
      SameKeysKeepUsedNumbers(s.db, db');
      DraftsSurvive(s, db');
    }
  }

  lemma CompleteKeepsInv(s: System, w: WorkerId)
    requires Inv(s)
    ensures Inv(After(s, Complete(w)))
  {
    if w in s.owners && Completed(s.db, s.owners[w].0, s.owners[w].1).Some? {
      CompletionKeepsDb(s.db, s.owners[w].0, s.owners[w].1);
      CompletionChangesOneRow(s.db, s.owners[w].0, s.owners[w].1);
      FinishKeepsInv(s, w, After(s, Complete(w)).db);
    }
  }

  lemma FailKeepsInv(s: System, w: WorkerId, cleanupRequired: bool, reason: FailureReason)
    requires Inv(s)
    ensures Inv(After(s, Fail(w, cleanupRequired, reason)))
  {
    if w in s.owners {
      var s' := After(s, Fail(w, cleanupRequired, reason));
      assert OwnsProcessing(s.db, s.owners[w]);
      UnindexedChangeKeepsDb(s.db, s'.db, s.owners[w].1);
      FinishKeepsInv(s, w, s'.db);
    }
  }

  lemma RequeueKeepsInv(s: System, d: DocumentId, v: VersionId)
    requires Inv(s)
    ensures Inv(After(s, Requeue(d, v)))
  {
    if Requeued(s.db, d, v).Some? {
      var db' := Requeued(s.db, d, v).value;
      UnindexedChangeKeepsDb(s.db, db', v);
      SameKeysKeepUsedNumbers(s.db, db');
      DraftsSurvive(s, db');
      OwnersSurvive(s, db', v);
    }
  }

  lemma InsertKeepsInv(s: System, w: WorkerId, v: VersionId, fingerprint: nat)
    requires Inv(s)
    ensures Inv(After(s, InsertVersion(w, v, fingerprint)))
  {
    if w in s.drafts {
      var (d, number) := s.drafts[w];
      if Insertable(s.db, d, v, number, fingerprint) {
        var db' := Inserted(s.db, d, v, number, fingerprint);
        InsertKeepsDb(s.db, d, v, number, fingerprint);
        InsertKeepsUsedNumbers(s.db, d, v, number, fingerprint);
        DraftsSurvive(s, db');
        forall x | x in s.owners ensures OwnsProcessing(db', s.owners[x]) {
          assert OwnsProcessing(s.db, s.owners[x]);
        }
      }
    }
  }

  lemma AddDocumentKeepsInv(s: System, d: DocumentId, base: BaseId, file: FileId)
    requires Inv(s)
    ensures Inv(After(s, AddDocument(d, base, file)))
  {
    var s' := After(s, AddDocument(d, base, file));
    if d !in s.db.documents {
      SameKeysKeepNumbering(s.db, s'.db);
      SameKeysKeepUsedNumbers(s.db, s'.db);
      DraftsSurvive(s, s'.db);
      forall e | e in s'.db.documents ensures ActiveIsHighest(s'.db, e) {
        if e != d { assert ActiveIsHighest(s.db, e); }
      }
      forall x | x in s.owners ensures OwnsProcessing(s'.db, s.owners[x]) {
        assert OwnsProcessing(s.db, s.owners[x]);
      }
    }
  }

  lemma StepKeepsInv(s: System, step: Step)
    requires Inv(s)
    ensures Inv(After(s, step))
  {
    match step
    case AddDocument(d, base, file) => AddDocumentKeepsInv(s, d, base, file);
    case ReadNextNumber(w, d) => NextNumberFollowsAUsedOne(s.db, d);
    case InsertVersion(w, v, fingerprint) => InsertKeepsInv(s, w, v, fingerprint);
    case Claim(w, d, v) => ClaimKeepsInv(s, w, d, v);
    case Complete(w) => CompleteKeepsInv(s, w);
    case Fail(w, cleanupRequired, reason) => FailKeepsInv(s, w, cleanupRequired, reason);
    case Abandon(w) =>
    case Requeue(d, v) => RequeueKeepsInv(s, d, v);
  }

  lemma {:induction false} RunKeepsInv(s: System, steps: seq<Step>)
    requires Inv(s)
    ensures Inv(Run(s, steps))
    decreases |steps|
  {
    if steps == [] {
    } else {
      StepKeepsInv(s, steps[0]);
      RunKeepsInv(After(s, steps[0]), steps[1..]);
    }
  }

  // ---- Safety over whole runs ------------------------------------------

  function ActiveNumber(db: Tables, d: DocumentId): nat {
    if d in db.documents && db.documents[d].active.Some? && db.documents[d].active.value in db.versions
    then db.versions[db.documents[d].active.value].number
    else 0
  }

  /** Indexed rows stay exactly as they are, and no active number goes down. */
  ghost predicate Advances(db: Tables, db': Tables) {
    && db.documents.Keys <= db'.documents.Keys
    && (forall v :: v in db.versions && db.versions[v].status == Indexed ==>
          v in db'.versions && db'.versions[v] == db.versions[v])
    && (forall d :: d in db.documents ==> ActiveNumber(db, d) <= ActiveNumber(db', d))
  }

  lemma CompletionAdvances(db: Tables, d: DocumentId, v: VersionId)
    requires ActivesInv(db) && Completed(db, d, v).Some?
    ensures Advances(db, Completed(db, d, v).value)
  {}

  lemma UnindexedChangeAdvances(db: Tables, db': Tables, v: VersionId)
    requires OnlyStatusOf(db, db', v) && db'.documents == db.documents
    requires db.versions[v].status != Indexed
    ensures Advances(db, db')
  {}

  lemma GrowthAdvances(db: Tables, db': Tables)
    requires ActivesInv(db)
    requires db.documents.Keys <= db'.documents.Keys && db.versions.Keys <= db'.versions.Keys
    requires forall d :: d in db.documents ==> db'.documents[d] == db.documents[d]
    requires forall v :: v in db.versions ==> db'.versions[v] == db.versions[v]
    ensures Advances(db, db')
  {}

  lemma StepAdvances(s: System, step: Step)
    requires ActivesInv(s.db) && OwnersInv(s)
    ensures Advances(s.db, After(s, step).db)
  {
    var db := s.db;
    match step
    case AddDocument(d, base, file) => GrowthAdvances(db, After(s, step).db);
    case ReadNextNumber(w, d) =>
    case InsertVersion(w, v, fingerprint) => GrowthAdvances(db, After(s, step).db);
    case Claim(w, d, v) =>
      if w !in s.owners && Claimed(db, d, v).Some? {
        UnindexedChangeAdvances(db, Claimed(db, d, v).value, v);
      }
    case Complete(w) =>
      if w in s.owners && Completed(db, s.owners[w].0, s.owners[w].1).Some? {
        CompletionAdvances(db, s.owners[w].0, s.owners[w].1);
      }
    case Fail(w, cleanupRequired, reason) =>
      if w in s.owners {
        assert OwnsProcessing(db, s.owners[w]);
        UnindexedChangeAdvances(db, After(s, step).db, s.owners[w].1);
      }
    case Abandon(w) =>
    case Requeue(d, v) =>
      if Requeued(db, d, v).Some? {
        UnindexedChangeAdvances(db, Requeued(db, d, v).value, v);
      }
  }

  /** Versions never vanish, nor change document or number. */
  ghost predicate KeepsVersions(db: Tables, db': Tables) {
    forall v :: v in db.versions ==>
      && v in db'.versions
      && db'.versions[v].document == db.versions[v].document
      && db'.versions[v].number == db.versions[v].number
  }

  lemma StepKeepsVersions(s: System, step: Step)
    ensures KeepsVersions(s.db, After(s, step).db)
  {}

  /** indexed is absorbing and the active pointer never goes back, over every run. */
  lemma {:induction false} RunAdvances(s: System, steps: seq<Step>)
    requires Inv(s)
    ensures Advances(s.db, Run(s, steps).db)
    decreases |steps|
  {
    if steps == [] {
    } else {
      StepKeepsInv(s, steps[0]);
      StepAdvances(s, steps[0]);
      RunAdvances(After(s, steps[0]), steps[1..]);
    }
  }

  /** From the empty tables, in every reachable state and for every document. */
  lemma ActivePointsAtHighestIndexed(steps: seq<Step>, d: DocumentId)
    requires d in Run(INITIAL, steps).db.documents
    ensures
      var db := Run(INITIAL, steps).db;
      match db.documents[d].active
      case None => !exists v :: v in db.versions && db.versions[v].document == d && db.versions[v].status == Indexed
      case Some(a) => IsHighestIndexed(db, d, a)
  {
    RunKeepsInv(INITIAL, steps);
    assert ActiveIsHighest(Run(INITIAL, steps).db, d);
  }

  /** A worker that has claimed a version never misses its own closing update. */
  lemma OwnerNeverMisses(steps: seq<Step>, w: WorkerId)
    requires w in Run(INITIAL, steps).owners
    ensures
      var s := Run(INITIAL, steps);
      && Completed(s.db, s.owners[w].0, s.owners[w].1).Some?
      && (forall c, r :: Finished(s.db, s.owners[w].0, s.owners[w].1, TargetStatus(c), Some(r)).Some?)
      && forall x :: x in s.owners && x != w ==> s.owners[x].1 != s.owners[w].1
  {
    RunKeepsInv(INITIAL, steps);
    var s := Run(INITIAL, steps);
    assert OwnsProcessing(s.db, s.owners[w]);
  }

  function OneTo(n: nat): (numbers: set<nat>)
    ensures |numbers| == n
    ensures forall k :: k in numbers <==> 1 <= k <= n
  {
    if n == 0 then {} else OneTo(n - 1) + {n}
  }

  lemma {:induction false} InjectiveImageSize(db: Tables, d: DocumentId, some: set<VersionId>)
    requires UniqueKeys(db) && some <= VersionsOf(db, d)
    ensures |set v | v in some :: db.versions[v].number| == |some|
    decreases |some|
  {
    var image := set v | v in some :: db.versions[v].number;
    if some == {} {
    } else {
      var v :| v in some;
      var rest := some - {v};
      InjectiveImageSize(db, d, rest);
      assert image == (set u | u in rest :: db.versions[u].number) + {db.versions[v].number};
      assert db.versions[v].number !in set u | u in rest :: db.versions[u].number;
    }
  }

  /** The version numbers of a document are exactly 1..n, n being its number of versions. */
  lemma NumbersAreExactlyOneToN(steps: seq<Step>, d: DocumentId)
    ensures
      var db := Run(INITIAL, steps).db;
      NumbersOf(db, d) == OneTo(|VersionsOf(db, d)|)
  {
    RunKeepsInv(INITIAL, steps);
    var db := Run(INITIAL, steps).db;
    var top := MaxOrZero(NumbersOf(db, d));
    var numbers, upTo := NumbersOf(db, d), OneTo(top);
    forall n | n in upTo ensures n in numbers {
      var v :| v in db.versions && db.versions[v].document == d && db.versions[v].number == top;
      assert NumberUsed(db, db.versions[v].document, n);
    }
    assert numbers == upTo;
    InjectiveImageSize(db, d, VersionsOf(db, d));
    assert numbers == set v | v in VersionsOf(db, d) :: db.versions[v].number;
  }

  // ---- Versions nobody will finish ------------------------------------------

  /** Left processing by a call that is gone. */
  ghost predicate Stuck(s: System, v: VersionId) {
    && v in s.db.versions && s.db.versions[v].status == Processing
    && (forall w :: w in s.owners ==> s.owners[w].1 != v)
  }

  /** A call that disappears with its claim leaves its version stuck. */
  lemma AbandonStrands(s: System, w: WorkerId)
    requires OwnersInv(s) && w in s.owners
    ensures Stuck(After(s, Abandon(w)), s.owners[w].1)
  {
    assert OwnsProcessing(s.db, s.owners[w]);
  }

  lemma StuckOneStep(s: System, step: Step, v: VersionId)
    requires Stuck(s, v)
    ensures Stuck(After(s, step), v)
  {}

  /** A stuck version stays processing in every later state: claims ask for pending, requeueing for a failure. */
  lemma {:induction false} StuckStaysProcessing(s: System, steps: seq<Step>, v: VersionId)
    requires Stuck(s, v)
    ensures Stuck(Run(s, steps), v)
    decreases |steps|
  {
    if steps == [] {
    } else {
      StuckOneStep(s, steps[0], v);
      StuckStaysProcessing(After(s, steps[0]), steps[1..], v);
    }
  }

  // ---- What a run is, and what its workers hold ------------------------------------

  /** A run with one more step is that step after the run. */
  lemma {:induction false} RunOneMore(s: System, steps: seq<Step>, step: Step)
    ensures Run(s, []) == s
    ensures Run(s, steps + [step]) == After(Run(s, steps), step)
    decreases |steps|
  {
    if steps == [] {
      assert [step][1..] == [];
      assert steps + [step] == [step];
      assert Run(After(s, step), []) == After(s, step);
    } else {
      RunOneMore(After(s, steps[0]), steps[1..], step);
      assert (steps + [step])[1..] == steps[1..] + [step];
    }
  }

  /** A worker holds the number it read until it inserts or disappears, and its claim until it completes, fails or disappears. */
  lemma WorkersHold(s: System, step: Step)
    requires OwnersInv(s)
    ensures After(s, step).drafts ==
            match step
            case ReadNextNumber(w, d) => if d in s.db.documents then s.drafts[w := (d, MaxOrZero(NumbersOf(s.db, d)) + 1)] else s.drafts
            case InsertVersion(w, _, _) => s.drafts - {w}
            case Abandon(w) => s.drafts - {w}
            case _ => s.drafts
    ensures After(s, step).owners ==
            match step
            case Claim(w, d, v) => if w !in s.owners && StatusOf(s.db, d, v, Pending) then s.owners[w := (d, v)] else s.owners
            case Complete(w) => s.owners - {w}
            case Fail(w, _, _) => s.owners - {w}
            case Abandon(w) => s.owners - {w}
            case _ => s.owners
  {
    match step
    case Complete(w) => if w in s.owners { OwnedCompletes(s, w); }
    case _ =>
  }

  // ---- Which steps take effect ------------------------------------------------------

  /** When a step changes the tables. */
  ghost predicate Effective(s: System, step: Step) {
    match step
    case AddDocument(d, _, _) => d !in s.db.documents
    case ReadNextNumber(_, _) => false
    case InsertVersion(w, v, fingerprint) =>
      && w in s.drafts && s.drafts[w].0 in s.db.documents && v !in s.db.versions
      && forall u :: u in s.db.versions && s.db.versions[u].document == s.drafts[w].0 ==>
           s.db.versions[u].number != s.drafts[w].1 && s.db.versions[u].fingerprint != fingerprint
    case Claim(w, d, v) => w !in s.owners && StatusOf(s.db, d, v, Pending)
    case Complete(w) => w in s.owners
    case Fail(w, _, _) => w in s.owners
    case Abandon(_) => false
    case Requeue(d, v) => StatusOf(s.db, d, v, Failed) || StatusOf(s.db, d, v, CleanupRequired)
  }

  /** What an effective step writes. */
  ghost predicate Writes(s: System, step: Step, db': Tables) {
    match step
    case AddDocument(d, base, file) =>
      db'.versions == s.db.versions && db'.documents == s.db.documents[d := DocumentRow(base, file, None)]
    case InsertVersion(w, v, fingerprint) =>
      && w in s.drafts && db'.documents == s.db.documents
      && db'.versions == s.db.versions[v := VersionRow(s.drafts[w].0, s.drafts[w].1, fingerprint, Pending, None)]
    case Claim(_, _, v) => db'.documents == s.db.documents && RowBecomes(s.db.versions, db'.versions, v, Processing, None)
    case Complete(w) => w in s.owners && RowBecomes(s.db.versions, db'.versions, s.owners[w].1, Indexed, None)
    case Fail(w, cleanupRequired, reason) =>
      && w in s.owners && db'.documents == s.db.documents
      && RowBecomes(s.db.versions, db'.versions, s.owners[w].1, if cleanupRequired then CleanupRequired else Failed, Some(reason))
    case Requeue(_, v) => db'.documents == s.db.documents && RowBecomes(s.db.versions, db'.versions, v, Pending, None)
    case ReadNextNumber(_, _) => false
    case Abandon(_) => false
  }

  lemma OwnedCompletes(s: System, w: WorkerId)
    requires OwnersInv(s) && w in s.owners
    ensures StatusOf(s.db, s.owners[w].0, s.owners[w].1, Processing)
  {
    assert OwnsProcessing(s.db, s.owners[w]);
  }

  lemma ClosingWrites(s: System, step: Step)
    requires OwnersInv(s) && (step.Complete? || step.Fail?)
    ensures Effective(s, step) ==> Writes(s, step, After(s, step).db)
    ensures !Effective(s, step) ==> After(s, step).db == s.db
  {
    if step.w in s.owners {
      OwnedCompletes(s, step.w);
    }
  }

  lemma OpeningWrites(s: System, step: Step)
    requires !step.Complete? && !step.Fail?
    ensures Effective(s, step) ==> Writes(s, step, After(s, step).db)
    ensures !Effective(s, step) ==> After(s, step).db == s.db
  {}

  /** While every claim is of a processing version, an effective step writes just this, and any other leaves the tables alone. */
  lemma WritesExactlyWhenEffective(s: System, step: Step)
    requires OwnersInv(s)
    ensures Effective(s, step) ==> Writes(s, step, After(s, step).db)
    ensures !Effective(s, step) ==> After(s, step).db == s.db
  {
    if step.Complete? || step.Fail? {
      ClosingWrites(s, step);
    } else {
      OpeningWrites(s, step);
    }
  }
}
