/**
 The rows of the knowledge domain and the conditional updates the repository
 runs on them. The functions say what one committed statement does to the
 tables; the class performs it inside a session that can commit or roll back.
 */
module KnowledgeTables {
  import opened Prelude

  // Identifiers are only ever compared for equality.
  type DocumentId = nat
  type VersionId = nat
  type BaseId = nat

  datatype VersionStatus = Pending | Processing | Indexed | Failed | CleanupRequired

  datatype FailureReason =
    | MissingChunks
    | EmbeddingFailed
    | VectorStoreFailed
    | VectorCleanupFailed
    | IndexStateWriteFailed

  datatype VersionRow = VersionRow(
    document: DocumentId,
    number: nat,
    fingerprint: nat,
    status: VersionStatus,
    failure: Option<FailureReason>)

  datatype DocumentRow = DocumentRow(base: BaseId, file: FileId, active: Option<VersionId>)

  datatype Tables = Tables(
    documents: map<DocumentId, DocumentRow>,
    versions: map<VersionId, VersionRow>)

  /** One UPDATE guarded by version id, document id and current status. */
  function CompareAndSet(
    db: Tables, d: DocumentId, v: VersionId, from: set<VersionStatus>,
    to: VersionStatus, failure: Option<FailureReason>): Option<Tables>
  {
    if v in db.versions && db.versions[v].document == d && db.versions[v].status in from then
      Some(db.(versions := db.versions[v := db.versions[v].(status := to, failure := failure)]))
    else
      None
  }

  function Claimed(db: Tables, d: DocumentId, v: VersionId): Option<Tables> {
    CompareAndSet(db, d, v, {Pending}, Processing, None)
  }

  function Finished(db: Tables, d: DocumentId, v: VersionId, status: VersionStatus,
                    failure: Option<FailureReason>): Option<Tables>
  {
    CompareAndSet(db, d, v, {Processing}, status, failure)
  }

  function Requeued(db: Tables, d: DocumentId, v: VersionId): Option<Tables> {
    CompareAndSet(db, d, v, {Failed, CleanupRequired}, Pending, None)
  }

  /** The active pointer may move: it is empty, or points at a lower number. */
  predicate MayPromote(db: Tables, d: DocumentId, number: nat) {
    && d in db.documents
    && match db.documents[d].active
       case None => true
       case Some(a) => a in db.versions && db.versions[a].number < number
  }

  function Promoted(db: Tables, d: DocumentId, v: VersionId, number: nat): Tables {
    if MayPromote(db, d, number)
    then db.(documents := db.documents[d := db.documents[d].(active := Some(v))])
    else db
  }

  /** The single transaction that ends a successful indexing. */
  function Completed(db: Tables, d: DocumentId, v: VersionId): Option<Tables> {
    match Finished(db, d, v, Indexed, None)
    case None => None
    case Some(done) => Some(Promoted(done, d, v, done.versions[v].number))
  }

  function TargetStatus(cleanupRequired: bool): VersionStatus {
    if cleanupRequired then CleanupRequired else Failed
  }

  // ---- What each update means -----------------------------------------------

  /** The document has this version, with this status. */
  ghost predicate StatusOf(db: Tables, d: DocumentId, v: VersionId, status: VersionStatus) {
    v in db.versions && db.versions[v].document == d && db.versions[v].status == status
  }

  /** Only this row has changed, and only in its status and reason. */
  ghost predicate RowBecomes(rows: map<VersionId, VersionRow>, rows': map<VersionId, VersionRow>, v: VersionId,
                             status: VersionStatus, failure: Option<FailureReason>) {
    && rows'.Keys == rows.Keys && v in rows
    && rows'[v].document == rows[v].document && rows'[v].number == rows[v].number && rows'[v].fingerprint == rows[v].fingerprint
    && rows'[v].status == status && rows'[v].failure == failure
    && forall u :: u in rows && u != v ==> rows'[u] == rows[u]
  }

  /** From which status each update hits its row, and to which it takes it; the documents stay as they are. */
  lemma VersionTransitions(db: Tables, d: DocumentId, v: VersionId, status: VersionStatus, failure: Option<FailureReason>)
    ensures Claimed(db, d, v).Some? <==> StatusOf(db, d, v, Pending)
    ensures Claimed(db, d, v).Some? ==>
      RowBecomes(db.versions, Claimed(db, d, v).value.versions, v, Processing, None) && Claimed(db, d, v).value.documents == db.documents
    ensures Finished(db, d, v, status, failure).Some? <==> StatusOf(db, d, v, Processing)
    ensures Finished(db, d, v, status, failure).Some? ==>
      && RowBecomes(db.versions, Finished(db, d, v, status, failure).value.versions, v, status, failure)
      && Finished(db, d, v, status, failure).value.documents == db.documents
    ensures Requeued(db, d, v).Some? <==> StatusOf(db, d, v, Failed) || StatusOf(db, d, v, CleanupRequired)
    ensures Requeued(db, d, v).Some? ==>
      RowBecomes(db.versions, Requeued(db, d, v).value.versions, v, Pending, None) && Requeued(db, d, v).value.documents == db.documents
  {}

  /** Completion makes a processing version indexed, and its document's active one unless a version of the same or a higher number is. */
  lemma CompletionIsExact(db: Tables, d: DocumentId, v: VersionId)
    requires d in db.documents && (db.documents[d].active.Some? ==> db.documents[d].active.value in db.versions)
    ensures Completed(db, d, v).Some? <==> StatusOf(db, d, v, Processing)
    ensures Completed(db, d, v).Some? ==>
      var db', active := Completed(db, d, v).value, db.documents[d].active;
      && RowBecomes(db.versions, db'.versions, v, Indexed, None)
      && db'.documents == db.documents[d := db'.documents[d]]
      && db'.documents[d].base == db.documents[d].base && db'.documents[d].file == db.documents[d].file
      && db'.documents[d].active ==
           if active.Some? && db.versions[active.value].number >= db.versions[v].number then active else Some(v)
  {}

  function VersionsOf(db: Tables, d: DocumentId): set<VersionId> {
    set v | v in db.versions && db.versions[v].document == d
  }

  function NumbersOf(db: Tables, d: DocumentId): set<nat> {
    set v | v in db.versions && db.versions[v].document == d :: db.versions[v].number
  }

  ghost predicate IsMax(s: set<nat>, m: nat) {
    m in s && forall x :: x in s ==> x <= m
  }

  lemma MaxExists(s: set<nat>)
    requires s != {}
    ensures exists m :: IsMax(s, m)
  {
    var a :| a in s;
    var rest := s - {a};
    assert s == rest + {a};
    if rest != {} {
      MaxExists(rest);
      var m :| IsMax(rest, m);
      assert IsMax(s, if a < m then m else a);
    } else {
      assert IsMax(s, a);
    }
  }

  function MaxOrZero(s: set<nat>): (m: nat)
    ensures s == {} ==> m == 0
    ensures s != {} ==> m in s && forall x :: x in s ==> x <= m
  {
    if s == {} then 0 else
      MaxExists(s);
      var m :| m in s && forall x :: x in s ==> x <= m;
      m
  }

  function NextNumber(db: Tables, d: DocumentId): nat {
    MaxOrZero(NumbersOf(db, d)) + 1
  }

  /** The inserted row breaks no unique or foreign key of document_versions. */
  predicate Insertable(db: Tables, d: DocumentId, v: VersionId, number: nat, fingerprint: nat) {
    && d in db.documents
    && v !in db.versions
    && forall u :: u in db.versions && db.versions[u].document == d ==>
         db.versions[u].number != number && db.versions[u].fingerprint != fingerprint
  }

  function Inserted(db: Tables, d: DocumentId, v: VersionId, number: nat, fingerprint: nat): Tables {
    db.(versions := db.versions[v := VersionRow(d, number, fingerprint, Pending, None)])
  }

  /**
   The repository over one database session. `committed` is what other sessions
   see; `working` is what this transaction has written so far.
   */
  class KnowledgeRepository {
    var committed: Tables
    var working: Tables

    predicate Clean()
      reads this
    {
      working == committed
    }

    constructor (tables: Tables)
      ensures Clean() && committed == tables
    {
      committed, working := tables, tables;
    }

    method Commit()
      modifies this
      ensures committed == old(working) && working == old(working)
    {
      committed := working;
    }

    method Rollback()
      modifies this
      ensures committed == old(committed) && working == old(committed)
    {
      working := committed;
    }

    method UpdateStatus(d: DocumentId, v: VersionId, from: set<VersionStatus>, to: VersionStatus,
                        failure: Option<FailureReason>)
      returns (updated: Option<VersionRow>)
      modifies this`working
      ensures
        match CompareAndSet(old(working), d, v, from, to, failure)
        case None => updated == None && working == old(working)
        case Some(db) => working == db && v in db.versions && updated == Some(db.versions[v])
    {
      if v !in working.versions || working.versions[v].document != d || working.versions[v].status !in from {
        return None;
      }
      var row := working.versions[v].(status := to, failure := failure);
      working := working.(versions := working.versions[v := row]);
      return Some(row);
    }

    method ClaimPendingVersion(d: DocumentId, v: VersionId) returns (claimed: Option<VersionRow>)
      modifies this`working
      ensures
        match Claimed(old(working), d, v)
        case None => claimed == None && working == old(working)
        case Some(db) => working == db && v in db.versions && claimed == Some(db.versions[v])
    {
      claimed := UpdateStatus(d, v, {Pending}, Processing, None);
    }

    method CompleteProcessingVersion(d: DocumentId, v: VersionId) returns (completed: Option<VersionRow>)
      modifies this`working
      ensures
        match Finished(old(working), d, v, Indexed, None)
        case None => completed == None && working == old(working)
        case Some(db) => working == db && v in db.versions && completed == Some(db.versions[v])
    {
      completed := UpdateStatus(d, v, {Processing}, Indexed, None);
    }

    method FailProcessingVersion(d: DocumentId, v: VersionId, cleanupRequired: bool, reason: FailureReason)
      returns (failed: Option<VersionRow>)
      modifies this`working
      ensures
        match Finished(old(working), d, v, TargetStatus(cleanupRequired), Some(reason))
        case None => failed == None && working == old(working)
        case Some(db) => working == db && v in db.versions && failed == Some(db.versions[v])
    {
      failed := UpdateStatus(d, v, {Processing}, TargetStatus(cleanupRequired), Some(reason));
    }

    method RequeueFailedVersion(d: DocumentId, v: VersionId) returns (requeued: Option<VersionRow>)
      modifies this`working
      ensures
        match Requeued(old(working), d, v)
        case None => requeued == None && working == old(working)
        case Some(db) => working == db && v in db.versions && requeued == Some(db.versions[v])
    {
      requeued := UpdateStatus(d, v, {Failed, CleanupRequired}, Pending, None);
    }

    method PromoteActiveVersion(d: DocumentId, v: VersionId, number: nat) returns (promoted: bool)
      modifies this`working
      ensures promoted == MayPromote(old(working), d, number)
      ensures working == Promoted(old(working), d, v, number)
    {
      if d !in working.documents {
        return false;
      }
      var document := working.documents[d];
      if document.active.Some? {
        var active := document.active.value;
        if active !in working.versions || working.versions[active].number >= number {
          return false;
        }
      }
      working := working.(documents := working.documents[d := document.(active := Some(v))]);
      return true;
    }
  }
}
