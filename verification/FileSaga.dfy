/**
 File rows in the database and objects in the object store. No transaction spans
 both, so each operation compensates; a fault schedule decides every put, delete,
 flush and commit. A raised store call may or may not have taken effect.
 */
module FileSaga {
  import opened Prelude

  type StoreName = nat

  datatype FileStatus = PendingUpload | Ready | Deleting | Deleted | UploadFailed | CleanupRequired

  datatype Reason =
    | CleanupFailed
    | ProviderWriteFailed
    | MetadataCommitFailed
    | ProviderDeleteFailed
    | MetadataDeleteCommitFailed
    | StorageObjectMissing

  datatype FileRow = FileRow(owner: UserId, store: StoreName, status: FileStatus, reason: Option<Reason>, deletedAt: bool)

  datatype FileError =
    | NotFound
    | WrongStore
    | StorageUnavailable
    | UploadFailure
    | DeleteFailure
    | ContentUnavailable
    | CleanupFailure
    | UnsupportedReason
    | DatabaseError
    | Unhandled

  /** An object is named by its store and its file. */
  datatype Object = Object(store: StoreName, file: FileId)

  /** Done, a storage error the service handles, or any other exception, which it does not. */
  datatype ObjectReply = Done | Raised(tookEffect: bool) | Escapes(tookEffect: bool)

  predicate TookEffect(reply: ObjectReply) {
    reply.Done? || reply.tookEffect
  }

  class Faults {
    const put: nat -> ObjectReply
    const delete: nat -> ObjectReply
    const open: nat -> bool
    const flushes: nat -> bool
    const commits: nat -> bool
    var calls: nat

    constructor (put: nat -> ObjectReply, delete: nat -> ObjectReply, open: nat -> bool, flushes: nat -> bool, commits: nat -> bool)
      ensures this.put == put && this.delete == delete && this.open == open && this.flushes == flushes && this.commits == commits && calls == 0
    {
      this.put, this.delete, this.open, this.flushes, this.commits := put, delete, open, flushes, commits;
      calls := 0;
    }

    // ---- What the calls from number `n` on lead to ----

    /** A status is flushed and committed. */
    predicate Saves(n: nat) {
      flushes(n) && commits(n + 1)
    }

    /** The number of the call after a status was saved from call `n`, or failed to be. */
    function AfterSave(n: nat): nat {
      if flushes(n) then n + 2 else n + 1
    }

    /** Put, flush and commit all succeed. */
    predicate Publishes(n: nat) {
      put(n).Done? && Saves(n + 1)
    }

    /** The compensation from call `n` on saves a failure. */
    predicate Undoes(n: nat) {
      !delete(n).Escapes? && Saves(n + 1)
    }

    /**
     The pending row stays: the put escapes; or it raises and the failure is not recorded; or the
     object is stored and the unguarded flush raises, or the commit raises and the failure is not recorded.
     */
    predicate StrandsUpload(n: nat) {
      match put(n)
      case Done => !flushes(n + 1) || (!commits(n + 2) && !Undoes(n + 3))
      case Raised(_) => !Undoes(n + 1)
      case Escapes(_) => true
    }

    /** The upload's object is there afterwards. */
    predicate LeavesObject(n: nat) {
      match put(n)
      case Done => !flushes(n + 1) || commits(n + 2) || !TookEffect(delete(n + 3))
      case Raised(tookEffect) => tookEffect && !TookEffect(delete(n + 1))
      case Escapes(tookEffect) => tookEffect
    }

    predicate Deletes(n: nat) {
      Saves(n) && delete(n + 2).Done? && Saves(n + 3)
    }

    /** The deleting row stays: it was marked, and no later status could be saved. */
    predicate StrandsDeletion(n: nat) {
      Saves(n) && StrandsMarked(n + 2)
    }

    predicate StrandsMarked(n: nat) {
      match delete(n)
      case Done => !Saves(n + 1) && !Saves(AfterSave(n + 1))
      case Raised(_) => !Saves(n + 1)
      case Escapes(_) => true
    }

    // ---- What each operation leaves, call by call ----

    /** How an upload from its put on ends, and the row it leaves. */
    ghost predicate UploadLeaves(n: nat, before: FileRow, after: FileRow, e: Option<FileError>) {
      match put(n)
      case Done =>
        if !flushes(n + 1) then after == before && e == Some(DatabaseError)
        else if commits(n + 2) then after == before.(status := Ready) && e == None
        else CompensationLeaves(n + 3, before, after, e, MetadataCommitFailed, UploadFailure)
      case Raised(_) => CompensationLeaves(n + 1, before, after, e, ProviderWriteFailed, StorageUnavailable)
      case Escapes(_) => after == before && e == Some(Unhandled)
    }

    /** After a failed upload: failed for its own reason if the object is known to be gone, else left for clean-up. */
    ghost predicate CompensationLeaves(n: nat, before: FileRow, after: FileRow, e: Option<FileError>, reason: Reason, told: FileError) {
      if delete(n).Escapes? then after == before && e == Some(Unhandled)
      else if !flushes(n + 1) || !commits(n + 2) then after == before && e == Some(DatabaseError)
      else
        && e == Some(told)
        && after == if delete(n).Done? then before.(status := UploadFailed, reason := Some(reason)) else before.(status := CleanupRequired, reason := Some(CleanupFailed))
    }

    /** How a deletion from its delete on ends, and the row it leaves. */
    ghost predicate DeletionLeaves(n: nat, before: FileRow, after: FileRow, e: Option<FileError>) {
      match delete(n)
      case Done =>
        if flushes(n + 1) && commits(n + 2) then after == before.(status := Deleted, deletedAt := true) && e == None
        else
          && e == Some(DeleteFailure)
          && after == if Saves(AfterSave(n + 1)) then before.(status := CleanupRequired, reason := Some(MetadataDeleteCommitFailed)) else before
      case Raised(_) =>
        if flushes(n + 1) && commits(n + 2) then
          after == before.(status := CleanupRequired, reason := Some(ProviderDeleteFailed)) && e == Some(StorageUnavailable)
        else after == before && e == Some(DeleteFailure)
      case Escapes(_) => after == before && e == Some(Unhandled)
    }

    method Tick() returns (n: nat)
      modifies this
      ensures n == old(calls) && calls == n + 1
    {
      n := calls;
      calls := calls + 1;
    }
  }

  // ---- The invariant ----------------------------------------------------------------

  /** The reasons cleanup_file knows, and the status each leads to. */
  function CleanupTarget(reason: Option<Reason>): Option<FileStatus> {
    match reason
    case Some(CleanupFailed) => Some(UploadFailed)
    case Some(ProviderDeleteFailed) => Some(Deleted)
    case Some(MetadataDeleteCommitFailed) => Some(Deleted)
    case Some(StorageObjectMissing) => Some(Deleted)
    case _ => None
  }

  /** What a committed row says about its object: there, or taken from the store by somebody else. */
  ghost predicate RowAgrees(row: FileRow, there: bool, taken: bool) {
    match row.status
    case Ready => (there || taken) && row.reason == None && !row.deletedAt
    case Deleted => !there
    case UploadFailed => !there
    case CleanupRequired =>
      row.reason in {Some(CleanupFailed), Some(ProviderDeleteFailed), Some(MetadataDeleteCommitFailed), Some(StorageObjectMissing)} && !row.deletedAt
    case PendingUpload => true
    case Deleting => true
  }

  ghost predicate Agree(rows: map<FileId, FileRow>, objects: set<Object>, lost: set<Object>) {
    && (forall f :: f in rows ==> RowAgrees(rows[f], Object(rows[f].store, f) in objects, Object(rows[f].store, f) in lost))
    && (forall o :: o in objects ==> o.file in rows && rows[o.file].store == o.store)
  }

  /** One file's row and object may change, no other's. */
  ghost predicate OnlyFile(rows: map<FileId, FileRow>, rows': map<FileId, FileRow>, objects: set<Object>, objects': set<Object>, f: FileId) {
    && rows.Keys - {f} == rows'.Keys - {f} && (forall g :: g in rows && g != f ==> g in rows' && rows'[g] == rows[g])
    && (f in rows ==> f in rows' && rows'[f].owner == rows[f].owner && rows'[f].store == rows[f].store)
    && (forall o: Object :: o.file != f ==> (o in objects <==> o in objects'))
  }

  /** Its owner may use the file: it is ready and not deleted. */
  ghost predicate MayUse(rows: map<FileId, FileRow>, f: FileId, owner: UserId) {
    f in rows && rows[f].owner == owner && rows[f].status == Ready && !rows[f].deletedAt
  }

  predicate StatusIs(rows: map<FileId, FileRow>, f: FileId, status: FileStatus) {
    f in rows && rows[f].status == status
  }

  class FileService {
    const name: StoreName
    const faults: Faults
    var committed: map<FileId, FileRow>
    var working: map<FileId, FileRow>
    var objects: set<Object>
    ghost var lost: set<Object>

    constructor (name: StoreName, faults: Faults)
      ensures Valid() && this.name == name && this.faults == faults && committed == map[] && objects == {} && lost == {}
    {
      this.name, this.faults := name, faults;
      committed, working, objects, lost := map[], map[], {}, {};
    }

    ghost predicate Valid()
      reads this
    {
      working == committed && Agree(committed, objects, lost)
    }

    // ---- Session and store ------------------------------------------------------------

    method Commit() returns (ok: bool)
      modifies this, faults
      ensures working == old(working) && objects == old(objects) && lost == old(lost)
      ensures ok ==> committed == working
      ensures !ok ==> committed == old(committed)
      ensures ok == faults.commits(old(faults.calls)) && faults.calls == old(faults.calls) + 1
    {
      var n := faults.Tick();
      ok := faults.commits(n);
      if ok {
        committed := working;
      }
    }

    /** An escaping exception closes the session, which rolls it back too. */
    method Rollback()
      modifies this
      ensures working == committed == old(committed) && objects == old(objects) && lost == old(lost)
    {
      working := committed;
    }

    method UpdateStatus(f: FileId, status: FileStatus, reason: Option<Reason>, deletedAt: bool) returns (ok: bool)
      requires f in working
      modifies this, faults
      ensures committed == old(committed) && objects == old(objects) && lost == old(lost)
      ensures ok ==> working == old(working)[f := old(working)[f].(status := status, reason := reason, deletedAt := deletedAt)]
      ensures !ok ==> working == old(working)
      ensures ok == faults.flushes(old(faults.calls)) && faults.calls == old(faults.calls) + 1
    {
      var n := faults.Tick();
      ok := faults.flushes(n);
      if ok {
        working := working[f := working[f].(status := status, reason := reason, deletedAt := deletedAt)];
      }
    }

    /** update_status and commit in one try block: both, or a rollback. */
    method SaveStatus(f: FileId, status: FileStatus, reason: Option<Reason>, deletedAt: bool) returns (ok: bool)
      requires working == committed && f in committed
      modifies this, faults
      ensures working == committed && objects == old(objects) && lost == old(lost)
      ensures committed == if ok then old(committed)[f := old(committed)[f].(status := status, reason := reason, deletedAt := deletedAt)] else old(committed)
      ensures ok == faults.Saves(old(faults.calls)) && faults.calls == faults.AfterSave(old(faults.calls))
    {
      ok := UpdateStatus(f, status, reason, deletedAt);
      if ok {
        ok := Commit();
      }
      if !ok {
        Rollback();
      }
    }

    method Put(f: FileId) returns (reply: ObjectReply)
      modifies this`objects, faults
      ensures objects == if TookEffect(faults.put(old(faults.calls))) then old(objects) + {Object(name, f)} else old(objects)
      ensures reply == faults.put(old(faults.calls)) && faults.calls == old(faults.calls) + 1
    {
      var n := faults.Tick();
      reply := faults.put(n);
      if TookEffect(reply) {
        objects := objects + {Object(name, f)};
      }
    }

    /** Deleting is idempotent: a missing object is no error. */
    method Delete(f: FileId) returns (reply: ObjectReply)
      modifies this`objects, faults
      ensures objects == if TookEffect(faults.delete(old(faults.calls))) then old(objects) - {Object(name, f)} else old(objects)
      ensures reply == faults.delete(old(faults.calls)) && faults.calls == old(faults.calls) + 1
    {
      var n := faults.Tick();
      reply := faults.delete(n);
      if TookEffect(reply) {
        objects := objects - {Object(name, f)};
      }
    }

    /** The environment's step, not the service's: somebody else takes an object out of the store. */
    method LoseObject(f: FileId)
      requires Valid()
      modifies this`objects, this`lost
      ensures Valid() && objects == old(objects) - {Object(name, f)} && lost == old(lost) + {Object(name, f)}
    {
      objects, lost := objects - {Object(name, f)}, lost + {Object(name, f)};
    }

    /** get_owned: a ready file of this owner that is not deleted. */
    method GetOwned(f: FileId, owner: UserId) returns (row: Option<FileRow>)
      ensures row.Some? <==> MayUse(working, f, owner)
      ensures row.Some? ==> row.value == working[f]
    {
      if f in working && working[f].owner == owner && working[f].status == Ready && !working[f].deletedAt {
        return Some(working[f]);
      }
      return None;
    }

    // ---- Operations -----------------------------------------------------------------------

    /** upload, after inspection, with a new file id. */
    method Upload(f: FileId, owner: UserId) returns (e: Option<FileError>)
      requires Valid()
      modifies this, faults
      ensures Valid() && lost == old(lost) && OnlyFile(old(committed), committed, old(objects), objects, f)
      ensures f in old(committed) ==> e == Some(DatabaseError) && committed == old(committed) && objects == old(objects)
      ensures e.None? <==> f !in old(committed) && MayUse(committed, f, owner)
      ensures e.None? ==> Object(name, f) in objects && committed[f] == FileRow(owner, name, Ready, None, false)
      ensures f !in old(committed) && !faults.commits(old(faults.calls)) ==> e == Some(DatabaseError) && committed == old(committed)
      ensures f !in old(committed) && faults.commits(old(faults.calls)) ==>
        f in committed && faults.UploadLeaves(old(faults.calls) + 1, FileRow(owner, name, PendingUpload, None, false), committed[f], e)
      ensures e.Some? && f in committed && f !in old(committed) ==>
        committed[f].status in {PendingUpload, UploadFailed, CleanupRequired}
      ensures f !in old(committed) ==> (e.None? <==> faults.commits(old(faults.calls)) && faults.Publishes(old(faults.calls) + 1))
      ensures e.None? ==> faults.calls == old(faults.calls) + 4
      ensures f !in old(committed) ==>
        (StatusIs(committed, f, PendingUpload) <==> faults.commits(old(faults.calls)) && faults.StrandsUpload(old(faults.calls) + 1))
      ensures f !in old(committed) ==>
        (Object(name, f) in objects <==> faults.commits(old(faults.calls)) && faults.LeavesObject(old(faults.calls) + 1))
    {
      if f in working {
        return Some(DatabaseError);
      }
      working := working[f := FileRow(owner, name, PendingUpload, None, false)];
      var created := Commit();
      if !created {
        Rollback();
        return Some(DatabaseError);
      }
      e := StoreAndPublish(f);
    }

    /** The row is pending: put the object, then make the row ready, or undo what can be undone. */
    method StoreAndPublish(f: FileId) returns (e: Option<FileError>)
      requires Valid() && f in committed && committed[f] == FileRow(committed[f].owner, name, PendingUpload, None, false)
      modifies this, faults
      ensures Valid() && lost == old(lost) && OnlyFile(old(committed), committed, old(objects), objects, f)
      ensures e.None? ==> committed[f] == old(committed)[f].(status := Ready) && Object(name, f) in objects
      ensures e.Some? ==> committed[f].status in {PendingUpload, UploadFailed, CleanupRequired}
      ensures e.None? <==> faults.Publishes(old(faults.calls))
      ensures faults.UploadLeaves(old(faults.calls), old(committed)[f], committed[f], e)
      ensures StatusIs(committed, f, PendingUpload) <==> faults.StrandsUpload(old(faults.calls))
      ensures Object(name, f) !in old(objects) ==> (Object(name, f) in objects <==> faults.LeavesObject(old(faults.calls)))
      ensures e.None? ==> faults.calls == old(faults.calls) + 3
    {
      var reply := Put(f);
      match reply {
        case Done => e := Publish(f);
        case Raised(_) =>
          e := Compensate(f, ProviderWriteFailed, StorageUnavailable);
        case Escapes(_) => e := Some(Unhandled);
      }
    }

    /** The object is stored: the row becomes ready. Flushing it is unguarded; a raised commit is compensated. */
    method Publish(f: FileId) returns (e: Option<FileError>)
      requires Valid() && f in committed && committed[f] == FileRow(committed[f].owner, name, PendingUpload, None, false)
      requires Object(name, f) in objects
      modifies this, faults
      ensures Valid() && lost == old(lost) && OnlyFile(old(committed), committed, old(objects), objects, f)
      ensures committed[f].status in {Ready, PendingUpload, UploadFailed, CleanupRequired}
      ensures e.None? ==> committed[f] == old(committed)[f].(status := Ready) && faults.calls == old(faults.calls) + 2
      ensures !faults.flushes(old(faults.calls)) ==> committed == old(committed) && e == Some(DatabaseError)
      ensures faults.flushes(old(faults.calls)) && !faults.commits(old(faults.calls) + 1) ==>
        faults.CompensationLeaves(old(faults.calls) + 2, old(committed)[f], committed[f], e, MetadataCommitFailed, UploadFailure)
      ensures e.None? <==> StatusIs(committed, f, Ready)
      ensures e.None? <==> faults.Saves(old(faults.calls))
      ensures StatusIs(committed, f, PendingUpload) <==>
                !faults.flushes(old(faults.calls)) || (!faults.commits(old(faults.calls) + 1) && !faults.Undoes(old(faults.calls) + 2))
      ensures Object(name, f) in objects <==>
                !faults.flushes(old(faults.calls)) || faults.commits(old(faults.calls) + 1) || !TookEffect(faults.delete(old(faults.calls) + 2))
    {
      var flushed := UpdateStatus(f, Ready, None, false);
      if !flushed {
        Rollback();
        return Some(DatabaseError);
      }
      var saved := Commit();
      if !saved {
        Rollback();
        e := Compensate(f, MetadataCommitFailed, UploadFailure);
        return;
      }
      return None;
    }

    /** After a failed upload: delete what may have been stored, and say what happened; this commit is unguarded. */
    method Compensate(f: FileId, reason: Reason, told: FileError) returns (e: Option<FileError>)
      requires Valid() && f in committed && committed[f] == FileRow(committed[f].owner, name, PendingUpload, None, false)
      modifies this, faults
      ensures Valid() && lost == old(lost) && OnlyFile(old(committed), committed, old(objects), objects, f)
      ensures faults.CompensationLeaves(old(faults.calls), old(committed)[f], committed[f], e, reason, told)
      ensures StatusIs(committed, f, PendingUpload) <==> !faults.Undoes(old(faults.calls))
      ensures Object(name, f) in objects <==> Object(name, f) in old(objects) && !TookEffect(faults.delete(old(faults.calls)))
    {
      var reply := Delete(f);
      var saved;
      match reply {
        case Done => saved := SaveStatus(f, UploadFailed, Some(reason), false);
        case Raised(_) => saved := SaveStatus(f, CleanupRequired, Some(CleanupFailed), false);
        case Escapes(_) => return Some(Unhandled);
      }
      return Some(if saved then told else DatabaseError);
    }

    method DeleteFile(f: FileId, owner: UserId) returns (e: Option<FileError>)
      requires Valid()
      modifies this, faults
      ensures Valid() && lost == old(lost) && OnlyFile(old(committed), committed, old(objects), objects, f)
      ensures e == Some(NotFound) <==> !MayUse(old(committed), f, owner)
      ensures e == Some(NotFound) || e == Some(WrongStore) ==> committed == old(committed) && objects == old(objects)
      ensures e == Some(WrongStore) <==> MayUse(old(committed), f, owner) && old(committed)[f].store != name
      ensures MayUse(old(committed), f, owner) && old(committed)[f].store == name ==>
        if faults.Saves(old(faults.calls)) then
          faults.DeletionLeaves(old(faults.calls) + 2, old(committed)[f].(status := Deleting), committed[f], e)
        else
          committed == old(committed) && e == Some(DeleteFailure)
      ensures e.None? ==> StatusIs(committed, f, Deleted) && Object(name, f) !in objects
      ensures e.Some? && committed != old(committed) ==> committed[f].status in {Deleting, CleanupRequired}
      ensures MayUse(old(committed), f, owner) && old(committed)[f].store == name ==>
        && (e.None? <==> faults.Deletes(old(faults.calls)))
        && (StatusIs(committed, f, Deleting) <==> faults.StrandsDeletion(old(faults.calls)))
        && (committed == old(committed) <==> !faults.Saves(old(faults.calls)))
        && (Object(name, f) in objects <==>
              Object(name, f) in old(objects) && !(faults.Saves(old(faults.calls)) && TookEffect(faults.delete(old(faults.calls) + 2))))
    {
      var owned := GetOwned(f, owner);
      if owned.None? {
        return Some(NotFound);
      }
      if owned.value.store != name {
        return Some(WrongStore);
      }
      var marked := SaveStatus(f, Deleting, None, false);
      if !marked {
        return Some(DeleteFailure);
      }
      e := DeleteMarked(f);
    }

    /** The row says deleting: delete the object, then say how that went. */
    method DeleteMarked(f: FileId) returns (e: Option<FileError>)
      requires Valid() && StatusIs(committed, f, Deleting) && committed[f].store == name && committed[f].reason == None && !committed[f].deletedAt
      modifies this, faults
      ensures Valid() && lost == old(lost) && OnlyFile(old(committed), committed, old(objects), objects, f)
      ensures committed[f].status in {Deleting, Deleted, CleanupRequired}
      ensures e != Some(NotFound) && e != Some(WrongStore)
      ensures faults.DeletionLeaves(old(faults.calls), old(committed)[f], committed[f], e)
      ensures e.None? <==> StatusIs(committed, f, Deleted)
      ensures e.None? <==> faults.delete(old(faults.calls)).Done? && faults.Saves(old(faults.calls) + 1)
      ensures StatusIs(committed, f, Deleting) <==> faults.StrandsMarked(old(faults.calls))
      ensures Object(name, f) in objects <==> Object(name, f) in old(objects) && !TookEffect(faults.delete(old(faults.calls)))
    {
      var reply := Delete(f);
      if reply.Escapes? {
        return Some(Unhandled);
      }
      if reply.Raised? {
        var recorded := SaveStatus(f, CleanupRequired, Some(ProviderDeleteFailed), false);
        return Some(if recorded then StorageUnavailable else DeleteFailure);
      }
      var saved := SaveStatus(f, Deleted, None, true);
      if !saved {
        var recorded := SaveStatus(f, CleanupRequired, Some(MetadataDeleteCommitFailed), false);
        return Some(DeleteFailure);
      }
      return None;
    }

    /** download_file: opening may fail for another reason first; an object then found missing is handed to cleanup. */
    method DownloadFile(f: FileId, owner: UserId) returns (e: Option<FileError>)
      requires Valid()
      modifies this, faults
      ensures Valid() && lost == old(lost) && OnlyFile(old(committed), committed, old(objects), objects, f)
      ensures e == Some(NotFound) <==> !MayUse(old(committed), f, owner)
      ensures e == Some(WrongStore) <==> MayUse(old(committed), f, owner) && old(committed)[f].store != name
      ensures objects == old(objects) && (committed != old(committed) ==> e == Some(ContentUnavailable) && StatusIs(committed, f, CleanupRequired))
      ensures MayUse(old(committed), f, owner) && old(committed)[f].store == name ==>
        && (e == Some(StorageUnavailable) <==> !faults.open(old(faults.calls)))
        && (e == Some(ContentUnavailable) <==> faults.open(old(faults.calls)) && Object(name, f) !in objects)
        && (e.None? <==> faults.open(old(faults.calls)) && Object(name, f) in objects)
      ensures e == Some(ContentUnavailable) ==> Object(name, f) in lost
      ensures e == Some(ContentUnavailable) && !faults.Saves(old(faults.calls) + 1) ==> committed == old(committed)
      ensures e == Some(ContentUnavailable) && faults.Saves(old(faults.calls) + 1) ==>
        committed[f] == old(committed)[f].(status := CleanupRequired, reason := Some(StorageObjectMissing))
    {
      var owned := GetOwned(f, owner);
      if owned.None? {
        return Some(NotFound);
      }
      if owned.value.store != name {
        return Some(WrongStore);
      }
      var n := faults.Tick();
      if !faults.open(n) {
        return Some(StorageUnavailable);
      }
      assert RowAgrees(committed[f], Object(name, f) in objects, Object(name, f) in lost);
      if Object(name, f) !in objects {
        var recorded := SaveStatus(f, CleanupRequired, Some(StorageObjectMissing), false);
        return Some(ContentUnavailable);
      }
      return None;
    }

    /** cleanup_file: its unsupported-reason error is never returned. */
    method CleanupFile(f: FileId) returns (r: Result<bool, FileError>)
      requires Valid()
      modifies this, faults
      ensures Valid() && lost == old(lost) && OnlyFile(old(committed), committed, old(objects), objects, f)
      ensures r != Err(UnsupportedReason)
      ensures r == Ok(false) <==> !StatusIs(old(committed), f, CleanupRequired)
      ensures r == Ok(false) ==> objects == old(objects)
      ensures r == Ok(true) ==>
        && Object(name, f) !in objects
        && committed[f] == if old(committed)[f].reason == Some(CleanupFailed) then old(committed)[f].(status := UploadFailed)
                           else old(committed)[f].(status := Deleted, deletedAt := true)
      ensures r == Err(WrongStore) <==> StatusIs(old(committed), f, CleanupRequired) && old(committed)[f].store != name
      ensures r == Err(WrongStore) ==> objects == old(objects)
      ensures StatusIs(old(committed), f, CleanupRequired) && old(committed)[f].store == name ==>
        && (r == Err(StorageUnavailable) <==> faults.delete(old(faults.calls)).Raised?)
        && (r == Err(Unhandled) <==> faults.delete(old(faults.calls)).Escapes?)
        && (r == Err(CleanupFailure) <==> faults.delete(old(faults.calls)).Done? && !faults.Saves(old(faults.calls) + 1))
        && (Object(name, f) in objects <==> Object(name, f) in old(objects) && !TookEffect(faults.delete(old(faults.calls))))
      ensures r != Ok(true) ==> committed == old(committed)
      ensures StatusIs(old(committed), f, CleanupRequired) && old(committed)[f].store == name ==>
        (r == Ok(true) <==> faults.delete(old(faults.calls)).Done? && faults.Saves(old(faults.calls) + 1))
    {
      if !StatusIs(working, f, CleanupRequired) {
        return Ok(false);
      }
      var row := working[f];
      if row.store != name {
        return Err(WrongStore);
      }
      var target := CleanupTarget(row.reason);
      if target.None? {
        return Err(UnsupportedReason);
      }
      var reply := Delete(f);
      if !reply.Done? {
        return Err(if reply.Raised? then StorageUnavailable else Unhandled);
      }
      var saved := SaveStatus(f, target.value, row.reason, target == Some(Deleted));
      if !saved {
        return Err(CleanupFailure);
      }
      return Ok(true);
    }

    // ---- Stranded rows ------------------------------------------------------------------------

    /** One call of the service, whatever it is about. */
    method Perform(op: Operation)
      requires Valid()
      modifies this, faults
      ensures match op
              case UploadOf(f, owner) =>
                f !in old(committed) && faults.commits(old(faults.calls)) ==> f in committed && committed[f].owner == owner
              case DeletionOf(f, owner) =>
                MayUse(old(committed), f, owner) && old(committed)[f].store == name && faults.Saves(old(faults.calls)) ==>
                  f in committed && committed[f].status in {Deleting, Deleted, CleanupRequired}
              case DownloadOf(f, owner) => objects == old(objects) && (!MayUse(old(committed), f, owner) ==> committed == old(committed))
              case CleanupOf(f) =>
                StatusIs(old(committed), f, CleanupRequired) && old(committed)[f].store == name
                && faults.delete(old(faults.calls)).Done? && faults.Saves(old(faults.calls) + 1) ==>
                  f in committed && committed[f].status in {UploadFailed, Deleted}
      ensures Valid() && forall g :: Stranded(old(committed), g) ==> SameFile(old(committed), committed, old(objects), objects, g)
    {
      match op {
        case UploadOf(f, owner) => var e := Upload(f, owner);
        case DeletionOf(f, owner) => var e := DeleteFile(f, owner);
        case DownloadOf(f, owner) => var e := DownloadFile(f, owner);
        case CleanupOf(f) => var r := CleanupFile(f);
      }
    }

    /** A pending or deleting row stays as it is, and so does its object, whatever is called afterwards and whatever fails. */
    method PerformAll(ops: seq<Operation>)
      requires Valid()
      modifies this, faults
      ensures Valid() && forall g :: Stranded(old(committed), g) ==> SameFile(old(committed), committed, old(objects), objects, g)
    {
      for i := 0 to |ops|
        invariant Valid() && forall g :: Stranded(old(committed), g) ==> SameFile(old(committed), committed, old(objects), objects, g)
      {
        ghost var rows := committed;
        Perform(ops[i]);
        forall g | Stranded(old(committed), g) ensures SameFile(old(committed), committed, old(objects), objects, g) {
          assert Stranded(rows, g);
        }
      }
    }
  }

  datatype Operation =
    | UploadOf(f: FileId, owner: UserId)
    | DeletionOf(f: FileId, owner: UserId)
    | DownloadOf(f: FileId, owner: UserId)
    | CleanupOf(f: FileId)

  /** Left between two saves of an operation that is over. */
  ghost predicate Stranded(rows: map<FileId, FileRow>, g: FileId) {
    StatusIs(rows, g, PendingUpload) || StatusIs(rows, g, Deleting)
  }

  ghost predicate SameFile(rows: map<FileId, FileRow>, rows': map<FileId, FileRow>, objects: set<Object>, objects': set<Object>, g: FileId) {
    && g in rows && g in rows' && rows'[g] == rows[g]
    && (forall o: Object :: o.file == g ==> (o in objects <==> o in objects'))
  }

  /** A first upload whose object is stored and whose row stays pending, though no failure was being recorded. */
  method StrandedUpload() returns (row: FileRow, stored: bool)
    ensures row.status == PendingUpload && stored
  {
    var faults := new Faults(n => Done, n => Done, n => true, n => n != 2, n => true);
    var service := new FileService(0, faults);
    var e := service.Upload(7, 1);
    return service.committed[7], Object(0, 7) in service.objects;
  }

  /** A deletion that leaves its row deleting and its object stored. */
  method StrandedDeletion() returns (row: FileRow, stored: bool)
    ensures row.status == Deleting && stored
  {
    var faults := new Faults(n => Done, n => Raised(false), n => true, n => n != 7, n => true);
    var service := new FileService(0, faults);
    var uploaded := service.Upload(7, 1);
    var e := service.DeleteFile(7, 1);
    return service.committed[7], Object(0, 7) in service.objects;
  }

  /** A lost object is noticed by a download, handed to clean-up with its reason, and ends deleted. */
  method LostObject() returns (noticed: FileRow, cleaned: FileRow)
    ensures noticed.status == CleanupRequired && noticed.reason == Some(StorageObjectMissing)
    ensures cleaned.status == Deleted
  {
    var faults := new Faults(n => Done, n => Done, n => true, n => true, n => true);
    var service := new FileService(0, faults);
    var uploaded := service.Upload(7, 1);
    service.LoseObject(7);
    var missing := service.DownloadFile(7, 1);
    noticed := service.committed[7];
    var cleanup := service.CleanupFile(7);
    cleaned := service.committed[7];
  }
}
