/**
 Indexing one document version over two stores: status rows in MySQL, points in
 the vector store. Every external call consults the world once, and the world
 answers by an arbitrary schedule, so each theorem is over every fault schedule.
 */
module Indexing {
  import opened Prelude
  import opened KnowledgeTables
  import opened Embedding

  /** A persisted chunk row; `version` is its document_version_id. */
  datatype Chunk = Chunk(id: ChunkId, version: VersionId, content: string)

  datatype ChunkVector = ChunkVector(chunkId: ChunkId, vector: Vector)

  datatype VectorPoint = VectorPoint(chunkId: ChunkId, vector: Vector, base: BaseId, version: VersionId)

  datatype StoreError = Configuration | Input | Operation | Unavailable

  /** A store call succeeds, or raises after having reached only some of its points. */
  datatype StoreReply = Applied | Raised(error: StoreError, reached: set<ChunkId>)

  datatype IndexError =
    | DocumentNotFound
    | VersionNotFound
    | AIFailed
    | VectorStoreError(error: StoreError)
    | CleanupNeeded
    | VersionWrite
    | RetryRefused

  type Points = map<ChunkId, VectorPoint>

  /** The points a version has in the store, and everything else in it. */
  function PointsOf(points: Points, v: VersionId): Points {
    map k | k in points && points[k].version == v :: points[k]
  }

  function PointsElsewhere(points: Points, v: VersionId): Points {
    map k | k in points && points[k].version != v :: points[k]
  }

  function Written(points: Points, batch: seq<VectorPoint>): Points {
    if batch == [] then points
    else Written(points, batch[..|batch| - 1])[batch[|batch| - 1].chunkId := batch[|batch| - 1]]
  }

  /** One point per chunk, carrying the embedding of that chunk's own content. */
  ghost function ExpectedPoints(chunks: seq<Chunk>, base: BaseId, v: VersionId, embedding: string -> Vector): seq<VectorPoint> {
    seq(|chunks|, i requires 0 <= i < |chunks| => VectorPoint(chunks[i].id, embedding(chunks[i].content), base, v))
  }

  ghost function ExpectedVectors(chunks: seq<Chunk>, embedding: string -> Vector): seq<ChunkVector> {
    seq(|chunks|, i requires 0 <= i < |chunks| => ChunkVector(chunks[i].id, embedding(chunks[i].content)))
  }

  function Contents(chunks: seq<Chunk>): seq<string> {
    seq(|chunks|, i requires 0 <= i < |chunks| => chunks[i].content)
  }

  /** One call to the outside with its answer. */
  datatype Call =
    | Looked(visible: bool)
    | Embedded(texts: seq<string>, answer: ProviderReply)
    | Upserted(batch: seq<VectorPoint>, reply: StoreReply)
    | Deleted(v: VersionId, reply: StoreReply)
    | Committed(ok: bool)

  datatype Fault = DocumentHidden | EmbeddingRefused | UpsertRaised | DeletionRaised | CommitRaised

  /** The provider answers these many texts acceptably. */
  ghost predicate AnswersWell(reply: ProviderReply, n: nat, dimension: nat) {
    && reply.Answer?
    && OneItemPerText(reply.items, n)
    && forall item :: item in reply.items ==> |item.vector| == dimension && AllFinite(item.vector)
  }

  ghost function FaultOf(call: Call, dimension: nat): Option<Fault> {
    match call
    case Looked(visible) => if visible then None else Some(DocumentHidden)
    case Embedded(texts, reply) => if AnswersWell(reply, |texts|, dimension) then None else Some(EmbeddingRefused)
    case Upserted(_, reply) => if reply.Applied? then None else Some(UpsertRaised)
    case Deleted(_, reply) => if reply.Applied? then None else Some(DeletionRaised)
    case Committed(ok) => if ok then None else Some(CommitRaised)
  }

  /** The faults met in a sequence of calls. */
  ghost function Faults(log: seq<Call>, dimension: nat): set<Fault> {
    set call | call in log && FaultOf(call, dimension).Some? :: FaultOf(call, dimension).value
  }

  lemma FaultsJoin(a: seq<Call>, b: seq<Call>, dimension: nat)
    ensures Faults(a + b, dimension) == Faults(a, dimension) + Faults(b, dimension)
  {}

  lemma FaultsOfOne(call: Call, dimension: nat)
    ensures Faults([call], dimension) == match FaultOf(call, dimension) case None => {} case Some(fault) => {fault}
  {
    assert call in [call];
  }

  /** The outside world answers by an arbitrary schedule, one answer a call, and keeps the log of the calls. */
  class World {
    const provider: (nat, seq<string>) -> ProviderReply
    const store: nat -> StoreReply
    const commits: nat -> bool
    const visible: nat -> bool
    var log: seq<Call>

    constructor (provider: (nat, seq<string>) -> ProviderReply, store: nat -> StoreReply,
                 commits: nat -> bool, visible: nat -> bool)
      ensures Scheduled() && this.provider == provider && this.store == store && this.commits == commits && this.visible == visible
    {
      this.provider, this.store, this.commits, this.visible := provider, store, commits, visible;
      log := [];
    }

    /** Every answer in the log is the schedule's, and no embedding was asked for no text. */
    ghost predicate Scheduled()
      reads this
    {
      forall n {:trigger Answered(n, log[n])} :: 0 <= n < |log| ==> Answered(n, log[n])
    }

    ghost predicate Answered(n: nat, call: Call) {
      match call
      case Looked(seen) => seen == visible(n)
      case Embedded(texts, answer) => texts != [] && answer == provider(n, texts)
      case Upserted(_, reply) => reply == store(n)
      case Deleted(_, reply) => reply == store(n)
      case Committed(ok) => ok == commits(n)
    }

    ghost predicate ProviderAnswers(dimension: nat) {
      forall n, texts: seq<string> {:trigger provider(n, texts)} :: texts != [] ==> AnswersWell(provider(n, texts), |texts|, dimension)
    }

    ghost predicate StoreApplies() {
      forall n :: store(n).Applied?
    }

    ghost predicate CommitsSucceed() {
      forall n :: commits(n)
    }

    ghost predicate DocumentsVisible() {
      forall n :: visible(n)
    }

    /** No call ever fails. */
    ghost predicate Healthy(dimension: nat) {
      ProviderAnswers(dimension) && StoreApplies() && CommitsSucceed() && DocumentsVisible()
    }

    /** An item the provider does return is the embedding of the text it names. */
    ghost predicate TruthfulProvider(embedding: string -> Vector) {
      forall n, texts {:trigger provider(n, texts)} ::
        provider(n, texts).Answer? ==> Truthful(provider(n, texts).items, texts, embedding)
    }

    method Look() returns (seen: bool)
      requires Scheduled()
      modifies this
      ensures Scheduled()
      ensures seen == visible(|old(log)|) && log == old(log) + [Looked(seen)]
    {
      seen := visible(|log|);
      log := log + [Looked(seen)];
    }

    method Embed(texts: seq<string>) returns (reply: ProviderReply)
      requires Scheduled() && texts != []
      modifies this
      ensures Scheduled()
      ensures reply == provider(|old(log)|, texts) && log == old(log) + [Embedded(texts, reply)]
    {
      reply := provider(|log|, texts);
      log := log + [Embedded(texts, reply)];
    }

    method Upsert(batch: seq<VectorPoint>) returns (reply: StoreReply)
      requires Scheduled()
      modifies this
      ensures Scheduled()
      ensures reply == store(|old(log)|) && log == old(log) + [Upserted(batch, reply)]
    {
      reply := store(|log|);
      log := log + [Upserted(batch, reply)];
    }

    method Delete(v: VersionId) returns (reply: StoreReply)
      requires Scheduled()
      modifies this
      ensures Scheduled()
      ensures reply == store(|old(log)|) && log == old(log) + [Deleted(v, reply)]
    {
      reply := store(|log|);
      log := log + [Deleted(v, reply)];
    }

    method Commit() returns (ok: bool)
      requires Scheduled()
      modifies this
      ensures Scheduled()
      ensures ok == commits(|old(log)|) && log == old(log) + [Committed(ok)]
    {
      ok := commits(|log|);
      log := log + [Committed(ok)];
    }
  }

  class VectorStore {
    var points: Points

    constructor ()
      ensures points == map[]
    {
      points := map[];
    }

    method Upsert(batch: seq<VectorPoint>, reply: StoreReply) returns (r: Option<StoreError>)
      modifies this
      ensures reply.Applied? ==> r == None && points == Written(old(points), batch)
      ensures reply.Raised? ==>
        && r == Some(reply.error)
        && (forall k :: k in old(points) && !(exists p :: p in batch && p.chunkId == k) ==> k in points && points[k] == old(points)[k])
        && (forall k :: k in points ==> (k in old(points) && points[k] == old(points)[k]) || (points[k] in batch && points[k].chunkId == k))
    {
      var i := 0;
      while i < |batch|
        invariant 0 <= i <= |batch|
        invariant reply.Applied? ==> points == Written(old(points), batch[..i])
        invariant forall k :: k in old(points) && !(exists p :: p in batch && p.chunkId == k) ==> k in points && points[k] == old(points)[k]
        invariant forall k :: k in points ==> (k in old(points) && points[k] == old(points)[k]) || (points[k] in batch && points[k].chunkId == k)
      {
        if reply.Applied? || batch[i].chunkId in reply.reached {
          points := points[batch[i].chunkId := batch[i]];
        }
        assert batch[..i + 1][..i] == batch[..i];
        i := i + 1;
      }
      assert batch[..|batch|] == batch;
      r := if reply.Applied? then None else Some(reply.error);
    }

    method DeleteByDocumentVersion(v: VersionId, reply: StoreReply) returns (r: Option<StoreError>)
      modifies this
      ensures PointsElsewhere(points, v) == PointsElsewhere(old(points), v)
      ensures forall k :: k in points ==> k in old(points) && points[k] == old(points)[k]
      ensures r.None? <==> reply.Applied?
      ensures r.None? ==> points == PointsElsewhere(old(points), v)
    {
      if reply.Applied? {
        points := PointsElsewhere(points, v);
        return None;
      }
      points := map k | k in points && (points[k].version != v || k !in reply.reached) :: points[k];
      return Some(reply.error);
    }
  }

  // ---- Points of one version against the rest --------------------------

  /** Every point sits under its own chunk id, and each chunk id belongs to one version. */
  ghost predicate PointsKeyed(points: Points, home: map<ChunkId, VersionId>) {
    forall k :: k in points ==> points[k].chunkId == k && k in home && home[k] == points[k].version
  }

  ghost predicate BatchOf(batch: seq<VectorPoint>, home: map<ChunkId, VersionId>, v: VersionId) {
    forall i :: 0 <= i < |batch| ==> batch[i].version == v && batch[i].chunkId in home && home[batch[i].chunkId] == v
  }

  lemma OnePointTouchesOnlyItsVersion(points: Points, p: VectorPoint, home: map<ChunkId, VersionId>, v: VersionId)
    requires PointsKeyed(points, home) && BatchOf([p], home, v)
    ensures PointsKeyed(points[p.chunkId := p], home)
    ensures PointsElsewhere(points[p.chunkId := p], v) == PointsElsewhere(points, v)
    ensures PointsOf(points[p.chunkId := p], v) == PointsOf(points, v)[p.chunkId := p]
  {
    assert [p][0] == p;
  }

  lemma {:induction false} WrittenTouchesOnlyItsVersion(points: Points, batch: seq<VectorPoint>, home: map<ChunkId, VersionId>, v: VersionId)
    requires PointsKeyed(points, home) && BatchOf(batch, home, v)
    ensures PointsKeyed(Written(points, batch), home)
    ensures PointsElsewhere(Written(points, batch), v) == PointsElsewhere(points, v)
    ensures PointsOf(Written(points, batch), v) == Written(PointsOf(points, v), batch)
  {
    if batch == [] {
    } else {
      var front, last := batch[..|batch| - 1], batch[|batch| - 1];
      WrittenTouchesOnlyItsVersion(points, front, home, v);
      OnePointTouchesOnlyItsVersion(Written(points, front), last, home, v);
    }
  }

  /** An upsert replaces or adds the points of the batch, each under its own chunk, and leaves the others. */
  lemma {:induction false} WrittenIsUpsert(points: Points, batch: seq<VectorPoint>, k: ChunkId)
    ensures k in Written(points, batch) <==> k in points || exists i :: 0 <= i < |batch| && batch[i].chunkId == k
    ensures if exists i :: 0 <= i < |batch| && batch[i].chunkId == k then
              exists i :: 0 <= i < |batch| && batch[i].chunkId == k && Written(points, batch)[k] == batch[i]
            else k in points ==> Written(points, batch)[k] == points[k]
  {
    if batch == [] {
    } else {
      var n := |batch| - 1;
      WrittenIsUpsert(points, batch[..n], k);
      assert forall i :: 0 <= i < n ==> batch[..n][i] == batch[i];
      if batch[n].chunkId == k {
        assert Written(points, batch)[k] == batch[n];
      }
    }
  }

  lemma {:induction false} WrittenInBatches(points: Points, a: seq<VectorPoint>, b: seq<VectorPoint>)
    ensures Written(Written(points, a), b) == Written(points, a + b)
  {
    if b == [] {
      assert a + b == a;
    } else {
      WrittenInBatches(points, a, b[..|b| - 1]);
      assert (a + b)[..|a + b| - 1] == a + b[..|b| - 1];
    }
  }

  lemma PointsOfElsewhere(points: Points, points': Points, u: VersionId, v: VersionId)
    requires u != v && PointsElsewhere(points', v) == PointsElsewhere(points, v)
    ensures PointsOf(points', u) == PointsOf(points, u)
  {
    assert PointsOf(points, u) == PointsOf(PointsElsewhere(points, v), u);
    assert PointsOf(points', u) == PointsOf(PointsElsewhere(points', v), u);
  }

  // ---- What the two stores must agree on --------------------------------

  type ChunkTable = map<VersionId, seq<Chunk>>

  function ListChunks(table: ChunkTable, v: VersionId): seq<Chunk> {
    if v in table then table[v] else []
  }

  ghost predicate ChunksKeyed(table: ChunkTable, home: map<ChunkId, VersionId>) {
    forall v, i :: v in table && 0 <= i < |table[v]| ==>
      table[v][i].version == v && table[v][i].id in home && home[table[v][i].id] == v
  }

  ghost predicate VersionMatches(db: Tables, table: ChunkTable, points: Points, embedding: string -> Vector, v: VersionId)
    requires v in db.versions && db.versions[v].document in db.documents
  {
    match db.versions[v].status
    case Pending => PointsOf(points, v) == map[]
    case Failed => PointsOf(points, v) == map[]
    case Indexed =>
      PointsOf(points, v) == Written(map[], ExpectedPoints(ListChunks(table, v), db.documents[db.versions[v].document].base, v, embedding))
    case Processing => true
    case CleanupRequired => true
  }

  ghost predicate Consistent(db: Tables, table: ChunkTable, points: Points, embedding: string -> Vector) {
    forall v :: v in db.versions ==> db.versions[v].document in db.documents && VersionMatches(db, table, points, embedding, v)
  }

  /** The point the store should hold for a persisted chunk. */
  ghost function PointFor(chunk: Chunk, base: BaseId, v: VersionId, embedding: string -> Vector): VectorPoint {
    VectorPoint(chunk.id, embedding(chunk.content), base, v)
  }

  /**
   What agreement means for a search: an indexed version has a point for each of its persisted chunks, made of
   that chunk's own content in its document's base, and has no other point; a pending or failed one has none.
   */
  lemma AgreementIsPerChunk(db: Tables, table: ChunkTable, points: Points, embedding: string -> Vector, v: VersionId)
    requires Consistent(db, table, points, embedding) && v in db.versions && v in table
    requires forall i, j :: 0 <= i < j < |table[v]| ==> table[v][i].id != table[v][j].id
    ensures db.versions[v].document in db.documents
    ensures db.versions[v].status == Indexed ==>
      var base := db.documents[db.versions[v].document].base;
      && (forall i :: 0 <= i < |table[v]| ==>
            table[v][i].id in points && points[table[v][i].id] == PointFor(table[v][i], base, v, embedding))
      && (forall k :: k in points && points[k].version == v ==> exists i :: 0 <= i < |table[v]| && table[v][i].id == k)
    ensures db.versions[v].status in {Pending, Failed} ==> forall k :: k in points ==> points[k].version != v
  {
    assert VersionMatches(db, table, points, embedding, v);
    if db.versions[v].status == Indexed {
      var base := db.documents[db.versions[v].document].base;
      var expected := ExpectedPoints(ListChunks(table, v), base, v, embedding);
      assert |expected| == |table[v]| && forall i :: 0 <= i < |expected| ==> expected[i] == PointFor(table[v][i], base, v, embedding);
      forall i | 0 <= i < |table[v]|
        ensures table[v][i].id in points && points[table[v][i].id] == PointFor(table[v][i], base, v, embedding)
      {
        WrittenIsUpsert(map[], expected, table[v][i].id);
        assert expected[i].chunkId == table[v][i].id;
        assert table[v][i].id in PointsOf(points, v);
      }
      forall k | k in points && points[k].version == v ensures exists i :: 0 <= i < |table[v]| && table[v][i].id == k {
        assert k in PointsOf(points, v);
        WrittenIsUpsert(map[], expected, k);
        var i :| 0 <= i < |expected| && expected[i].chunkId == k;
        assert table[v][i].id == k;
      }
    } else if db.versions[v].status in {Pending, Failed} {
      forall k | k in points ensures points[k].version != v {
        assert k !in PointsOf(points, v);
      }
    }
  }

  /** The row of v and the active pointers may have changed, nothing else. */
  ghost predicate SameBut(db: Tables, db': Tables, v: VersionId) {
    && db'.documents.Keys == db.documents.Keys
    && (forall d :: d in db.documents ==> db'.documents[d].base == db.documents[d].base)
    && db'.versions.Keys == db.versions.Keys
    && (forall u :: u in db.versions && u != v ==> db'.versions[u] == db.versions[u])
    && (v in db.versions ==> db'.versions[v].document == db.versions[v].document)
  }

  /** Active pointers stay, unless this very step made v indexed; then they move as promotion says. */
  ghost predicate PointersMove(db: Tables, db': Tables, d: DocumentId, v: VersionId) {
    || db'.documents == db.documents
    || (&& v in db.versions && v in db'.versions
        && db.versions[v].status != Indexed && db'.versions[v].status == Indexed
        && db'.documents == Promoted(db, d, v, db.versions[v].number).documents)
  }

  lemma OneVersionAtATime(db: Tables, db': Tables, table: ChunkTable, points: Points, points': Points,
                          embedding: string -> Vector, v: VersionId)
    requires Consistent(db, table, points, embedding) && SameBut(db, db', v)
    requires PointsElsewhere(points', v) == PointsElsewhere(points, v)
    requires v in db.versions ==> VersionMatches(db', table, points', embedding, v)
    ensures Consistent(db', table, points', embedding)
  {
    forall u | u in db'.versions ensures VersionMatches(db', table, points', embedding, u) {
      if u != v {
        PointsOfElsewhere(points, points', u, v);
        assert VersionMatches(db, table, points, embedding, u);
      }
    }
  }

  // ---- The service -------------------------------------------------------

  class KnowledgeService {
    const repository: KnowledgeRepository
    const store: VectorStore
    const world: World
    const chunks: ChunkTable
    const blank: string -> bool
    const dimension: nat
    const embeddingBatchSize: int
    const upsertBatchSize: int
    ghost const embedding: string -> Vector
    ghost const home: map<ChunkId, VersionId>

    constructor (repository: KnowledgeRepository, store: VectorStore, world: World, chunks: ChunkTable,
                 blank: string -> bool, dimension: nat, embeddingBatchSize: int, upsertBatchSize: int,
                 ghost embedding: string -> Vector, ghost home: map<ChunkId, VersionId>)
      ensures this.repository == repository && this.store == store && this.world == world
      ensures this.chunks == chunks && this.embedding == embedding && this.home == home
      ensures this.blank == blank && this.dimension == dimension
      ensures this.embeddingBatchSize == embeddingBatchSize && this.upsertBatchSize == upsertBatchSize
    {
      this.repository, this.store, this.world, this.chunks := repository, store, world, chunks;
      this.blank, this.dimension := blank, dimension;
      this.embeddingBatchSize, this.upsertBatchSize := embeddingBatchSize, upsertBatchSize;
      this.embedding, this.home := embedding, home;
    }

    /** Between two transactions. */
    ghost predicate Ready()
      reads repository, world
    {
      repository.Clean() && world.Scheduled()
    }

    ghost predicate Valid()
      reads this, repository, store, world
    {
      && Ready()
      && world.TruthfulProvider(embedding)
      && ChunksKeyed(chunks, home)
      && PointsKeyed(store.points, home)
      && Consistent(repository.committed, chunks, store.points, embedding)
    }

    /** The calls made since the log was `before`. */
    ghost function Since(before: seq<Call>): seq<Call>
      reads world
    {
      if before <= world.log then world.log[|before|..] else []
    }

    ghost function Met(before: seq<Call>): set<Fault>
      reads world
    {
      Faults(Since(before), dimension)
    }

    /** The call since `before` ended with this answer of the outside. */
    ghost predicate EndedWith(before: seq<Call>, last: Call)
      reads world
    {
      before < world.log && world.log[|world.log| - 1] == last
    }

    /** Faults met since `before` were met up to `middle` or after it. */
    lemma MetInTwoParts(before: seq<Call>, middle: seq<Call>)
      requires before <= middle <= world.log
      ensures Met(before) == Faults(middle[|before|..], dimension) + Met(middle)
    {
      FaultsJoin(middle[|before|..], Since(middle), dimension);
      assert Since(before) == middle[|before|..] + Since(middle);
    }

    lemma FaultIsMet(before: seq<Call>, call: Call)
      requires call in Since(before)
      ensures FaultOf(call, dimension).Some? ==> FaultOf(call, dimension).value in Met(before)
    {}

    lemma NothingBefore(before: seq<Call>, middle: seq<Call>)
      requires before <= middle <= world.log && Faults(middle[|before|..], dimension) == {}
      ensures Met(before) == Met(middle)
    {
      MetInTwoParts(before, middle);
    }

    lemma MetOne(before: seq<Call>, call: Call, after: seq<Call>)
      requires after == before + [call]
      ensures Faults(after[|before|..], dimension) == match FaultOf(call, dimension) case None => {} case Some(fault) => {fault}
    {
      FaultsOfOne(call, dimension);
      assert after[|before|..] == [call];
    }

    /** get_owned_document: the row exists and its owner may process it now. */
    method GetOwnedDocument(d: DocumentId) returns (document: Option<DocumentRow>)
      requires world.Scheduled()
      modifies world
      ensures world.Scheduled()
      ensures world.log == old(world.log) + [Looked(world.visible(|old(world.log)|))]
      ensures document == if d in repository.working.documents && world.visible(|old(world.log)|) then Some(repository.working.documents[d]) else None
    {
      var seen := world.Look();
      document := if d in repository.working.documents && seen then Some(repository.working.documents[d]) else None;
    }

    /** What the outside answered last decides how a transaction ends: the document is not seen, or the commit raises, or it is done. */
    ghost predicate Told<T>(r: Result<T, IndexError>, before: seq<Call>, d: DocumentId, documents: map<DocumentId, DocumentRow>)
      reads world
    {
      && before < world.log
      && match r
         case Ok(_) => EndedWith(before, Committed(true))
         case Err(e) =>
           || (e == VersionWrite && EndedWith(before, Committed(false)))
           || (e == DocumentNotFound && (EndedWith(before, Looked(false)) || (EndedWith(before, Looked(true)) && d !in documents)))
    }

    method ClaimPending(d: DocumentId, v: VersionId) returns (r: Result<Option<VersionRow>, IndexError>)
      requires Ready()
      modifies repository, world
      ensures Ready()
      ensures r.Err? ==> repository.committed == old(repository.committed)
      ensures r.Ok? ==>
        match Claimed(old(repository.committed), d, v)
        case None => r.value == None && repository.committed == old(repository.committed)
        case Some(db) => repository.committed == db && v in db.versions && r.value == Some(db.versions[v])
      ensures Told(r, old(world.log), d, old(repository.committed).documents)
      ensures r.Ok? ==> d in old(repository.committed).documents && Met(old(world.log)) == {}
    {
      var document := GetOwnedDocument(d);
      if document.None? {
        return Err(DocumentNotFound);
      }
      var claimed := repository.ClaimPendingVersion(d, v);
      var ok := world.Commit();
      if !ok {
        repository.Rollback();
        return Err(VersionWrite);
      }
      repository.Commit();
      LastCommit(old(world.log));
      return Ok(claimed);
    }

    /** Completion misses without a commit when the version is not processing any more. */
    method CompleteVersionIndexing(d: DocumentId, v: VersionId) returns (r: Result<Option<VersionRow>, IndexError>)
      requires Ready()
      modifies repository, world
      ensures Ready()
      ensures r.Err? ==> repository.committed == old(repository.committed)
      ensures r.Ok? ==>
        match Completed(old(repository.committed), d, v)
        case None => r.value == None && repository.committed == old(repository.committed)
        case Some(db) => repository.committed == db && v in db.versions && r.value == Some(db.versions[v])
      ensures old(world.log) <= world.log
      ensures r != Ok(None) ==> Told(r, old(world.log), d, old(repository.committed).documents)
      ensures r.Ok? && r.value.Some? ==> Since(old(world.log)) == [Looked(true), Committed(true)]
      ensures r == Err(VersionWrite) ==> Since(old(world.log)) == [Looked(true), Committed(false)]
    {
      var document := GetOwnedDocument(d);
      if document.None? {
        return Err(DocumentNotFound);
      }
      var completed := repository.CompleteProcessingVersion(d, v);
      if completed.None? {
        repository.Rollback();
        return Ok(None);
      }
      var _ := repository.PromoteActiveVersion(d, v, completed.value.number);
      var ok := world.Commit();
      if !ok {
        repository.Rollback();
        return Err(VersionWrite);
      }
      repository.Commit();
      return Ok(completed);
    }

    method MarkVersionIndexingFailed(d: DocumentId, v: VersionId, cleanupRequired: bool, reason: FailureReason)
      returns (r: Result<Option<VersionRow>, IndexError>)
      requires Ready()
      modifies repository, world
      ensures Ready()
      ensures r.Err? ==> repository.committed == old(repository.committed)
      ensures r.Ok? ==>
        match Finished(old(repository.committed), d, v, TargetStatus(cleanupRequired), Some(reason))
        case None => r.value == None && repository.committed == old(repository.committed)
        case Some(db) => repository.committed == db && v in db.versions && r.value == Some(db.versions[v])
      ensures Told(r, old(world.log), d, old(repository.committed).documents)
      ensures r.Ok? ==> Since(old(world.log)) == [Looked(true), Committed(true)]
    {
      var document := GetOwnedDocument(d);
      if document.None? {
        return Err(DocumentNotFound);
      }
      var failed := repository.FailProcessingVersion(d, v, cleanupRequired, reason);
      var ok := world.Commit();
      if !ok {
        repository.Rollback();
        return Err(VersionWrite);
      }
      repository.Commit();
      return Ok(failed);
    }

    ghost predicate HasBlank(v: VersionId) {
      exists c :: c in ListChunks(chunks, v) && blank(c.content)
    }

    /** All calls are embeddings of at most a batch of texts. */
    ghost predicate EmbedsInBatches(calls: seq<Call>) {
      forall call :: call in calls ==> call.Embedded? && 1 <= |call.texts| <= embeddingBatchSize
    }

    /** Batches recorded one after the other, each without a fault, are recorded without a fault. */
    lemma OneMoreCall(before: seq<Call>, logged: seq<Call>, call: Call)
      requires before <= logged && world.log == logged + [call] && Faults(logged[|before|..], dimension) == {}
      ensures Met(before) == match FaultOf(call, dimension) case None => {} case Some(fault) => {fault}
      ensures Since(before) == logged[|before|..] + [call]
    {
      MetInTwoParts(before, logged);
      MetOne(logged, call, world.log);
    }

    method EmbedBatch(batch: seq<Chunk>) returns (r: Result<seq<ChunkVector>, IndexError>)
      requires world.TruthfulProvider(embedding) && 1 <= |batch| <= embeddingBatchSize
      requires world.Scheduled()
      modifies world
      ensures world.Scheduled()
      ensures |world.log| == |old(world.log)| + 1 && world.log[..|old(world.log)|] == old(world.log)
      ensures var call := world.log[|old(world.log)|];
              && call.Embedded? && call.texts == Contents(batch)
              && (r.Ok? <==> FaultOf(call, dimension) == None && forall c :: c in batch ==> !blank(c.content))
              && FaultOf(call, dimension) in {None, Some(EmbeddingRefused)}
      ensures r.Ok? ==> r.value == ExpectedVectors(batch, embedding)
      ensures r.Err? ==> r.error == AIFailed
    {
      var texts := Contents(batch);
      var reply := world.Embed(texts);
      var result := EmbedThroughGateway(texts, blank, dimension, reply);
      assert forall i :: 0 <= i < |texts| ==> texts[i] == batch[i].content;
      assert forall c :: c in batch ==> c.content in texts;
      if result.Err? {
        return Err(AIFailed);
      }
      AcceptedAnswerIsInTextOrder(reply.items, texts, embedding, result.value);
      return Ok(seq(|batch|, i requires 0 <= i < |batch| => ChunkVector(batch[i].id, result.value[i])));
    }

    lemma VectorsInBatches(a: seq<Chunk>, b: seq<Chunk>)
      ensures ExpectedVectors(a + b, embedding) == ExpectedVectors(a, embedding) + ExpectedVectors(b, embedding)
    {}

    lemma EmbedsOn(calls: seq<Call>, call: Call)
      requires EmbedsInBatches(calls) && call.Embedded? && 1 <= |call.texts| <= embeddingBatchSize
      ensures EmbedsInBatches(calls + [call])
    {}

    method EmbedChunkBatches(batchOf: seq<Chunk>) returns (r: Result<seq<ChunkVector>, IndexError>)
      requires world.TruthfulProvider(embedding)
      requires world.Scheduled()
      modifies world
      ensures world.Scheduled()
      ensures old(world.log) <= world.log && EmbedsInBatches(Since(old(world.log)))
      ensures r.Ok? ==> r.value == ExpectedVectors(batchOf, embedding)
      ensures r == Err(VersionWrite) <==> embeddingBatchSize <= 0
      ensures r.Ok? ==> Met(old(world.log)) == {} && forall c :: c in batchOf ==> !blank(c.content)
      ensures r.Err? && r.error != VersionWrite ==>
        && r.error == AIFailed
        && (Met(old(world.log)) == {EmbeddingRefused} || (Met(old(world.log)) == {} && exists c :: c in batchOf && blank(c.content)))
      ensures embeddingBatchSize <= 0 ==> world.log == old(world.log)
    {
      if embeddingBatchSize <= 0 {
        return Err(VersionWrite);
      }
      var vectors := [];
      var start := 0;
      while start < |batchOf|
        invariant 0 <= start <= |batchOf|
        invariant vectors == ExpectedVectors(batchOf[..start], embedding)
        invariant world.Scheduled()
        invariant old(world.log) <= world.log && EmbedsInBatches(Since(old(world.log))) && Met(old(world.log)) == {}
        invariant forall c :: c in batchOf[..start] ==> !blank(c.content)
      {
        ghost var logged := world.log;
        var end := if start + embeddingBatchSize <= |batchOf| then start + embeddingBatchSize else |batchOf|;
        var batch := batchOf[start..end];
        var paired := EmbedBatch(batch);
        OneMoreCall(old(world.log), logged, world.log[|logged|]);
        EmbedsOn(logged[|old(world.log)|..], world.log[|logged|]);
        if paired.Err? {
          return Err(AIFailed);
        }
        VectorsInBatches(batchOf[..start], batch);
        SliceGrows(batchOf, start, end);
        vectors := vectors + paired.value;
        start := end;
      }
      assert batchOf[..start] == batchOf;
      return Ok(vectors);
    }

    method BuildVectorPoints(d: DocumentId, document: DocumentRow, v: VersionId, row: VersionRow,
                             of: seq<Chunk>, vectors: seq<ChunkVector>)
      returns (r: Result<seq<VectorPoint>, IndexError>)
      ensures r.Ok? <==>
        && row.document == d
        && |of| == |vectors|
        && forall i :: 0 <= i < |of| ==> of[i].version == v && vectors[i].chunkId == of[i].id
      ensures r.Ok? ==> |r.value| == |of|
      ensures r.Ok? ==> forall i :: 0 <= i < |of| ==> r.value[i] == VectorPoint(of[i].id, vectors[i].vector, document.base, v)
      ensures r.Err? ==> r.error == VectorStoreError(Input)
    {
      if row.document != d || |of| != |vectors| {
        return Err(VectorStoreError(Input));
      }
      var points := [];
      for i := 0 to |of|
        invariant |points| == i
        invariant forall k :: 0 <= k < i ==> of[k].version == v && vectors[k].chunkId == of[k].id
        invariant forall k :: 0 <= k < i ==> points[k] == VectorPoint(of[k].id, vectors[k].vector, document.base, v)
      {
        if of[i].version != v || vectors[i].chunkId != of[i].id {
          return Err(VectorStoreError(Input));
        }
        points := points + [VectorPoint(of[i].id, vectors[i].vector, document.base, v)];
      }
      return Ok(points);
    }

    method CleanupFailedVectorWrite(v: VersionId) returns (cleaned: bool)
      requires world.Scheduled()
      modifies store, world
      ensures world.Scheduled()
      ensures PointsElsewhere(store.points, v) == PointsElsewhere(old(store.points), v)
      ensures forall k :: k in store.points ==> k in old(store.points) && store.points[k] == old(store.points)[k]
      ensures cleaned ==> store.points == PointsElsewhere(old(store.points), v)
      ensures world.log == old(world.log) + [Deleted(v, world.store(|old(world.log)|))]
      ensures cleaned <==> world.store(|old(world.log)|).Applied?
    {
      var reply := world.Delete(v);
      var failed := store.DeleteByDocumentVersion(v, reply);
      cleaned := failed.None?;
    }

    /** The last two calls are an upsert that raised and the deletion after it: the error is the upsert's own if the deletion was applied. */
    ghost predicate Compensated(log: seq<Call>, v: VersionId, e: IndexError) {
      && |log| >= 2
      && var upsert, deletion := log[|log| - 2], log[|log| - 1];
         && upsert.Upserted? && upsert.reply.Raised? && deletion.Deleted? && deletion.v == v
         && e == if deletion.reply.Applied? then VectorStoreError(upsert.reply.error) else CleanupNeeded
    }

    /** One batch; a batch that raises takes every point of the version with it, or reports that it could not. */
    method UpsertBatch(v: VersionId, batch: seq<VectorPoint>) returns (r: Option<IndexError>)
      requires PointsKeyed(store.points, home) && BatchOf(batch, home, v) && 1 <= |batch| <= upsertBatchSize
      requires world.Scheduled()
      modifies store, world
      ensures world.Scheduled()
      ensures PointsKeyed(store.points, home)
      ensures PointsElsewhere(store.points, v) == PointsElsewhere(old(store.points), v)
      ensures r.None? ==> store.points == Written(old(store.points), batch)
      ensures r.None? ==> world.log == old(world.log) + [Upserted(batch, Applied)]
      ensures r.Some? ==>
        && |world.log| == |old(world.log)| + 2 && old(world.log) <= world.log
        && world.log[|old(world.log)|].Upserted? && world.log[|old(world.log)|].batch == batch && Compensated(world.log, v, r.value)
      ensures r.Some? && r.value.VectorStoreError? ==> store.points == PointsElsewhere(old(store.points), v)
    {
      var reply := world.Upsert(batch);
      var raised := store.Upsert(batch, reply);
      if raised.None? {
        WrittenTouchesOnlyItsVersion(old(store.points), batch, home, v);
        return None;
      }
      PartialWriteTouchesOnlyItsVersion(old(store.points), store.points, batch, home, v);
      var cleaned := CleanupFailedVectorWrite(v);
      return Some(if cleaned then VectorStoreError(raised.value) else CleanupNeeded);
    }

    /** Every upsert carries at most a batch of points. */
    ghost predicate UpsertsInBatches(calls: seq<Call>) {
      forall call :: call in calls && call.Upserted? ==> 1 <= |call.batch| <= upsertBatchSize
    }

    /** The faults that an error of the vector write stands for. */
    ghost predicate WriteFaults(e: IndexError, met: set<Fault>) {
      match e
      case CleanupNeeded => met == {UpsertRaised, DeletionRaised}
      case VectorStoreError(error) => met == {UpsertRaised} || (met == {} && upsertBatchSize <= 0 && error == Input)
      case _ => false
    }

    lemma TwoCalls(upsert: Call, deletion: Call)
      requires upsert.Upserted? && upsert.reply.Raised? && deletion.Deleted?
      ensures Faults([upsert, deletion], dimension) == if deletion.reply.Applied? then {UpsertRaised} else {UpsertRaised, DeletionRaised}
    {
      assert [upsert, deletion] == [upsert] + [deletion];
      FaultsJoin([upsert], [deletion], dimension);
      FaultsOfOne(upsert, dimension);
      FaultsOfOne(deletion, dimension);
    }

    /** Only whole batches since `before`, each of them applied. */
    ghost predicate Flowing(before: seq<Call>, log: seq<Call>) {
      before <= log && UpsertsInBatches(log[|before|..]) && Faults(log[|before|..], dimension) == {}
    }

    lemma FlowsOn(before: seq<Call>, logged: seq<Call>, call: Call)
      requires Flowing(before, logged) && call.Upserted? && 1 <= |call.batch| <= upsertBatchSize && call.reply.Applied?
      ensures Flowing(before, logged + [call])
    {
      FaultsJoin(logged[|before|..], [call], dimension);
      FaultsOfOne(call, dimension);
      assert (logged + [call])[|before|..] == logged[|before|..] + [call];
    }

    lemma CompensationFaults(before: seq<Call>, logged: seq<Call>, upsert: Call, deletion: Call, v: VersionId, e: IndexError)
      requires Flowing(before, logged) && world.log == logged + [upsert, deletion] && Compensated(world.log, v, e)
      requires upsert.Upserted? && 1 <= |upsert.batch| <= upsertBatchSize
      ensures WriteFaults(e, Met(before)) && UpsertsInBatches(Since(before)) && before <= world.log
    {
      TwoCalls(upsert, deletion);
      FaultsJoin(logged[|before|..], [upsert, deletion], dimension);
      assert Since(before) == logged[|before|..] + [upsert, deletion];
    }

    /**
     All batches arrive; or one raises, and the error is its own exactly if the deletion after it
     was applied.
     */
    method UpsertVectorPoints(v: VersionId, points: seq<VectorPoint>) returns (r: Option<IndexError>)
      requires PointsKeyed(store.points, home) && BatchOf(points, home, v)
      requires world.Scheduled()
      modifies store, world
      ensures world.Scheduled()
      ensures PointsKeyed(store.points, home)
      ensures PointsElsewhere(store.points, v) == PointsElsewhere(old(store.points), v)
      ensures r.None? ==> store.points == Written(old(store.points), points)
      ensures old(world.log) <= world.log && UpsertsInBatches(Since(old(world.log)))
      ensures points == [] ==> r == None && world.log == old(world.log)
      ensures r.None? ==> Met(old(world.log)) == {} && (points == [] || upsertBatchSize > 0)
      ensures r.Some? ==>
        && WriteFaults(r.value, Met(old(world.log)))
        && if upsertBatchSize <= 0 then r == Some(VectorStoreError(Input)) && world.log == old(world.log)
           else Compensated(world.log, v, r.value)
      ensures r.Some? && r.value.VectorStoreError? ==>
        store.points == old(store.points) || store.points == PointsElsewhere(old(store.points), v)
    {
      if points == [] {
        return None;
      }
      if upsertBatchSize <= 0 {
        return Some(VectorStoreError(Input));
      }
      var start := 0;
      while start < |points|
        invariant 0 <= start <= |points|
        invariant store.points == Written(old(store.points), points[..start])
        invariant PointsKeyed(store.points, home)
        invariant PointsElsewhere(store.points, v) == PointsElsewhere(old(store.points), v)
        invariant world.Scheduled() && Flowing(old(world.log), world.log)
      {
        ghost var logged := world.log;
        var end := if start + upsertBatchSize <= |points| then start + upsertBatchSize else |points|;
        var batch := points[start..end];
        r := UpsertBatch(v, batch);
        if r.Some? {
          CompensationFaults(old(world.log), logged, world.log[|logged|], world.log[|logged| + 1], v, r.value);
          return;
        }
        FlowsOn(old(world.log), logged, Upserted(batch, Applied));
        WrittenInBatches(old(store.points), points[..start], batch);
        SliceGrows(points, start, end);
        start := end;
      }
      assert points[..start] == points;
      return None;
    }

    /** The configuration and the chunks of v leave nothing to refuse. */
    ghost predicate Fine(v: VersionId) {
      embeddingBatchSize > 0 && upsertBatchSize > 0 && ListChunks(chunks, v) != [] && !HasBlank(v)
    }

    /** Why each failure is recorded: the faults that were met, and no others. */
    ghost predicate Because(reason: FailureReason, v: VersionId, met: set<Fault>) {
      (reason == MissingChunks <==> ListChunks(chunks, v) == []) &&
      match reason
      case MissingChunks => met == {}
      case EmbeddingFailed => embeddingBatchSize > 0 && (met == {EmbeddingRefused} || (met == {} && HasBlank(v)))
      case VectorStoreFailed => embeddingBatchSize > 0 && !HasBlank(v) && (met == {UpsertRaised} || (met == {} && upsertBatchSize <= 0))
      case VectorCleanupFailed => met == {UpsertRaised, DeletionRaised} || met == {CommitRaised, DeletionRaised}
      case IndexStateWriteFailed => met == {CommitRaised} || (met == {} && embeddingBatchSize <= 0)
    }

    /** The faults met determine the reason, and exclude success. */
    lemma OneReason(v: VersionId, met: set<Fault>, a: FailureReason, b: FailureReason)
      requires Because(a, v, met)
      ensures Because(b, v, met) ==> a == b
      ensures met == {} ==> !Fine(v)
    {
      assert met == {UpsertRaised, DeletionRaised} || met == {CommitRaised, DeletionRaised} ==> DeletionRaised in met;
    }

    /** A failure of the write or of its recording. */
    ghost predicate AttemptFaults(e: IndexError, vectorsWritten: bool, v: VersionId, met: set<Fault>) {
      match e
      case AIFailed => embeddingBatchSize > 0 && (met == {EmbeddingRefused} || (met == {} && HasBlank(v)))
      case VersionWrite => if vectorsWritten then met == {CommitRaised} else met == {} && embeddingBatchSize <= 0
      case DocumentNotFound => true
      case _ => embeddingBatchSize > 0 && !HasBlank(v) && WriteFaults(e, met)
    }

    /** Everything a failed or finished attempt may have done, in terms of its result. */
    ghost predicate AttemptOutcome(r: Result<VersionRow, IndexError>, vectorsWritten: bool, before: Tables, points: Points,
                                   d: DocumentId, base: BaseId, v: VersionId)
      reads repository, store, world
    {
      && Ready()
      && PointsKeyed(store.points, home)
      && PointsElsewhere(store.points, v) == PointsElsewhere(points, v)
      && match r
         case Ok(row) =>
           && Completed(before, d, v) == Some(repository.committed)
           && v in repository.committed.versions && row == repository.committed.versions[v]
           && store.points == Written(points, ExpectedPoints(ListChunks(chunks, v), base, v, embedding))
         case Err(e) =>
           && repository.committed == before
           && (e == AIFailed ==> store.points == points)
           && (e.VectorStoreError? ==> store.points == points || store.points == PointsElsewhere(points, v))
           && (e == VersionWrite && !vectorsWritten ==> store.points == points)
    }

    /** The points to write, once every batch of chunks is embedded. */
    method PreparePoints(d: DocumentId, document: DocumentRow, v: VersionId, row: VersionRow) returns (r: Result<seq<VectorPoint>, IndexError>)
      requires world.Scheduled() && world.TruthfulProvider(embedding) && ChunksKeyed(chunks, home) && row.document == d
      modifies world
      ensures world.Scheduled() && old(world.log) <= world.log
      ensures r.Ok? ==>
        && r.value == ExpectedPoints(ListChunks(chunks, v), document.base, v, embedding)
        && Met(old(world.log)) == {} && embeddingBatchSize > 0 && !HasBlank(v)
      ensures r.Err? ==> r.error in {AIFailed, VersionWrite} && AttemptFaults(r.error, false, v, Met(old(world.log)))
    {
      var mine := ListChunks(chunks, v);
      var vectors := EmbedChunkBatches(mine);
      if vectors.Err? {
        return Err(vectors.error);
      }
      r := BuildVectorPoints(d, document, v, row, mine, vectors.value);
      assert r.Ok? ==> r.value == ExpectedPoints(mine, document.base, v, embedding);
    }

    /** Write the points, then complete the version; `vectorsWritten` says whether it got as far as completing. */
    method WriteAndComplete(d: DocumentId, v: VersionId, points: seq<VectorPoint>, ghost base: BaseId)
      returns (r: Result<VersionRow, IndexError>, vectorsWritten: bool)
      requires Ready() && ChunksKeyed(chunks, home) && PointsKeyed(store.points, home)
      requires points == ExpectedPoints(ListChunks(chunks, v), base, v, embedding) && points != []
      requires Completed(repository.committed, d, v).Some? && embeddingBatchSize > 0 && !HasBlank(v)
      modifies repository, store, world
      ensures AttemptOutcome(r, vectorsWritten, old(repository.committed), old(store.points), d, base, v)
      ensures old(world.log) <= world.log
      ensures r.Ok? ==> upsertBatchSize > 0 && Met(old(world.log)) == {}
      ensures r.Ok? || r == Err(DocumentNotFound) ==> Told(r, old(world.log), d, old(repository.committed).documents)
      ensures r.Err? ==> AttemptFaults(r.error, vectorsWritten, v, Met(old(world.log)))
    {
      var failed := UpsertVectorPoints(v, points);
      vectorsWritten := failed.None?;
      if failed.Some? {
        return Err(failed.value), vectorsWritten;
      }
      ghost var written := world.log;
      r := CompleteWritten(d, v);
      NothingBefore(old(world.log), written);
    }

    /** The guarded part of index_document_version, up to the completion commit. */
    method Attempt(d: DocumentId, document: DocumentRow, v: VersionId, row: VersionRow)
      returns (r: Result<VersionRow, IndexError>, vectorsWritten: bool)
      requires Ready() && world.TruthfulProvider(embedding) && ChunksKeyed(chunks, home)
      requires PointsKeyed(store.points, home) && row.document == d
      requires ListChunks(chunks, v) != [] && Completed(repository.committed, d, v).Some?
      modifies repository, store, world
      ensures AttemptOutcome(r, vectorsWritten, old(repository.committed), old(store.points), d, document.base, v)
      ensures old(world.log) <= world.log
      ensures r.Ok? ==> Fine(v) && Met(old(world.log)) == {}
      ensures r.Ok? || r == Err(DocumentNotFound) ==> Told(r, old(world.log), d, old(repository.committed).documents)
      ensures r.Err? ==> AttemptFaults(r.error, vectorsWritten, v, Met(old(world.log)))
    {
      var points := PreparePoints(d, document, v, row);
      if points.Err? {
        return Err(points.error), false;
      }
      ghost var prepared := world.log;
      r, vectorsWritten := WriteAndComplete(d, v, points.value, document.base);
      NothingBefore(old(world.log), prepared);
    }

    /** The completion of a version that is processing: it is not missed. */
    method CompleteWritten(d: DocumentId, v: VersionId) returns (r: Result<VersionRow, IndexError>)
      requires Ready() && Completed(repository.committed, d, v).Some?
      modifies repository, world
      ensures Ready() && Told(r, old(world.log), d, old(repository.committed).documents)
      ensures r.Err? ==> repository.committed == old(repository.committed)
      ensures r.Ok? ==>
        && Completed(old(repository.committed), d, v) == Some(repository.committed)
        && v in repository.committed.versions && r.value == repository.committed.versions[v]
      ensures r.Ok? ==> Met(old(world.log)) == {}
      ensures r == Err(VersionWrite) ==> Met(old(world.log)) == {CommitRaised}
    {
      var completed := CompleteVersionIndexing(d, v);
      LastCommit(old(world.log));
      if completed.Err? {
        return Err(completed.error);
      }
      if completed.value.None? {
        return Err(VersionWrite);
      }
      return Ok(completed.value.value);
    }

    /** The faults of a transaction that was seen through to its commit. */
    lemma LastCommit(before: seq<Call>)
      ensures Since(before) == [Looked(true), Committed(true)] ==> Met(before) == {}
      ensures Since(before) == [Looked(true), Committed(false)] ==> Met(before) == {CommitRaised}
    {
      forall ok | Since(before) == [Looked(true), Committed(ok)] ensures Met(before) == if ok then {} else {CommitRaised} {
        FaultsJoin([Looked(true)], [Committed(ok)], dimension);
        FaultsOfOne(Looked(true), dimension);
        FaultsOfOne(Committed(ok), dimension);
        assert Since(before) == [Looked(true)] + [Committed(ok)];
      }
    }

    /** The failure is recorded on the row, and only a failed cleanup may leave points behind. */
    ghost predicate FailedAs(claimed: Tables, d: DocumentId, v: VersionId, reason: FailureReason, before: seq<Call>)
      reads repository, store, world
    {
      && Finished(claimed, d, v, TargetStatus(reason == VectorCleanupFailed), Some(reason)) == Some(repository.committed)
      && (reason != VectorCleanupFailed ==> PointsOf(store.points, v) == map[])
      && Because(reason, v, Met(before))
    }

    /** How a call that has claimed v leaves the two stores. */
    ghost predicate ClaimedOutcome(r: Result<Option<VersionRow>, IndexError>, claimed: Tables, points: Points,
                                   d: DocumentId, base: BaseId, v: VersionId, before: seq<Call>)
      reads repository, store, world
    {
      var db := repository.committed;
      && PointsElsewhere(store.points, v) == PointsElsewhere(points, v)
      && Told(r, before, d, claimed.documents)
      && match r
         case Ok(None) => false
         case Ok(Some(row)) =>
           && v in db.versions && row == db.versions[v]
           && (|| (&& Completed(claimed, d, v) == Some(db) && Fine(v) && Met(before) == {}
                   && store.points == Written(points, ExpectedPoints(ListChunks(chunks, v), base, v, embedding)))
               || exists reason :: FailedAs(claimed, d, v, reason, before))
         case Err(e) => db == claimed
    }

    /** The whole effect of one call, from the tables, points and log it found. */
    ghost predicate IndexOutcome(r: Result<Option<VersionRow>, IndexError>, tables: Tables, points: Points,
                                 d: DocumentId, v: VersionId, before: seq<Call>)
      reads repository, store, world
    {
      && Told(r, before, d, tables.documents)
      && match Claimed(tables, d, v)
         case None => repository.committed == tables && store.points == points && (r.Ok? ==> r.value == None)
         case Some(claimed) =>
           || (repository.committed == tables && store.points == points && r.Err?)
           || (d in tables.documents && ClaimedOutcome(r, claimed, points, d, tables.documents[d].base, v, before))
    }

    /** Record one failure; the commit that records it may itself fail and escape. */
    method RecordFailure(d: DocumentId, v: VersionId, reason: FailureReason, ghost tables: Tables, ghost before: seq<Call>)
      returns (r: Result<Option<VersionRow>, IndexError>)
      requires Ready() && Claimed(tables, d, v) == Some(repository.committed)
      requires reason != VectorCleanupFailed ==> PointsOf(store.points, v) == map[]
      requires before <= world.log && Because(reason, v, Met(before))
      modifies repository, world
      ensures Ready() && old(world.log) <= world.log
      ensures Told(r, before, d, old(repository.committed).documents)
      ensures r.Err? ==> repository.committed == old(repository.committed)
      ensures r.Ok? ==> r.value.Some? && FailedAs(old(repository.committed), d, v, reason, before)
      ensures r.Ok? ==> v in repository.committed.versions && r.value.value == repository.committed.versions[v]
    {
      ghost var logged := world.log;
      r := MarkVersionIndexingFailed(d, v, reason == VectorCleanupFailed, reason);
      MetInTwoParts(before, logged);
      LastCommit(logged);
    }

    /** Which failure is recorded for which error; a completion that could not be committed takes the points with it first. */
    method Diagnose(v: VersionId, error: IndexError, vectorsWritten: bool, ghost before: seq<Call>) returns (reason: FailureReason)
      requires world.Scheduled() && PointsKeyed(store.points, home) && ListChunks(chunks, v) != [] && error != DocumentNotFound
      requires before <= world.log && AttemptFaults(error, vectorsWritten, v, Met(before))
      requires error != CleanupNeeded && !(error == VersionWrite && vectorsWritten) ==> PointsOf(store.points, v) == map[]
      modifies store, world
      ensures world.Scheduled() && PointsKeyed(store.points, home) && old(world.log) <= world.log
      ensures PointsElsewhere(store.points, v) == PointsElsewhere(old(store.points), v)
      ensures Because(reason, v, Met(before)) && (reason != VectorCleanupFailed ==> PointsOf(store.points, v) == map[])
    {
      match error {
        case CleanupNeeded => return VectorCleanupFailed;
        case AIFailed => return EmbeddingFailed;
        case VectorStoreError(_) => return VectorStoreFailed;
        case VersionWrite =>
          if !vectorsWritten {
            return IndexStateWriteFailed;
          }
          ghost var logged := world.log;
          var cleaned := CleanupFailedVectorWrite(v);
          MetInTwoParts(before, logged);
          MetOne(logged, world.log[|logged|], world.log);
          return if cleaned then IndexStateWriteFailed else VectorCleanupFailed;
      }
    }

    /** The handlers of index_document_version. */
    method HandleFailure(d: DocumentId, v: VersionId, error: IndexError, vectorsWritten: bool, ghost tables: Tables, ghost before: seq<Call>)
      returns (r: Result<Option<VersionRow>, IndexError>)
      requires Ready() && Claimed(tables, d, v) == Some(repository.committed) && ListChunks(chunks, v) != []
      requires before <= world.log && AttemptFaults(error, vectorsWritten, v, Met(before))
      requires error == DocumentNotFound ==> Told<()>(Err(error), before, d, repository.committed.documents)
      requires PointsKeyed(store.points, home)
      requires error != CleanupNeeded && error != DocumentNotFound && !(error == VersionWrite && vectorsWritten) ==> PointsOf(store.points, v) == map[]
      modifies repository, store, world
      ensures Ready() && PointsKeyed(store.points, home)
      ensures PointsElsewhere(store.points, v) == PointsElsewhere(old(store.points), v)
      ensures Told(r, before, d, old(repository.committed).documents)
      ensures r.Err? ==> repository.committed == old(repository.committed)
      ensures r.Ok? ==> r.value.Some? && v in repository.committed.versions && r.value.value == repository.committed.versions[v]
      ensures r.Ok? ==> exists reason :: FailedAs(old(repository.committed), d, v, reason, before)
      ensures old(world.log) <= world.log
    {
      if error == DocumentNotFound {
        // A document deleted meanwhile: no handler catches it, the version stays processing.
        return Err(error);
      }
      var reason := Diagnose(v, error, vectorsWritten, before);
      r := RecordFailure(d, v, reason, tables, before);
    }

    /** index_document_version once the version is claimed. */
    method IndexClaimed(d: DocumentId, document: DocumentRow, v: VersionId, row: VersionRow, ghost tables: Tables)
      returns (r: Result<Option<VersionRow>, IndexError>)
      requires Ready() && world.TruthfulProvider(embedding) && ChunksKeyed(chunks, home)
      requires PointsKeyed(store.points, home) && PointsOf(store.points, v) == map[]
      requires Claimed(tables, d, v) == Some(repository.committed) && row.document == d
      modifies repository, store, world
      ensures Ready() && PointsKeyed(store.points, home) && old(world.log) <= world.log
      ensures ClaimedOutcome(r, old(repository.committed), old(store.points), d, document.base, v, old(world.log))
    {
      if ListChunks(chunks, v) == [] {
        r := RecordFailure(d, v, MissingChunks, tables, old(world.log));
        return;
      }
      var result, vectorsWritten := Attempt(d, document, v, row);
      if result.Ok? {
        return Ok(Some(result.value));
      }
      EmptyUnlessWritten(old(store.points), store.points, v);
      r := HandleFailure(d, v, result.error, vectorsWritten, tables, old(world.log));
    }

    /** Calls without a fault before it do not change what a call is said to have met. */
    lemma OutcomeSinceEarlier(r: Result<Option<VersionRow>, IndexError>, claimed: Tables, points: Points,
                              d: DocumentId, base: BaseId, v: VersionId, before: seq<Call>, middle: seq<Call>)
      requires before <= middle <= world.log && Faults(middle[|before|..], dimension) == {}
      requires ClaimedOutcome(r, claimed, points, d, base, v, middle)
      ensures ClaimedOutcome(r, claimed, points, d, base, v, before)
    {
      MetInTwoParts(before, middle);
      if reason :| FailedAs(claimed, d, v, reason, middle) {
        assert FailedAs(claimed, d, v, reason, before);
      }
    }

    /** Nothing stands in the way of indexing this pending version. */
    ghost predicate WillIndex(tables: Tables, d: DocumentId, v: VersionId) {
      world.Healthy(dimension) && Fine(v) && Claimed(tables, d, v).Some?
    }

    /** In a healthy world no call meets a fault. */
    lemma HealthyMeetsNothing(before: seq<Call>)
      requires world.Scheduled() && world.Healthy(dimension)
      ensures Met(before) == {}
    {
      forall call | call in Since(before) ensures FaultOf(call, dimension) == None {
        var n :| |before| <= n < |world.log| && world.log[n] == call;
        assert world.Answered(n, world.log[n]);
      }
    }

    /** Without a fault a version that leaves nothing to refuse is indexed. */
    lemma IndexedWithoutFaults(r: Result<Option<VersionRow>, IndexError>, tables: Tables, points: Points,
                               d: DocumentId, v: VersionId, before: seq<Call>)
      requires IndexOutcome(r, tables, points, d, v, before) && Claimed(tables, d, v).Some? && d in tables.documents
      requires Met(before) == {} && Fine(v)
      ensures r.Ok? && r.value.Some? && r.value.value.status == Indexed
    {
      var last := world.log[|world.log| - 1];
      FaultIsMet(before, last);
      if r.Ok? {
        if reason :| FailedAs(Claimed(tables, d, v).value, d, v, reason, before) {
          OneReason(v, {}, reason, reason);
        }
      }
    }

    /** The document and the claimed version, or nothing when somebody else has it. */
    method ClaimForIndexing(d: DocumentId, v: VersionId) returns (r: Result<Option<(DocumentRow, VersionRow)>, IndexError>)
      requires Ready()
      modifies repository, world
      ensures Ready() && Told(r, old(world.log), d, old(repository.committed).documents)
      ensures match r
              case Err(_) => repository.committed == old(repository.committed)
              case Ok(None) => repository.committed == old(repository.committed) && Claimed(old(repository.committed), d, v) == None
              case Ok(Some(rows)) =>
                && Claimed(old(repository.committed), d, v) == Some(repository.committed) && v in repository.committed.versions
                && d in old(repository.committed).documents && Met(old(world.log)) == {}
                && rows == (old(repository.committed).documents[d], repository.committed.versions[v])
    {
      var document := GetOwnedDocument(d);
      if document.None? {
        return Err(DocumentNotFound);
      }
      ghost var looked := world.log;
      var claim := ClaimPending(d, v);
      MetOne(old(world.log), Looked(true), looked);
      MetInTwoParts(old(world.log), looked);
      if claim.Err? {
        return Err(claim.error);
      }
      return Ok(if claim.value.None? then None else Some((document.value, claim.value.value)));
    }

    /** What a call that claimed its version leaves behind, seen from before the claim. */
    lemma ClaimedCallEnds(r: Result<Option<VersionRow>, IndexError>, tables: Tables, claimed: Tables, points: Points,
                          d: DocumentId, v: VersionId, before: seq<Call>, middle: seq<Call>)
      requires Consistent(tables, chunks, points, embedding) && PointsKeyed(points, home) && ChunksKeyed(chunks, home)
      requires d in tables.documents && Claimed(tables, d, v) == Some(claimed) && PointsOf(points, v) == map[]
      requires before <= middle <= world.log && Faults(middle[|before|..], dimension) == {} && world.Scheduled()
      requires ClaimedOutcome(r, claimed, points, d, tables.documents[d].base, v, middle)
      ensures SameBut(tables, repository.committed, v) && PointersMove(tables, repository.committed, d, v)
      ensures Consistent(repository.committed, chunks, store.points, embedding)
      ensures IndexOutcome(r, tables, points, d, v, before)
      ensures WillIndex(tables, d, v) ==> r.Ok? && r.value.Some? && r.value.value.status == Indexed
    {
      OutcomeKeepsConsistency(r, tables, claimed, points, d, v, middle);
      OutcomeSinceEarlier(r, claimed, points, d, tables.documents[d].base, v, before, middle);
      if WillIndex(tables, d, v) {
        HealthyMeetsNothing(before);
        IndexedWithoutFaults(r, tables, points, d, v, before);
      }
    }

    method IndexDocumentVersion(d: DocumentId, v: VersionId) returns (r: Result<Option<VersionRow>, IndexError>)
      requires Valid()
      modifies repository, store, world
      ensures Valid()
      ensures SameBut(old(repository.committed), repository.committed, v)
      ensures PointersMove(old(repository.committed), repository.committed, d, v)
      ensures IndexOutcome(r, old(repository.committed), old(store.points), d, v, old(world.log))
      ensures WillIndex(old(repository.committed), d, v) ==> r.Ok? && r.value.Some? && r.value.value.status == Indexed
    {
      ghost var tables, points := repository.committed, store.points;
      assert Claimed(tables, d, v).Some? ==> PointsOf(points, v) == map[] by {
        assert v in tables.versions ==> VersionMatches(tables, chunks, points, embedding, v);
      }
      var claim := ClaimForIndexing(d, v);
      RefusedOnlyByFaults(old(world.log));
      if claim.Err? {
        return Err(claim.error);
      }
      if claim.value.None? {
        return Ok(None);
      }
      ghost var claimed, middle := repository.committed, world.log;
      var document, row := claim.value.value.0, claim.value.value.1;
      r := IndexClaimed(d, document, v, row, tables);
      ClaimedCallEnds(r, tables, claimed, points, d, v, old(world.log), middle);
    }

    lemma CompletedKeepsConsistency(tables: Tables, claimed: Tables, points: Points, d: DocumentId, v: VersionId)
      requires Consistent(tables, chunks, points, embedding) && PointsKeyed(points, home) && ChunksKeyed(chunks, home)
      requires d in tables.documents && Claimed(tables, d, v) == Some(claimed) && PointsOf(points, v) == map[]
      requires Completed(claimed, d, v) == Some(repository.committed)
      requires PointsElsewhere(store.points, v) == PointsElsewhere(points, v)
      requires store.points == Written(points, ExpectedPoints(ListChunks(chunks, v), tables.documents[d].base, v, embedding))
      ensures SameBut(tables, repository.committed, v) && PointersMove(tables, repository.committed, d, v)
      ensures Consistent(repository.committed, chunks, store.points, embedding)
    {
      CompletedPoints(points, store.points, tables.documents[d].base, v);
      OneVersionAtATime(tables, repository.committed, chunks, points, store.points, embedding, v);
    }

    /** A version left failed, in clean-up or processing, with or without points as its status allows. */
    lemma FailedKeepsConsistency(tables: Tables, points: Points, d: DocumentId, v: VersionId)
      requires Consistent(tables, chunks, points, embedding)
      requires SameBut(tables, repository.committed, v) && repository.committed.documents == tables.documents && v in tables.versions
      requires PointsElsewhere(store.points, v) == PointsElsewhere(points, v)
      requires match repository.committed.versions[v].status
               case Processing => true
               case CleanupRequired => true
               case Failed => PointsOf(store.points, v) == map[]
               case _ => false
      ensures PointersMove(tables, repository.committed, d, v)
      ensures Consistent(repository.committed, chunks, store.points, embedding)
    {
      OneVersionAtATime(tables, repository.committed, chunks, points, store.points, embedding, v);
    }

    lemma OutcomeKeepsConsistency(r: Result<Option<VersionRow>, IndexError>, tables: Tables, claimed: Tables,
                                  points: Points, d: DocumentId, v: VersionId, logged: seq<Call>)
      requires Consistent(tables, chunks, points, embedding) && PointsKeyed(points, home) && ChunksKeyed(chunks, home)
      requires d in tables.documents && Claimed(tables, d, v) == Some(claimed) && PointsOf(points, v) == map[]
      requires ClaimedOutcome(r, claimed, points, d, tables.documents[d].base, v, logged)
      ensures SameBut(tables, repository.committed, v) && PointersMove(tables, repository.committed, d, v)
      ensures Consistent(repository.committed, chunks, store.points, embedding)
    {
      if r.Ok? && Completed(claimed, d, v) == Some(repository.committed)
         && store.points == Written(points, ExpectedPoints(ListChunks(chunks, v), tables.documents[d].base, v, embedding)) {
        CompletedKeepsConsistency(tables, claimed, points, d, v);
      } else {
        if reason :| FailedAs(claimed, d, v, reason, logged) {
          VersionTransitions(claimed, d, v, TargetStatus(reason == VectorCleanupFailed), Some(reason));
        }
        VersionTransitions(tables, d, v, Processing, None);
        FailedKeepsConsistency(tables, points, d, v);
      }
    }

    lemma CleaningMeetsNothing(before: seq<Call>, after: seq<Call>, v: VersionId)
      requires after == before || after == before + [Deleted(v, Applied)]
      ensures before <= after && Faults(after[|before|..], dimension) == {}
    {
      if after != before {
        MetOne(before, Deleted(v, Applied), after);
      }
    }

    method CleanBeforeRetry(d: DocumentId, v: VersionId, row: VersionRow) returns (cleaned: bool)
      requires Valid() && v in repository.committed.versions && repository.committed.versions[v] == row
      requires row.status in {Failed, CleanupRequired}
      modifies store, world
      ensures Valid()
      ensures PointsElsewhere(store.points, v) == PointsElsewhere(old(store.points), v)
      ensures cleaned ==> PointsOf(store.points, v) == map[]
      ensures if row.status == CleanupRequired then
                && world.log == old(world.log) + [Deleted(v, world.store(|old(world.log)|))]
                && (cleaned <==> world.store(|old(world.log)|).Applied?)
              else
                cleaned && world.log == old(world.log) && store.points == old(store.points)
    {
      cleaned := true;
      assert VersionMatches(repository.committed, chunks, store.points, embedding, v);
      if row.status == CleanupRequired {
        cleaned := CleanupFailedVectorWrite(v);
        OneVersionAtATime(repository.committed, repository.committed, chunks, old(store.points), store.points, embedding, v);
      }
    }

    method Requeue(d: DocumentId, v: VersionId) returns (r: Result<Option<VersionRow>, IndexError>)
      requires Valid() && PointsOf(store.points, v) == map[]
      modifies repository, world
      ensures Valid() && SameBut(old(repository.committed), repository.committed, v)
      ensures repository.committed.documents == old(repository.committed).documents
      ensures r.Err? ==> r.error == VersionWrite && repository.committed == old(repository.committed)
      ensures r.Ok? ==>
        match Requeued(old(repository.committed), d, v)
        case None => r.value == None && repository.committed == old(repository.committed)
        case Some(db) => repository.committed == db && v in db.versions && r.value == Some(db.versions[v])
      ensures world.log == old(world.log) + [Committed(r.Ok?)]
      ensures r.Ok? <==> world.commits(|old(world.log)|)
    {
      ghost var before := repository.committed;
      var requeued := repository.RequeueFailedVersion(d, v);
      var ok := world.Commit();
      if !ok {
        repository.Rollback();
        return Err(VersionWrite);
      }
      repository.Commit();
      OneVersionAtATime(before, repository.committed, chunks, store.points, store.points, embedding, v);
      return Ok(requeued);
    }

    lemma PointersMoveAfterRequeue(before: Tables, requeued: Tables, after: Tables, d: DocumentId, v: VersionId)
      requires Requeued(before, d, v) == Some(requeued) && PointersMove(requeued, after, d, v)
      ensures PointersMove(before, after, d, v)
    {}

    /** A failed version goes back to pending once its points are known to be gone. */
    method CleanAndRequeue(d: DocumentId, v: VersionId, row: VersionRow) returns (r: Result<VersionRow, IndexError>)
      requires Valid() && v in repository.committed.versions && repository.committed.versions[v] == row
      requires row.document == d && row.status in {Failed, CleanupRequired}
      modifies repository, store, world
      ensures Valid() && SameBut(old(repository.committed), repository.committed, v)
      ensures repository.committed.documents == old(repository.committed).documents
      ensures PointsElsewhere(store.points, v) == PointsElsewhere(old(store.points), v)
      ensures r.Ok? ==>
        && v in repository.committed.versions && repository.committed.versions[v] == r.value
        && r.value.document == d && r.value.status == Pending && Claimed(repository.committed, d, v).Some?
        && Requeued(old(repository.committed), d, v) == Some(repository.committed)
      ensures r.Err? ==> repository.committed == old(repository.committed) && r.error in {RetryRefused, VersionWrite}
      ensures old(world.log) < world.log && (r.Ok? ==> Met(old(world.log)) == {})
      ensures r.Ok? <==> EndedWith(old(world.log), Committed(true))
      ensures r == Err(VersionWrite) <==> EndedWith(old(world.log), Committed(false))
      ensures r == Err(RetryRefused) ==>
        && row.status == CleanupRequired && world.log == old(world.log) + [Deleted(v, world.store(|old(world.log)|))]
        && world.store(|old(world.log)|).Raised?
    {
      var cleaned := CleanBeforeRetry(d, v, row);
      if !cleaned {
        return Err(RetryRefused);
      }
      ghost var logged := world.log;
      CleaningMeetsNothing(old(world.log), logged, v);
      var requeued := Requeue(d, v);
      NothingBefore(old(world.log), logged);
      MetOne(logged, Committed(requeued.Ok?), world.log);
      return if requeued.Err? then Err(requeued.error) else Ok(requeued.value.value);
    }

    /** A version left failed or in clean-up says why: its reason is that of the faults met. */
    ghost predicate ReasonHasCause(v: VersionId, met: set<Fault>)
      reads repository
    {
      v in repository.committed.versions && repository.committed.versions[v].status in {Failed, CleanupRequired} ==>
        && repository.committed.versions[v].failure.Some?
        && var reason := repository.committed.versions[v].failure.value;
           && (repository.committed.versions[v].status == CleanupRequired <==> reason == VectorCleanupFailed)
           && Because(reason, v, met)
    }

    /** How the retry of a row that is pending or failed ends is what the outside answered last. */
    ghost predicate RetryEnds<T>(r: Result<T, IndexError>, before: seq<Call>, d: DocumentId, v: VersionId, row: VersionRow,
                                 documents: map<DocumentId, DocumentRow>)
      reads world
    {
      if r == Err(RetryRefused) then
        && before < world.log && row.status == CleanupRequired
        && var last := world.log[|world.log| - 1];
           last.Deleted? && last.v == v && last.reply.Raised?
      else
        Told(r, before, d, documents)
    }

    /** How a retry ends: nothing to retry, nothing to do, or as the outside answered last. */
    ghost predicate RetryTold<T>(r: Result<T, IndexError>, before: seq<Call>, base: BaseId, d: DocumentId, v: VersionId, tables: Tables)
      reads world
    {
      var seen := before < world.log && world.log[|before|] == Looked(true) && d in tables.documents && tables.documents[d].base == base;
      if !seen then
        r == Err(DocumentNotFound)
      else if v !in tables.versions || tables.versions[v].document != d then
        r == Err(VersionNotFound)
      else if tables.versions[v].status in {Processing, Indexed} then
        r.Ok?
      else
        RetryEnds(r, before, d, v, tables.versions[v], tables.documents)
    }

    method IndexIfPending(d: DocumentId, v: VersionId, row: VersionRow) returns (r: Result<VersionRow, IndexError>)
      requires Valid() && v in repository.committed.versions && repository.committed.versions[v] == row && row.document == d
      modifies repository, store, world
      ensures Valid() && SameBut(old(repository.committed), repository.committed, v)
      ensures PointersMove(old(repository.committed), repository.committed, d, v)
      ensures PointsElsewhere(store.points, v) == PointsElsewhere(old(store.points), v)
      ensures r.Ok? ==> v in repository.committed.versions && r.value == repository.committed.versions[v] && r.value.document == d
      ensures row.status != Pending ==>
        r == Ok(row) && repository.committed == old(repository.committed) && store.points == old(store.points) && world.log == old(world.log)
      ensures WillIndex(old(repository.committed), d, v) ==> r.Ok? && r.value.status == Indexed
      ensures row.status == Pending ==> old(world.log) < world.log && ReasonHasCause(v, Met(old(world.log)))
      ensures row.status == Pending ==> Told(r, old(world.log), d, old(repository.committed).documents)
    {
      if row.status != Pending {
        return Ok(row);
      }
      var indexed := IndexDocumentVersion(d, v);
      if indexed.Err? {
        return Err(indexed.error);
      }
      return Ok(repository.working.versions[v]);
    }

    /** The retry of a version that is there: clean-up and requeueing where needed, then indexing. */
    method RetryVersion(d: DocumentId, v: VersionId, row: VersionRow) returns (r: Result<VersionRow, IndexError>)
      requires Valid() && v in repository.committed.versions && repository.committed.versions[v] == row && row.document == d
      modifies repository, store, world
      ensures Valid()
      ensures SameBut(old(repository.committed), repository.committed, v)
      ensures PointersMove(old(repository.committed), repository.committed, d, v)
      ensures PointsElsewhere(store.points, v) == PointsElsewhere(old(store.points), v)
      ensures r.Ok? ==> v in repository.committed.versions && r.value == repository.committed.versions[v] && r.value.document == d
      ensures row.status in {Processing, Indexed} ==>
        r == Ok(row) && repository.committed == old(repository.committed) && store.points == old(store.points) && world.log == old(world.log)
      ensures row.status !in {Processing, Indexed} ==> RetryEnds(r, old(world.log), d, v, row, old(repository.committed).documents)
      ensures r == Err(RetryRefused) ==> repository.committed == old(repository.committed)
      ensures old(world.log) <= world.log
      ensures repository.committed != old(repository.committed) ==> ReasonHasCause(v, Met(old(world.log)))
      ensures world.Healthy(dimension) && Fine(v) && d in old(repository.committed).documents && row.status != Processing ==>
        r.Ok? && r.value.status == Indexed
    {
      var version := row;
      if version.status in {Failed, CleanupRequired} {
        var requeued := CleanAndRequeue(d, v, version);
        if requeued.Err? {
          RefusedOnlyByFaults(old(world.log));
          return Err(requeued.error);
        }
        version := requeued.value;
      }
      ghost var requeuedTables, logged := repository.committed, world.log;
      assert Faults(logged[|old(world.log)|..], dimension) == {};
      r := IndexIfPending(d, v, version);
      NothingBefore(old(world.log), logged);
      if requeuedTables != old(repository.committed) {
        PointersMoveAfterRequeue(old(repository.committed), requeuedTables, repository.committed, d, v);
      }
    }

    /** A call of a healthy world does not end with a raised deletion or commit. */
    lemma RefusedOnlyByFaults(before: seq<Call>)
      requires world.Scheduled() && before < world.log
      ensures world.Healthy(dimension) ==> FaultOf(world.log[|world.log| - 1], dimension) == None
    {
      assert world.Answered(|world.log| - 1, world.log[|world.log| - 1]);
    }

    method RetryDocumentVersion(base: BaseId, d: DocumentId, v: VersionId)
      returns (r: Result<(VersionRow, nat), IndexError>)
      requires Valid()
      modifies repository, store, world
      ensures Valid()
      ensures SameBut(old(repository.committed), repository.committed, v)
      ensures PointersMove(old(repository.committed), repository.committed, d, v)
      ensures PointsElsewhere(store.points, v) == PointsElsewhere(old(store.points), v)
      ensures r.Ok? ==>
        && v in repository.committed.versions && repository.committed.versions[v].document == d
        && r.value == (repository.committed.versions[v], |ListChunks(chunks, v)|)
      ensures v in old(repository.committed).versions && old(repository.committed).versions[v].status in {Processing, Indexed} ==>
                repository.committed == old(repository.committed) && store.points == old(store.points)
      ensures RetryTold(r, old(world.log), base, d, v, old(repository.committed))
      ensures r.Err? && r.error in {RetryRefused, VersionNotFound} ==> repository.committed == old(repository.committed)
      ensures repository.committed != old(repository.committed) ==> ReasonHasCause(v, Met(old(world.log)))
      ensures (world.Healthy(dimension) && Fine(v)
               && d in old(repository.committed).documents && old(repository.committed).documents[d].base == base
               && v in old(repository.committed).versions && old(repository.committed).versions[v].document == d
               && old(repository.committed).versions[v].status != Processing) ==>
               r.Ok? && r.value.0.status == Indexed
    {
      var document := GetOwnedDocument(d);
      if document.None? || document.value.base != base {
        return Err(DocumentNotFound);
      }
      if v !in repository.working.versions || repository.working.versions[v].document != d {
        return Err(VersionNotFound);
      }
      ghost var looked := world.log;
      var retried := RetryVersion(d, v, repository.working.versions[v]);
      MetOne(old(world.log), Looked(true), looked);
      NothingBefore(old(world.log), looked);
      return if retried.Err? then Err(retried.error) else Ok((retried.value, |ListChunks(chunks, v)|));
    }

    /** A version without points before a complete write has exactly the written ones after it. */
    lemma CompletedPoints(before: Points, after: Points, base: BaseId, v: VersionId)
      requires PointsKeyed(before, home) && ChunksKeyed(chunks, home) && PointsOf(before, v) == map[]
      requires after == Written(before, ExpectedPoints(ListChunks(chunks, v), base, v, embedding))
      ensures PointsOf(after, v) == Written(map[], ExpectedPoints(ListChunks(chunks, v), base, v, embedding))
    {
      WrittenTouchesOnlyItsVersion(before, ExpectedPoints(ListChunks(chunks, v), base, v, embedding), home, v);
    }

    lemma EmptyUnlessWritten(before: Points, after: Points, v: VersionId)
      requires PointsOf(before, v) == map[]
      ensures after == before || after == PointsElsewhere(before, v) ==> PointsOf(after, v) == map[]
    {}
  }

  datatype NodeResult = Published(v: VersionId, status: VersionStatus) | Retryable | Escaped(error: IndexError)

  /** The call found v pending, claimed it and left it indexed. */
  ghost predicate PublishedByThisCall(before: Tables, after: Tables, d: DocumentId, v: VersionId) {
    Claimed(before, d, v).Some? && v in after.versions && after.versions[v].status == Indexed && after.versions[v].document == d
  }

  /**
   The index node of the approval workflow: only an indexed version counts as success. What escapes is a
   raised commit or a document not seen, the last thing the outside answered; everything else is retryable.
   */
  method ExecuteIndexNode(service: KnowledgeService, d: DocumentId, v: VersionId) returns (r: NodeResult)
    requires service.Valid()
    modifies service.repository, service.store, service.world
    ensures service.Valid()
    ensures r.Escaped? <==> !service.EndedWith(old(service.world.log), Committed(true))
    ensures r.Published? <==>
      && service.EndedWith(old(service.world.log), Committed(true))
      && PublishedByThisCall(old(service.repository.committed), service.repository.committed, d, v)
    ensures r.Published? ==> r == Published(v, Indexed)
    ensures r.Escaped? ==> service.Told<()>(Err(r.error), old(service.world.log), d, old(service.repository.committed).documents)
    ensures Claimed(old(service.repository.committed), d, v).Some? && v in service.repository.committed.versions ==>
      (service.repository.committed.versions[v].status in {Failed, CleanupRequired} <==> r.Retryable?)
    ensures service.WillIndex(old(service.repository.committed), d, v) ==> r.Published?
  {
    var indexed := service.IndexDocumentVersion(d, v);
    if indexed.Err? {
      return Escaped(indexed.error);
    }
    if indexed.value.None? || indexed.value.value.status != Indexed {
      return Retryable;
    }
    return Published(v, indexed.value.value.status);
  }

  lemma PartialWriteTouchesOnlyItsVersion(before: Points, after: Points, batch: seq<VectorPoint>, home: map<ChunkId, VersionId>, v: VersionId)
    requires PointsKeyed(before, home) && BatchOf(batch, home, v)
    requires forall k :: k in before && !(exists p :: p in batch && p.chunkId == k) ==> k in after && after[k] == before[k]
    requires forall k :: k in after ==> (k in before && after[k] == before[k]) || (after[k] in batch && after[k].chunkId == k)
    ensures PointsKeyed(after, home)
    ensures PointsElsewhere(after, v) == PointsElsewhere(before, v)
  {}
}
