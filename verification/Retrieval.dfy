/**
 Searching a knowledge base. The vector store proposes candidates; MySQL decides
 which of them are live. Nothing is assumed about the candidates.
 */
module Retrieval {
  import opened Prelude
  import opened KnowledgeTables
  import opened VersionProtocol

  datatype Candidate = Candidate(chunkId: ChunkId, score: real)

  datatype ChunkRow = ChunkRow(version: VersionId, content: string, locator: nat)

  datatype FileRow = FileRow(owner: UserId, ready: bool, deleted: bool)

  datatype ActiveChunk = ActiveChunk(chunkId: ChunkId, document: DocumentId, file: FileId, content: string, locator: nat)

  datatype Hit = Hit(chunkId: ChunkId, document: DocumentId, file: FileId, content: string, locator: nat, score: real)

  datatype Catalog = Catalog(db: Tables, chunks: map<ChunkId, ChunkRow>, files: map<FileId, FileRow>)

  /** The join and filters of list_active_chunks_by_ids for one chunk id. */
  predicate Live(c: Catalog, base: BaseId, k: ChunkId) {
    && k in c.chunks
    && c.chunks[k].version in c.db.versions
    && var v := c.chunks[k].version;
    && c.db.versions[v].document in c.db.documents
    && var document := c.db.documents[c.db.versions[v].document];
    && document.base == base
    && document.active == Some(v)
    && c.db.versions[v].status == Indexed
    && document.file in c.files
    && c.files[document.file].ready
    && !c.files[document.file].deleted
  }

  function ActiveRow(c: Catalog, base: BaseId, k: ChunkId): ActiveChunk
    requires Live(c, base, k)
  {
    var d := c.db.versions[c.chunks[k].version].document;
    ActiveChunk(k, d, c.db.documents[d].file, c.chunks[k].content, c.chunks[k].locator)
  }

  function HitOf(c: Catalog, base: BaseId, candidate: Candidate): Hit
    requires Live(c, base, candidate.chunkId)
  {
    var row := ActiveRow(c, base, candidate.chunkId);
    Hit(row.chunkId, row.document, row.file, row.content, row.locator, candidate.score)
  }

  /** Keep the live candidates, in order. */
  function LiveHits(c: Catalog, base: BaseId, candidates: seq<Candidate>): seq<Hit> {
    if candidates == [] then []
    else
      var front, last := candidates[..|candidates| - 1], candidates[|candidates| - 1];
      LiveHits(c, base, front) + if Live(c, base, last.chunkId) then [HitOf(c, base, last)] else []
  }

  function Take<T>(s: seq<T>, n: nat): seq<T> {
    if n <= |s| then s[..n] else s
  }

  /** Rows for the requested ids, in no promised order; here as a lookup table. */
  method ListActiveChunksByIds(c: Catalog, base: BaseId, ids: seq<ChunkId>) returns (rows: map<ChunkId, ActiveChunk>)
    ensures forall k :: k in rows <==> k in ids && Live(c, base, k)
    ensures forall k :: k in rows ==> rows[k] == ActiveRow(c, base, k)
  {
    rows := map k | k in ids && Live(c, base, k) :: ActiveRow(c, base, k);
  }

  /** The loop of search_knowledge stops at top_k hits, and equals filtering first and cutting after. */
  method SearchKnowledge(c: Catalog, base: BaseId, candidates: seq<Candidate>, topK: nat) returns (hits: seq<Hit>)
    requires topK > 0
    ensures hits == Take(LiveHits(c, base, candidates), topK)
  {
    hits := [];
    if candidates == [] {
      return;
    }
    var ids := seq(|candidates|, i requires 0 <= i < |candidates| => candidates[i].chunkId);
    var active := ListActiveChunksByIds(c, base, ids);
    for i := 0 to |candidates|
      invariant hits == LiveHits(c, base, candidates[..i]) && |hits| < topK
    {
      assert candidates[..i + 1][..i] == candidates[..i];
      assert ids[i] == candidates[i].chunkId;
      var k := candidates[i].chunkId;
      if k in active {
        var row := active[k];
        hits := hits + [Hit(row.chunkId, row.document, row.file, row.content, row.locator, candidates[i].score)];
        if |hits| == topK {
          LiveHitsGrow(c, base, candidates[..i + 1], candidates);
          return;
        }
      }
    }
    assert candidates[..|candidates|] == candidates;
  }

  lemma {:induction false} LiveHitsGrow(c: Catalog, base: BaseId, prefix: seq<Candidate>, all: seq<Candidate>)
    requires prefix <= all
    ensures LiveHits(c, base, prefix) <= LiveHits(c, base, all)
    decreases |all|
  {
    if prefix == all {
    } else {
      var front := all[..|all| - 1];
      assert prefix <= front;
      LiveHitsGrow(c, base, prefix, front);
    }
  }

  /** Each hit is the live row of its own candidate, and the candidates keep their order. */
  lemma {:induction false} HitsAreAnOrderedSelection(c: Catalog, base: BaseId, candidates: seq<Candidate>) returns (at: seq<nat>)
    ensures |at| == |LiveHits(c, base, candidates)|
    ensures forall i, j :: 0 <= i < j < |at| ==> at[i] < at[j]
    ensures forall i :: 0 <= i < |at| ==> at[i] < |candidates| && Live(c, base, candidates[at[i]].chunkId)
                                          && LiveHits(c, base, candidates)[i] == HitOf(c, base, candidates[at[i]])
    ensures forall p :: 0 <= p < |candidates| && Live(c, base, candidates[p].chunkId) ==> p in at
  {
    at := [];
    if candidates == [] {
    } else {
      var n := |candidates| - 1;
      at := HitsAreAnOrderedSelection(c, base, candidates[..n]);
      if Live(c, base, candidates[n].chunkId) {
        at := at + [n];
      }
    }
  }

  /** Descending scores in, descending scores out. */
  lemma HitsKeepScoreOrder(c: Catalog, base: BaseId, candidates: seq<Candidate>, topK: nat)
    requires forall i, j :: 0 <= i < j < |candidates| ==> candidates[i].score >= candidates[j].score
    ensures forall i, j :: 0 <= i < j < |Take(LiveHits(c, base, candidates), topK)| ==>
              Take(LiveHits(c, base, candidates), topK)[i].score >= Take(LiveHits(c, base, candidates), topK)[j].score
  {
    var at := HitsAreAnOrderedSelection(c, base, candidates);
  }

  /** What a user may be shown: a chunk of its document's highest indexed version, in the base asked for, of a file that is ready and not deleted. */
  ghost predicate Searchable(c: Catalog, base: BaseId, k: ChunkId) {
    && k in c.chunks && c.chunks[k].version in c.db.versions
    && var d := c.db.versions[c.chunks[k].version].document;
       && d in c.db.documents && c.db.documents[d].base == base && IsHighestIndexed(c.db, d, c.chunks[k].version)
       && c.db.documents[d].file in c.files
       && c.files[c.db.documents[d].file].ready && !c.files[c.db.documents[d].file].deleted
  }

  /** In every reachable state the join on the active pointer finds exactly these chunks. */
  lemma LiveIsSearchable(steps: seq<Step>, c: Catalog, base: BaseId, k: ChunkId)
    requires c.db == Run(INITIAL, steps).db
    ensures Live(c, base, k) <==> Searchable(c, base, k)
  {
    if k in c.chunks && c.chunks[k].version in c.db.versions {
      var v := c.chunks[k].version;
      var d := c.db.versions[v].document;
      if d in c.db.documents {
        ActivePointsAtHighestIndexed(steps, d);
        RunKeepsInv(INITIAL, steps);
      }
    }
  }

  /** The hit shows its candidate's own row. */
  ghost predicate Shows(c: Catalog, hit: Hit, candidate: Candidate)
    requires candidate.chunkId in c.chunks && c.chunks[candidate.chunkId].version in c.db.versions
    requires c.db.versions[c.chunks[candidate.chunkId].version].document in c.db.documents
  {
    var chunk := c.chunks[candidate.chunkId];
    && hit.chunkId == candidate.chunkId && hit.score == candidate.score
    && hit.content == chunk.content && hit.locator == chunk.locator
    && hit.document == c.db.versions[chunk.version].document && hit.file == c.db.documents[hit.document].file
  }

  /**
   In every reachable state a search returns, of the candidates a user may be shown, the first
   topK in the order of the candidates, each with its own row: no one more and no one less.
   */
  lemma SearchIsExact(steps: seq<Step>, c: Catalog, base: BaseId, candidates: seq<Candidate>, topK: nat) returns (at: seq<nat>)
    requires c.db == Run(INITIAL, steps).db
    ensures forall i, j :: 0 <= i < j < |at| ==> at[i] < at[j] < |candidates|
    ensures forall p :: 0 <= p < |candidates| ==> (p in at <==> Searchable(c, base, candidates[p].chunkId))
    ensures var hits := Take(LiveHits(c, base, candidates), topK);
            && |hits| == (if topK < |at| then topK else |at|)
            && forall i :: 0 <= i < |hits| ==> at[i] < |candidates| && Searchable(c, base, candidates[at[i]].chunkId) && Shows(c, hits[i], candidates[at[i]])
  {
    at := HitsAreAnOrderedSelection(c, base, candidates);
    forall p | 0 <= p < |candidates| ensures p in at <==> Searchable(c, base, candidates[p].chunkId) {
      LiveIsSearchable(steps, c, base, candidates[p].chunkId);
    }
  }

  predicate Junk(c: Catalog, base: BaseId, points: seq<Candidate>) {
    forall i :: 0 <= i < |points| ==> !Live(c, base, points[i].chunkId)
  }

  lemma {:induction false} HitsOfConcat(c: Catalog, base: BaseId, a: seq<Candidate>, b: seq<Candidate>)
    ensures LiveHits(c, base, a + b) == LiveHits(c, base, a) + LiveHits(c, base, b)
    decreases |b|
  {
    if b == [] {
      assert a + b == a;
    } else {
      HitsOfConcat(c, base, a, b[..|b| - 1]);
      assert (a + b)[..|a + b| - 1] == a + b[..|b| - 1];
    }
  }

  lemma {:induction false} JunkHasNoHits(c: Catalog, base: BaseId, junk: seq<Candidate>)
    requires Junk(c, base, junk)
    ensures LiveHits(c, base, junk) == []
  {
    if junk == [] {
    } else {
      JunkHasNoHits(c, base, junk[..|junk| - 1]);
    }
  }

  /** Orphan, superseded or foreign points among the candidates change nothing. */
  lemma OrphanPointsNeverSurface(c: Catalog, base: BaseId, a: seq<Candidate>, junk: seq<Candidate>, b: seq<Candidate>)
    requires Junk(c, base, junk)
    ensures LiveHits(c, base, a + junk + b) == LiveHits(c, base, a + b)
  {
    HitsOfConcat(c, base, a + junk, b);
    HitsOfConcat(c, base, a, junk);
    HitsOfConcat(c, base, a, b);
    JunkHasNoHits(c, base, junk);
  }
}
