/**
 * `SantanderVectorDB`: the collection of chunk records it owns and the
 * operations on it — loading the data directory, searching, reporting
 * statistics and clearing. The collection's contents are the map `records`
 * from chunk id to record.
 *
 * The MD5 digest, the embedding model and the query distance are fixed when
 * the store is opened and are parameters: `md5Hex(text)` is the hexadecimal
 * digest, `encode(text)` the model's embedding, and `distance(query, e)` the
 * distance the collection reports between a query text and a stored embedding.
 */
module VectorStore {
  import opened Wrappers
  import opened Records
  import opened Collection
  import opened Nearest
  import opened Stats
  import opened ChunkIds
  import Loader
  import ExcelChunker

  /** How a load pass ends: nothing to store, a batch stored, or a batch the store refused. */
  datatype LoadOutcome = NoDocuments | Stored(count: nat) | DuplicateIds

  /** The dictionary `get_document_stats` returns. */
  datatype DocumentStats = DocumentStats(
    totalChunks: nat,
    documentTypes: map<string, nat>,
    uniqueSources: nat,
    sourcesList: seq<string>)

  /** `encode(documents)`: one embedding per document, in order. */
  function Embeddings(documents: seq<string>, encode: string -> Embedding): (es: seq<Embedding>)
    ensures |es| == |documents|
    ensures forall i :: 0 <= i < |documents| ==> es[i] == encode(documents[i])
  {
    seq(|documents|, i requires 0 <= i < |documents| => encode(documents[i]))
  }

  /** The records a load pass writes for its chunks. */
  function ChunkRecords(chunks: seq<Chunk>, encode: string -> Embedding): (recs: seq<Record>)
    ensures |recs| == |chunks|
  {
    BatchRecords(Contents(chunks), Metadatas(chunks), Embeddings(Contents(chunks), encode))
  }

  /**
   * The collection after a load pass over `chunks`: unchanged when there are
   * none or when the store refuses the batch, otherwise the batch upserted.
   */
  function LoadedRecords(m: map<string, Record>, chunks: seq<Chunk>, md5Hex: string -> string,
                         encode: string -> Embedding): map<string, Record>
  {
    var ids := Loader.ChunkIdList(chunks, md5Hex);
    if chunks != [] && Distinct(ids) then UpsertAll(m, ids, ChunkRecords(chunks, encode)) else m
  }

  function OutcomeOf(chunks: seq<Chunk>, md5Hex: string -> string): LoadOutcome {
    if chunks == [] then NoDocuments
    else if Distinct(Loader.ChunkIdList(chunks, md5Hex)) then Stored(|chunks|)
    else DuplicateIds
  }

  /** The metadatas of the sampled ids, in sample order. */
  function SampleMetadatas(records: map<string, Record>, ids: seq<string>): (ms: seq<Metadata>)
    requires Elems(ids) <= records.Keys
    ensures |ms| == |ids|
  {
    seq(|ids|, i requires 0 <= i < |ids| => assert ids[i] in Elems(ids); records[ids[i]].metadata)
  }

  class VectorDB {
    const md5Hex: string -> string
    const encode: string -> Embedding
    const distance: (string, Embedding) -> real
    /** The collection: chunk id to record. */
    var records: map<string, Record>

    /** Opens the collection with what was persisted before (`get_collection`, or an empty `create_collection`). */
    constructor (stored: map<string, Record>, md5Hex: string -> string, encode: string -> Embedding,
                 distance: (string, Embedding) -> real)
      ensures records == stored
      ensures this.md5Hex == md5Hex && this.encode == encode && this.distance == distance
    {
      this.md5Hex := md5Hex;
      this.encode := encode;
      this.distance := distance;
      records := stored;
    }

    /** `collection.count()`. */
    function Count(): nat
      reads this
    {
      |records|
    }

    /**
     * `collection.upsert`: the batch is written entry by entry, each replacing
     * the record under its id. A batch whose ids repeat is refused as a whole
     * and leaves the collection as it was.
     */
    method Upsert(ids: seq<string>, documents: seq<string>, metadatas: seq<Metadata>, embeddings: seq<Embedding>)
      returns (ok: bool)
      requires |ids| == |documents| == |metadatas| == |embeddings|
      modifies this
      ensures ok <==> Distinct(ids)
      ensures ok ==> records == UpsertAll(old(records), ids, BatchRecords(documents, metadatas, embeddings))
      ensures !ok ==> records == old(records)
    {
      if !Distinct(ids) {
        return false;
      }
      var recs := BatchRecords(documents, metadatas, embeddings);
      ghost var before := records;
      for i := 0 to |ids|
        invariant records == UpsertAll(before, ids[..i], recs[..i])
      {
        assert ids[..i + 1][..i] == ids[..i] && recs[..i + 1][..i] == recs[..i];
        records := records[ids[i] := recs[i]];
      }
      assert ids[..|ids|] == ids && recs[..|recs|] == recs;
      return true;
    }

    /**
     * `load_documents`: collects the chunks of the listed files; when there are
     * any, prepares the parallel lists, embeds the documents and upserts them.
     */
    method LoadDocuments(listing: seq<string>, pdfPages: string -> seq<Option<string>>,
                         workbook: string -> seq<Option<ExcelChunker.Sheet>>, now: string)
      returns (outcome: LoadOutcome)
      modifies this
      ensures var chunks := Loader.AllChunks(listing, pdfPages, workbook, now);
              records == LoadedRecords(old(records), chunks, md5Hex, encode) && outcome == OutcomeOf(chunks, md5Hex)
    {
      var all := Loader.CollectChunks(listing, pdfPages, workbook, now);
      if all == [] {
        return NoDocuments;
      }
      var documents, metadatas, ids := Loader.PrepareBatch(all, md5Hex);
      var embeddings := Embeddings(documents, encode);
      var ok := Upsert(ids, documents, metadatas, embeddings);
      outcome := if ok then Stored(|all|) else DuplicateIds;
    }

    /**
     * `search`: asks the collection for the `nResults` nearest records, among
     * those of the requested `document_type` when it is truthy, and reshapes
     * them, nearest first. `ids` names the records the collection returned.
     */
    method Search(query: string, nResults: nat, documentType: Option<string>)
      returns (results: seq<SearchResult>, ghost ids: seq<string>)
      ensures IsNearest(records, distance, query, Candidates(records, WhereFilter(documentType)), nResults, ids)
      ensures results == Reshape(records, distance, query, ids)
    {
      var where := WhereFilter(documentType);
      var hits := SelectNearest(records, distance, query, Candidates(records, where), nResults);
      results := [];
      for i := 0 to |hits|
        invariant results == Reshape(records, distance, query, hits[..i])
      {
        var r := records[hits[i]];
        results := results + [ToResult(r, distance(query, r.embedding))];
      }
      assert hits[..|hits|] == hits;
      ids := hits;
    }

    /**
     * `get_document_stats`: the record count, and the type histogram and
     * sources of a sample of at most 1000 stored records.
     */
    method GetDocumentStats() returns (stats: DocumentStats, ghost sample: seq<string>)
      ensures stats.totalChunks == |records|
      ensures Distinct(sample) && Elems(sample) <= records.Keys
      ensures |sample| == if SampleLimit < |records| then SampleLimit else |records|
      ensures stats.documentTypes == Histogram(SampleMetadatas(records, sample))
      ensures Distinct(stats.sourcesList) && Elems(stats.sourcesList) == Sources(SampleMetadatas(records, sample))
      ensures stats.uniqueSources == |Sources(SampleMetadatas(records, sample))| == |stats.sourcesList|
    {
      var count := |records|;
      var ids := Take(records.Keys, SampleLimit);
      assert |records.Keys| == |records|;
      var metas := SampleMetadatas(records, ids);
      var docTypes, sources := CountMetadatas(metas);
      var list := Take(sources, |sources|);
      DistinctCard(list);
      stats := DocumentStats(count, docTypes, |sources|, list);
      sample := ids;
    }

    /** `clear_database`: drops the collection and recreates it empty. */
    method ClearDatabase() returns (ok: bool)
      modifies this
      ensures ok && records == map[]
    {
      records := map[];
      return true;
    }
  }

  // ---------------------------------------------------------------------------
  // Lemmas

  /**
   * Loading unchanged files a second time, at another moment, writes exactly
   * the ids of the first load: the number of stored chunks does not change.
   */
  lemma ReloadKeepsCount(m: map<string, Record>, listing: seq<string>, pdfPages: string -> seq<Option<string>>,
                         workbook: string -> seq<Option<ExcelChunker.Sheet>>, now1: string, now2: string,
                         md5Hex: string -> string, encode: string -> Embedding)
    requires Distinct(Loader.ChunkIdList(Loader.AllChunks(listing, pdfPages, workbook, now1), md5Hex))
    ensures var c1 := Loader.AllChunks(listing, pdfPages, workbook, now1);
            var c2 := Loader.AllChunks(listing, pdfPages, workbook, now2);
            var once := UpsertAll(m, Loader.ChunkIdList(c1, md5Hex), ChunkRecords(c1, encode));
            Loader.ChunkIdList(c2, md5Hex) == Loader.ChunkIdList(c1, md5Hex)
            && |UpsertAll(once, Loader.ChunkIdList(c2, md5Hex), ChunkRecords(c2, encode))| == |once|
  {
    var c1 := Loader.AllChunks(listing, pdfPages, workbook, now1);
    var c2 := Loader.AllChunks(listing, pdfPages, workbook, now2);
    var ids := Loader.ChunkIdList(c1, md5Hex);
    Loader.ReloadSameIds(listing, pdfPages, workbook, now1, now2, md5Hex);
    var once := UpsertAll(m, ids, ChunkRecords(c1, encode));
    UpsertAllSpec(m, ids, ChunkRecords(c1, encode));
    UpsertKeepsCount(once, ids, ChunkRecords(c2, encode));
  }

  /** The counts of the stats histogram sum to the number of sampled records. */
  lemma StatsHistogramSumsToSample(records: map<string, Record>, sample: seq<string>)
    requires Elems(sample) <= records.Keys
    ensures Total(Histogram(SampleMetadatas(records, sample))) == |sample|
  {
    HistogramTotal(SampleMetadatas(records, sample));
  }
}
