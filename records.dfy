/**
 * The values that flow through ingestion and retrieval: a chunk's metadata
 * dictionary, a chunk, a stored record and a formatted search hit.
 */
module Records {
  import opened Wrappers

  /**
   * A metadata dictionary as the store keeps it. Every key may be missing in a
   * stored record, so each one is optional; `processedAt` is the ISO timestamp
   * taken at ingestion and is never interpreted.
   */
  datatype Metadata = Metadata(
    source: Option<string>,
    sourceType: Option<string>,
    page: Option<int>,
    sheet: Option<string>,
    rowRange: Option<string>,
    documentType: Option<string>,
    processedAt: Option<string>)

  /** A chunk before it is stored: its text and its metadata. */
  datatype Chunk = Chunk(content: string, metadata: Metadata)

  /** A dense vector produced by an embedding model. */
  type Embedding = seq<real>

  /** One entry of the collection, keyed by its chunk id. */
  datatype Record = Record(document: string, metadata: Metadata, embedding: Embedding)

  /** One hit as the search returns it; `relevanceScore` is `1 - distance`. */
  datatype SearchResult = SearchResult(content: string, metadata: Metadata, distance: real, relevanceScore: real)

  /** Python truthiness of `metadata.get('page')`: present and not zero. */
  predicate HasPage(m: Metadata) {
    m.page.Some? && m.page.value != 0
  }

  /** Python truthiness of `metadata.get('sheet')`: present and not empty. */
  predicate HasSheet(m: Metadata) {
    m.sheet.Some? && m.sheet.value != ""
  }

  function Contents(chunks: seq<Chunk>): (r: seq<string>)
    ensures |r| == |chunks|
    ensures forall i :: 0 <= i < |chunks| ==> r[i] == chunks[i].content
  {
    seq(|chunks|, i requires 0 <= i < |chunks| => chunks[i].content)
  }

  function Metadatas(chunks: seq<Chunk>): (r: seq<Metadata>)
    ensures |r| == |chunks|
    ensures forall i :: 0 <= i < |chunks| ==> r[i] == chunks[i].metadata
  {
    seq(|chunks|, i requires 0 <= i < |chunks| => chunks[i].metadata)
  }
}
