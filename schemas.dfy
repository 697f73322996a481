/**
 * Records shared by the backend components: the perception, memory and
 * decision schemas of the search service.
 */
module Schemas {
  /** A point in time as microseconds on one clock (the resolution of Python's datetime). */
  type Micros = int

  /** An embedding: a fixed-length vector of reals. */
  type Vector = seq<real>

  /** The number of results a search asks for when the caller names none. */
  const DefaultTopK: int := 5

  /** Values of the free-form metadata dictionaries attached to chunks and pages. */
  datatype MetaValue = IntValue(i: int) | TextValue(s: string)
  type Metadata = map<string, MetaValue>

  /** One chunk produced by the content processor. */
  datatype ProcessedContent = ProcessedContent(
    url: string,
    title: string,
    content: string,
    originalLength: nat,
    processedLength: nat,
    extractionQuality: real,
    metadata: Metadata,
    timestamp: Micros)

  /** A metadata record kept by the vector store, one per stored vector position. */
  datatype StoredPage = StoredPage(
    url: string,
    title: string,
    content: string,
    timestamp: Micros,
    embeddingDimension: nat,
    metadata: Metadata)

  /** A hit reported by a similarity search; its score lies in [0, 1]. */
  datatype SearchResult = SearchResult(
    url: string,
    title: string,
    content: string,
    score: real,
    timestamp: Micros)

  /** A search result with the scores the ranker computed and its 1-based rank. */
  datatype RankedResult = RankedResult(
    result: SearchResult,
    relevanceScore: real,
    recencyScore: real,
    finalScore: real,
    rank: int)
}
