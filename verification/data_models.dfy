/** The records that flow through the ingestion pipeline and the search engine. */
module DataModels {
  import opened Wrappers
  import opened Values

  /** A table extracted from one page. `metadata` holds `table_index`. */
  datatype Table = Table(
    title: string,
    headers: seq<string>,
    rows: seq<seq<string>>,
    pageNumber: int,
    metadata: map<string, Value>)

  /** One extracted page: 1-based number, its text ("" when none) and tables. */
  datatype Page = Page(number: int, text: string, tables: seq<Table>)

  /** One outline (table of contents) entry: title, target page, nesting depth. */
  datatype TocEntry = TocEntry(title: string, page: int, level: int)

  /** A structural unit of the document: a heading and the text it governs.
      `parents` lists the titles of the enclosing headings, outermost first. */
  datatype Section = Section(
    title: string,
    content: string,
    pageStart: int,
    pageEnd: int,
    level: int,
    parents: seq<string>)

  /** The retrievable unit. `contentType` is one of "rule", "spell",
      "monster", "item" when produced by the chunker, but stored chunks are
      read back with whatever string they hold. */
  datatype ContentChunk = ContentChunk(
    id: string,
    rulebook: string,
    system: string,
    contentType: string,
    title: string,
    content: string,
    pageNumber: int,
    sectionPath: seq<string>,
    embedding: seq<real>,
    metadata: map<string, Value>,
    tables: Option<seq<Table>>)

  /** A chunk as `_dict_to_content_chunk` rebuilds it from a stored
      document: the dataclass checks nothing, so each field holds whatever
      value the document held, and `tables` is the stored list of
      dictionaries. */
  datatype LoadedChunk = LoadedChunk(
    id: Value,
    rulebook: Value,
    system: Value,
    contentType: Value,
    title: Value,
    content: Value,
    pageNumber: Value,
    sectionPath: Value,
    embedding: Value,
    metadata: Value,
    tables: Value)

  datatype MatchType = Semantic | Keyword | Exact

  datatype SearchResult = SearchResult(chunk: LoadedChunk, score: real, matchType: MatchType)
}
