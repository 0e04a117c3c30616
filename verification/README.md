# TTRPG assistant core in Dafny

A functional model of the deterministic core of a tabletop-RPG rulebook assistant. The assistant has five parts, each modelled here:

- **Rulebook ingestion** (`PDFParser`). It cleans extracted tables. It builds sections from the document outline, or from heading lines when there is no outline. It splits each section into paragraph-packed pieces, classifies each piece by title keywords and builds the chunk records.
- **Redis data manager.** Redis is modelled as a state holding hashes and sets. The model covers:
  - chunk storage with its three index sets;
  - filter narrowing;
  - vector search, with similarity as a parameter;
  - keyword search;
  - the statistics;
  - the campaign-record operations: store, get, update (content merge and version bump) and delete.
- **Embedding service orchestration.** The model and the hash function are parameters. The model covers the blank-text short cut, cache lookup and insert, batching with write-back to the original positions, the failure fill, top-k selection and the cache trim.
- **Character serialisers.** `to_dict`/`from_dict` of `Character` (with its features, equipment, spells, race, class and background), of `NPC` and of `CharacterTemplate`, over a small JSON-value datatype.
- **Configuration.** The environment-override converter, the default filling of `load_config` and the document written by `save_config`.

Modules, one concept each:

- Support modules:
  - `Wrappers`: `Option`, `Result`.
  - `Strings`: Python `split`, `join`, `strip`, `lower`, `str(int)`, `int(str)`.
  - `Seqs`: slicing and filtering helpers.
  - `Values`: JSON-like values and typed readers.
- Ingestion:
  - `DataModels`: `Table`, `Page`, `TocEntry`, `Section`, `ContentChunk`, the chunk as read back from Redis (`LoadedChunk`), `SearchResult`.
  - `PdfTables`: table clean-up.
  - `Outline`: outline-driven sections.
  - `Fallback`: heading-driven sections.
  - `Sections`: choosing between the two.
  - `Chunker`: splitting, classification and chunk records.
- Embeddings and ranking:
  - `Embedding`: the embedding service.
  - `Vectors`: the cosine guards.
  - `Ranking`: stable sort, highest first.
- Redis:
  - `RedisState`: keys, hashes, sets and the commands.
  - `ChunkCodec`: the chunk JSON document.
  - `ChunkStore`: storage, filters and stats.
  - `Search`: vector and keyword search.
  - `Campaign`: campaign records.
- Serialisers and settings:
  - `Characters`: the three serialisers.
  - `Configuration`: settings.

Python behaviour is spelled out where it matters:

- `d.get(k, default)`.
- Truthiness.
- Slices with negative bounds (`[:top_k]`, `[-max_size//2:]`).
- `int()` on a string.
- `KeyError` on a missing required key.
- `redis-py` refusing `None` as a hash value.
- The order in which Python evaluates an assignment's two sides.

Things outside the program's control are parameters:

- the order Redis hands out set members and scan results;
- the sentence-transformer model;
- the MD5 hash;
- `float()`;
- `json.dumps` text;
- uuids and timestamps.

## Behaviours of the code the model keeps

Each of these follows the code as written, and a lemma makes it explicit.

- **Outline end page.** A section's end page comes from the immediately following outline entry only, not from the next entry of the same or a higher level (`Outline.EndPageIgnoresLaterSiblings`).
- **Ranking ties.** The sort is stable with no tie-break, so equal scores keep candidate order (`Ranking.SortDescStable`).
- **Chunk size.** The `"\n\n"` separators are left out of the size accounting, so a multi-paragraph piece can be longer than `max_chunk_size` (`Chunker.PieceCanExceedMax`). The bound that does hold is on the sum of paragraph lengths (`Chunker.SplitIntoPiecesBounds`).
- **Batch failures.** One failing model call fills every still-unfilled position with `[]`, not only the positions of its own batch (`Embedding.Fill`, `Embedding.BatchEmbed`).
- **Placeholders.** A `None` placeholder can survive in two cases: a negative batch size, or a model that answers with fewer vectors than texts. `Embedding.BatchEmbedNoPlaceholder` states when none survives.
- **Cache keys.** The batch path caches under the hash of the stripped text but looks up the hash of the text as given (`Embedding.BatchCacheKeyMismatch`).
- **Cache trim.** `-max_size//2` parses as `(-max_size)//2`, so the trim keeps the newest `ceil(max_size/2)` entries (`Embedding.CleanupCache`).
- **Campaign delete.** The delete is three separate commands, so between them an index can name a key that no longer holds a hash (`Campaign.DeleteIsNotAtomic`). When the stored type is the empty string the per-type index is skipped, which leaves a dangling entry (`Campaign.EmptyTypeDeleteLeavesDangling`).
- **Chunk read-back.** `_dict_to_content_chunk` only looks keys up: it checks no types and passes the stored tables through as the list of dicts that was written. A chunk read back is therefore not the chunk that was stored: every field is the JSON value written for it, absent tables come back as `[]`, and tables come back as dicts rather than `Table` records (`ChunkCodec.ChunkFromDict`, `ChunkCodec.ChunkRoundTrip`). Storing such a read-back chunk again would raise at `asdict(table)`; the model's store takes only `ContentChunk` values, whose tables are `Table` records.
- **Keyword truncation.** `keyword_search` itself does not truncate to `max_results` (`Search.KeywordSearch`).

## Model

| member | source | states |
|---|---|---|
| PdfTables.DataRows | src/pdf_parser/pdf_parser.py:118-121 | the cleaned data rows are non-empty exactly when some raw data row has a non-blank cell |
| PdfTables.KeptIndices | src/pdf_parser/pdf_parser.py:110-123 | lists, increasing, exactly the raw tables that have at least two rows and a data row with content |
| PdfTables.ProcessTables | src/pdf_parser/pdf_parser.py:106-133 | one cleaned table per kept raw table, in page order, each built from its own raw table |
| PdfTables.EmittedTableShape | src/pdf_parser/pdf_parser.py:111-130 | an emitted table has title "Table i+1 (Page p)", `table_index` i, header j defaulted to "Column j+1", and at least one data row |
| PdfTables.DataRowSource | src/pdf_parser/pdf_parser.py:119-121 | every cleaned row comes from a raw row with a non-blank cell, with `None` cells read as "" |
| PdfTables.DataRowsAreContentRows | src/pdf_parser/pdf_parser.py:118-121 | the cleaned rows are exactly the raw rows with a non-blank cell, in order, `None` read as "" |
| PdfTables.DroppedTables | src/pdf_parser/pdf_parser.py:111-123 | a single-row table, or one whose data rows are all blank, is never emitted |
| Outline.SectionContentEmptyIff | src/pdf_parser/pdf_parser.py:242-254 | section content is empty exactly when no page numbered within [start, end] has text |
| Outline.RangeTextsAppend | src/pdf_parser/pdf_parser.py:247-252 | content extraction distributes over concatenation of page lists, so page order is kept |
| Outline.FromOutline | src/pdf_parser/pdf_parser.py:146-180 | at most one section per outline entry, none of them empty |
| Outline.OutlineSectionShape | src/pdf_parser/pdf_parser.py:146-178 | each section carries its entry's title, start page and level, and an end page taken from the immediately next entry only. Its content is the page-range text. Its parents are exactly the titles of all earlier entries of strictly smaller level, in order |
| Outline.OutlineEntryEmitted | src/pdf_parser/pdf_parser.py:158-163 | an outline entry yields a section exactly when some page in its range has text |
| Outline.EndPageIgnoresLaterSiblings | src/pdf_parser/pdf_parser.py:152-156 | a chapter followed by a subsection runs to the last page even when a later chapter starts earlier |
| Fallback.PageLines | src/pdf_parser/pdf_parser.py:197-204 | every line taken from a page is non-blank and tagged with that page's number |
| Fallback.Run | src/pdf_parser/pdf_parser.py:229-233 | the body of a heading is the longest prefix of non-heading lines |
| Fallback.ScanIsSegments | src/pdf_parser/pdf_parser.py:194-238 | the line-by-line loop with its open section equals the segment-wise reading: heading, then its body |
| Fallback.SegmentsShape | src/pdf_parser/pdf_parser.py:213-238 | every fallback section is a heading, level 1, with no parents and non-empty content, and ends on the page of one of its body lines |
| Fallback.FromTextShape | src/pdf_parser/pdf_parser.py:182-240 | over whole pages, every fallback section is a level-1 heading with no parents and content |
| Fallback.PreambleDropped | src/pdf_parser/pdf_parser.py:229-232 | lines before the first heading contribute nothing |
| Fallback.HeadingWithoutBodyDiscarded | src/pdf_parser/pdf_parser.py:213-217 | a heading followed directly by another heading produces no section |
| Fallback.OneSection | src/pdf_parser/pdf_parser.py:213-238 | a heading and its body give one section: body lines joined by newline, from the heading's page to the last body line's page |
| Sections.IdentifiedSectionsNonEmpty | src/pdf_parser/pdf_parser.py:135-180 | whichever path runs, no identified section is empty. Without an outline every section is a level-1 heading with no parents |
| Chunker.Pack | src/pdf_parser/pdf_parser.py:300-318 | the greedy loop loses no paragraph and makes no empty piece. A piece of two or more paragraphs has paragraph lengths summing to at most max. A piece is closed only when the next paragraph would not fit |
| Chunker.JoinGroupsFlatten | src/pdf_parser/pdf_parser.py:309-318 | joining the joined pieces equals joining all paragraphs |
| Chunker.SplitIntoPieces | src/pdf_parser/pdf_parser.py:291-320 | splitting always yields at least one piece |
| Chunker.SplitIntoPiecesRejoins | src/pdf_parser/pdf_parser.py:295-320 | the pieces re-joined with a blank line give back the content; short content is one piece |
| Chunker.SplitIntoPiecesBounds | src/pdf_parser/pdf_parser.py:304-314 | the pieces are the packed groups, with the size bound and the closing condition of the greedy loop |
| Chunker.PieceCanExceedMax | src/pdf_parser/pdf_parser.py:304-314 | because separators are not counted, a piece can be longer than max: "a\n\nb\n\nc" with max 2 packs into "a\n\nb" and "c" |
| Chunker.DetermineContentType | src/pdf_parser/pdf_parser.py:322-335 | the category is spell, monster or item for the first keyword family in that order that the lower-cased title mentions, else rule |
| Chunker.ChunkIdInjective | src/pdf_parser/pdf_parser.py:266 | within one section, different piece indices give different chunk ids |
| Chunker.SectionChunks | src/pdf_parser/pdf_parser.py:261-287 | a section yields one chunk per piece |
| Chunker.SectionChunksShape | src/pdf_parser/pdf_parser.py:265-286 | each chunk has the deterministic id, the section's title, parent path plus title, start page and level. It has no embedding and no tables, `chunk_index` i, and one of the four categories. The chunk texts re-join into the section content |
| Chunker.SectionChunkIdsDistinct | src/pdf_parser/pdf_parser.py:265-266 | chunks of one section never share an id |
| Chunker.CreateChunksAppend | src/pdf_parser/pdf_parser.py:256-289 | chunks follow section order: chunking distributes over concatenation of section lists |
| Strings.JoinSplit | src/pdf_parser/pdf_parser.py:299 | re-joining the paragraphs split on a separator gives back the text |
| Strings.Strip | src/embedding_service/embedding_service.py:56 | the result starts and ends with a non-whitespace character (Python's `str.isspace` set, Unicode included), and is empty exactly for blank text |
| Strings.StripIsSlice | src/embedding_service/embedding_service.py:56 | the result is a slice of the text with only whitespace before and after it, so with the ends above it is the text with its surrounding whitespace cut off |
| Strings.ParseIntRoundTrip | src/utils/config.py:135-136 | `int()` reads back any integer written in decimal |
| Values.DecodeMap | src/models/character_models.py:400-419 | a table decodes exactly when every entry does, keeping its key set, each entry decoded on its own |
| Values.DecodeMapRoundTrip | src/models/character_models.py:400-419 | a table written with an encoder reads back when the decoder inverts the encoder |
| Values.SlotMapRoundTrip | src/models/character_models.py:438 | spell slots read back as written |
| Embedding.Lookup | src/embedding_service/embedding_service.py:61-62 | a cache lookup finds a vector exactly for a cached key, and it is the stored one |
| Embedding.Put | src/embedding_service/embedding_service.py:70-71 | a cache insert keeps keys distinct and maps the key to the new vector. Every other key is unchanged. The cache grows only for a new key |
| Embedding.GenerateEmbedding | src/embedding_service/embedding_service.py:54-77 | blank text gives `[]` without the model. A hit on the hash of the text returns the cached vector unchanged. A model failure gives `[]`. Otherwise the model's vector for the stripped text is returned, and it is cached only when caching is on |
| Embedding.GenerateWithoutCache | src/embedding_service/embedding_service.py:70-71 | with caching off the cache never changes |
| Embedding.GenerateSeesStripped | src/embedding_service/embedding_service.py:66 | the model is consulted only on the stripped text |
| Embedding.GenerateThenHit | src/embedding_service/embedding_service.py:60-71 | a computed embedding is served from the cache on the next call, whatever the model would now say |
| Embedding.ScanSlots | src/embedding_service/embedding_service.py:89-100 | the first pass gives one slot per text: `[]`, a cache hit or a placeholder |
| Embedding.Pending | src/embedding_service/embedding_service.py:89-100 | the texts sent to the model are exactly the placeholder positions, each with its stripped text |
| Embedding.Batches | src/embedding_service/embedding_service.py:106-108 | the batches cover the pending list in order, each of 1 to batch_size entries |
| Embedding.StoreBatch | src/embedding_service/embedding_service.py:113-121 | writing back one batch touches only that batch's positions, and the cache only when caching is on |
| Embedding.RunBatches | src/embedding_service/embedding_service.py:106-121 | the batch loop touches only pending positions, and once failed it changes nothing more |
| Embedding.Fill | src/embedding_service/embedding_service.py:127-132 | the recovery pass turns every placeholder into `[]` and keeps every filled position |
| Embedding.BatchEmbed | src/embedding_service/embedding_service.py:79-134 | the output has one slot per input. Blank texts give `[]` and cache hits give the cached vector. With batch size 0 nothing is cached and every slot is filled. With caching off the cache is unchanged |
| Embedding.StoreBatchWritesBack | src/embedding_service/embedding_service.py:113-121 | a model answering one vector per text fills every position of the batch with its own text's vector |
| Embedding.RunBatchesWritesBack | src/embedding_service/embedding_service.py:106-121 | over all batches, every pending position receives its own text's vector and nothing fails |
| Embedding.RunPending | src/embedding_service/embedding_service.py:102-121 | the batch loop fills exactly the pending positions and leaves the others as they were |
| Embedding.WrittenBackIsExpected | src/embedding_service/embedding_service.py:89-121 | after write-back every position holds what embedding its text alone would give |
| Embedding.BatchEmbedPositions | src/embedding_service/embedding_service.py:79-134 | batching is invisible: each output position equals the single-text answer for its own input |
| Embedding.BatchEmbedNoPlaceholder | src/embedding_service/embedding_service.py:102-132 | with a non-negative batch size and a model that never answers short, no placeholder survives |
| Embedding.StoreBatchFills | src/embedding_service/embedding_service.py:113-116 | writing back keeps filled positions filled and fills the batch unless it fails |
| Embedding.RunBatchesFills | src/embedding_service/embedding_service.py:106-132 | the batch loop keeps filled positions filled and fills all pending ones unless it fails |
| Embedding.BatchEmbedRuns | src/embedding_service/embedding_service.py:102-134 | with pending texts and a positive batch size, the result is the batch loop's slots, filled when it failed |
| Embedding.BatchCacheKeyMismatch | src/embedding_service/embedding_service.py:94-121 | a padded text is cached by the batch path under its stripped hash, so the next batch misses it. The single-text path caches it under its own hash |
| Embedding.ScoreAll | src/embedding_service/embedding_service.py:166-169 | every candidate is paired with its index and its guarded similarity |
| Embedding.FindMostSimilar | src/embedding_service/embedding_service.py:159-173 | empty query or candidates give `[]`. Otherwise the result has the Python slice length of `[:top_k]` (at most top_k when it is non-negative), is sorted highest first, and holds distinct in-range indices with their similarities |
| Embedding.FindMostSimilarIsTopK | src/embedding_service/embedding_service.py:171-173 | the result lists distinct candidates, and a candidate left out scores no higher than any candidate kept |
| Embedding.CleanupCache | src/embedding_service/embedding_service.py:179-186 | the trimmed cache is a suffix of the cache. It is unchanged at or under max_size. Over a positive max_size it keeps ceil(max_size/2) entries. A negative max_size drops the oldest `-max_size//2` |
| Embedding.CleanupKeepsEntries | src/embedding_service/embedding_service.py:184-185 | the trimmed cache keeps distinct keys and the vectors the full cache held |
| Vectors.Cosine | src/redis_manager/redis_manager.py:200-215 | similarity is 0 for an empty, differently sized or zero-norm vector. A non-zero value comes from the arithmetic on comparable vectors |
| Vectors.CosineSymmetric | src/embedding_service/embedding_service.py:136-157 | the guarded similarity is symmetric whenever the arithmetic is |
| Ranking.SortDesc | src/embedding_service/embedding_service.py:171-172 | the sort orders highest first and is a permutation of its input |
| Ranking.SortDescStable | src/redis_manager/redis_manager.py:157 | equal scores keep their input order: there is no other tie-break |
| Ranking.SortDescMembers | src/redis_manager/redis_manager.py:410 | sorting neither adds nor drops entries |
| Ranking.SortDescPrefixIsTop | src/redis_manager/redis_manager.py:157-158 | a prefix of the sorted list holds the best entries |
| Ranking.SortDescCut | src/redis_manager/redis_manager.py:157-158 | sorting and slicing to `[:n]` gives a top cut: the Python slice length, entries of the input, highest first, and nothing left out scoring above anything kept |
| Ranking.InCutOrBelow | src/redis_manager/redis_manager.py:157-158 | an entry of the input is in a top cut or scores no higher than everything in it |
| RedisState.ChunkPatternMatchesChunkKeys | src/redis_manager/redis_manager.py:181 | the `chunk:*` scan pattern matches exactly the chunk-hash keys |
| RedisState.ChunkPatternMatchesOnlyChunkKeys | src/redis_manager/redis_manager.py:184 | no key of another family matches `chunk:*` |
| RedisState.ChunkSideRenderInjective | src/redis_manager/redis_manager.py:91-120 | the chunk key and the three index names render to distinct strings for distinct keys |
| RedisState.CampaignKeysCanCollide | src/redis_manager/redis_manager.py:253 | two different campaign and type pairs can render to the same campaign key string |
| RedisState.HSet | src/redis_manager/redis_manager.py:267 | HSET overwrites the given fields of one hash and keeps everything else |
| RedisState.SAdd | src/redis_manager/redis_manager.py:118-120 | SADD adds one member to one set and keeps everything else |
| RedisState.SRem | src/redis_manager/redis_manager.py:359-363 | SREM removes one member from one set and keeps everything else |
| RedisState.Del | src/redis_manager/redis_manager.py:366 | DEL empties one key and keeps every other |
| RedisState.ScanChunks | src/redis_manager/redis_manager.py:181 | the scan returns exactly the present keys matching `chunk:*` |
| ChunkCodec.TableToValueInjective | src/redis_manager/redis_manager.py:105 | `asdict` keeps everything a table holds: different tables are written as different documents |
| ChunkCodec.ChunkToValue | src/redis_manager/redis_manager.py:94-106 | the chunk document has exactly the eleven chunk fields |
| ChunkCodec.ChunkFromDict | src/redis_manager/redis_manager.py:217-231 | reading a chunk document raises exactly when one of the ten required keys is missing, naming a missing one; otherwise each field is the stored value as it is, with no type check, and the tables are the stored value or `[]` when absent |
| ChunkCodec.ChunkFromDictFields | src/redis_manager/redis_manager.py:219-229 | each of the ten looked-up fields of a chunk read back is the stored value exactly |
| ChunkCodec.ChunkRoundTrip | src/redis_manager/redis_manager.py:217-231 | reading back a written chunk gives each field as the JSON value written for it, and the tables as the list of `asdict` documents, `[]` for `None` |
| ChunkCodec.ReadBackDeterminesChunk | src/redis_manager/redis_manager.py:217-231 | two chunks that read back alike agree on every field, and on their tables up to `None` versus `[]` |
| ChunkStore.ChunkFieldsLayout | src/redis_manager/redis_manager.py:109-115 | the chunk hash holds the chunk document under `data` and plain labels, with one field set for every chunk |
| ChunkStore.FileChunk | src/redis_manager/redis_manager.py:91-120 | one chunk's commands write its hash and add its key to its three index sets, and nothing else |
| ChunkStore.LastFor | src/redis_manager/redis_manager.py:90-115 | finds the last chunk in the list stored under a key, or reports that none is |
| ChunkStore.IndexedByHolds | src/redis_manager/redis_manager.py:118-120 | every chunk of a store call is filed under each of its own index sets |
| ChunkStore.StoreWithHashes | src/redis_manager/redis_manager.py:88-122 | after the pipeline each chunk hash holds the fields of the last chunk written under it, and other hashes are untouched |
| ChunkStore.StoreWithMembers | src/redis_manager/redis_manager.py:117-120 | each index set gains exactly the keys filed under it |
| ChunkStore.StoreWithKeys | src/redis_manager/redis_manager.py:88-122 | the pipeline adds exactly the chunk keys and index sets of the stored chunks |
| ChunkStore.StoredChunksAreIndexed | src/redis_manager/redis_manager.py:90-120 | every stored chunk has its hash and is in its rulebook, system and content-type sets |
| ChunkStore.LastWriterWins | src/redis_manager/redis_manager.py:90-115 | a chunk with no later namesake leaves its own document under `data` |
| ChunkStore.StoreWithIdempotent | src/redis_manager/redis_manager.py:88-122 | storing the same chunks again changes nothing |
| ChunkStore.StoreRulebookContentIdempotent | src/redis_manager/redis_manager.py:85-122 | re-storing the same content creates no new keys and changes no field |
| ChunkStore.FileChunkKeepsConsistency | src/redis_manager/redis_manager.py:109-120 | storing one chunk keeps every index set naming real hashes and every chunk filed under its labels |
| ChunkStore.StoreWithKeepsConsistency | src/redis_manager/redis_manager.py:88-122 | the pipeline preserves both halves of index consistency |
| ChunkStore.StoreRulebookContentKeepsConsistency | src/redis_manager/redis_manager.py:85-122 | storing content preserves index consistency |
| ChunkStore.StaleMembership | src/redis_manager/redis_manager.py:109-120 | re-storing an id under another rulebook overwrites its labels but leaves it in the old rulebook's set |
| ChunkStore.Narrow | src/redis_manager/redis_manager.py:187-196 | narrowing never adds keys |
| ChunkStore.FilteredChunks | src/redis_manager/redis_manager.py:177-198 | the filter result is a subset of the chunk keys, and all of them when there are no filters |
| ChunkStore.NarrowSpec | src/redis_manager/redis_manager.py:187-196 | a key survives narrowing exactly when it is in every recognised filter's index set |
| ChunkStore.FilteredChunksSpec | src/redis_manager/redis_manager.py:177-198 | the filter result is exactly the chunk keys in every recognised filter's index set |
| ChunkStore.UnrecognisedFilterIgnored | src/redis_manager/redis_manager.py:187-196 | a filter with an unrecognised name has no effect wherever it appears |
| ChunkStore.RulebookFilterComplete | src/redis_manager/redis_manager.py:188-190 | in a consistent store a rulebook filter finds every chunk whose hash names that rulebook |
| ChunkStore.Tally | src/redis_manager/redis_manager.py:439-441 | a tally raises one count by one and leaves the others |
| ChunkStore.RulebookStats | src/redis_manager/redis_manager.py:417-443 | with `keys` listing the chunk keys the scan finds, the total is the number of listed keys |
| ChunkStore.RulebookCountSpec | src/redis_manager/redis_manager.py:428-441 | with `keys` listing the chunk keys the scan finds, each rulebook count is the number of listed non-empty hashes whose rulebook label (or "unknown") is that rulebook |
| ChunkStore.TalliesCount | src/redis_manager/redis_manager.py:432-441 | over any list of keys, each rulebook count is the number of listed non-empty hashes whose rulebook label (or "unknown") is that rulebook |
| Search.StoredSimilarity | src/redis_manager/redis_manager.py:145-154 | with a non-empty query, a truthy stored number where a list is expected raises, and nothing else does. A stored numeric list scores its guarded similarity |
| Search.VectorStep | src/redis_manager/redis_manager.py:144-154 | a candidate is kept only with a similarity at or above the threshold, together with its loaded document |
| Search.Candidates | src/redis_manager/redis_manager.py:142-154 | the candidate list fails exactly when some key raises, and holds only entries at or above the threshold |
| Search.CandidatesSpec | src/redis_manager/redis_manager.py:144-154 | the candidates are exactly the kept entries of the keys |
| Search.SemanticResults | src/redis_manager/redis_manager.py:160-169 | each result is its document decoded, with its similarity, tagged semantic. One undecodable document fails the search |
| Search.Best | src/redis_manager/redis_manager.py:157-158 | the cut has the Python slice length, keeps only candidates and is sorted highest first |
| Search.VectorSearch | src/redis_manager/redis_manager.py:129-175 | over `keys` listing exactly the chunks the filter step selects, results are tagged semantic, at or above the threshold, highest first, and at most max_results |
| Search.VectorSearchSpec | src/redis_manager/redis_manager.py:142-169 | when no key raises, the candidates have a top cut of the Python slice length of `[:max_results]`, holding the best-scoring candidates highest first; the results are that cut decoded one for one with its scores, or `[]` when a document in the cut fails to decode. A raising key gives `[]` |
| Search.VectorSearchSources | src/redis_manager/redis_manager.py:142-169 | every result is the decoded document and similarity of some key's kept candidate |
| Search.VectorSearchIsTop | src/redis_manager/redis_manager.py:156-158 | a kept candidate either appears in the results or scores no higher than every result |
| Search.ThresholdInclusive | src/redis_manager/redis_manager.py:153 | a document scoring exactly the threshold is kept |
| Search.KeywordScore | src/redis_manager/redis_manager.py:394-398 | the score is 1.0 exactly for a case-insensitive title hit, plus 0.5 exactly for a content hit |
| Search.EmptyQueryScoresAll | src/redis_manager/redis_manager.py:394-398 | the empty query scores every chunk 1.5 |
| Search.KeywordStep | src/redis_manager/redis_manager.py:385-407 | a kept chunk scores 0.5, 1.0 or 1.5, so zero scores are dropped |
| Search.KeywordMatches | src/redis_manager/redis_manager.py:385-407 | the matches fail exactly when some key raises |
| Search.KeywordMatchesComplete | src/redis_manager/redis_manager.py:385-407 | every scoring key is among the matches |
| Search.KeywordSearch | src/redis_manager/redis_manager.py:377-415 | over `keys` listing exactly the chunks the filter step selects, results are tagged keyword with scores in {0.5, 1.0, 1.5}, highest first, one per match with no truncation, and none at all when some key raises |
| Search.KeywordSearchFinds | src/redis_manager/redis_manager.py:385-411 | every scoring chunk appears in the results with its score |
| Campaign.Storable | src/redis_manager/redis_manager.py:267 | a hash value can be sent exactly when it is a string or a number |
| Campaign.Loads | src/redis_manager/redis_manager.py:295-296 | a field parses back exactly when it was written as JSON, to the value written |
| Campaign.TagsOf | src/redis_manager/redis_manager.py:249-264 | the stored tags are the given tags when truthy, else `[]` |
| Campaign.RecordFieldsContents | src/redis_manager/redis_manager.py:255-265 | a new record holds its id, campaign, type and name, content as JSON, tags, version "1", and the two clock readings as creation and update times |
| Campaign.StoreCampaignData | src/redis_manager/redis_manager.py:233-274 | the store succeeds exactly when the name can be sent. It writes only the record hash and adds its key to the campaign index and the per-type index |
| Campaign.IndexRead | src/redis_manager/redis_manager.py:283-288 | the per-type index is read exactly when a non-empty type is given |
| Campaign.Record | src/redis_manager/redis_manager.py:292-297 | a record reads when content and tags parse. It keeps every field, with content and tags parsed back and the rest as text |
| Campaign.Present | src/redis_manager/redis_manager.py:291-293 | the visited keys that hold a hash are kept, and no others |
| Campaign.PresentIsFilter | src/redis_manager/redis_manager.py:291-293 | the keys kept are the visited keys holding a hash, in visiting order |
| Campaign.Records | src/redis_manager/redis_manager.py:290-297 | one parsed record per key that holds a hash |
| Campaign.GetCampaignData | src/redis_manager/redis_manager.py:280-303 | reads the per-type index for a truthy type and the campaign index otherwise; with `keys` listing exactly that index, one parsed record per listed key holding a hash, in listing order. One unreadable record anywhere empties the whole answer |
| Campaign.FindById | src/redis_manager/redis_manager.py:312-316 | the search finds a member whose id matches, or reports that none has one |
| Campaign.FindByIdFirst | src/redis_manager/redis_manager.py:312-316 | the member found is the first with the id |
| Campaign.MergedContent | src/redis_manager/redis_manager.py:328-329 | the merge fails when the stored content is missing or not a mapping; otherwise it is the stored content updated as `dict.update` does |
| Campaign.ContentUpdate | src/redis_manager/redis_manager.py:329 | a mapping update is laid over the stored content with its keys winning, a list is read as key/value pairs, the empty string changes nothing, and anything else fails |
| Campaign.UpdatePairs | src/redis_manager/redis_manager.py:329 | a list update succeeds exactly when every element is a key/value pair |
| Campaign.UpdatePairsLastWins | src/redis_manager/redis_manager.py:329 | a key set by a pair ends with the value of its last pair |
| Campaign.UpdatePairsUntouched | src/redis_manager/redis_manager.py:329 | a key no pair sets keeps its value, or its absence |
| Campaign.NewName | src/redis_manager/redis_manager.py:332 | the name is the update's name when given, else the stored one |
| Campaign.NewTags | src/redis_manager/redis_manager.py:336 | the tags are the update's tags when given, else the stored ones, which must parse either way |
| Campaign.Bump | src/redis_manager/redis_manager.py:335 | the new version text parses to the old version plus one, and the bump fails when the old one is not an integer |
| Campaign.Written | src/redis_manager/redis_manager.py:331-337 | an update writes exactly name, content, updated_at, version and tags |
| Campaign.UpdateFields | src/redis_manager/redis_manager.py:322-337 | a successful update writes exactly the five update fields |
| Campaign.UpdateFieldsParts | src/redis_manager/redis_manager.py:327-337 | a successful update is assembled from the merged content, the new name, the bumped version and the new tags |
| Campaign.UpdateMergesContent | src/redis_manager/redis_manager.py:328-333 | an update writes the stored content with the content update applied; a mapping update is laid over it with its keys winning |
| Campaign.UpdateBumpsVersion | src/redis_manager/redis_manager.py:335 | an update writes the stored version plus exactly one |
| Campaign.UpdateNameAndTags | src/redis_manager/redis_manager.py:331-337 | name and tags change only when supplied, and the update time is recorded |
| Campaign.UpdateCampaignData | src/redis_manager/redis_manager.py:305-347 | the update succeeds exactly when some member has the id and the fields computed from the first such record can be written; a failed update changes nothing |
| Campaign.UpdateWritesOneRecord | src/redis_manager/redis_manager.py:312-340 | a successful update writes, over the first indexed record with the id, the five fields computed from that record, and nothing else |
| Campaign.UpdateStoresRecord | src/redis_manager/redis_manager.py:322-340 | after a successful update the record holds the old version plus one, the updated content and the update time, and every other key is unchanged |
| Campaign.UpdatedHash | src/redis_manager/redis_manager.py:327-337 | writing the update fields over a record gives the next version, the updated content and the update time |
| Campaign.UpdateKeepsIdentity | src/redis_manager/redis_manager.py:331-340 | an update never changes id, campaign_id, data_type, created_at or any index |
| Campaign.UpdateKeepsIndexed | src/redis_manager/redis_manager.py:305-347 | an update preserves campaign index consistency |
| Campaign.DeleteSteps | src/redis_manager/redis_manager.py:358-366 | the delete commands remove the key from the campaign index and, when its stored type is truthy, from that type's index, then drop its hash. No other set changes, no other member moves, and no other hash changes |
| Campaign.DeleteCampaignData | src/redis_manager/redis_manager.py:349-375 | delete succeeds exactly when a member has the id. Then the first such member in listing order is taken out of the campaign index and, when its stored type is truthy, out of that type's index, and its hash is emptied. Every other set and every other member's membership is unchanged, and every other hash is kept. On failure nothing changes |
| Campaign.HSetKeepsIndexed | src/redis_manager/redis_manager.py:267 | writing a hash keeps index consistency when its data_type matches its key or is not written |
| Campaign.SAddKeepsIndexed | src/redis_manager/redis_manager.py:270-271 | filing a record under the indexes its key names keeps consistency |
| Campaign.DelKeepsIndexed | src/redis_manager/redis_manager.py:366 | deleting a key no index names keeps consistency |
| Campaign.StoreKeepsIndexed | src/redis_manager/redis_manager.py:253-271 | storing a record preserves campaign index consistency |
| Campaign.UnindexedEverywhere | src/redis_manager/redis_manager.py:359-363 | removing a record from both its indexes leaves no campaign index naming it |
| Campaign.DeleteStepsKeepIndexed | src/redis_manager/redis_manager.py:358-366 | the delete commands keep consistency for a record of non-empty type |
| Campaign.DeleteKeepsIndexed | src/redis_manager/redis_manager.py:349-371 | with every record of non-empty type, a delete preserves index consistency |
| Campaign.EmptyTypeStored | src/redis_manager/redis_manager.py:253-271 | a record of the empty type is filed under `campaign_type:{cid}:` |
| Campaign.EmptyTypeDeleteLeavesDangling | src/redis_manager/redis_manager.py:361-363 | deleting a record of the empty type leaves the per-type index naming a deleted record |
| Campaign.DeleteIsNotAtomic | src/redis_manager/redis_manager.py:358-366 | after the first delete command the campaign no longer lists the record while its type still does |
| Campaign.StoreThenListed | src/redis_manager/redis_manager.py:269-271 | a stored record is listed by its campaign and by its type |
| Campaign.StoredHash | src/redis_manager/redis_manager.py:255-267 | under a fresh key the stored hash is exactly the record's fields |
| Campaign.StoreThenGet | src/redis_manager/redis_manager.py:255-297 | a record stored under a fresh key reads back with its content and tags |
| Campaign.StoreThenGetListed | src/redis_manager/redis_manager.py:255-303 | after a store under a fresh key, the get of its campaign and the get of its type each return its record, with its id, content and tags, unless some listed record is unreadable |
| Campaign.StoreThenGetIdentity | src/redis_manager/redis_manager.py:255-297 | a record stored under a fresh key reads back with its id, campaign, type and version "1" |
| Characters.FeatureToValue | src/models/character_models.py:170-177 | a feature is written with exactly its six fields |
| Characters.FeatureFromValue | src/models/character_models.py:321-329 | name, source and description are required |
| Characters.FeatureRoundTrip | src/models/character_models.py:321-329 | a written feature reads back unchanged |
| Characters.EquipmentToValue | src/models/character_models.py:218-229 | equipment is written with exactly its eight fields |
| Characters.EquipmentFromValue | src/models/character_models.py:332-342 | name and type are required. Quantity defaults to 1, equipped to false and properties to `None` |
| Characters.EquipmentRoundTrip | src/models/character_models.py:332-342 | written equipment reads back unchanged |
| Characters.SpellToValue | src/models/character_models.py:281-293 | a spell is written with exactly its eleven fields |
| Characters.SpellFromValue | src/models/character_models.py:345-358 | prepared defaults to false |
| Characters.SpellRoundTrip | src/models/character_models.py:345-358 | a written spell reads back unchanged |
| Characters.AbilityToValue | src/models/character_models.py:246-251 | an ability is written with exactly its four fields |
| Characters.AbilityFromValue | src/models/character_models.py:402-407 | name and value are required |
| Characters.AbilityRoundTrip | src/models/character_models.py:402-407 | a written ability reads back unchanged |
| Characters.SkillToValue | src/models/character_models.py:254-261 | a skill is written with exactly its six fields |
| Characters.SkillFromValue | src/models/character_models.py:412-419 | proficient and expertise default to false |
| Characters.SkillRoundTrip | src/models/character_models.py:412-419 | a written skill reads back unchanged |
| Characters.RaceToValue | src/models/character_models.py:162-180 | a race is written with exactly its eight fields |
| Characters.RaceFromValue | src/models/character_models.py:361-371 | the name is required. Size defaults to "Medium" and speed to 30 |
| Characters.RaceRoundTrip | src/models/character_models.py:361-371 | a written race reads back unchanged |
| Characters.ClassToValue | src/models/character_models.py:181-213 | a class is written with exactly its eight fields, an absent spell list written as `[]` |
| Characters.ClassFromValue | src/models/character_models.py:374-384 | the spell list always reads back as a list |
| Characters.ClassRoundTrip | src/models/character_models.py:374-384 | a written class reads back unchanged, except that an absent spell list becomes empty |
| Characters.BackgroundToValue | src/models/character_models.py:214-243 | a background is written with exactly its eight fields |
| Characters.BackgroundFromValue | src/models/character_models.py:387-397 | the name is required |
| Characters.BackgroundRoundTrip | src/models/character_models.py:387-397 | a written background reads back unchanged |
| Characters.SlotsOr | src/models/character_models.py:438 | absent spell slots read as the empty table |
| Characters.CharacterParts | src/models/character_models.py:361-397 | race, class and background are required |
| Characters.CharacterScores | src/models/character_models.py:400-419 | abilities and skills are required, and each table keeps its key set |
| Characters.CharacterHeader | src/models/character_models.py:422-428 | id, name, system and level are required |
| Characters.CharacterCombat | src/models/character_models.py:431-435 | armor class defaults to 10, hit points and maximum to 1, hit dice to "1d8" |
| Characters.CharacterMeta | src/models/character_models.py:444-448 | both timestamps are required, and notes default to "" |
| Characters.CharacterFromDict | src/models/character_models.py:318-449 | reading succeeds exactly when every group of fields reads |
| Characters.CharacterNeedsRequiredKeys | src/models/character_models.py:361-445 | a missing required key (id, name, system, race, character_class, background, level, abilities, skills, created_at, updated_at) makes reading fail |
| Characters.CharacterDefaults | src/models/character_models.py:432-448 | absent keys read as armor class 10, hit points 1, maximum 1, hit dice "1d8", notes "", race size "Medium" and speed 30 |
| Characters.CharacterKeepsTableKeys | src/models/character_models.py:400-419 | the ability and skill tables keep exactly their keys |
| Characters.CharacterToDictKeys | src/models/character_models.py:158-315 | `to_dict` writes exactly the character's 27 fields |
| Characters.CharacterLookups | src/models/character_models.py:158-315 | each written key holds its field's encoding |
| Characters.CharacterPartsRoundTrip | src/models/character_models.py:361-397 | written race, class and background read back, the class with its spell list made explicit |
| Characters.CharacterScoresRoundTrip | src/models/character_models.py:400-419 | written ability and skill tables read back unchanged |
| Characters.CharacterCombatRoundTrip | src/models/character_models.py:421-449 | written header, combat, personality and meta fields read back unchanged |
| Characters.CharacterKitRoundTrip | src/models/character_models.py:436-439 | written equipment, spells, slots and features read back unchanged |
| Characters.CharacterRoundTrip | src/models/character_models.py:156-449 | `from_dict(to_dict(c))` is c, except that an absent class spell list comes back empty |
| Characters.OptIntMapAt | src/models/character_models.py:581 | absent NPC abilities read as `None` |
| Characters.StrMapOr | src/models/character_models.py:578 | absent relationships read as the empty table |
| Characters.NpcHeader | src/models/character_models.py:562-571 | id, name and system are required, and the role defaults to "civilian" |
| Characters.NpcStory | src/models/character_models.py:584-591 | both timestamps are required, and notes default to "" |
| Characters.NpcFromDict | src/models/character_models.py:547-591 | reading succeeds exactly when every group reads. A missing required key fails. Role and notes take their defaults |
| Characters.NpcAbsentKeys | src/models/character_models.py:566-586 | absent optional keys read as `None`, the empty table or the empty list |
| Characters.NpcGroupsRoundTrip | src/models/character_models.py:562-578 | the written header and personality fields read back unchanged |
| Characters.NpcRestRoundTrip | src/models/character_models.py:579-591 | the written stats and story fields read back unchanged |
| Characters.NpcRoundTrip | src/models/character_models.py:502-591 | `NPC.from_dict(n.to_dict())` is n |
| Characters.TemplateToDict | src/models/character_models.py:606-617 | a template is written with exactly its eight fields |
| Characters.TemplateFromDict | src/models/character_models.py:620-631 | reading succeeds exactly when all eight fields are present |
| Characters.TemplateRoundTrip | src/models/character_models.py:606-631 | a written template reads back unchanged |
| Characters.TemplateRestrict | src/models/character_models.py:606-631 | reading and rewriting a dictionary keeps exactly its template keys |
| Configuration.Convert | src/utils/config.py:134-142 | conversion fails exactly for an integer key that does not parse or a threshold `float()` rejects. An integer key gets the parsed integer |
| Configuration.ParseIntAt | src/utils/config.py:135-136 | an integer override succeeds exactly when `int()` accepts the text, with its value |
| Configuration.BoolOverride | src/utils/config.py:139-140 | a boolean key is true exactly for "true", "1", "yes" or "on" in any case, and false otherwise |
| Configuration.TextOverride | src/utils/config.py:141-142 | other keys take the variable's text verbatim |
| Configuration.IntOverride | src/utils/config.py:135-136 | an integer key reads back any integer written in decimal |
| Configuration.ApplyOverride | src/utils/config.py:128-142 | an unset variable changes nothing. It fails exactly when the value does not convert or the section is not a mapping. A missing section is created, and only the one entry changes |
| Configuration.ApplyAllFailure | src/utils/config.py:128-142 | the overrides fail exactly when some set variable does not convert or meets a non-mapping section |
| Configuration.ApplyAllUntouched | src/utils/config.py:128-142 | entries and sections no set variable writes are left as they were |
| Configuration.ApplyAllWrites | src/utils/config.py:128-142 | every set variable's converted value is in place at the end |
| Configuration.ApplyAllUnset | src/utils/config.py:128-130 | with no variable set the document is unchanged |
| Configuration.EnvMappingsDistinct | src/utils/config.py:97-126 | each entry is written through one variable only |
| Configuration.EnvMappingsInSchema | src/utils/config.py:97-126 | every variable targets a field of its section's dataclass |
| Configuration.SectionArgs | src/utils/config.py:79-84 | a section expands exactly when it is absent or a mapping naming only dataclass fields |
| Configuration.LoadRedis | src/utils/config.py:10-14 | the Redis settings are the defaults overridden by the given fields |
| Configuration.LoadEmbedding | src/utils/config.py:18-21 | the embedding settings are the defaults overridden by the given fields |
| Configuration.LoadPdf | src/utils/config.py:25-28 | the PDF settings are the defaults overridden by the given fields |
| Configuration.LoadSearch | src/utils/config.py:32-35 | the search settings are the defaults overridden by the given fields |
| Configuration.LoadMcp | src/utils/config.py:39-41 | the server settings are the defaults overridden by the given fields |
| Configuration.LoadLogging | src/utils/config.py:45-47 | the logging settings are the defaults overridden by the given fields |
| Configuration.LoadSections | src/utils/config.py:79-93 | building the sections succeeds exactly when every section expands |
| Configuration.LoadConfig | src/utils/config.py:67-93 | loading succeeds exactly when the overrides apply and every section then expands |
| Configuration.LoadConfigSteps | src/utils/config.py:76-93 | a loaded configuration is built from the overridden document |
| Configuration.SectionsFromArgs | src/utils/config.py:79-84 | every section is its defaults overridden by what the document gives |
| Configuration.SectionEntry | src/utils/config.py:79-84 | each field is the document's entry if present, else the default |
| Configuration.LoadOverride | src/utils/config.py:76-93 | a set variable decides its field, whatever the document says |
| Configuration.LoadKeepsDocument | src/utils/config.py:67-93 | a field no set variable writes comes from the document, else the default |
| Configuration.AbsentSectionDefaults | src/utils/config.py:79-84 | a section neither in the document nor overridden is the dataclass default |
| Configuration.SectionWithoutArgs | src/utils/config.py:79-84 | a section missing from the document builds to its defaults |
| Configuration.LoadWithoutFile | src/utils/config.py:70-93 | with no file and no variables every field is its default |
| Configuration.SaveConfigSections | src/utils/config.py:148-178 | `save_config` writes exactly the six sections |
| Configuration.ConfigSectionFields | src/utils/config.py:148-178 | each written section holds every field of its dataclass and nothing else |
| Configuration.SaveConfigArgs | src/utils/config.py:148-178 | each saved section expands back to its own fields |
| Configuration.FieldsLoadBack | src/utils/config.py:9-57 | building a dataclass from its own fields gives it back |
| Configuration.SectionsRoundTrip | src/utils/config.py:148-178 | the sections of a saved document build back to the configuration |
| Configuration.SaveLoadRoundTrip | src/utils/config.py:146-178 | loading what `save_config` wrote, with no variables set, gives the configuration back |

## Left out

- `extract_text` and `_extract_toc` are left out: they read PDF files through PyPDF2 and pdfplumber. The page list, outline and total page count are inputs.
- The heading regular expressions are left out. They are a predicate parameter `isHeading`.
- The numeric part of cosine similarity is left out (`numpy`, `** 0.5`, floating point). It is a function parameter, and only the guards that return 0 are modelled.
- Floating point is left out. Floats are exact reals, including 0.7, the keyword scores 0.5/1.0/1.5 and the embedding components.
- The sentence-transformer model, MD5, `json.dumps`/`json.loads` text and `float()` are left out. They are parameters, and JSON encoding and decoding are taken to be inverse.
- The cache file (`_load_cache`, `_save_cache`, `__del__`) and `get_embedding_dimension` are left out: they are disk I/O and model queries.
- Redis connection handling, retries, `setup_vector_index` and `cleanup_old_data` are left out. The last depends on the wall clock and on parsing ISO timestamps.
- uuid generation and `datetime.now()` are left out. They are inputs: `dataId`, the two readings `created` and `updated` of a store, and `now` of an update; timestamps are plain strings.
- Outline entries whose target has no page number are left out: `_extract_toc` writes `"page": None` for them, and `identify_sections` then raises a `TypeError` at `None - 1` or `None <= page_num`. An outline entry's page is always an integer here.
- The YAML file, `load_dotenv` and `setup_logging` are left out. The parsed document and the set variables are inputs, and a document that is not a mapping is not modelled.
- Logging and exception messages are left out. An error is modelled as the fact of failure, not its message.
- The MCP server, CLI and personality service are not part of this model.
- Strings.Lower: lowers ASCII letters only, where Python's `str.lower` is Unicode-aware.
- Strings.ParseInt: accepts ASCII digits with an optional sign and surrounding whitespace. It does not accept underscores or non-ASCII digits as Python's `int()` does.
- Search.KeywordScore: compares with the ASCII-only lower-casing above.
- Configuration.Convert: records only that a conversion failed, not the `ValueError` text.
- Configuration.ApplyOverride: treats an existing section that is not a string-keyed mapping as failing, including a mapping with integer keys that Python would accept.
- Values.DecodeMap: on failure it reports one failing entry without modelling which one Python's dictionary order would reach first.
- Characters.CharacterFromDict: fails on a value of the wrong type. Python's dataclass constructors accept any value. The timestamps are taken to survive `isoformat`/`fromisoformat` unchanged.
- Characters.CharacterRoundTrip: holds at the dictionary level only. A JSON text round trip would turn the integer keys of spell slots into strings.
- Characters.TemplateFromDict: keeps the template's fields as untyped values, as the Python code does not inspect them.
- Embedding.FindMostSimilar: similarity is the parameter `cosine` behind the guards.
- Campaign.ContentUpdate: refuses the same updates as Campaign.MergedContent below.
- Campaign.UpdatePairs: reads only two-item lists with a string key and two-character strings as pairs, as Campaign.MergedContent below.
- Campaign.MergedContent: a list update is read as pairs only when each element is a two-item list with a string key, or a two-character string. `dict.update` also accepts pairs with non-string keys, other two-item iterables such as a two-key mapping, and integer-keyed mappings; those fail here.
- Campaign.GetCampaignData: the order in which Redis enumerates a set is an input sequence `keys` that lists exactly the set's members.
- Search.VectorSearch: the order in which the filter step lists the chunk keys is an input sequence `keys` that lists exactly the keys it selects; Search.KeywordSearch and ChunkStore.RulebookStats take their keys the same way.
- ChunkStore.RulebookStats: the per-system and per-content-type counts are computed by the same tally, but only the per-rulebook count carries a proved specification.
- ChunkStore.StoreRulebookContent: takes `ContentChunk` values, whose tables are `Table` records. Storing a chunk that was read back with dict tables raises a `TypeError` at `asdict(table)` in the code; that path is not modelled.
- Campaign.Loads: a field written as plain text is treated as unparseable, where `json.loads` would parse a text that happens to be JSON. Every writer of `content`, `tags` and `data` encodes them, so no stored record reaches that case.
- Search.LoadData: treats a non-empty plain-text `data` field as `json.loads` failing, for the same reason as Campaign.Loads.
- The Redis pipeline of `store_rulebook_content` is one atomic state change, so a failure in the middle of a pipeline is not modelled.
- Redis keys are a structured datatype, with `RedisState.Render` giving the key string. String collisions between campaign keys are therefore shown (`RedisState.CampaignKeysCanCollide`) but do not occur in the model's state.
