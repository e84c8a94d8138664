# Gober knowledge base and conversation capture, modelled in Dafny

Gober is a voice assistant for the Gobernación de Santander. Its answers are
grounded in official documents. This project models the code that turns those
documents into a searchable store and the code that turns search hits into
cited text:

- **Ingestion** (`SantanderVectorDB` in `backend/vector_db.py`):
  - Each PDF page is split on blank lines and its paragraphs are packed
    greedily: a chunk is closed before the paragraph that would bring it to
    1000 characters or more, so a chunk of several paragraphs stays under
    1000 characters, while a lone paragraph of 1000 or more characters
    becomes a chunk of its own length.
  - Each workbook sheet is cut into blocks of 50 rows. Every block starts with
    the sheet summary and names its row range.
  - Every file name is classified by an ordered rule table.
  - Every chunk gets the id `source_page_md5prefix`.
  - The batch of one load pass is upserted into the collection.
- **Querying**: the optional `document_type` filter, the nearest-neighbour
  selection, results reshaped with `relevance_score = 1 - distance`, the
  statistics over a sample of at most 1000 records, and clearing.
- **The knowledge service** (`SantanderKnowledge` in
  `backend/santander_knowledge.py`): the lazy, one-time load guard, the
  citation context (`FUENTE i: source - Página p`) and the formatted answer
  with emojis, truncation and the official-sources note.
- **The front-end capture hook** (`useConversationCapture` in
  `frontend/hooks/useConversationCapture.tsx`): transcriptions and data
  packets become at most one message each, with a role. Messages that are
  empty after trimming, or that repeat the last one, are dropped.

Library calls are parameters:
- The MD5 hex digest, `md5Hex`.
- The embedding model, `encode`.
- The collection's query distance, `distance`.
- The PDF and spreadsheet readers, which supply page texts and sheets.
- `{score:.1%}`, `percent`.
- The clock, `now`.

The collection is the map `records` from chunk id to record. The stateful
objects are classes:
- `VectorStore.VectorDB`.
- `Knowledge.SantanderKnowledge`, with `isLoaded` and a ghost load counter.
- `ConversationCapture.Capture`, holding the last processed message and what
  the callbacks received.

The loops of the source are methods proved equal to specification functions:
- paragraph packing, page and sheet iteration, row blocks;
- the batch lists, the upsert, the top-k selection, the statistics histogram;
- the two formatters.

Lemmas then prove what the code promises about those functions.

The code is followed wherever it differs from the project's own description
of the system:
- A file whose reader fails part-way keeps the chunks already built from it
  (`ProcessPdfDocument`, `ProcessExcelDocument`). They are not dropped.
- A chunk id uses the page and never the sheet: every workbook chunk gets
  page `0` (`ChunkIdIgnoresOtherKeys`, `ChunkIdDefaults`).
- `ensure_loaded` tests and sets its flag around an `await`. Two concurrent
  first calls can both load. The guard is proved only for calls that do not
  overlap (`SantanderKnowledge.Valid`).
- The query text is embedded by the collection's own embedding function, not
  by the model used for the documents. The model therefore ranks by
  `distance(query, embedding)` and does not assume the two embeddings agree.
- A batch whose ids repeat is refused as a whole: the store rejects duplicate
  ids in one upsert, and that pass stores nothing (`VectorDB.Upsert`,
  `OutcomeOf`). Two chunks collide when they share source, page and the first
  eight hex digits of their digest. A page that contains the same long
  paragraph twice is one example. The error leaves `ensure_loaded` before its
  flag is set, so the query that triggered the load raises (the service
  methods return `None`) and the next call tries the load again
  (`SantanderKnowledge.EnsureLoaded`, `SantanderKnowledge.Guarded`).

## Model

| member | source | states |
|---|---|---|
| ChunkIds.GenerateChunkId | backend/vector_db.py:81-83 | the id starts with the source (or `unknown`) and `_`, and ends with `_` and the first eight digest digits |
| ChunkIds.ChunkIdIgnoresOtherKeys | backend/vector_db.py:82 | only source, page and content enter the id: the sheet, row range, type and timestamp do not |
| ChunkIds.ChunkIdDefaults | backend/vector_db.py:82 | missing source and page give the prefix `unknown_0_` |
| ChunkIds.ChunkIdSeparatesPages | backend/vector_db.py:82-83 | same source, different pages: different ids, whatever the contents |
| ChunkIds.ChunkIdSeparatesContent | backend/vector_db.py:81-83 | same source and page, digests differing in their first eight digits: different ids |
| Classification.ClassifyDocumentType | backend/vector_db.py:224-235 | the category is always one of the five names |
| Classification.FirstMatchEarliest | backend/vector_db.py:226-233 | an ordered rule table yields the category of its earliest rule that holds |
| Classification.FirstMatchFallback | backend/vector_db.py:234-235 | a rule table none of whose rules holds yields the fallback |
| Classification.ClassifyIsFirstMatch | backend/vector_db.py:224-235 | the classifier is that rule table applied to the lowercased name, with `documento_general` as fallback |
| Classification.DatosComplementariosIff | backend/vector_db.py:232-233 | `datos_complementarios` exactly for lowercased names ending in `.xlsx` and starting with `6` that no earlier rule claims |
| Classification.GestionBeatsEjecutivo | backend/vector_db.py:226-229 | a name containing `informe`, `gestion` and `ejecutivo` is a management report: the earlier test wins |
| Classification.NoRuleMeansGeneral | backend/vector_db.py:234-235 | a name no rule claims is `documento_general` |
| PdfChunker.ProcessPage | backend/vector_db.py:103-148 | the packing loop over a page's paragraphs yields exactly the page's chunks as the greedy grouping defines them |
| PdfChunker.ProcessPdfDocument | backend/vector_db.py:95-153 | pages are read in order and numbered from 1, and the first unreadable page ends the file with the chunks built so far |
| PdfChunker.ParagraphIntegrity | backend/vector_db.py:109-133 | the groups are a partition of the paragraphs in order, none is empty, and a chunk is a group's paragraphs rejoined by blank lines and stripped, kept exactly when not blank |
| PdfChunker.PackingBound | backend/vector_db.py:114-133 | every group of two or more paragraphs gives a text shorter than 1000 characters, and a group is closed only when the next paragraph does not fit |
| PdfChunker.PackedChunksStripped | backend/vector_db.py:118-146 | every chunk text is stripped and not empty |
| PdfChunker.TwoParagraphsTwoChunks | backend/vector_db.py:114-133 | two non-blank paragraphs that together reach the limit become two chunks, each stripped |
| PdfChunker.OnePageTwoParagraphs | backend/vector_db.py:103-148 | a page of two such paragraphs gives two chunks, both tagged `pdf` and page 1 |
| PdfChunker.PdfChunksTraceable | backend/vector_db.py:119-143 | every chunk names the file, is tagged `pdf`, has a page between 1 and the number of pages read, and is a packed text of that page |
| PdfChunker.BlankPageNoChunks | backend/vector_db.py:107 | a whitespace-only page contributes no chunk |
| Text.SplitJoinRoundTrip | backend/vector_db.py:109 | splitting on blank lines and joining with blank lines gives the text back |
| Text.StripSpec | backend/vector_db.py:107-128 | `strip()` never lengthens, leaves no outer whitespace, and is empty exactly for whitespace-only text |
| Text.JoinBlank | frontend/hooks/useConversationCapture.tsx:61-64 | joined with a space, the text is blank exactly when every part is |
| ExcelChunker.BuildBlockText | backend/vector_db.py:188-193 | a block's text is the summary, the row-range header, then one `- col: val` line per row of the block |
| ExcelChunker.AppendRowLines | backend/vector_db.py:191-193 | appending the block's rows gives the starting text followed by each row's line, in row order |
| ExcelChunker.ProcessSheet | backend/vector_db.py:178-207 | the block loop yields exactly the sheet's chunks: block k starts at row 50k |
| ExcelChunker.ProcessExcelDocument | backend/vector_db.py:165-212 | sheets are read in order, and the first unreadable sheet ends the workbook with the chunks built so far |
| ExcelChunker.BlockCountSpec | backend/vector_db.py:184 | block k exists exactly when 50k is a row of the sheet |
| ExcelChunker.SheetChunksLayout | backend/vector_db.py:178-207 | an empty sheet gives no chunk, otherwise the row count divided by 50 and rounded up, and chunk k covers rows 50k+1 to min(50k+50, n) of that sheet, tagged `excel`; row r (from 0) lies in chunk r / 50 |
| ExcelChunker.BlocksTile | backend/vector_db.py:184-189 | each block holds 1 to 50 rows, the next starts where it ends, and the last ends at the last row |
| ExcelChunker.CellTextsSpec | backend/vector_db.py:192 | a row's line has one entry per present cell and none for a missing one; the entry of present cell `j` is `col: val` and sits at the position counting the present cells before it, so the entries keep column order |
| ExcelChunker.BlocksCoverRows | backend/vector_db.py:184-193 | the blocks' row lines, in order, are the lines of all the rows: no row is lost or repeated |
| ExcelChunker.HundredTwentyRows | backend/vector_db.py:184-199 | a 120-row sheet gives three chunks with row ranges `1-50`, `51-100`, `101-120` |
| ExcelChunker.ExcelChunksFromSheets | backend/vector_db.py:195-202 | every workbook chunk names the file, is tagged `excel` and names one of the sheets read |
| Loader.CollectChunks | backend/vector_db.py:243-254 | walking the listing gives the listed files' chunks in listing order: PDF by `.pdf`, workbook by `.xlsx`/`.xls`, case-insensitive, other files none |
| Loader.PrepareBatch | backend/vector_db.py:260-267 | the three lists have one entry per chunk: its content, its metadata and its id |
| Loader.KindIgnoresCase | backend/vector_db.py:249-252 | the dispatch does not depend on the case of the name |
| Loader.PdfByExtension | backend/vector_db.py:249-251 | a name ending in `.pdf`, in any case, goes to the PDF reader |
| Loader.WorkbookByExtension | backend/vector_db.py:252-254 | a name ending in `.xlsx` or `.xls`, in any case, goes to the workbook reader |
| Loader.FileChunksTagged | backend/vector_db.py:246-254 | a PDF's chunks are tagged `pdf` and a workbook's `excel`, each naming the file |
| Loader.AllChunksFromListedFiles | backend/vector_db.py:246-254 | every collected chunk names a listed file of the matching kind |
| Loader.BatchAligned | backend/vector_db.py:264-267 | entry i of each list describes chunk i, and each id starts with that chunk's source |
| Loader.AllChunksRestamp | backend/vector_db.py:119-143 | loading at another moment gives the same chunks but for `processed_at` |
| Loader.ReloadSameIds | backend/vector_db.py:246-267 | reloading unchanged files gives the same documents and the same ids |
| Collection.UpsertAllSpec | backend/vector_db.py:275-280 | after an upsert of distinct ids, the collection holds the old ids and the batch's, each batch id maps to its new record, and other records are unchanged |
| Collection.UpsertIdempotent | backend/vector_db.py:275-280 | upserting the same batch twice is the same as once |
| Collection.UpsertKeepsCount | backend/vector_db.py:275-280 | upserting ids already stored leaves the count unchanged |
| Collection.UpsertIntoEmpty | backend/vector_db.py:275-280 | n distinct ids into an empty collection store n records |
| Collection.Take | backend/vector_db.py:337-352 | a limited read returns min(limit, size) distinct stored keys, all of them when the limit allows |
| VectorStore.VectorDB.Upsert | backend/vector_db.py:275-280 | a batch with distinct ids is written entry by entry; one with a repeated id is refused and changes nothing |
| VectorStore.VectorDB.LoadDocuments | backend/vector_db.py:237-284 | with no chunks nothing changes; otherwise the batch of all chunks is embedded and upserted, or refused when its ids repeat |
| VectorStore.ReloadKeepsCount | backend/vector_db.py:246-280 | a second load of unchanged files at another moment writes the same ids and leaves the record count unchanged |
| Nearest.WhereFilter | backend/vector_db.py:301-303 | a filter exists exactly when `document_type` is present and not empty, and it is that type |
| Nearest.SelectNearest | backend/vector_db.py:306-310 | returns min(n, candidates) distinct candidates, nearest first, none farther than a candidate left out |
| Nearest.ToResult | backend/vector_db.py:316-321 | content and metadata are the record's, and relevance plus distance is 1 |
| Nearest.ResultsByRelevance | backend/vector_db.py:313-321 | results come with relevance never increasing |
| Nearest.FilterRespected | backend/vector_db.py:301-310 | with a filter every result has the requested type; without one every record is a candidate |
| Nearest.AllCandidatesWhenFew | backend/vector_db.py:306-310 | asking for at least as many results as candidates returns all of them |
| VectorStore.VectorDB.Search | backend/vector_db.py:286-324 | the results are the reshaped nearest candidates of the filter, in the store's order |
| Stats.HistogramTotal | backend/vector_db.py:343-345 | the type counts sum to the number of sampled metadatas |
| Stats.HistogramCounts | backend/vector_db.py:343-345 | a type is counted exactly when some metadata has it, with the number of such metadatas |
| Stats.MissingTypeIsUnknown | backend/vector_db.py:344 | a metadata without `document_type` is counted under `unknown` |
| Stats.SourcesSpec | backend/vector_db.py:346 | the sources are exactly the metadatas' sources (or `unknown`), and there are no more of them than metadatas |
| Stats.CountMetadatas | backend/vector_db.py:342-346 | the counting loop yields exactly the type histogram and the source set of the sampled metadatas |
| VectorStore.VectorDB.GetDocumentStats | backend/vector_db.py:326-353 | the total is the record count; the histogram and sources are those of a sample of min(1000, count) distinct stored records; the source list has no repeats and its length is the number of sources |
| VectorStore.StatsHistogramSumsToSample | backend/vector_db.py:337-345 | the histogram of the sample sums to the sample size |
| VectorStore.VectorDB.ClearDatabase | backend/vector_db.py:358-376 | the collection is empty afterwards and the call reports success |
| Knowledge.SantanderKnowledge.EnsureLoaded | backend/santander_knowledge.py:33-44 | the directory is loaded exactly when the flag was unset and the store empty; the flag ends set unless the collection refused that batch, in which case the store is unchanged, the flag stays unset and `ok` is false; at most one load completes over the service's life |
| Knowledge.SantanderKnowledge.SearchDocuments | backend/santander_knowledge.py:46-74 | leaves the flag, the store and the load counter as `ensure_loaded` does; when the load raised, no results; otherwise the store's nearest results of the requested type |
| Knowledge.Location | backend/santander_knowledge.py:166-169 | the page when truthy, else the sheet when truthy, else nothing |
| Knowledge.PagePrecedence | backend/santander_knowledge.py:166-169 | a non-zero page wins over a sheet |
| Knowledge.BuildContext | backend/santander_knowledge.py:157-177 | empty for no results; a failure when some result lacks its source; otherwise citation, content and `---` for each result, numbered from 1, joined by newlines |
| Knowledge.ContextPartsLayout | backend/santander_knowledge.py:159-173 | result i contributes exactly parts 3i, 3i+1 and 3i+2: its citation, its content and `---` |
| Knowledge.ContextEmptyIff | backend/santander_knowledge.py:157-177 | the context is empty exactly when there are no results |
| Knowledge.SantanderKnowledge.GetContextForQuery | backend/santander_knowledge.py:144-177 | leaves the flag, the store and the load counter as `ensure_loaded` does; when the load raised, no context; otherwise the context of the two nearest results |
| Knowledge.DocumentEmoji | backend/santander_knowledge.py:124-142 | each of the five categories has its emoji, and any other type gets the page emoji |
| Knowledge.EmojiCoversCategories | backend/santander_knowledge.py:134-142 | the page emoji goes to `informe_ejecutivo` among the categories, and to everything outside them |
| Knowledge.Display | backend/santander_knowledge.py:112 | content of up to 400 characters is shown whole; longer content shows its first 400 characters and `...` |
| Knowledge.FormatSearchResults | backend/santander_knowledge.py:87-122 | the "No encontré" message for no results; a failure when a result lacks its source; otherwise the header, four parts per result, and the closing note, joined by newlines |
| Knowledge.EntriesLength | backend/santander_knowledge.py:114-117 | four parts per result |
| Knowledge.FormattedShape | backend/santander_knowledge.py:87-122 | the "No encontré" message exactly when there are no results; otherwise the text opens with the header and ends with the official-sources note |
| Knowledge.MissingSourceFails | backend/santander_knowledge.py:104-165 | a result without `source` makes both formatters fail |
| Knowledge.SantanderKnowledge.AnswerWithSources | backend/santander_knowledge.py:179-199 | leaves the flag, the store and the load counter as `ensure_loaded` does; when the load raised, no answer; otherwise the answer for the five nearest results |
| Knowledge.BuildAnswer | backend/santander_knowledge.py:191-197 | builds the dictionary `AnswerFor` specifies: the query, the result count, the formatted text, the raw results and whether any result was found; no answer when formatting raised |
| Knowledge.AnswerConsistent | backend/santander_knowledge.py:191-197 | `found_sources` is the number of raw results, which are the results, and `has_official_data` holds exactly when the response is not the "No encontré" message |
| ConversationCapture.Capture.ProcessUniqueMessage | frontend/hooks/useConversationCapture.tsx:23-38 | the new state is the step function of the old one |
| ConversationCapture.BlankIgnored | frontend/hooks/useConversationCapture.tsx:24-29 | a whitespace-only message changes nothing |
| ConversationCapture.DuplicateDropped | frontend/hooks/useConversationCapture.tsx:27-29 | a message equal to the last processed one once trimmed changes nothing, whatever its role |
| ConversationCapture.Forwarded | frontend/hooks/useConversationCapture.tsx:32-38 | any other message becomes the last processed one, trimmed; it reaches the user callback exactly when it is the user's and that callback exists, and likewise for the assistant |
| ConversationCapture.StepIdempotent | frontend/hooks/useConversationCapture.tsx:27-32 | the same message twice in a row is processed once, whatever the roles |
| ConversationCapture.StepConsistent | frontend/hooks/useConversationCapture.tsx:23-38 | deliveries stay trimmed and non-empty; with both callbacks, the last delivery is the last processed message and no two consecutive deliveries are equal |
| ConversationCapture.HandleConsistent | frontend/hooks/useConversationCapture.tsx:51-117 | every handler outcome keeps that invariant |
| ConversationCapture.RepeatWithoutAssistantCallback | frontend/hooks/useConversationCapture.tsx:32-38 | without an assistant callback, the user callback can receive the same message twice in a row |
| ConversationCapture.TranscriptText | frontend/hooks/useConversationCapture.tsx:61-64 | the joined segment text is trimmed |
| ConversationCapture.TranscriptForwardedIff | frontend/hooks/useConversationCapture.tsx:59-69 | a transcription is forwarded exactly when some segment has non-blank text; the text is already trimmed and is the user's exactly when the speaker is the local participant |
| ConversationCapture.BlankTranscriptSkipped | frontend/hooks/useConversationCapture.tsx:59-66 | no segments, or only blank ones, is no message |
| ConversationCapture.Capture.HandleTranscription | frontend/hooks/useConversationCapture.tsx:51-75 | the state after a transcription event |
| ConversationCapture.LossyIgnored | frontend/hooks/useConversationCapture.tsx:79 | a lossy packet is ignored |
| ConversationCapture.RoleByType | frontend/hooks/useConversationCapture.tsx:92-108 | with a non-empty string text: `user_transcript` is the user's; `assistant_response` and `agent_speech` are the assistant's; `transcript` is the user's when `participant_identity` is the local identity; any other type is the user's when the sender is local |
| ConversationCapture.FalsyTextSkipped | frontend/hooks/useConversationCapture.tsx:92-110 | a falsy `text` gives nothing, whatever the type |
| ConversationCapture.NonStringText | frontend/hooks/useConversationCapture.tsx:92-117 | a truthy non-string `text` is an error for the four known types and is ignored otherwise |
| ConversationCapture.ForwardedPacketText | frontend/hooks/useConversationCapture.tsx:79-112 | a forwarded packet was reliable and parsed, and its text is the packet's own non-empty string `text` |
| ConversationCapture.ErrorsCounted | frontend/hooks/useConversationCapture.tsx:114-117 | an error reaches `onError` only for a failing handler, and only when that callback exists |
| ConversationCapture.Capture.HandleDataPacket | frontend/hooks/useConversationCapture.tsx:78-118 | the state after a data packet |

## Left out

- The MD5 digest, the embedding model and the store's distance are functions given as parameters, and are not computed.
- `Nearest.SelectNearest`: an exact top-k. The store's approximate HNSW index can miss a nearer record, which this contract does not allow.
- Nearest: ties between equally distant records are broken in an unspecified way.
- Relevance scores are `real`. Floating-point rounding and the `{score:.1%}` rendering (the parameter `percent`) are not modelled.
- `datetime.now().isoformat()` is the parameter `now`. One value serves a whole load pass, whereas the source reads the clock per chunk.
- The PDF and spreadsheet readers are not part of this model. A file arrives as its page texts or sheets. A reader exception is a `None` entry, which ends that file.
- Opening the store, `get_collection`/`create_collection`, persistence, and store I/O errors are not part of this model.
- `VectorStore.VectorDB.ClearDatabase` always succeeds. The `False` path, which is taken only on store errors, is left out.
- `get_document_stats` returns `{"error": …}` on a store failure, which then makes `ensure_loaded` load. That failure path is not modelled.
- `VectorStore.VectorDB.GetDocumentStats`: which 1000 records the store returns is unspecified. The sample is any min(1000, count) distinct stored ids.
- The asyncio executor is not modelled. Calls run one after another, so two overlapping first calls to `ensure_loaded` are not modelled.
- `Text.Strip`: whitespace is exactly space, `\t`, `\n`, `\x0b`, `\x0c` and `\r` (`Text.IsSpace`). Python's `str.strip()` also removes `\x1c`-`\x1f`, `\x85` and the Unicode spaces (`\xa0`, `\u1680`, `\u2000`-`\u200a`, `\u2028`, `\u2029`, `\u202f`, `\u205f`, `\u3000`); JavaScript's `trim()` also removes `\xa0`, `\ufeff` and the same Unicode spaces, but not `\x1c`-`\x1f` or `\x85`. Texts holding those characters at their ends are trimmed less in the model than in the code. `lower()` maps ASCII letters only; Unicode case mapping is left out.
- pandas: each cell arrives as its rendered text, or `None` for a missing value. Number formatting and NA detection are the reader's concern.
- `ConversationCapture.TranscriptText`: a segment's text is a string or missing. A non-string segment text, which `join` would stringify, is not modelled. Nor is a `null` segment: `segment.text` then throws a `TypeError`, which the handler's `catch` passes to `onError`; the model has no such segment, so `TranscriptAction` never fails.
- The hook's React mechanics are left out: the stale closure over `lastProcessedMessage`, `useState`/`useCallback`, `isCapturing`, event registration and cleanup. The state is updated before the next event.
- `TextDecoder` and `JSON.parse` are not modelled: a packet arrives parsed. Invalid JSON, and the JSON `null` (whose fields cannot be read), are `Unparsable`. An identity that is neither a string nor absent compares unequal.
- Exceptions thrown by the callbacks themselves are not modelled.
- `console.log` and `logger` output are not modelled.
- `SantanderKnowledge.get_stats` only forwards to `get_document_stats` and has no member of its own.
