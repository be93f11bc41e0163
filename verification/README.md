# Retrieval core of the PDF study assistant, in Dafny

The study assistant turns uploaded PDF notes into a retrieval index. It
answers questions from the index and writes summaries, multiple-choice
questions and flashcards from the notes. This project models the deterministic
core of that pipeline and proves properties about it:

- **Chunking** (`Chunking`, `ChunkingProperties`): `chunk_text` cuts every
  page's text into windows of `max_chars` characters. Window starts advance by
  `max_chars - overlap`. Chunk ids count chunks across the pages of one call.
- **Vector store** (`VectorIndex`, `Knn`): `VectorStore` holds an index plus an
  order-aligned metadata list. The list only grows by appending. A search
  skips the index's `-1` labels and returns copies of the named metadata
  entries with the distance attached. The flat L2 index is replaced by an
  exact k-nearest-neighbour oracle over integer vectors with squared
  Euclidean distance.
- **Context assembly** (`ContextAssembly`): every record becomes the line
  `[source - p.N] text`, with the text's newlines turned into spaces. Lines
  are taken in order until the first one that would push the running total
  of line lengths over the budget. The taken lines are joined with a blank
  line.
- **Pipeline** (`RagPipeline`, `PipelineProperties`): `RAGPipeline` is a state
  of an optional store plus the chunk list. The model covers ingestion (a
  full rebuild), retrieval, the two context builders, and the answer, summary,
  MCQ and flashcard tasks, which return fixed messages without consulting the
  text generator when there is no context.
- **Generator post-processing** (`Llm`): `LocalLLM.generate` removes one
  leading echo of the prompt and applies Python's `str.strip()`.

Shared pieces:

- `Text`: lengths, joining, prefixes and infixes.
- `Decimal`: `str(int)` for the page number in a tag.
- `Records`: the page, chunk and record datatypes.
- `Wrappers`: `Option` and `Result`.

The embedding model and the text generator are foreign. They enter as
parameters:

- an `Encoder`: a dimension plus a function from text to vector, with every
  vector having that dimension;
- a `Generator`: a function from prompt and token budget to raw text.

Where an operation can fail in the source, the model returns a `Result`:

- a vector of the wrong dimension (the index refuses it);
- a search for fewer than one neighbour;
- an index label with no metadata entry (an `IndexError` in the source).

## Model

| member | source | states |
|---|---|---|
| Chunking.PageChunks | backend/pdf_utils.py:43-55 | a page yields no chunks exactly when the loop starts at or past the end of its text; chunk `i` carries id `nextId + i` and the page's number |
| Chunking.PageChunkWindow | backend/pdf_utils.py:44-55 | chunk `i` of a page is `text[s:s+max_chars]` for the window start `s` that lies `i` steps of `max_chars - overlap` after the first, and `s` is inside the text |
| Chunking.PageChunkCount | backend/pdf_utils.py:43-55 | a page of remaining length `L > 0` yields `ceil(L / (max_chars - overlap))` chunks |
| Chunking.WindowStartIsLinear | backend/pdf_utils.py:55 | the `i`-th window starts at `start + i * (max_chars - overlap)` |
| Chunking.ChunkText | backend/pdf_utils.py:36-57 | chunk ids start at 0 and count every emitted chunk across all pages of one call: chunk `i` has id `i` |
| ChunkingProperties.ChunkTextAppendPage | backend/pdf_utils.py:39-54 | pages are processed in input order: a page's chunks follow the chunks of all earlier pages and are numbered on from there |
| ChunkingProperties.ChunkTextProvenance | backend/pdf_utils.py:39-53 | every chunk is at most `max_chars` long, carries the number of an input page, and is a contiguous piece of that page's text |
| ChunkingProperties.PageCoverageAll | backend/pdf_utils.py:43-55 | with `0 <= overlap < max_chars`, every character position of a page lies inside one of its chunks, at the matching offset |
| ChunkingProperties.ConsecutiveOverlap | backend/pdf_utils.py:45-55 | a full-length chunk's last `overlap` characters are the next chunk's first `overlap` characters |
| ChunkingProperties.ReassemblePage | backend/pdf_utils.py:43-55 | round trip: the chunks of a page, glued back with their overlaps removed, give the page text exactly |
| ChunkingProperties.GuardStaysTrue | backend/pdf_utils.py:44-55 | with `overlap >= max_chars` and non-empty text, `start` never grows, so the loop guard never becomes false |
| ChunkingProperties.DefaultCounts | backend/pdf_utils.py:23-57 | with 800/200: 600 characters give one chunk, 700 give two, 2000 give four, empty text gives none |
| Knn.SqDist | backend/vector_store.py:9 | the squared L2 distance is zero exactly when the vectors are equal |
| Knn.Rank | backend/vector_store.py:32 | the index's ranking is ordered (nearer first, ties by position) and holds exactly the candidate hits |
| Knn.Nearest | backend/vector_store.py:32 | the index returns exactly `k` hits: the first `min(k, n)` name stored vectors with their true distances in ranked order, the rest are `-1` |
| Knn.NearestIsExact | backend/vector_store.py:9 | exactness of the flat index: a stored vector left out of the answer ranks after every vector in it |
| VectorIndex.NewStore | backend/vector_store.py:7-11 | a new store has the given dimension, no vectors, no metadata, is not trained, and is aligned |
| VectorIndex.FirstAddTrains | backend/vector_store.py:7-22 | a new store is untrained; the first successful add marks it trained |
| VectorIndex.AddEmbeddings | backend/vector_store.py:13-25 | vectors of the store's dimension are accepted, any other is refused; on success the old vectors and metadata are kept as prefixes and the new ones appended in order; alignment is preserved exactly when the two batches have equal length |
| VectorIndex.ValidHitsMembers | backend/vector_store.py:35-37 | the hits kept are exactly the hits not labelled `-1` |
| VectorIndex.ValidHitsAppend | backend/vector_store.py:35-37 | skipping keeps the index's order and every repetition: the kept hits of a concatenation are the kept hits of each part, in order |
| VectorIndex.ValidHitsSingle | backend/vector_store.py:35-37 | one hit is kept exactly when it is not labelled `-1` |
| VectorIndex.Lookup | backend/vector_store.py:35-41 | every kept hit yields a copy of the metadata entry it names with the hit's distance, in hit order; a label without an entry is an error |
| VectorIndex.Search | backend/vector_store.py:27-41 | `top_k < 1` and a query of the wrong dimension are errors; otherwise at most `top_k` results, all stored metadata, in ascending distance order, exactly `min(top_k, n)` of them on an aligned store |
| VectorIndex.SearchReturnsNearest | backend/vector_store.py:32-40 | result `i` is the metadata entry at the index's `i`-th nearest position, carrying that vector's squared distance |
| VectorIndex.FreshStoreSearchesEmpty | backend/vector_store.py:27-41 | searching an empty store gives no results and no error |
| VectorIndex.RankingExample | backend/vector_store.py:27-41 | vectors at distance 1, 5 and 10, a search for two: the nearest two, nearest first, with squared distances 1 and 25 |
| Decimal.ParseIntToString | backend/rag_pipeline.py:64 | the page number written into a tag reads back as the same number |
| Text.Join | backend/rag_pipeline.py:71 | joining gives the empty string for no parts; its length is the parts' total plus one separator between each pair; it starts with the first part |
| Text.JoinAppend | backend/rag_pipeline.py:71 | joining one more part appends the separator and that part, so the parts appear in order, one separator apart |
| ContextAssembly.ReplaceNewlines | backend/rag_pipeline.py:63 | every newline becomes a space and every other character is kept |
| ContextAssembly.Pack | backend/rag_pipeline.py:62-69 | the accepted lines are a prefix of the candidates, their total length is within the budget, and the first line left out would have overflowed it |
| ContextAssembly.GreedyPrefixUnique | backend/rag_pipeline.py:62-69 | there is only one prefix with the greedy property, so the packing rule is determined by it |
| ContextAssembly.PackRecords | backend/rag_pipeline.py:60-69 | the source's loop with its running total and `break` produces exactly the greedy prefix of the record lines |
| ContextAssembly.AssembleContext | backend/rag_pipeline.py:60-71 | the loop followed by the blank-line join produces the packed context |
| ContextAssembly.PackContextEmpty | backend/rag_pipeline.py:128-142 | the context is empty exactly when there are no records or the first line alone is over the budget |
| ContextAssembly.ContextLengthBound | backend/rag_pipeline.py:66-71 | the context is at most the budget plus two characters per separator between accepted lines |
| ContextAssembly.StopsAtFirstOverflow | backend/rag_pipeline.py:66-67 | after the first line that does not fit, later lines are never considered, however short |
| ContextAssembly.ContextStartsWithTag | backend/rag_pipeline.py:63-65 | a non-empty context begins with the first record's `[source - p.N] ` tag |
| ContextAssembly.TruncationExample | backend/rag_pipeline.py:60-71 | lines of length 100, 100, 5000 and 5 against a budget of 250 give the first two joined by a blank line |
| ContextAssembly.SnippetIsCutLine | backend/rag_pipeline.py:82-85 | a dummy-answer snippet is the record's context line cut after the first 300 text characters, plus an ellipsis |
| RagPipeline.Init | backend/rag_pipeline.py:9-12 | a new pipeline has no store and no chunks and satisfies the state invariant |
| RagPipeline.Ingest | backend/rag_pipeline.py:17-41 | after ingestion the chunk list is every file's chunks in upload order; a fresh trained store of the encoder's dimension holds one vector per chunk, the chunk's embedding, and the chunk list as metadata |
| RagPipeline.Retrieve | backend/rag_pipeline.py:45-50 | no store gives no results; otherwise at most `top_k` chunks of the chunk list, nearest first, exactly `min(top_k, chunks)` of them for a well-formed query |
| RagPipeline.BuildContextString | backend/rag_pipeline.py:52-71 | no store gives `""`; otherwise the retrieved records packed by the shared rule, and an error exactly when retrieval fails |
| RagPipeline.BuildGlobalContext | backend/rag_pipeline.py:124-142 | the chunk list packed by the same rule; empty exactly when there are no chunks or the first line is over the budget |
| RagPipeline.AnswerDummy | backend/rag_pipeline.py:75-93 | no store gives the fixed message; the fixed message is returned exactly when nothing is retrieved; otherwise the answer begins with the header and the first result's snippet |
| RagPipeline.Generate | backend/llm.py:34-38 | raw output that begins with the prompt loses that one leading copy and is then stripped; any other raw output is only stripped; the result is trimmed and a piece of the raw output |
| RagPipeline.Embed | backend/rag_pipeline.py:105-119 | the context appears inside the prompt |
| RagPipeline.AnswerLlm | backend/rag_pipeline.py:97-120 | no store gives the upload message; an empty context gives the not-found message; otherwise the generator's trimmed answer to a prompt that contains the context, with a budget of 256 tokens |
| RagPipeline.GenerateSummary | backend/rag_pipeline.py:146-163 | an empty global context gives the upload message; otherwise the echo-stripped generator output for a summary prompt that contains the context, with a budget of 400 tokens |
| RagPipeline.GenerateMcqs | backend/rag_pipeline.py:165-182 | an empty global context gives the upload message; otherwise the echo-stripped generator output for an MCQ prompt that contains the context, with a budget of 600 tokens |
| RagPipeline.GenerateFlashcards | backend/rag_pipeline.py:184-201 | an empty global context gives the upload message; otherwise the echo-stripped generator output for a flashcard prompt that contains the context, with a budget of 600 tokens |
| PipelineProperties.FileRecordsShape | backend/rag_pipeline.py:19-24 | one file's records are its chunks in order, numbered from 0 within the file, each tagged with the file's name and taken from one of its pages |
| PipelineProperties.AllRecordsAppend | backend/rag_pipeline.py:18-24 | the records of an upload are the records of its files concatenated in upload order |
| PipelineProperties.ChunkIdsRestartPerFile | backend/rag_pipeline.py:19-24 | chunk ids restart at 0 for every file, wherever the file sits in the upload |
| PipelineProperties.RecordsFromFiles | backend/rag_pipeline.py:19-26 | every ingested record comes from one of the uploaded files |
| PipelineProperties.RetrievedFrom | backend/rag_pipeline.py:45-50 | whatever is retrieved comes from one of the files whose chunks the state holds |
| PipelineProperties.ReingestReplaces | backend/rag_pipeline.py:17-41 | a second ingestion replaces the first: the state, the chunk list and the global context depend only on the latest upload |
| PipelineProperties.ReingestRetrievesOnlyNewer | backend/rag_pipeline.py:17-50 | after a second ingestion every retrieved chunk comes from a file of that ingestion |
| PipelineProperties.IngestThenRetrieve | backend/rag_pipeline.py:45-50 | after an ingestion a search for `top_k >= 1` succeeds with `min(top_k, chunks)` chunks of the upload, nearest first |
| PipelineProperties.NothingBeforeIngest | backend/rag_pipeline.py:45-47 | before any ingestion the context is empty and every task returns its fixed message |
| PipelineProperties.AnswerIgnoresLlmWithoutContext | backend/rag_pipeline.py:98-103 | without a store or without context the answer is a fixed message and any two generators give the same answer |
| PipelineProperties.StudyHelpersIgnoreLlmWithoutContext | backend/rag_pipeline.py:146-149 | with an empty global context the summary, MCQ and flashcard tasks return the upload message whatever the generator |
| Llm.Strip | backend/llm.py:38 | `str.strip()`: the result has no whitespace at either end and is the slice of the input between its leading and trailing whitespace runs |
| Llm.StripUnique | backend/llm.py:38 | whitespace around a trimmed core is exactly what is removed |
| Llm.StripIdempotent | backend/llm.py:38 | stripping twice is stripping once |
| Llm.StripEcho | backend/llm.py:34-38 | the returned text is trimmed and is a piece of the generated text |
| Llm.EchoRemovedOnce | backend/llm.py:36-37 | output that begins with the prompt loses exactly one copy of it; a second copy right after is kept |
| Llm.NoEchoKept | backend/llm.py:36-38 | output that does not begin with the prompt is only stripped, so a copy of the prompt anywhere else survives |

## Left out

- PDF text extraction (`extract_text_from_pdf`) wraps a PDF library. Pages enter as a `seq<Page>`.
- The embedding model is foreign. It is the `Encoder` parameter: a dimension and a text-to-vector function, with every vector of that dimension. The shape of an empty batch is therefore the encoder's dimension, which the source leaves to numpy.
- The text generator, its model loading and its sampling are foreign and nondeterministic. It is the `Generator` parameter.
- The Streamlit user interface is not modelled.
- Floating point is not modelled. Vectors have integer coordinates and distances are exact squared integers, so the float32 casts in the vector store are left out.
- The flat L2 index is replaced by an exact nearest-neighbour ranking. Equal distances are broken by insertion position. That tie-break is this model's choice.
- RagPipeline.Ingest: the source assigns the new chunk list before encoding and adding. A failure in the foreign encoder or index would therefore leave new chunks next to an old store. Here the encoder is total and produces vectors of its own dimension, so ingestion cannot fail half-way, and that intermediate state is not modelled.
- VectorIndex.Search: a search for fewer than one neighbour is modelled as an error. This assumes the index refuses such a request; the index library's own code is not part of this model.
- RagPipeline.AnswerPrompt, RagPipeline.SummaryPrompt, RagPipeline.McqPrompt and RagPipeline.FlashcardPrompt: the instruction wording is abbreviated. Only the fact that the context sits inside the prompt is modelled.
- RagPipeline.AnswerDummy: the contract states the fixed-message cases and that the answer begins with the header and the first snippet. The later snippets and the footer are fixed by the definition only.
- Chunking.ValidParams: a negative `max_chars` is excluded. In Python the slice end would become a negative index counted from the end of the text.
- VectorIndex.AddEmbeddings: the source sets the trained flag before handing the batch to the index, so an add that the index refuses still leaves the store marked trained. The model returns a failure and leaves the store as it was. Nothing in the program reads the flag.
- `ChunkingProperties.GuardStaysTrue` shows that the loop does not terminate when `overlap >= max_chars`. The chunker itself is defined only for `overlap < max_chars`.

## Behaviour worth knowing

- A page shorter than `max_chars` can still give two chunks. With 800/200, a 700-character page gives two chunks, because the second window starts at 600 (`DefaultCounts`).
- A page of length `L` gives `ceil(L / (max_chars - overlap))` chunks. With 800/200, a 2000-character page gives four and a 600-character page one.
- The context budget counts only the lines; the `"\n\n"` separators come on top (`ContextLengthBound`).
- Chunk ids restart at 0 for every file of an upload, because `chunk_text` is called once per file (`ChunkIdsRestartPerFile`).
- The chunker itself does not skip whitespace-only text; pages are stripped and empty ones dropped during extraction, before chunking.
- `add_embeddings` does not compare the lengths of its two batches. Alignment is kept only when the caller passes equal lengths (`AddEmbeddings`), which ingestion does.
