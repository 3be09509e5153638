# RAG pipeline: a Dafny model of the ingestion, retrieval and API shaping logic

This project models the bookkeeping of a retrieval-augmented generation
service. It does not model the engines the service drives.

Ingestion takes PDF pages or an audio transcript and splits each text into
chunks with a token splitter. It strips a leading page number from every
chunk and tags each chunk with its source file, its text's position and its
position within that text. The chunks are then embedded and upserted into a
vector collection under consecutive point ids, counted from the collection's
current size.

A query embeds the question and asks the vector store for the `top_k`
nearest points. It keeps those whose score is non-zero and at least the
threshold. An empty result gives a fixed fallback answer without calling the
language model. Otherwise a prompt is built from source-annotated chunks and
the model's reply is returned. The REST layer checks uploads and questions,
fills in defaults (`top_k = 5`, `score_threshold = 0.3`) and shapes the
response, cutting chunk texts to 200 characters plus `...`.

Modules, one per component:

- `Wrappers` (wrappers.dfy): `Option` and `Result`.
- `Strings` (strings.dfy): the Python string operations used. These are `str.isspace` (and the regex `\s`), `strip()`, ASCII `lower()`, `endswith`, the text after the last occurrence of a character (`rsplit`, `os.path.basename`) and `join`.
- `Chunking` (chunking.dfy): the leading-number cleanup and the specification of `chunk_text`'s output.
- `Store` (store.dfy): points, payloads, the collection as a map from id to entry, upsert, and consecutive numbering.
- `Retrieval` (retrieval.dfy): the score filter.
- `Synthesis` (synthesis.dfy): the context block, the prompt, the fallback.
- `Pipeline` (pipeline.dfy): the class `RAGPipeline`. Its mutable field `store` is the collection. Its ghost field `prompts` records every prompt sent to the language model. Its methods `ChunkText`, `EmbedAndStore`, `ProcessPdf`, `ProcessAudio`, `Retrieve`, `GenerateAnswer` and `Query` follow the source's loops and branches.
- `Api` (api.dfy): `allowed_file`, the upload checks, the question checks of `/query` and `/answer`, and response shaping.

The engines are constants of type function on the pipeline object:

- `splitter`: the token splitter, any function from a text to its pieces.
- `encoder`: the embedding model, applied text by text, so a batch keeps its order.
- `ranker`: the vector store's ranked search over the collection's contents.
- `llm`: the language model, a reply or the text of the exception it raises.

Extracted PDF pages, the transcript, and whether the point-count lookup
succeeds are parameters of the ingestion methods.

Behaviour of the code worth knowing, which the model keeps:

- Chunk ids are counted from the collection's point count, or from 0 when that lookup fails (rag_pipeline.py:286-290). `Store.DenseAfterAppend` shows that numbering from the count never reuses an id, as long as the ids already in use are exactly `0 .. count-1`. With the fallback start of 0, `ProcessPdf`'s contract shows that the first ids are overwritten.
- `chunk_index` counts the pieces of one input text, so it restarts at 0 for every PDF page (rag_pipeline.py:205-219).
- When the language-model call raises, its message, prefixed with `Error generating answer: `, becomes the answer text (`Synthesis.AnswerText`).
- Retrieval also drops results whose score is exactly zero, because the source tests `point.score` for truth before comparing.
- `/answer` calls an empty `question` parameter "Missing question", while `/query` calls an empty question "Empty question". `Api.EndpointsAgree` proves the two endpoints agree on every other question.

## Model

The rows name the lemmas and methods whose contracts state each property. The definitions they are about carry the model's meaning and are worth reading alongside:

- `Chunking.Chunked` is the output of `chunk_text` (rag_pipeline.py:203-222).
- `Store.Upsert` is Qdrant's `upsert`, and `Store.Stored` is the collection after `embed_and_store` (rag_pipeline.py:244-264).
- `Retrieval.Relevant` is the filter of `retrieve` (rag_pipeline.py:348-358).
- `Synthesis.ContextText`, `Synthesis.Prompt` and `Synthesis.AnswerText` are the context, the prompt and the answer of `generate_answer` (rag_pipeline.py:371-395).
- `Api.AllowedFile` is `allowed_file` (rag_api.py:37-40), and `Api.IsPdfName` is the `.pdf` check (rag_api.py:81).
- `Api.Respond` and `Api.Asked` are the success body of the question endpoints and the prompts they send.

| member | source | states |
|---|---|---|
| Chunking.StripPageNumber | rag_pipeline.py:212 | the result is a suffix of the chunk; a chunk that does not start with a digit is unchanged; otherwise exactly the maximal leading digit run and the whitespace run after it are removed, so the result is empty or starts with a non-space |
| Chunking.LeadingDigits | rag_pipeline.py:212 | `^\d+` matches the maximal run of leading digits |
| Chunking.ChunkedLength | rag_pipeline.py:203-222 | `chunk_text` returns one chunk per splitter piece, summed over all input texts |
| Chunking.ChunkedAt | rag_pipeline.py:205-219 | the j-th piece of the i-th text is the chunk after all pieces of earlier texts; it carries the given source, `original_index = i`, `chunk_index = j` and the cleaned piece text |
| Chunking.ChunkedOrigin | rag_pipeline.py:205-219 | conversely, every output chunk has the given source and comes from exactly one (text, piece) pair, whose indices determine its position |
| Chunking.SilentTextContributesNothing | rag_pipeline.py:207-210 | a text the splitter turns into no pieces yields no chunk |
| Pipeline.RAGPipeline.ChunkText | rag_pipeline.py:190-222 | the nested loops build exactly the chunk sequence `Chunked` specifies |
| Store.MakePoints | rag_pipeline.py:244-257 | the i-th (chunk, embedding) pair becomes point `start_id + i` with that embedding and the chunk's text, source and indices as payload; `zip` stops at the shorter list |
| Store.UpsertConsecutive | rag_pipeline.py:261-264 | upserting points numbered from `start_id` adds ids `start_id .. start_id+n-1` holding the new points, overwriting what those ids held, and leaves every other id unchanged |
| Store.IdRange | rag_pipeline.py:248 | the ids `start .. start+n-1`, exactly |
| Pipeline.RAGPipeline.EmbedAndStore | rag_pipeline.py:224-267 | returns `start_id + len(chunks)`; afterwards the collection holds the old entries plus the chunks' points at consecutive ids, and no other id changes |
| Store.DenseAfterAppend | rag_pipeline.py:285-293 | numbering from the point count keeps the ids exactly `0 .. count-1`, and the count grows by the number of chunks |
| Store.DenseNoOverwrite | rag_pipeline.py:286-293 | when the ids are exactly `0 .. count-1`, a batch numbered from the count overwrites no existing point |
| Pipeline.RAGPipeline.Ingest | rag_pipeline.py:285-295 | `start_id` is the point count, or 0 when the lookup fails; the number of chunks is returned, not the next id |
| Pipeline.RAGPipeline.ProcessPdf | rag_pipeline.py:269-295 | chunks the pages under the file's base name, stores them from the point count (or 0), returns the chunk count; when the count lookup succeeds, a dense collection stays dense and keeps its old points |
| Pipeline.RAGPipeline.ProcessAudio | rag_pipeline.py:297-323 | the same as `ProcessPdf`, with the transcript as the single text: stored from the point count (or 0), and, when the count lookup succeeds, a dense collection stays dense and keeps its old points |
| Retrieval.RelevantIsFilter | rag_pipeline.py:348-358 | `retrieve`'s output is exactly the qualifying search results, in search order: kept positions increase strictly, each kept result qualifies and is copied with its payload defaults, and every qualifying result is kept |
| Retrieval.RelevantScores | rag_pipeline.py:351 | every returned chunk has a non-zero score of at least the threshold |
| Retrieval.RelevantBound | rag_pipeline.py:349-358 | the output is never longer than the search results |
| Retrieval.RelevantMonotone | rag_pipeline.py:351 | raising the threshold keeps a subset of the positions kept before, so the output never lengthens |
| Pipeline.RAGPipeline.Retrieve | rag_pipeline.py:325-358 | the loop returns the filter of the search results for the embedded question; given a store that honours `limit`, at most `top_k` results and at most the collection's size |
| Strings.JoinAppend | rag_pipeline.py:372-375 | joining a concatenation of two non-empty lists is joining each and putting the separator between them |
| Strings.JoinContains | rag_pipeline.py:372-375 | every part occurs in the joined text |
| Synthesis.ContextAppend | rag_pipeline.py:372-375 | the context is the source-annotated entries, blank-line separated, in chunk order |
| Synthesis.ContextSingle | rag_pipeline.py:373 | one chunk's entry is `[Source: s]` and a newline and its text |
| Synthesis.PromptGrounded | rag_pipeline.py:372-385 | every chunk's source-annotated entry, and the question, occur in the prompt |
| Synthesis.Fallback | rag_pipeline.py:414-419 | the fallback result has no chunks and `num_chunks = 0` |
| Pipeline.RAGPipeline.GenerateAnswer | rag_pipeline.py:360-395 | sends exactly one prompt, built from the question and the chunks, and returns the reply or the error text |
| Pipeline.RAGPipeline.Query | rag_pipeline.py:397-430 | with nothing retrieved, the fixed fallback and no model call; otherwise one model call, the chunks unchanged and `num_chunks = len(chunks)` |
| Pipeline.RAGPipeline.constructor | rag_pipeline.py:108-132 | an existing collection is used as it is, a missing one is created empty |
| Strings.Strip | rag_api.py:218 | `strip()` returns the infix left after removing whitespace at both ends; it is empty exactly when the text is all whitespace |
| Strings.AfterLast | rag_api.py:40 | the maximal suffix without the character, preceded by that character when shorter than the text |
| Api.AllowedFileIff | rag_api.py:37-40 | a name is allowed if and only if it has a dot and the lower-cased text after its last dot is one of pdf, wav, mp3, mp4, m4a, flac, ogg |
| Api.AllowedFileIgnoresCase | rag_api.py:40 | a name is allowed exactly when its lower-cased form is |
| Api.UpperCaseExtensionAllowed | rag_api.py:40 | `a.MP3` is accepted |
| Api.OnlyLastExtensionCounts | rag_api.py:39-40 | `a.exe.mp3` is accepted and `a.mp3.exe` is rejected |
| Api.NoDotRefused | rag_api.py:39 | a name without a dot is rejected |
| Api.LastDotSuffix | rag_api.py:40 | `rsplit('.', 1)[1]` is the text after the last dot |
| Api.PdfNameIsAllowed | rag_api.py:81 | every name the PDF endpoint accepts also passes the media allow-list |
| Api.ValidatePdfUpload | rag_api.py:67-85 | accepted if and only if a file part is present and its lower-cased name ends with `.pdf`; a missing part, an empty name (checked first) and a wrong suffix each give their own 400 error |
| Api.ValidateMediaUpload | rag_api.py:134-152 | accepted if and only if a file part is present and its name passes `allowed_file`, with the same error order |
| Api.ValidatePostQuery | rag_api.py:204-229 | non-JSON gives "Invalid content type"; a missing question gives "Missing question"; a blank one gives "Empty question"; otherwise the stripped question goes on with `top_k` defaulting to 5 and `score_threshold` to 0.3 |
| Api.ValidateAnswerRequest | rag_api.py:277-296 | an absent or empty parameter gives "Missing question"; a blank one gives "Empty question"; otherwise the stripped question goes on with the same defaults |
| Api.AcceptedQuestionIsTrimmed | rag_api.py:218-224 | the question passed on is non-empty and has no surrounding whitespace |
| Api.EndpointsAgree | rag_api.py:277-291 | both endpoints give the same verdict and parameters for every non-empty question, and differ on the empty string |
| Api.Preview | rag_api.py:245 | text of at most 200 characters is unchanged; longer text becomes its first 200 characters followed by `...`, 203 in all |
| Api.ShapeResponse | rag_api.py:238-251 | `num_chunks_retrieved` is the result's `num_chunks`; the response chunks have the result's length and order, with the same source and score and the previewed text |
| Api.Answer | rag_api.py:226-251 | `success` is true and the question is the checked one; the count and the previewed chunks are those retrieved with the checked `top_k` and threshold; with nothing retrieved, the fallback answer and no model call, otherwise the model's reply (or error text) to the grounded prompt and exactly that prompt logged |
| Api.PostQuery | rag_api.py:185-257 | a rejected request returns its error without calling the model; an accepted one sends the stripped question with `top_k` (default 5) and `score_threshold` (default 0.3) to the pipeline and returns exactly the shaped response for those parameters, logging at most the one prompt |
| Api.GetAnswer | rag_api.py:260-324 | the same for `/answer`, with the question and numbers from the query string and the same defaults |

## Left out

- PDF loading, Whisper transcription and its lazy model load, and `summarize_transcript` are not modelled. They are foreign engines. Their output (the page texts, the transcript) is a parameter of `ProcessPdf` and `ProcessAudio`. `summarize_transcript` is never called by the pipeline.
- The token splitter and the sentence-embedding model are not modelled internally. They are library code. Each is an arbitrary function (`splitter`, `encoder`), so the embedding dimension and the chunk size and overlap configuration are not modelled.
- Qdrant's ranking and cosine similarity are not modelled. They are float numerics inside the store. `ranker` is an arbitrary function of the collection, the query vector and the limit. `Pipeline.RAGPipeline.SearchHonoursLimit` names the store's promise to return at most `limit` points and never more than it holds.
- Pipeline.RAGPipeline.Retrieve: the `top_k` bound is stated only under the hypothesis `SearchHonoursLimit`, because that bound is the store's behaviour, not the code's.
- Qdrant client plumbing is not modelled: `get_collections`, the printed errors and re-raise in `_ensure_collection_exists`, a `points_count` of `None`, and connection failures during upsert or search. These are network I/O.
- The `OLLAMA_HOST` environment handling and the other environment configuration are not modelled. They are configuration.
- Flask routing is not modelled, nor multipart parsing, `secure_filename`, saving and removing temporary files, `jsonify`, `/health`, the 404/500 handlers, or the 500 responses for exceptions ("Processing failed", "Query failed"). These are I/O and library code. The upload endpoints are modelled up to their input checks. Processing is `ProcessPdf` and `ProcessAudio`.
- Api.ShapeResponse: the score is copied unchanged rather than passed through `round(score, 4)`, because rounding floats is not modelled.
- Chunking.StripPageNumber: `\d` is modelled as the ASCII digits `0`-`9`. Python's `re` also matches non-ASCII decimal digits. `\s` is modelled with Python's full whitespace set.
- Strings.Lower: only `A`-`Z` are lower-cased. For `allowed_file` and the `.pdf` suffix test, this gives the same verdict as Python's Unicode `lower()`. No other character lower-cases to a dot or to a letter of the allowed extensions.
- Api.ValidateMediaUpload: the `Allowed formats:` message (`NotMedia`) lists the extensions in one fixed order, their declaration order. Python prints the set in its iteration order, which varies between runs (rag_api.py:151).
- JSON bodies whose `question` is not a string, and `top_k` or `score_threshold` values of other types (or JSON `null`), are not modelled. The body is modelled as its three optional fields. In the source, a non-string `question` raises at `.strip()` (rag_api.py:218), which is before the `try`. A `score_threshold` of another type passes every check. A boolean compares as 1 or 0 at rag_pipeline.py:351, so `true` keeps only scores of at least 1 and `false` keeps every positive score. Any other type raises a `TypeError` inside the `try` (500 "Query failed"), but only when some search result has a non-zero score. With no such result, the request returns the fallback answer. A `top_k` of another type is passed unchanged to the store's search as its `limit` (rag_pipeline.py:344).
- Bodies that are not JSON objects are modelled only when they are falsy. `null`, `[]`, `0`, `false` and `""` are the model's `None` and give "Missing question" (`not data`, rag_api.py:212). A non-empty string or list passes `'question' not in data` only when it contains `question`, as a substring or as an element. It then raises at `data['question']` (rag_api.py:218), before the `try`; otherwise it gives "Missing question". A non-zero number raises at the `in` test itself (rag_api.py:212).
- NaN and infinite values are not modelled, neither as scores nor as thresholds. Scores and `scoreThreshold` are `real`. In the source, `score_threshold` can be NaN or infinite: `/answer` converts it with `float` (rag_api.py:296), and Python's `json` accepts `NaN` and `Infinity` in a `/query` body. Against a NaN threshold, `point.score >= threshold` is always false, so such a request always gets the fallback answer.
- The `chunk.get(..., default)` fallbacks in `embed_and_store` are not modelled. Chunks made by `chunk_text` always carry both indices, so those defaults never apply.
- Logging through `print` is not modelled.
- Concurrent requests sharing the point count are not modelled. The model is sequential.
- The default arguments are not modelled: `chunk_text(source="unknown")`, `embed_and_store(start_id=0)`, and `top_k = 5` and `score_threshold = 0.3` on `retrieve` and `query`. Every call site in the source passes these arguments explicitly. The API's own defaults of 5 and 0.3 are modelled, in `ValidatePostQuery` and `ValidateAnswerRequest`.
