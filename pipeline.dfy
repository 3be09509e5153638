/**
 * The `RAGPipeline` object: ingestion (chunk, embed, upsert) and querying
 * (retrieve, then answer or fall back).
 *
 * The engines it drives are opaque and stand here as function-valued
 * constants: the token splitter, the embedding model, the vector store's
 * ranked search and the language model. The collection itself is the mutable
 * field `store`; the prompts sent to the language model are recorded in the
 * ghost field `prompts`, so that a contract can say whether the model was
 * called.
 */
module Pipeline {
  import opened Wrappers
  import opened Strings
  import opened Chunking
  import opened Store
  import opened Retrieval
  import opened Synthesis

  class RAGPipeline {
    /** `text_splitter.split_text`, configured with the chunk size and overlap. */
    const splitter: string -> seq<string>
    /** `embedding_model.encode` applied to one text. */
    const encoder: string -> Vector
    /** `query_points(query=vector, limit=top_k).points` over the collection's contents. */
    const ranker: (Collection, Vector, int) -> seq<Hit>
    /** `ollama.generate(prompt=...)['response']`, or the text of the exception it raises. */
    const llm: string -> Result<string, string>

    /** The points of the collection, by id. */
    var store: Collection
    /** Every prompt sent to the language model, in order. */
    ghost var prompts: seq<string>

    /**
     * `__init__`: the collection is used as it is when it exists and is
     * created empty otherwise (`_ensure_collection_exists`).
     */
    constructor (splitter: string -> seq<string>, encoder: string -> Vector,
                 ranker: (Collection, Vector, int) -> seq<Hit>, llm: string -> Result<string, string>,
                 existing: Option<Collection>)
      ensures this.splitter == splitter && this.encoder == encoder
      ensures this.ranker == ranker && this.llm == llm
      ensures store == existing.GetOr(map[]) && prompts == []
    {
      this.splitter := splitter;
      this.encoder := encoder;
      this.ranker := ranker;
      this.llm := llm;
      store := existing.GetOr(map[]);
      prompts := [];
    }

    /** The vector store returns at most `limit` points, and never more than it holds. */
    ghost predicate SearchHonoursLimit() {
      forall st: Collection, v: Vector, k: int {:trigger ranker(st, v, k)} ::
        0 <= k ==> |ranker(st, v, k)| <= k && |ranker(st, v, k)| <= |st|
    }

    /** `chunk_text`: split every text, strip page numbers, tag each piece. */
    method ChunkText(texts: seq<string>, source: string) returns (allChunks: seq<Chunk>)
      ensures allChunks == Chunked(splitter, texts, source)
    {
      allChunks := [];
      for idx := 0 to |texts|
        invariant allChunks == Chunked(splitter, texts[..idx], source)
      {
        var chunks := splitter(texts[idx]);
        ghost var before := allChunks;
        for chunkIdx := 0 to |chunks|
          invariant allChunks == before + TextChunks(chunks[..chunkIdx], source, idx)
        {
          var cleanedText := StripPageNumber(chunks[chunkIdx]);
          allChunks := allChunks + [Chunk(cleanedText, source, idx, chunkIdx)];
          TextChunksSnoc(chunks, source, idx, chunkIdx);
        }
        assert chunks[..|chunks|] == chunks;
        ChunkedSnoc(splitter, texts, source, idx);
      }
      assert texts[..|texts|] == texts;
    }

    /**
     * `embed_and_store`: the `i`-th chunk is upserted as point `startId + i`
     * with its embedding and payload; the next free id is returned.
     */
    method EmbedAndStore(chunks: seq<Chunk>, startId: int) returns (nextId: int)
      modifies this`store
      ensures nextId == startId + |chunks|
      ensures Stored(old(store), store, encoder, chunks, startId)
    {
      var texts := Texts(chunks);
      var embeddings := Encode(encoder, texts);
      var points := MakePoints(chunks, embeddings, startId);
      UpsertConsecutive(store, points, startId);
      store := Upsert(store, points);
      nextId := startId + |points|;
    }

    /** `process_pdf`: load (given here as `pages`), chunk, number from the point count, store. */
    method ProcessPdf(pdfPath: string, pages: seq<string>, countAvailable: bool) returns (numChunks: nat)
      modifies this`store
      ensures numChunks == |Chunked(splitter, pages, Basename(pdfPath))|
      ensures Stored(old(store), store, encoder, Chunked(splitter, pages, Basename(pdfPath)),
                     if countAvailable then |old(store)| else 0)
      ensures countAvailable && Dense(old(store)) ==>
        && Dense(store) && |store| == |old(store)| + numChunks
        && forall id :: id in old(store) ==> id in store && store[id] == old(store)[id]
    {
      var chunks := ChunkText(pages, Basename(pdfPath));
      numChunks := Ingest(chunks, countAvailable);
    }

    /** `process_audio`: the transcript (given here) is chunked as a single text. */
    method ProcessAudio(audioPath: string, transcript: string, countAvailable: bool) returns (numChunks: nat)
      modifies this`store
      ensures numChunks == |Chunked(splitter, [transcript], Basename(audioPath))|
      ensures Stored(old(store), store, encoder, Chunked(splitter, [transcript], Basename(audioPath)),
                     if countAvailable then |old(store)| else 0)
      ensures countAvailable && Dense(old(store)) ==>
        && Dense(store) && |store| == |old(store)| + numChunks
        && forall id :: id in old(store) ==> id in store && store[id] == old(store)[id]
    {
      var chunks := ChunkText([transcript], Basename(audioPath));
      numChunks := Ingest(chunks, countAvailable);
    }

    /**
     * The part `process_pdf` and `process_audio` share: `start_id` is the
     * collection's point count, or 0 when that lookup fails, and the number
     * of chunks (not the next id) is returned.
     */
    method Ingest(chunks: seq<Chunk>, countAvailable: bool) returns (numChunks: nat)
      modifies this`store
      ensures numChunks == |chunks|
      ensures Stored(old(store), store, encoder, chunks, if countAvailable then |old(store)| else 0)
      ensures countAvailable && Dense(old(store)) ==>
        && Dense(store) && |store| == |old(store)| + numChunks
        && forall id :: id in old(store) ==> id in store && store[id] == old(store)[id]
    {
      var startId := if countAvailable then |store| else 0;
      ghost var before := store;
      var nextId := EmbedAndStore(chunks, startId);
      if countAvailable && Dense(before) {
        DenseAfterAppend(before, store, |chunks|);
        DenseNoOverwrite(before, store, |chunks|);
      }
      numChunks := |chunks|;
    }

    /**
     * `retrieve`: embed the question, search with limit `topK`, keep the
     * results whose score is non-zero and at least `scoreThreshold`.
     */
    method Retrieve(question: string, topK: int, scoreThreshold: real) returns (relevant: seq<RetrievedChunk>)
      ensures relevant == Relevant(ranker(store, encoder(question), topK), scoreThreshold)
      ensures |relevant| <= |ranker(store, encoder(question), topK)|
      ensures SearchHonoursLimit() && 0 <= topK ==> |relevant| <= topK && |relevant| <= |store|
    {
      var questionEmbedding := encoder(question);
      var searchResults := ranker(store, questionEmbedding, topK);
      relevant := [];
      for i := 0 to |searchResults|
        invariant relevant == Relevant(searchResults[..i], scoreThreshold)
      {
        var point := searchResults[i];
        if point.score != 0.0 && point.score >= scoreThreshold {
          relevant := relevant + [RetrievedChunk(point.text.GetOr(""), point.source.GetOr("unknown"), point.score)];
        }
        assert searchResults[..i + 1][..i] == searchResults[..i];
      }
      assert searchResults[..|searchResults|] == searchResults;
      RelevantBound(searchResults, scoreThreshold);
    }

    /** `generate_answer`: one call of the language model with the grounded prompt. */
    method GenerateAnswer(question: string, contextChunks: seq<RetrievedChunk>) returns (answer: string)
      modifies this`prompts
      ensures prompts == old(prompts) + [Prompt(question, contextChunks)]
      ensures answer == AnswerText(llm(Prompt(question, contextChunks)))
    {
      var prompt := Prompt(question, contextChunks);
      prompts := prompts + [prompt];
      answer := AnswerText(llm(prompt));
    }

    /**
     * `query`: with no relevant chunk the fixed fallback is returned and the
     * language model is not called; otherwise the model is called once and
     * the chunks are returned unchanged with their count.
     */
    method Query(question: string, topK: int, scoreThreshold: real) returns (result: QueryResult)
      modifies this`prompts
      ensures var chunks := Relevant(ranker(store, encoder(question), topK), scoreThreshold);
        if chunks == [] then
          result == Fallback() && prompts == old(prompts)
        else
          && result == QueryResult(AnswerText(llm(Prompt(question, chunks))), chunks, |chunks|)
          && prompts == old(prompts) + [Prompt(question, chunks)]
    {
      var chunks := Retrieve(question, topK, scoreThreshold);
      if chunks == [] {
        return QueryResult(FallbackAnswer, [], 0);
      }
      var answer := GenerateAnswer(question, chunks);
      result := QueryResult(answer, chunks, |chunks|);
    }
  }
}
