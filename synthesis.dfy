/**
 * Answer synthesis (`RAGPipeline.generate_answer` and the result of
 * `RAGPipeline.query`): the retrieved chunks become a context block, the
 * context and the question become the prompt, and the model's reply becomes
 * the answer.
 */
module Synthesis {
  import opened Wrappers
  import opened Strings
  import opened Retrieval

  /** The answer `query` gives when no chunk qualifies. */
  const FallbackAnswer: string :=
    "I couldn't find any relevant information in the knowledge base to answer this question."

  const PromptHeader: string :=
    "Answer the question using the provided context. If the context does not contain relevant information, say you don't know.\n\nContext:\n"

  /** The dictionary `query` returns: `{answer, chunks, num_chunks}`. */
  datatype QueryResult = QueryResult(answer: string, chunks: seq<RetrievedChunk>, numChunks: nat)

  /** `f"[Source: {chunk['source']}]\n{chunk['text']}"` */
  function SourceEntry(c: RetrievedChunk): string {
    "[Source: " + c.source + "]\n" + c.text
  }

  function SourceEntries(chunks: seq<RetrievedChunk>): seq<string> {
    seq(|chunks|, k requires 0 <= k < |chunks| => SourceEntry(chunks[k]))
  }

  /** `context_text`: the chunks' entries joined by blank lines, in chunk order. */
  function ContextText(chunks: seq<RetrievedChunk>): string {
    Join(SourceEntries(chunks), "\n\n")
  }

  /** The prompt sent to the language model. */
  function Prompt(question: string, chunks: seq<RetrievedChunk>): string {
    PromptHeader + ContextText(chunks) + "\n\nQuestion: " + question + "\n\nAnswer:"
  }

  /** `response['response']`, or the error text when the model call raises. */
  function AnswerText(reply: Result<string, string>): string {
    match reply
    case Success(text) => text
    case Failure(e) => "Error generating answer: " + e
  }

  /** The fixed result for an empty retrieval. */
  function Fallback(): (r: QueryResult)
    ensures r.chunks == [] && r.numChunks == 0
  {
    QueryResult(FallbackAnswer, [], 0)
  }

  /**
   * The context for several chunks is the context of the first ones, a blank
   * line, and the context of the rest: entries stay in chunk order.
   */
  lemma ContextAppend(a: seq<RetrievedChunk>, b: seq<RetrievedChunk>)
    requires a != [] && b != []
    ensures ContextText(a + b) == ContextText(a) + "\n\n" + ContextText(b)
  {
    assert SourceEntries(a + b) == SourceEntries(a) + SourceEntries(b);
    JoinAppend(SourceEntries(a), SourceEntries(b), "\n\n");
  }

  /** A single chunk's context is its source line followed by its text. */
  lemma ContextSingle(c: RetrievedChunk)
    ensures ContextText([c]) == "[Source: " + c.source + "]\n" + c.text
  {
    assert SourceEntries([c]) == [SourceEntry(c)];
  }

  /** Every chunk, annotated with its source, and the question occur in the prompt. */
  lemma PromptGrounded(question: string, chunks: seq<RetrievedChunk>, k: nat)
    requires k < |chunks|
    ensures Occurs(SourceEntry(chunks[k]), Prompt(question, chunks))
    ensures Occurs(question, Prompt(question, chunks))
  {
    var ctx := ContextText(chunks);
    var tail := "\n\nQuestion: " + question + "\n\nAnswer:";
    JoinContains(SourceEntries(chunks), "\n\n", k);
    assert SourceEntries(chunks)[k] == SourceEntry(chunks[k]);
    OccursWithin(SourceEntry(chunks[k]), ctx, PromptHeader, tail);
    assert Prompt(question, chunks) == PromptHeader + ctx + tail;
    assert OccursAt(question, question, 0);
    OccursWithin(question, question, PromptHeader + ctx + "\n\nQuestion: ", "\n\nAnswer:");
  }
}
