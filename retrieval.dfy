/**
 * Retrieval (`RAGPipeline.retrieve`): the ranked points the vector store
 * returns for the question are filtered by score, keeping their order.
 */
module Retrieval {
  import opened Wrappers

  /**
   * One ranked point of `query_points`: its id, its similarity score and the
   * `text` and `source` fields of its payload, when present.
   */
  datatype Hit = Hit(id: int, score: real, text: Option<string>, source: Option<string>)

  /** One entry of `relevant_chunks`: `{text, source, score}`. */
  datatype RetrievedChunk = RetrievedChunk(text: string, source: string, score: real)

  /** `point.score and point.score >= score_threshold`: a zero score is falsy and never qualifies. */
  predicate Qualifies(h: Hit, threshold: real) {
    h.score != 0.0 && h.score >= threshold
  }

  /** The payload read with its defaults: `get("text", "")`, `get("source", "unknown")`. */
  function ToChunk(h: Hit): RetrievedChunk {
    RetrievedChunk(h.text.GetOr(""), h.source.GetOr("unknown"), h.score)
  }

  /** What `retrieve` returns for the search results `hits`. */
  function Relevant(hits: seq<Hit>, threshold: real): seq<RetrievedChunk>
    decreases |hits|
  {
    if hits == [] then []
    else
      var last := hits[|hits| - 1];
      Relevant(hits[..|hits| - 1], threshold) + (if Qualifies(last, threshold) then [ToChunk(last)] else [])
  }

  /** The positions in `hits` of the results `Relevant` keeps, in order. */
  function Kept(hits: seq<Hit>, threshold: real): seq<nat>
    decreases |hits|
  {
    if hits == [] then []
    else
      var last := |hits| - 1;
      Kept(hits[..last], threshold) + (if Qualifies(hits[last], threshold) then [last] else [])
  }

  /**
   * `Relevant` is exactly the filter: its `k`-th element is the qualifying hit
   * at position `Kept[k]`, those positions increase strictly, and every
   * qualifying position is among them.
   */
  lemma {:induction false} RelevantIsFilter(hits: seq<Hit>, threshold: real)
    ensures var r, ks := Relevant(hits, threshold), Kept(hits, threshold);
      && |ks| == |r|
      && (forall k :: 0 <= k < |ks| ==> ks[k] < |hits| && Qualifies(hits[ks[k]], threshold) && r[k] == ToChunk(hits[ks[k]]))
      && (forall k, l :: 0 <= k < l < |ks| ==> ks[k] < ks[l])
      && (forall i :: 0 <= i < |hits| && Qualifies(hits[i], threshold) ==> i in ks)
    decreases |hits|
  {
    if hits != [] {
      var front := hits[..|hits| - 1];
      RelevantIsFilter(front, threshold);
      assert forall i :: 0 <= i < |front| ==> front[i] == hits[i];
    }
  }

  /** Every retrieved chunk has a non-zero score of at least the threshold. */
  lemma RelevantScores(hits: seq<Hit>, threshold: real)
    ensures forall c :: c in Relevant(hits, threshold) ==> c.score != 0.0 && c.score >= threshold
  {
    RelevantIsFilter(hits, threshold);
    forall c | c in Relevant(hits, threshold)
      ensures c.score != 0.0 && c.score >= threshold
    {
      var k :| 0 <= k < |Relevant(hits, threshold)| && Relevant(hits, threshold)[k] == c;
    }
  }

  /** Filtering never adds results. */
  lemma {:induction false} RelevantBound(hits: seq<Hit>, threshold: real)
    ensures |Relevant(hits, threshold)| <= |hits|
    decreases |hits|
  {
    if hits != [] {
      RelevantBound(hits[..|hits| - 1], threshold);
    }
  }

  /**
   * Raising the threshold keeps only results that the lower threshold kept
   * too, so the output never grows.
   */
  lemma {:induction false} RelevantMonotone(hits: seq<Hit>, low: real, high: real)
    requires low <= high
    ensures |Relevant(hits, high)| <= |Relevant(hits, low)|
    ensures forall i :: i in Kept(hits, high) ==> i in Kept(hits, low)
    decreases |hits|
  {
    if hits != [] {
      RelevantMonotone(hits[..|hits| - 1], low, high);
    }
  }
}
