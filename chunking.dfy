/**
 * Chunking (`RAGPipeline.chunk_text`): every text is split by the token
 * splitter, a leading page number is stripped from each piece, and each piece
 * is tagged with the source label, the text's position in the input list and
 * the piece's position in the splitter's output.
 *
 * The splitter is library code and stands here as an arbitrary function
 * `split` from a text to its pieces.
 */
module Chunking {
  import opened Strings

  /** One entry of `all_chunks`: `{text, source, original_index, chunk_index}`. */
  datatype Chunk = Chunk(text: string, source: string, originalIndex: nat, chunkIndex: nat)

  /** Length of the maximal run of digits at the start of `s` (what `^\d+` matches). */
  function LeadingDigits(s: string): (n: nat)
    ensures n <= |s|
    ensures forall i :: 0 <= i < n ==> IsDigit(s[i])
    ensures n < |s| ==> !IsDigit(s[n])
  {
    if s != [] && IsDigit(s[0]) then
      var n := 1 + LeadingDigits(s[1..]);
      assert forall i :: 1 <= i < n ==> s[i] == s[1..][i - 1];
      n
    else
      0
  }

  /**
   * `re.sub(r"^\d+\s*", "", s)`: a page number at the very start of a piece
   * and the whitespace right after it are removed. The pattern is anchored,
   * so it matches at most once.
   */
  function StripPageNumber(s: string): (r: string)
    ensures |r| <= |s| && r == s[|s| - |r|..]
    ensures s == [] || !IsDigit(s[0]) ==> r == s
    ensures s != [] && IsDigit(s[0]) ==>
      var d := LeadingDigits(s);
      0 < d <= |s| - |r| && AllSpace(s[d..|s| - |r|]) && (r == [] || !IsSpace(r[0]))
  {
    if s != [] && IsDigit(s[0]) then
      var d := LeadingDigits(s);
      var k := LeadingSpaces(s[d..]);
      PageNumberRun(s, d, k);
      s[d + k..]
    else
      s
  }

  /** The digits and the whitespace after them form a prefix of `s`. */
  lemma PageNumberRun(s: string, d: nat, k: nat)
    requires d <= |s| && k == LeadingSpaces(s[d..])
    ensures d + k <= |s|
    ensures AllSpace(s[d..d + k])
    ensures d + k < |s| ==> !IsSpace(s[d + k..][0])
  {
    var rest := s[d..];
    assert forall i :: 0 <= i < k ==> s[d..d + k][i] == rest[i];
    if d + k < |s| {
      assert s[d + k..][0] == rest[k];
    }
  }

  /** The chunks made from the pieces of the `idx`-th text, in splitter order. */
  function TextChunks(pieces: seq<string>, source: string, idx: nat): seq<Chunk> {
    seq(|pieces|, j requires 0 <= j < |pieces| => Chunk(StripPageNumber(pieces[j]), source, idx, j))
  }

  /** What `chunk_text(texts, source)` returns: the texts' chunks, text after text. */
  function Chunked(split: string -> seq<string>, texts: seq<string>, source: string): seq<Chunk>
    decreases |texts|
  {
    if texts == [] then []
    else
      var last := |texts| - 1;
      Chunked(split, texts[..last], source) + TextChunks(split(texts[last]), source, last)
  }

  /** One more piece adds one more chunk at the end. */
  lemma TextChunksSnoc(pieces: seq<string>, source: string, idx: nat, k: nat)
    requires k < |pieces|
    ensures TextChunks(pieces[..k + 1], source, idx)
         == TextChunks(pieces[..k], source, idx) + [Chunk(StripPageNumber(pieces[k]), source, idx, k)]
  {
  }

  /** One more text adds its chunks at the end. */
  lemma ChunkedSnoc(split: string -> seq<string>, texts: seq<string>, source: string, idx: nat)
    requires idx < |texts|
    ensures Chunked(split, texts[..idx + 1], source)
         == Chunked(split, texts[..idx], source) + TextChunks(split(texts[idx]), source, idx)
  {
    assert texts[..idx + 1][..idx] == texts[..idx];
  }

  /** The total number of pieces the splitter makes of `texts`. */
  function PieceCount(split: string -> seq<string>, texts: seq<string>): nat
    decreases |texts|
  {
    if texts == [] then 0
    else PieceCount(split, texts[..|texts| - 1]) + |split(texts[|texts| - 1])|
  }

  /** There is one chunk per piece of every text. */
  lemma {:induction false} ChunkedLength(split: string -> seq<string>, texts: seq<string>, source: string)
    ensures |Chunked(split, texts, source)| == PieceCount(split, texts)
    decreases |texts|
  {
    if texts != [] {
      ChunkedLength(split, texts[..|texts| - 1], source);
    }
  }

  /**
   * Where each piece ends up: the `j`-th piece of the `i`-th text is the chunk
   * right after the pieces of the texts before it, carrying the source,
   * `original_index == i` and `chunk_index == j`.
   */
  lemma {:induction false} ChunkedAt(split: string -> seq<string>, texts: seq<string>, source: string, i: nat, j: nat)
    requires i < |texts| && j < |split(texts[i])|
    ensures PieceCount(split, texts[..i]) + j < |Chunked(split, texts, source)|
    ensures Chunked(split, texts, source)[PieceCount(split, texts[..i]) + j]
         == Chunk(StripPageNumber(split(texts[i])[j]), source, i, j)
    decreases |texts|
  {
    var last := |texts| - 1;
    var front := texts[..last];
    var tail := TextChunks(split(texts[last]), source, last);
    assert Chunked(split, texts, source) == Chunked(split, front, source) + tail;
    ChunkedLength(split, front, source);
    if i < last {
      assert front[..i] == texts[..i] && front[i] == texts[i];
      ChunkedAt(split, front, source, i, j);
    } else {
      assert front == texts[..i];
    }
  }

  /**
   * The converse of `ChunkedAt`: every chunk comes from one piece of one
   * input text, and its position is determined by its two indices.
   */
  lemma {:induction false} ChunkedOrigin(split: string -> seq<string>, texts: seq<string>, source: string, k: nat)
    requires k < |Chunked(split, texts, source)|
    ensures var c := Chunked(split, texts, source)[k];
      && c.source == source
      && c.originalIndex < |texts|
      && c.chunkIndex < |split(texts[c.originalIndex])|
      && c.text == StripPageNumber(split(texts[c.originalIndex])[c.chunkIndex])
      && k == PieceCount(split, texts[..c.originalIndex]) + c.chunkIndex
    decreases |texts|
  {
    var last := |texts| - 1;
    var front := texts[..last];
    ChunkedLength(split, front, source);
    var n := |Chunked(split, front, source)|;
    if k < n {
      ChunkedOrigin(split, front, source, k);
      var c := Chunked(split, front, source)[k];
      assert front[c.originalIndex] == texts[c.originalIndex];
      assert front[..c.originalIndex] == texts[..c.originalIndex];
    } else {
      assert front == texts[..last];
    }
  }

  /** A text the splitter turns into no pieces contributes no chunk. */
  lemma SilentTextContributesNothing(split: string -> seq<string>, texts: seq<string>, source: string, i: nat)
    requires i < |texts| && split(texts[i]) == []
    ensures forall c :: c in Chunked(split, texts, source) ==> c.originalIndex != i
  {
    forall c | c in Chunked(split, texts, source)
      ensures c.originalIndex != i
    {
      var k :| 0 <= k < |Chunked(split, texts, source)| && Chunked(split, texts, source)[k] == c;
      ChunkedOrigin(split, texts, source, k);
    }
  }
}
