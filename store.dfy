/**
 * The vector-store side of ingestion (`RAGPipeline.embed_and_store`): chunks
 * become points with consecutive ids and are upserted into the collection.
 *
 * The collection is a map from point id to what Qdrant keeps for it; the
 * embedding model is an arbitrary function `encoder` applied text by text,
 * so a batch keeps its order.
 */
module Store {
  import opened Chunking

  type Vector = seq<real>

  /** The payload `embed_and_store` attaches to every point. */
  datatype Payload = Payload(text: string, source: string, originalIndex: int, chunkIndex: int)

  /** A `PointStruct`. */
  datatype Point = Point(id: int, vector: Vector, payload: Payload)

  /** What the collection holds under one id. */
  datatype Entry = Entry(vector: Vector, payload: Payload)

  type Collection = map<int, Entry>

  function PayloadOf(c: Chunk): Payload {
    Payload(c.text, c.source, c.originalIndex, c.chunkIndex)
  }

  /** `embedding_model.encode(texts)`: one vector per text, in order. */
  function Encode(encoder: string -> Vector, texts: seq<string>): seq<Vector> {
    seq(|texts|, i requires 0 <= i < |texts| => encoder(texts[i]))
  }

  /** `[chunk["text"] for chunk in chunks]` */
  function Texts(chunks: seq<Chunk>): seq<string> {
    seq(|chunks|, i requires 0 <= i < |chunks| => chunks[i].text)
  }

  /**
   * The loop over `enumerate(zip(chunks, embeddings))`: the `i`-th pair
   * becomes the point with id `startId + i`, its embedding and the chunk's
   * payload; `zip` stops at the shorter list.
   */
  method MakePoints(chunks: seq<Chunk>, embeddings: seq<Vector>, startId: int) returns (points: seq<Point>)
    ensures |points| == if |chunks| <= |embeddings| then |chunks| else |embeddings|
    ensures forall i :: 0 <= i < |points| ==>
      points[i] == Point(startId + i, embeddings[i], PayloadOf(chunks[i]))
  {
    var n := if |chunks| <= |embeddings| then |chunks| else |embeddings|;
    points := [];
    for idx := 0 to n
      invariant |points| == idx
      invariant forall i :: 0 <= i < idx ==> points[i] == Point(startId + i, embeddings[i], PayloadOf(chunks[i]))
    {
      var chunk := chunks[idx];
      points := points + [Point(startId + idx, embeddings[idx], Payload(chunk.text, chunk.source, chunk.originalIndex, chunk.chunkIndex))];
    }
  }

  /** Qdrant's `upsert`: each point is written under its id, replacing what was there. */
  function Upsert(st: Collection, points: seq<Point>): Collection
    decreases |points|
  {
    if points == [] then st
    else Upsert(st[points[0].id := Entry(points[0].vector, points[0].payload)], points[1..])
  }

  /** The ids `start .. start + n - 1`. */
  function IdRange(start: int, n: nat): (r: set<int>)
    ensures forall id :: id in r <==> start <= id < start + n
  {
    if n == 0 then {} else IdRange(start, n - 1) + {start + n - 1}
  }

  /**
   * `after` is `before` once the points of `chunks`, numbered from `startId`,
   * have been upserted: the new ids hold the chunks' embeddings and payloads
   * (overwriting any old entry there) and every other id is untouched.
   */
  ghost predicate Stored(before: Collection, after: Collection, encoder: string -> Vector, chunks: seq<Chunk>, startId: int) {
    && after.Keys == before.Keys + IdRange(startId, |chunks|)
    && (forall i :: 0 <= i < |chunks| ==>
          after[startId + i] == Entry(encoder(chunks[i].text), PayloadOf(chunks[i])))
    && (forall id :: id in before && !(startId <= id < startId + |chunks|) ==> after[id] == before[id])
  }

  /** Upserting points numbered consecutively from `startId`. */
  lemma {:induction false} UpsertConsecutive(st: Collection, points: seq<Point>, startId: int)
    requires forall i :: 0 <= i < |points| ==> points[i].id == startId + i
    ensures Upsert(st, points).Keys == st.Keys + IdRange(startId, |points|)
    ensures forall i :: 0 <= i < |points| ==>
      Upsert(st, points)[startId + i] == Entry(points[i].vector, points[i].payload)
    ensures forall id :: id in st && !(startId <= id < startId + |points|) ==> Upsert(st, points)[id] == st[id]
  {
    UpsertKeys(st, points, startId);
    UpsertKeeps(st, points, startId);
    forall i | 0 <= i < |points|
      ensures Upsert(st, points)[startId + i] == Entry(points[i].vector, points[i].payload)
    {
      UpsertAt(st, points, startId, i);
    }
  }

  lemma {:induction false} UpsertKeys(st: Collection, points: seq<Point>, startId: int)
    requires forall i :: 0 <= i < |points| ==> points[i].id == startId + i
    ensures Upsert(st, points).Keys == st.Keys + IdRange(startId, |points|)
    decreases |points|
  {
    if points != [] {
      var st' := st[startId := Entry(points[0].vector, points[0].payload)];
      var rest := points[1..];
      assert forall i :: 0 <= i < |rest| ==> rest[i].id == (startId + 1) + i;
      assert Upsert(st, points) == Upsert(st', rest);
      UpsertKeys(st', rest, startId + 1);
      assert st'.Keys == st.Keys + {startId};
      assert IdRange(startId, |points|) == {startId} + IdRange(startId + 1, |rest|);
    }
  }

  lemma {:induction false} UpsertKeeps(st: Collection, points: seq<Point>, startId: int)
    requires forall i :: 0 <= i < |points| ==> points[i].id == startId + i
    ensures forall id :: id in st && !(startId <= id < startId + |points|) ==>
      id in Upsert(st, points) && Upsert(st, points)[id] == st[id]
    decreases |points|
  {
    if points != [] {
      var st' := st[startId := Entry(points[0].vector, points[0].payload)];
      var rest := points[1..];
      assert forall i :: 0 <= i < |rest| ==> rest[i].id == (startId + 1) + i;
      UpsertKeeps(st', rest, startId + 1);
    }
  }

  lemma {:induction false} UpsertAt(st: Collection, points: seq<Point>, startId: int, i: nat)
    requires forall k :: 0 <= k < |points| ==> points[k].id == startId + k
    requires i < |points|
    ensures startId + i in Upsert(st, points)
    ensures Upsert(st, points)[startId + i] == Entry(points[i].vector, points[i].payload)
    decreases |points|
  {
    var st' := st[startId := Entry(points[0].vector, points[0].payload)];
    var rest := points[1..];
    assert forall k :: 0 <= k < |rest| ==> rest[k].id == (startId + 1) + k;
    assert Upsert(st, points) == Upsert(st', rest);
    if i == 0 {
      UpsertKeeps(st', rest, startId + 1);
      assert startId in st';
    } else {
      UpsertAt(st', rest, startId + 1, i - 1);
      assert rest[i - 1] == points[i];
    }
  }

  /** Two adjacent id ranges make one. */
  lemma IdRangeConcat(start: int, m: nat, n: nat)
    ensures IdRange(start, m) + IdRange(start + m, n) == IdRange(start, m + n)
  {
  }

  /** The ids in use are exactly `0 .. |st| - 1`: what numbering from `points_count` keeps. */
  predicate Dense(st: Collection) {
    st.Keys == IdRange(0, |st|)
  }

  lemma {:induction false} IdRangeSize(start: int, n: nat)
    ensures |IdRange(start, n)| == n
  {
    if n > 0 {
      var front, last := IdRange(start, n - 1), start + n - 1;
      assert last !in front;
      assert front * {last} == {};
      IdRangeSize(start, n - 1);
    }
  }

  /** A collection whose ids are `0 .. k - 1` holds `k` points. */
  lemma {:induction false} KeysInRange(st: Collection, k: nat)
    requires st.Keys == IdRange(0, k)
    ensures |st| == k
  {
    IdRangeSize(0, k);
    assert |st| == |st.Keys|;
  }

  /**
   * Numbering from the point count keeps a dense collection dense: the new
   * ids are exactly the next ones, and the count grows by their number.
   */
  lemma DenseAfterAppend(before: Collection, after: Collection, n: nat)
    requires Dense(before)
    requires after.Keys == before.Keys + IdRange(|before|, n)
    ensures Dense(after) && |after| == |before| + n
  {
    var b := |before|;
    IdRangeConcat(0, b, n);
    KeysInRange(after, b + n);
  }

  /** In a dense collection every id is below the point count, so a batch numbered from it overwrites nothing. */
  lemma DenseNoOverwrite(before: Collection, after: Collection, n: nat)
    requires Dense(before)
    requires forall id :: id in before && !(|before| <= id < |before| + n) ==> id in after && after[id] == before[id]
    ensures forall id :: id in before ==> id in after && after[id] == before[id]
  {
  }
}
