/**
 * Fixed-size chunking as `for i in range(0, len(xs), 100): xs[i:i + 100]`,
 * used for the existence checks and inserts of the vector store and for the
 * OpenAI embedding requests. Chunks are named by their start index `i`.
 */
module Batching {
  import opened Strings

  /** The `batch_size = 100` of both loops. */
  const BatchSize: nat := 100

  /** `xs[i:i + 100]`. */
  function Chunk<T>(xs: seq<T>, i: nat): (c: seq<T>)
    requires i <= |xs|
    ensures |c| == Min(BatchSize, |xs| - i)
    ensures i < |xs| ==> |c| > 0
  {
    xs[i..Min(i + BatchSize, |xs|)]
  }

  /** The chunks before `i` followed by the chunk at `i` make up a longer prefix. */
  lemma ChunkExtendsPrefix<T>(xs: seq<T>, i: nat)
    requires i <= |xs|
    ensures xs[..i] + Chunk(xs, i) == xs[..Min(i + BatchSize, |xs|)]
  {
  }

  /** The input from `i` on is the chunk at `i`, then the input from the next chunk on. */
  lemma ChunkThenRest<T>(xs: seq<T>, i: nat)
    requires i <= |xs|
    ensures i + BatchSize <= |xs| ==> xs[i..] == Chunk(xs, i) + xs[i + BatchSize..]
    ensures i + BatchSize >= |xs| ==> xs[i..] == Chunk(xs, i)
  {
  }
}
