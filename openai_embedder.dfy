/**
 * The OpenAI embedder: the API-key guard and model defaulting of construction,
 * the static dimension table, the shaping of one embeddings response and the
 * batch loop over chunks of 100 texts. The OpenAI service is an oracle.
 */
module OpenAIEmbedding {
  import opened Wrappers
  import opened Strings
  import opened Models
  import opened Config
  import opened ModelIdentity
  import opened Batching
  import opened BaseEmbedder

  /** The answer to one `embeddings.create` call: an exception, or the vectors of `response.data` in order. */
  datatype CreateResponse = CreateRaised | CreateData(vectors: seq<Vector>)

  /** An embedder as constructed: the model name and the dimension fixed from the table. */
  datatype OpenAIEmbedder = OpenAIEmbedder(modelName: string, dimension: nat)

  /** `_get_model_dimension`: the three known models, 1536 for any other name. */
  function ModelDimension(name: string): (d: nat)
    ensures d == 1536 || d == 3072
    ensures d == 3072 <==> name == "text-embedding-3-large"
    ensures name == "text-embedding-3-small" || name == "text-embedding-ada-002" ==> d == 1536
  {
    if name == "text-embedding-3-small" then 1536
    else if name == "text-embedding-3-large" then 3072
    else if name == "text-embedding-ada-002" then 1536
    else 1536
  }

  /**
   * `OpenAIEmbedder(model_name)`: fails when no API key is configured (absent
   * or empty); otherwise the argument or the configured model, with its dimension.
   */
  function NewOpenAIEmbedder(modelArg: Option<string>, settings: Settings): (r: Result<OpenAIEmbedder>)
    ensures r.Err? <==> settings.openaiApiKey.None? || settings.openaiApiKey.value == ""
    ensures r.Err? ==> r.error == MissingApiKey
    ensures r.Ok? && modelArg.Some? && modelArg.value != "" ==> r.value.modelName == modelArg.value
    ensures r.Ok? && (modelArg.None? || modelArg.value == "") ==> r.value.modelName == settings.openaiModel
    ensures r.Ok? ==> r.value.dimension == ModelDimension(r.value.modelName)
  {
    if settings.openaiApiKey.None? || settings.openaiApiKey.value == "" then Err(MissingApiKey)
    else
      var name := if modelArg.Some? && modelArg.value != "" then modelArg.value else settings.openaiModel;
      Ok(OpenAIEmbedder(name, ModelDimension(name)))
  }

  /** `get_model_id`. */
  function GetModelId(e: OpenAIEmbedder): (id: string)
    ensures id == OpenAIModelId(e.modelName)
    ensures DecodeModelId(id).Some? && DecodeModelId(id).value.provider == OpenAI
  {
    DecodeRecoversProvider(OpenAI, e.modelName);
    OpenAIModelId(e.modelName)
  }

  /** `generate_embedding`: the first vector; `None` for an exception or empty data. It never raises. */
  function GenerateEmbedding(resp: CreateResponse): (v: Option<Vector>)
    ensures v.Some? <==> resp.CreateData? && |resp.vectors| > 0
    ensures v.Some? ==> v.value == resp.vectors[0]
  {
    match resp
    case CreateRaised => None
    case CreateData(vs) => if |vs| > 0 then Some(vs[0]) else None
  }

  /** `test_connection`: true exactly when the probe embedding is non-empty; it never raises. */
  function TestConnection(probe: CreateResponse): (ok: bool)
    ensures ok <==> probe.CreateData? && |probe.vectors| > 0 && |probe.vectors[0]| > 0
  {
    Usable(GenerateEmbedding(probe))
  }

  /** What one chunk contributes: its vectors, or one `None` per text when the call raised. */
  function ChunkContribution(chunk: seq<string>, resp: CreateResponse): (c: seq<Option<Vector>>)
    ensures resp.CreateRaised? ==> |c| == |chunk| && forall k :: 0 <= k < |c| ==> c[k].None?
    ensures resp.CreateData? ==> |c| == |resp.vectors| && forall k :: 0 <= k < |c| ==> c[k] == Some(resp.vectors[k])
  {
    match resp
    case CreateRaised => seq(|chunk|, _ => None)
    case CreateData(vs) => seq(|vs|, k requires 0 <= k < |vs| => Some(vs[k]))
  }

  /**
   * The output of the batch loop from chunk start `i` on; the answer to the
   * chunk starting at `i` is `backend(i, Chunk(texts, i))`.
   */
  function BatchFrom(texts: seq<string>, backend: (nat, seq<string>) -> CreateResponse, i: nat): seq<Option<Vector>>
    decreases |texts| - i
  {
    if i >= |texts| then []
    else ChunkContribution(Chunk(texts, i), backend(i, Chunk(texts, i))) + BatchFrom(texts, backend, i + BatchSize)
  }

  /** The chunk starting at `i` was answered with one vector per text, or raised. */
  predicate ChunkAnswerFits(texts: seq<string>, backend: (nat, seq<string>) -> CreateResponse, i: nat)
    requires i <= |texts|
  {
    backend(i, Chunk(texts, i)).CreateData? ==> |backend(i, Chunk(texts, i)).vectors| == |Chunk(texts, i)|
  }

  /** The start of the `k`-th chunk counted from `i`. */
  function ChunkStart(i: nat, k: nat): (s: nat)
    ensures s >= i
    ensures k > 0 ==> s >= i + BatchSize
    decreases k
  {
    if k == 0 then i else ChunkStart(i + BatchSize, k - 1)
  }

  /** A slice of `c + rest` that lies past `c` is a slice of `rest`. */
  lemma SliceBeyond<T>(c: seq<T>, rest: seq<T>, a: nat, b: nat)
    requires |c| <= a <= b <= |c| + |rest|
    ensures (c + rest)[a..b] == rest[a - |c|..b - |c|]
  {
  }

  /** Every chunk from `i` on got a fitting answer. */
  ghost predicate AnswersFit(texts: seq<string>, backend: (nat, seq<string>) -> CreateResponse, i: nat) {
    forall k: nat :: ChunkStart(i, k) < |texts| ==> ChunkAnswerFits(texts, backend, ChunkStart(i, k))
  }

  /** Fitting answers from `i` on are fitting answers from the next chunk on. */
  lemma AnswersFitNext(texts: seq<string>, backend: (nat, seq<string>) -> CreateResponse, i: nat)
    requires AnswersFit(texts, backend, i)
    ensures AnswersFit(texts, backend, i + BatchSize)
  {
    var j := i + BatchSize;
    forall k: nat | ChunkStart(j, k) < |texts|
      ensures ChunkAnswerFits(texts, backend, ChunkStart(j, k))
    {
      assert ChunkStart(j, k) == ChunkStart(i, k + 1);
    }
  }

  /** With fitting answers, the output from `i` on has one entry per text. */
  lemma {:induction false} BatchLength(texts: seq<string>, backend: (nat, seq<string>) -> CreateResponse, i: nat)
    requires i <= |texts|
    requires AnswersFit(texts, backend, i)
    ensures |BatchFrom(texts, backend, i)| == |texts| - i
    decreases |texts| - i
  {
    if i < |texts| {
      assert ChunkAnswerFits(texts, backend, ChunkStart(i, 0));
      if i + BatchSize <= |texts| {
        AnswersFitNext(texts, backend, i);
        BatchLength(texts, backend, i + BatchSize);
      }
    }
  }

  /** The output from `i` on is the first chunk's entries, one per text of a fitting chunk, then the rest. */
  lemma FirstChunk(texts: seq<string>, backend: (nat, seq<string>) -> CreateResponse, i: nat)
    requires i < |texts|
    requires ChunkAnswerFits(texts, backend, i)
    ensures var c := ChunkContribution(Chunk(texts, i), backend(i, Chunk(texts, i)));
            && |c| == |Chunk(texts, i)|
            && BatchFrom(texts, backend, i) == c + BatchFrom(texts, backend, i + BatchSize)
  {
  }

  /** With fitting answers, the entries of the `k`-th chunk from `i` sit at that chunk's own positions. */
  lemma {:induction false} ChunkInPlace(texts: seq<string>, backend: (nat, seq<string>) -> CreateResponse, i: nat, k: nat)
    requires ChunkStart(i, k) < |texts|
    requires AnswersFit(texts, backend, i)
    ensures |BatchFrom(texts, backend, i)| == |texts| - i
    ensures var s := ChunkStart(i, k);
            BatchFrom(texts, backend, i)[s - i..s - i + |Chunk(texts, s)|]
            == ChunkContribution(Chunk(texts, s), backend(s, Chunk(texts, s)))
    decreases k
  {
    BatchLength(texts, backend, i);
    assert ChunkAnswerFits(texts, backend, ChunkStart(i, 0));
    FirstChunk(texts, backend, i);
    var c := ChunkContribution(Chunk(texts, i), backend(i, Chunk(texts, i)));
    var rest := BatchFrom(texts, backend, i + BatchSize);
    if k == 0 {
      assert (c + rest)[0..|c|] == c;
    } else {
      var j := i + BatchSize;
      assert ChunkStart(i, k) == ChunkStart(j, k - 1);
      AnswersFitNext(texts, backend, i);
      ChunkInPlace(texts, backend, j, k - 1);
      var s := ChunkStart(i, k);
      SliceBeyond(c, rest, s - i, s - i + |Chunk(texts, s)|);
    }
  }

  /**
   * With fitting answers, the output has one entry per text, and the entries
   * for the `k`-th chunk sit at that chunk's own positions.
   */
  lemma BatchAligned(texts: seq<string>, backend: (nat, seq<string>) -> CreateResponse, i: nat)
    requires i <= |texts|
    requires AnswersFit(texts, backend, i)
    ensures |BatchFrom(texts, backend, i)| == |texts| - i
    ensures forall k: nat :: ChunkStart(i, k) < |texts| ==>
              var s := ChunkStart(i, k);
              BatchFrom(texts, backend, i)[s - i..s - i + |Chunk(texts, s)|]
              == ChunkContribution(Chunk(texts, s), backend(s, Chunk(texts, s)))
  {
    BatchLength(texts, backend, i);
    forall k: nat | ChunkStart(i, k) < |texts|
      ensures var s := ChunkStart(i, k);
              BatchFrom(texts, backend, i)[s - i..s - i + |Chunk(texts, s)|]
              == ChunkContribution(Chunk(texts, s), backend(s, Chunk(texts, s)))
    {
      ChunkInPlace(texts, backend, i, k);
    }
  }

  /** When every call raises, the output is one `None` per text. */
  lemma {:induction false} BatchAllRaised(texts: seq<string>, backend: (nat, seq<string>) -> CreateResponse, i: nat)
    requires forall k: nat :: ChunkStart(i, k) < |texts| ==> backend(ChunkStart(i, k), Chunk(texts, ChunkStart(i, k))).CreateRaised?
    ensures |BatchFrom(texts, backend, i)| == if i <= |texts| then |texts| - i else 0
    ensures forall k :: 0 <= k < |BatchFrom(texts, backend, i)| ==> BatchFrom(texts, backend, i)[k].None?
    decreases |texts| - i
  {
    if i < |texts| {
      assert backend(ChunkStart(i, 0), Chunk(texts, ChunkStart(i, 0))).CreateRaised?;
      var j := i + BatchSize;
      forall k: nat | ChunkStart(j, k) < |texts|
        ensures backend(ChunkStart(j, k), Chunk(texts, ChunkStart(j, k))).CreateRaised?
      {
        assert ChunkStart(j, k) == ChunkStart(i, k + 1);
      }
      BatchAllRaised(texts, backend, j);
    }
  }

  /** A raised chunk in front contributes exactly its length in `None`s, before the rest unchanged. */
  lemma RaisedChunkFillsNone(texts: seq<string>, backend: (nat, seq<string>) -> CreateResponse, i: nat)
    requires i < |texts|
    requires backend(i, Chunk(texts, i)).CreateRaised?
    ensures var out := BatchFrom(texts, backend, i);
            var n := Min(BatchSize, |texts| - i);
            |out| >= n
            && (forall k :: 0 <= k < n ==> out[k].None?)
            && out[n..] == BatchFrom(texts, backend, i + BatchSize)
  {
    var c := ChunkContribution(Chunk(texts, i), backend(i, Chunk(texts, i)));
    assert BatchFrom(texts, backend, i) == c + BatchFrom(texts, backend, i + BatchSize);
  }

  /**
   * `generate_embeddings_batch`: the texts in consecutive chunks of 100; each
   * chunk appends its vectors, or one `None` per text when the call raised.
   */
  method GenerateEmbeddingsBatch(e: OpenAIEmbedder, texts: seq<string>, backend: (nat, seq<string>) -> CreateResponse)
    returns (embeddings: seq<Option<Vector>>)
    ensures embeddings == BatchFrom(texts, backend, 0)
  {
    embeddings := [];
    var i: nat := 0;
    while i < |texts|
      invariant embeddings + BatchFrom(texts, backend, i) == BatchFrom(texts, backend, 0)
      decreases |texts| - i
    {
      var batch := Chunk(texts, i);
      var resp := backend(i, batch);
      embeddings := embeddings + ChunkContribution(batch, resp);
      i := i + BatchSize;
    }
  }
}
