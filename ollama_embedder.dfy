/**
 * The Ollama embedder: model-name defaulting, the pull-if-absent check made on
 * construction, the shaping of one embed response, the per-text batch loop and
 * the lazily probed, then cached, embedding dimension. The Ollama server is an
 * oracle: its answers are parameters.
 */
module OllamaEmbedding {
  import opened Wrappers
  import opened Strings
  import opened Models
  import opened Config
  import opened ModelIdentity
  import opened BaseEmbedder

  /** The answer to one `client.embed` call: an exception, or a response whose "embeddings" key may be missing. */
  datatype EmbedResponse = EmbedRaised | EmbedAnswer(embeddings: Option<seq<Vector>>)

  /** The answer to `client.list()`: an exception, or the listed model names. */
  datatype ListResponse = ListRaised | Listing(names: seq<string>)

  /**
   * `generate_embedding`: the first vector of the response; `None` for an
   * exception, a missing key or an empty list. It never raises.
   */
  function GenerateEmbedding(resp: EmbedResponse): (v: Option<Vector>)
    ensures v.Some? <==> resp.EmbedAnswer? && resp.embeddings.Some? && |resp.embeddings.value| > 0
    ensures v.Some? ==> v.value == resp.embeddings.value[0]
  {
    match resp
    case EmbedRaised => None
    case EmbedAnswer(None) => None
    case EmbedAnswer(Some(vs)) => if |vs| > 0 then Some(vs[0]) else None
  }

  /** `model_name or settings.ollama_model`: an absent or empty argument takes the configured model. */
  function ModelNameFor(modelArg: Option<string>, settings: Settings): (name: string)
    ensures modelArg.Some? && modelArg.value != "" ==> name == modelArg.value
    ensures modelArg.None? || modelArg.value == "" ==> name == settings.ollamaModel
  {
    if modelArg.Some? && modelArg.value != "" then modelArg.value else settings.ollamaModel
  }

  /** The embedder pulls a model only when its exact name is not listed. */
  predicate NeedsPull(name: string, names: seq<string>) {
    name !in names
  }

  /**
   * `_ensure_model_available`: `Ok(pulled)` when the listing succeeds and either
   * the name is listed or the pull succeeds (`pullSucceeds`); any exception is
   * re-raised.
   */
  function EnsureModelAvailable(name: string, listing: ListResponse, pullSucceeds: bool): (r: Result<bool>)
    ensures r.Ok? ==> listing.Listing?
    ensures r.Ok? && r.value ==> NeedsPull(name, listing.names)
    ensures listing.Listing? && !NeedsPull(name, listing.names) ==> r == Ok(false)
    ensures r.Err? <==> listing.ListRaised? || (NeedsPull(name, listing.names) && !pullSucceeds)
  {
    match listing
    case ListRaised => Err(BackendFailed)
    case Listing(names) =>
      if !NeedsPull(name, names) then Ok(false)
      else if pullSucceeds then Ok(true)
      else Err(BackendFailed)
  }

  /** The dimension a probe response reveals: its vector's length, when that vector is non-empty. */
  function ProbeDimension(resp: EmbedResponse): (r: Result<nat>)
    ensures r.Ok? <==> Usable(GenerateEmbedding(resp))
    ensures r.Ok? ==> r.value > 0 && r.value == |GenerateEmbedding(resp).value|
    ensures r.Err? ==> r.error == DimensionUnknown
  {
    var v := GenerateEmbedding(resp);
    if Usable(v) then Ok(|v.value|) else Err(DimensionUnknown)
  }

  /**
   * `test_connection`: true exactly when the listing succeeds and the probe
   * embedding is non-empty; failures of either kind give false, never an error.
   */
  function TestConnection(listing: ListResponse, probe: EmbedResponse): (ok: bool)
    ensures ok <==> listing.Listing? && Usable(GenerateEmbedding(probe))
  {
    match listing
    case ListRaised => false
    case Listing(_) => Usable(GenerateEmbedding(probe))
  }

  /** A passing connection test and a successful dimension probe agree on the same answer. */
  lemma ConnectionTestMatchesDimensionProbe(names: seq<string>, probe: EmbedResponse)
    ensures TestConnection(Listing(names), probe) <==> ProbeDimension(probe).Ok?
  {
  }

  class OllamaEmbedder {
    const modelName: string
    var dimensionCache: Option<nat>

    /** A cached dimension is the length of a non-empty vector. */
    predicate Valid()
      reads this
    {
      dimensionCache.Some? ==> dimensionCache.value > 0
    }

    /** The fields `__init__` sets once the model is known to be available. */
    constructor (modelName: string)
      ensures this.modelName == modelName && dimensionCache == None
      ensures Valid()
    {
      this.modelName := modelName;
      dimensionCache := None;
    }

    /** `get_model_id`. */
    function ModelId(): (id: string)
      ensures id == OllamaModelId(modelName)
      ensures DecodeModelId(id).Some? && DecodeModelId(id).value.provider == Ollama
    {
      DecodeRecoversProvider(Ollama, modelName);
      OllamaModelId(modelName)
    }

    /**
     * `get_embedding_dimension`: the cached value when there is one, without
     * looking at `probe`; otherwise the probe's dimension, cached on success.
     * A failed probe raises and leaves the cache unset.
     */
    method GetEmbeddingDimension(probe: EmbedResponse) returns (r: Result<nat>)
      requires Valid()
      modifies this
      ensures Valid()
      ensures old(dimensionCache).Some? ==> r == Ok(old(dimensionCache).value) && dimensionCache == old(dimensionCache)
      ensures old(dimensionCache).None? ==> r == ProbeDimension(probe)
      ensures old(dimensionCache).None? ==> dimensionCache == if r.Ok? then Some(r.value) else None
      ensures r.Ok? ==> r.value > 0
    {
      if dimensionCache.None? {
        r := ProbeDimension(probe);
        if r.Ok? {
          dimensionCache := Some(r.value);
        }
      } else {
        r := Ok(dimensionCache.value);
      }
    }

    /**
     * `generate_embeddings_batch`: one `generate_embedding` per text, in order;
     * the answer to the call for text `i` is `backend(i, texts[i])`.
     */
    method GenerateEmbeddingsBatch(texts: seq<string>, backend: (nat, string) -> EmbedResponse)
      returns (embeddings: seq<Option<Vector>>)
      ensures |embeddings| == |texts|
      ensures forall i :: 0 <= i < |texts| ==> embeddings[i] == GenerateEmbedding(backend(i, texts[i]))
    {
      embeddings := [];
      var i := 0;
      while i < |texts|
        invariant 0 <= i <= |texts|
        invariant |embeddings| == i
        invariant forall j :: 0 <= j < i ==> embeddings[j] == GenerateEmbedding(backend(j, texts[j]))
      {
        embeddings := embeddings + [GenerateEmbedding(backend(i, texts[i]))];
        i := i + 1;
      }
    }
  }

  /**
   * `OllamaEmbedder(model_name)`: the embedder for the resolved model name,
   * or the exception `_ensure_model_available` re-raised.
   */
  method NewOllamaEmbedder(modelArg: Option<string>, settings: Settings, listing: ListResponse, pullSucceeds: bool)
    returns (r: Result<OllamaEmbedder>)
    ensures r.Ok? <==> EnsureModelAvailable(ModelNameFor(modelArg, settings), listing, pullSucceeds).Ok?
    ensures r.Ok? ==> fresh(r.value) && r.value.modelName == ModelNameFor(modelArg, settings)
    ensures r.Ok? ==> r.value.dimensionCache == None && r.value.Valid()
  {
    var name := ModelNameFor(modelArg, settings);
    var check := EnsureModelAvailable(name, listing, pullSucceeds);
    if check.Ok? {
      var e := new OllamaEmbedder(name);
      r := Ok(e);
    } else {
      r := Err(check.error);
    }
  }

  /** The dimension is probed at most once: a second call answers from the cache, whatever the backend says. */
  method DimensionProbedOnce(e: OllamaEmbedder, first: EmbedResponse, second: EmbedResponse)
    returns (a: Result<nat>, b: Result<nat>)
    requires e.Valid() && e.dimensionCache == None
    requires ProbeDimension(first).Ok?
    modifies e
    ensures a == b == ProbeDimension(first)
  {
    a := e.GetEmbeddingDimension(first);
    b := e.GetEmbeddingDimension(second);
  }
}
