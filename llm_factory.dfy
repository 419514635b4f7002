/**
 * `get_llm`: the provider defaults to the configured embedding provider, is
 * lower-cased, and selects the answering model; any other name is refused.
 * As for embedders, the result is the constructor call the factory makes.
 */
module LlmFactory {
  import opened Wrappers
  import opened Strings
  import opened Config
  import EmbedderFactory

  /** A constructor call with its `model_name` argument. */
  datatype LlmConstruction =
    | BuildOllamaLLM(modelArg: Option<string>)
    | BuildOpenAILLM(modelArg: Option<string>)

  /** `provider`, or the configured embedding provider when it is `None` (an empty name is kept). */
  function LlmProviderFor(provider: Option<string>, settings: Settings): (p: string)
    ensures provider.Some? ==> p == provider.value
    ensures provider.None? ==> p == settings.embeddingProvider
  {
    if provider.Some? then provider.value else settings.embeddingProvider
  }

  /** `get_llm`: dispatch on the lower-cased provider name; any other name raises ValueError. */
  function GetLlm(provider: Option<string>, model: Option<string>, settings: Settings): (r: Result<LlmConstruction>)
    ensures r == Ok(BuildOllamaLLM(model)) <==> ToLower(LlmProviderFor(provider, settings)) == "ollama"
    ensures r == Ok(BuildOpenAILLM(model)) <==> ToLower(LlmProviderFor(provider, settings)) == "openai"
    ensures r.Err? <==> ToLower(LlmProviderFor(provider, settings)) !in {"ollama", "openai"}
    ensures r.Err? ==> r.error == UnknownProvider(ToLower(LlmProviderFor(provider, settings)))
  {
    var p := ToLower(LlmProviderFor(provider, settings));
    if p == "ollama" then Ok(BuildOllamaLLM(model))
    else if p == "openai" then Ok(BuildOpenAILLM(model))
    else Err(UnknownProvider(p))
  }

  /** Names that differ only in letter case select the same model. */
  lemma LlmDispatchIgnoresCase(a: string, b: string, model: Option<string>, settings: Settings)
    requires ToLower(a) == ToLower(b)
    ensures GetLlm(Some(a), model, settings) == GetLlm(Some(b), model, settings)
  {
  }

  /** "OLLAMA" selects the Ollama answering model, where the embedder factory refuses it. */
  lemma UpperCaseProviderOnlyForLlm(model: Option<string>, settings: Settings)
    ensures GetLlm(Some("OLLAMA"), model, settings) == Ok(BuildOllamaLLM(model))
    ensures EmbedderFactory.GetEmbedder(Some("OLLAMA"), model, settings).Err?
  {
    assert ToLower("OLLAMA") == "ollama";
  }

  /**
   * An empty provider is refused by `get_llm`, which replaces only `None`,
   * while the embedder factory falls back to the configured provider.
   */
  lemma EmptyProviderRefused(model: Option<string>, settings: Settings)
    ensures GetLlm(Some(""), model, settings) == Err(UnknownProvider(""))
    ensures EmbedderFactory.ProviderFor(Some(""), settings) == settings.embeddingProvider
  {
  }
}
