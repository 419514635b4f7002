/**
 * The OpenAI answering model: the API-key guard on construction, the default
 * chat model and the model id.
 */
module OpenAIAnswering {
  import opened Wrappers
  import opened Config
  import opened ModelIdentity
  import OpenAIEmbedding

  /** The chat model used when none is named. */
  const DefaultModel: string := "gpt-4o-mini"

  datatype OpenAILLM = OpenAILLM(modelName: string)

  /**
   * `OpenAILLM(model_name)`: fails when no API key is configured (absent or
   * empty); otherwise the argument, or "gpt-4o-mini" when it is absent or
   * empty. The configured embedding model plays no part.
   */
  function NewOpenAILLM(modelArg: Option<string>, settings: Settings): (r: Result<OpenAILLM>)
    ensures r.Err? <==> settings.openaiApiKey.None? || settings.openaiApiKey.value == ""
    ensures r.Err? ==> r.error == MissingApiKey
    ensures r.Ok? && modelArg.Some? && modelArg.value != "" ==> r.value.modelName == modelArg.value
    ensures r.Ok? && (modelArg.None? || modelArg.value == "") ==> r.value.modelName == DefaultModel
  {
    if settings.openaiApiKey.None? || settings.openaiApiKey.value == "" then Err(MissingApiKey)
    else Ok(OpenAILLM(if modelArg.Some? && modelArg.value != "" then modelArg.value else DefaultModel))
  }

  /** The answering model and the embedder refuse and accept the same settings. */
  lemma SameKeyGuardAsEmbedder(modelArg: Option<string>, settings: Settings)
    ensures NewOpenAILLM(modelArg, settings).Ok? <==> OpenAIEmbedding.NewOpenAIEmbedder(modelArg, settings).Ok?
  {
  }

  /** `get_model_id`: the same id scheme as the OpenAI embedder; it decodes back to an OpenAI model. */
  function GetModelId(llm: OpenAILLM): (id: string)
    ensures id == OpenAIModelId(llm.modelName)
    ensures DecodeModelId(id).Some? && DecodeModelId(id).value.provider == OpenAI
  {
    DecodeRecoversProvider(OpenAI, llm.modelName);
    OpenAIModelId(llm.modelName)
  }
}
