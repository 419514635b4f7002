/**
 * Application settings: their defaults, how the environment overrides them,
 * and the lazily created process-wide instance behind `get_settings`.
 */
module Config {
  import opened Wrappers
  import opened Strings

  datatype Settings = Settings(
    gmailClientId: string,
    gmailClientSecret: string,
    embeddingProvider: string,
    ollamaModel: string,
    ollamaHost: string,
    openaiApiKey: Option<string>,
    openaiModel: string,
    chromaPersistDirectory: string,
    credentialsPath: string,
    batchSize: nat,
    maxResultsPerQuery: nat)

  /** A string field: the variable's value when set, the default otherwise. */
  function StringField(env: map<string, string>, key: string, default: string): string {
    if key in env then env[key] else default
  }

  predicate AllDigits(s: string) {
    s != [] && forall i :: 0 <= i < |s| ==> '0' <= s[i] <= '9'
  }

  /** An integer field: the parsed value when set, the default otherwise; `None` when it does not parse. */
  function IntField(env: map<string, string>, key: string, default: nat): Option<nat> {
    if key !in env then Some(default)
    else if AllDigits(env[key]) then Some(ParseNat(env[key]))
    else None
  }

  /**
   * `Settings()`: every field from the environment variable of the same name
   * when it is set, from its default otherwise; the two Gmail fields have no
   * default and their absence is a validation error.
   */
  function LoadSettings(env: map<string, string>): (r: Result<Settings>)
    ensures "gmail_client_id" !in env || "gmail_client_secret" !in env ==> r.Err?
    ensures r.Ok? ==> r.value.gmailClientId == env["gmail_client_id"]
                      && r.value.gmailClientSecret == env["gmail_client_secret"]
    ensures r.Ok? ==> (r.value.openaiApiKey.Some? <==> "openai_api_key" in env)
    ensures r.Ok? && "embedding_provider" !in env ==> r.value.embeddingProvider == "ollama"
  {
    var batch := IntField(env, "batch_size", 100);
    var maxResults := IntField(env, "max_results_per_query", 50);
    if "gmail_client_id" !in env || "gmail_client_secret" !in env || batch.None? || maxResults.None? then
      Err(InvalidSettings)
    else
      Ok(Settings(
        env["gmail_client_id"],
        env["gmail_client_secret"],
        StringField(env, "embedding_provider", "ollama"),
        StringField(env, "ollama_model", "nomic-embed-text"),
        StringField(env, "ollama_host", "http://localhost:11434"),
        if "openai_api_key" in env then Some(env["openai_api_key"]) else None,
        StringField(env, "openai_model", "text-embedding-3-small"),
        StringField(env, "chroma_persist_directory", "data/chroma"),
        StringField(env, "credentials_path", "credentials/token.json"),
        batch.value,
        maxResults.value))
  }

  /** With only the two Gmail variables set, every other field takes its documented default. */
  lemma DefaultSettings(id: string, secret: string)
    ensures var r := LoadSettings(map["gmail_client_id" := id, "gmail_client_secret" := secret]);
            && r.Ok?
            && r.value.gmailClientId == id && r.value.gmailClientSecret == secret
            && r.value.embeddingProvider == "ollama"
            && r.value.ollamaModel == "nomic-embed-text"
            && r.value.ollamaHost == "http://localhost:11434"
            && r.value.openaiApiKey == None
            && r.value.openaiModel == "text-embedding-3-small"
            && r.value.chromaPersistDirectory == "data/chroma"
            && r.value.credentialsPath == "credentials/token.json"
            && r.value.batchSize == 100
            && r.value.maxResultsPerQuery == 50
  {
  }

  /** Without the Gmail client id or secret, loading fails. */
  lemma GmailFieldsRequired(env: map<string, string>)
    requires "gmail_client_id" !in env || "gmail_client_secret" !in env
    ensures LoadSettings(env).Err?
  {
  }

  /** A set variable overrides the default, digits being read as their decimal value. */
  lemma EnvironmentOverrides(env: map<string, string>)
    requires LoadSettings(env).Ok?
    ensures "embedding_provider" in env ==> LoadSettings(env).value.embeddingProvider == env["embedding_provider"]
    ensures "batch_size" in env ==> ParseNat(env["batch_size"]) == LoadSettings(env).value.batchSize
    ensures "openai_api_key" in env <==> LoadSettings(env).value.openaiApiKey.Some?
  {
  }

  /** The module-global `_settings` and the two functions that manage it. */
  class SettingsCache {
    var current: Option<Settings>

    /** At import time nothing has been loaded. */
    constructor ()
      ensures current == None
    {
      current := None;
    }

    /**
     * `get_settings`: loads the settings (the outcome of `Settings()` is the
     * parameter `loaded`) only when none are cached; `constructed` says whether
     * it did. A failed load raises and caches nothing.
     */
    method GetSettings(loaded: Result<Settings>) returns (r: Result<Settings>, constructed: bool)
      modifies this
      ensures constructed <==> old(current).None?
      ensures old(current).Some? ==> r == Ok(old(current).value) && current == old(current)
      ensures old(current).None? ==> r == loaded
      ensures old(current).None? ==> current == if loaded.Ok? then Some(loaded.value) else None
    {
      if current.None? {
        constructed := true;
        if loaded.Ok? {
          current := Some(loaded.value);
        }
        r := loaded;
      } else {
        constructed := false;
        r := Ok(current.value);
      }
    }

    /** `reset_settings`: the next `get_settings` loads afresh. */
    method ResetSettings()
      modifies this
      ensures current == None
    {
      current := None;
    }
  }

  /** Two calls in a row load once and return the same settings. */
  method GetSettingsTwice(cache: SettingsCache, first: Result<Settings>, second: Result<Settings>)
    returns (a: Result<Settings>, b: Result<Settings>)
    requires cache.current.None? && first.Ok?
    modifies cache
    ensures a == b == first
  {
    var c1, c2;
    a, c1 := cache.GetSettings(first);
    b, c2 := cache.GetSettings(second);
    assert c1 && !c2;
  }
}
