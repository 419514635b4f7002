/**
 * The Ollama answering model: which installed model it picks when none is
 * named, when a named model counts as installed (and so is not pulled), and
 * its model id. The server's listing is an oracle, as for the embedder.
 */
module OllamaAnswering {
  import opened Wrappers
  import opened Strings
  import opened ModelIdentity
  import Emb = OllamaEmbedding

  /** The model used when nothing better can be found. */
  const DefaultModel: string := "llama3.2"

  /** The models `_get_best_available_model` looks for, best first. */
  const PreferredModels: seq<string> := [
    "deepseek-r1:8b",
    "llama3.1:latest", "llama3.1",
    "mixtral:latest", "mixtral",
    "mistral:latest", "mistral",
    "gemma2:latest", "gemma2",
    "qwen2.5:latest", "qwen2.5",
    "llama3.2:latest", "llama3.2"]

  /** The position of the first of `prefs` that is listed exactly in `names`. */
  function FirstPreferred(prefs: seq<string>, names: seq<string>): (r: Option<nat>)
    ensures r.Some? ==> r.value < |prefs| && prefs[r.value] in names
    ensures r.Some? ==> forall j :: 0 <= j < r.value ==> prefs[j] !in names
    ensures r.None? ==> forall j :: 0 <= j < |prefs| ==> prefs[j] !in names
  {
    if prefs == [] then None
    else if prefs[0] in names then Some(0)
    else match FirstPreferred(prefs[1..], names)
      case Some(k) => Some(k + 1)
      case None => None
  }

  /**
   * `_get_best_available_model`: the first preferred model that is listed,
   * else the first listed model, else "llama3.2"; a failed listing also gives
   * "llama3.2".
   */
  function BestModel(listing: Emb.ListResponse): (name: string)
    ensures listing.ListRaised? ==> name == DefaultModel
    ensures listing.Listing? ==> name in listing.names || (listing.names == [] && name == DefaultModel)
  {
    match listing
    case ListRaised => DefaultModel
    case Listing(names) =>
      match FirstPreferred(PreferredModels, names)
      case Some(k) => PreferredModels[k]
      case None => if names != [] then names[0] else DefaultModel
  }

  /** A listed preferred model with no better one listed is the one chosen, wherever it sits in the listing. */
  lemma PreferredWins(names: seq<string>, k: nat)
    requires k < |PreferredModels| && PreferredModels[k] in names
    requires forall j :: 0 <= j < k ==> PreferredModels[j] !in names
    ensures BestModel(Emb.Listing(names)) == PreferredModels[k]
  {
    var r := FirstPreferred(PreferredModels, names);
    assert r.Some?;
    assert !(r.value < k) && !(k < r.value);
  }

  /** With no preferred model listed, the first listed model is chosen. */
  lemma FirstListedWhenNonePreferred(names: seq<string>)
    requires names != []
    requires forall p :: p in PreferredModels ==> p !in names
    ensures BestModel(Emb.Listing(names)) == names[0]
  {
    forall j | 0 <= j < |PreferredModels| ensures PreferredModels[j] !in names {
      assert PreferredModels[j] in PreferredModels;
    }
  }

  /** Preference order beats listing order: "mistral" is chosen over an earlier-listed "llama3.2". */
  lemma PreferenceOrderNotListingOrder()
    ensures BestModel(Emb.Listing(["llama3.2", "gemma2", "mistral"])) == "mistral"
  {
    var names := ["llama3.2", "gemma2", "mistral"];
    forall j | 0 <= j < 6 ensures PreferredModels[j] !in names {
      assert |PreferredModels[j]| != |"mistral"| || PreferredModels[j][1] != 'i' || PreferredModels[j] == "mixtral";
    }
    PreferredWins(names, 6);
  }

  /**
   * `_get_best_available_model` as it is written: a search of the preference
   * list with early returns.
   */
  method GetBestAvailableModel(listing: Emb.ListResponse) returns (model: string)
    ensures model == BestModel(listing)
  {
    if listing.ListRaised? {
      return DefaultModel;
    }
    var names := listing.names;
    var i := 0;
    while i < |PreferredModels|
      invariant 0 <= i <= |PreferredModels|
      invariant forall j :: 0 <= j < i ==> PreferredModels[j] !in names
    {
      if PreferredModels[i] in names {
        PreferredWins(names, i);
        return PreferredModels[i];
      }
      i := i + 1;
    }
    if names != [] {
      return names[0];
    }
    return DefaultModel;
  }

  /** A listed name stands for `name`: it is `name` itself or `name` with a tag. */
  predicate Listed(name: string, listed: string) {
    listed == name || StartsWith(listed, name + ":")
  }

  /** The answering model counts as installed when some listed name stands for it. */
  predicate ModelPresent(name: string, names: seq<string>) {
    exists i :: 0 <= i < |names| && Listed(name, names[i])
  }

  /** The found-flag search of `_ensure_model_available` and `test_connection`. */
  method FindModel(name: string, names: seq<string>) returns (found: bool)
    ensures found <==> ModelPresent(name, names)
  {
    found := false;
    var i := 0;
    while i < |names|
      invariant 0 <= i <= |names|
      invariant forall j :: 0 <= j < i ==> !Listed(name, names[j])
    {
      if names[i] == name || StartsWith(names[i], name + ":") {
        found := true;
        break;
      }
      i := i + 1;
    }
  }

  /**
   * `_ensure_model_available`: nothing to do when the model is present
   * (`Ok(false)`); otherwise a pull, `Ok(true)` when it succeeds. A failed
   * listing or pull is re-raised.
   */
  method EnsureModelAvailable(name: string, listing: Emb.ListResponse, pullSucceeds: bool) returns (r: Result<bool>)
    ensures listing.ListRaised? ==> r == Err(BackendFailed)
    ensures listing.Listing? && ModelPresent(name, listing.names) ==> r == Ok(false)
    ensures listing.Listing? && !ModelPresent(name, listing.names) ==>
              r == if pullSucceeds then Ok(true) else Err(BackendFailed)
  {
    if listing.ListRaised? {
      return Err(BackendFailed);
    }
    var found := FindModel(name, listing.names);
    if found {
      r := Ok(false);
    } else if pullSucceeds {
      r := Ok(true);
    } else {
      r := Err(BackendFailed);
    }
  }

  /** A model picked from a listing counts as present in that listing, so it is never pulled. */
  lemma BestModelIsPresent(names: seq<string>)
    requires names != []
    ensures ModelPresent(BestModel(Emb.Listing(names)), names)
  {
    var best := BestModel(Emb.Listing(names));
    var i :| 0 <= i < |names| && names[i] == best;
    assert Listed(best, names[i]);
  }

  /**
   * The answering model accepts a tagged listing for an untagged name, where
   * the embedder insists on the exact name and pulls.
   */
  lemma TaggedNameSatisfiesOnlyTheAnsweringModel(name: string, tag: string)
    ensures ModelPresent(name, [name + ":" + tag])
    ensures Emb.NeedsPull(name, [name + ":" + tag])
  {
    var listed := name + ":" + tag;
    assert listed[..|name + ":"|] == name + ":";
    assert Listed(name, [listed][0]);
    assert |listed| > |name|;
  }

  /** A name is not present merely because a longer name starting with it is listed. */
  lemma ShorterNameNotPresent()
    ensures !ModelPresent("llama3", ["llama3.1:latest"])
  {
    assert "llama3.1:latest"[6] != "llama3:"[6];
    assert !Listed("llama3", "llama3.1:latest");
  }

  /** `model_name if model_name is not None else best`: an empty name is kept. */
  function ResolveModelName(modelArg: Option<string>, listing: Emb.ListResponse): (name: string)
    ensures modelArg.Some? ==> name == modelArg.value
    ensures modelArg.None? ==> name == BestModel(listing)
  {
    if modelArg.Some? then modelArg.value else BestModel(listing)
  }

  class OllamaLLM {
    const modelName: string

    constructor (modelName: string)
      ensures this.modelName == modelName
    {
      this.modelName := modelName;
    }

    /** `get_model_id`: the same id scheme as the Ollama embedder; it decodes back to an Ollama model. */
    function ModelId(): (id: string)
      ensures id == OllamaModelId(modelName)
      ensures DecodeModelId(id).Some? && DecodeModelId(id).value.provider == Ollama
    {
      DecodeRecoversProvider(Ollama, modelName);
      OllamaModelId(modelName)
    }

    /** `test_connection`: true exactly when the listing succeeds and the model is present in it. */
    method TestConnection(listing: Emb.ListResponse) returns (ok: bool)
      ensures ok <==> listing.Listing? && ModelPresent(modelName, listing.names)
    {
      if listing.ListRaised? {
        return false;
      }
      ok := FindModel(modelName, listing.names);
    }
  }

  /**
   * `OllamaLLM(model_name)`: the named model, or the best one from the first
   * listing when none is named; then the availability check against the
   * second listing, whose failure is raised.
   */
  method NewOllamaLLM(modelArg: Option<string>, bestListing: Emb.ListResponse, checkListing: Emb.ListResponse,
                      pullSucceeds: bool)
    returns (r: Result<OllamaLLM>)
    ensures r.Ok? <==> checkListing.Listing? && (ModelPresent(ResolveModelName(modelArg, bestListing), checkListing.names) || pullSucceeds)
    ensures r.Ok? ==> fresh(r.value) && r.value.modelName == ResolveModelName(modelArg, bestListing)
  {
    var name: string;
    if modelArg.None? {
      name := GetBestAvailableModel(bestListing);
    } else {
      name := modelArg.value;
    }
    var check := EnsureModelAvailable(name, checkListing, pullSucceeds);
    if check.Ok? {
      var llm := new OllamaLLM(name);
      r := Ok(llm);
    } else {
      r := Err(check.error);
    }
  }
}
