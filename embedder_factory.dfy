/**
 * Choosing an embedder: the provider dispatch of `get_embedder`, and the
 * resolver `get_smart_embedder`, which prefers an existing collection (the
 * most populated among the matching ones, the first of equals) and rebuilds
 * the embedder from that collection's model id.
 *
 * The result is the constructor call the factory makes, not the embedder it
 * builds: construction itself (the API-key guard, the pull of a missing
 * model) is modelled with each provider.
 */
module EmbedderFactory {
  import opened Wrappers
  import opened Strings
  import opened Config
  import opened ModelIdentity
  import opened VectorStore

  /** A constructor call with its `model_name` argument. */
  datatype Construction =
    | BuildOllama(modelArg: Option<string>)
    | BuildOpenAI(modelArg: Option<string>)

  /** `provider or settings.embedding_provider`. */
  function ProviderFor(provider: Option<string>, settings: Settings): (p: string)
    ensures Truthy(provider) ==> p == provider.value
    ensures !Truthy(provider) ==> p == settings.embeddingProvider
  {
    if Truthy(provider) then provider.value else settings.embeddingProvider
  }

  /**
   * `get_embedder`: dispatch on the exact provider name; any other name
   * raises ValueError.
   */
  function GetEmbedder(provider: Option<string>, model: Option<string>, settings: Settings): (r: Result<Construction>)
    ensures r == Ok(BuildOllama(model)) <==> ProviderFor(provider, settings) == "ollama"
    ensures r == Ok(BuildOpenAI(model)) <==> ProviderFor(provider, settings) == "openai"
    ensures r.Err? <==> ProviderFor(provider, settings) !in {"ollama", "openai"}
    ensures r.Err? ==> r.error == UnknownProvider(ProviderFor(provider, settings))
  {
    var p := ProviderFor(provider, settings);
    if p == "ollama" then Ok(BuildOllama(model))
    else if p == "openai" then Ok(BuildOpenAI(model))
    else Err(UnknownProvider(p))
  }

  /** Provider names are matched exactly: "Ollama" is not "ollama". */
  lemma EmbedderDispatchIsCaseSensitive(model: Option<string>, settings: Settings)
    ensures GetEmbedder(Some("Ollama"), model, settings) == Err(UnknownProvider("Ollama"))
    ensures GetEmbedder(Some("OPENAI"), model, settings) == Err(UnknownProvider("OPENAI"))
  {
  }

  /**
   * The embedder a model id names: an "ollama_" id gives an Ollama embedder
   * for the decoded name, an "openai_" id an OpenAI embedder, and any other
   * id (including a missing one) the default of `get_embedder`.
   */
  function FromModelId(id: string, provider: Option<string>, model: Option<string>, settings: Settings)
    : (r: Result<Construction>)
    ensures StartsWith(id, "ollama_") ==>
              r == Ok(BuildOllama(Some(ReplaceChar(ReplaceAll(id, "ollama_", ""), '_', ':'))))
    ensures !StartsWith(id, "ollama_") && StartsWith(id, "openai_") ==>
              r == Ok(BuildOpenAI(Some(ReplaceChar(ReplaceAll(id, "openai_", ""), '_', '-'))))
    ensures !StartsWith(id, "ollama_") && !StartsWith(id, "openai_") ==> r == GetEmbedder(provider, model, settings)
  {
    match DecodeModelId(id)
    case Some(Decoded(Ollama, name)) => Ok(BuildOllama(Some(name)))
    case Some(Decoded(OpenAI, name)) => Ok(BuildOpenAI(Some(name)))
    case None => GetEmbedder(provider, model, settings)
  }

  /** The collection of an embedder rebuilds that same embedder, for names the id codec keeps apart. */
  lemma ReopenOllamaCollection(name: string, provider: Option<string>, model: Option<string>, settings: Settings)
    requires '_' !in name && !Contains(name, "ollama:")
    ensures FromModelId(OllamaModelId(name), provider, model, settings) == Ok(BuildOllama(Some(name)))
  {
    OllamaRoundTrip(name);
  }

  /** The same for OpenAI. */
  lemma ReopenOpenAICollection(name: string, provider: Option<string>, model: Option<string>, settings: Settings)
    requires '_' !in name && !Contains(name, "openai-")
    ensures FromModelId(OpenAIModelId(name), provider, model, settings) == Ok(BuildOpenAI(Some(name)))
  {
    OpenAIRoundTrip(name);
  }

  /**
   * The position a stable descending sort by count brings to the front: a
   * maximal count, and no earlier position holds that count.
   */
  function FirstMax(counts: seq<nat>): (k: nat)
    requires |counts| > 0
    ensures k < |counts|
    ensures forall j :: 0 <= j < |counts| ==> counts[j] <= counts[k]
    ensures forall j :: 0 <= j < k ==> counts[j] < counts[k]
  {
    if |counts| == 1 then 0
    else
      var n := |counts| - 1;
      var k := FirstMax(counts[..n]);
      assert forall j :: 0 <= j < n ==> counts[..n][j] == counts[j];
      if counts[n] > counts[k] then n else k
  }

  /** Those two properties pin the position down: no other position has both. */
  lemma FirstMaxUnique(counts: seq<nat>, k: nat)
    requires k < |counts|
    requires forall j :: 0 <= j < |counts| ==> counts[j] <= counts[k]
    requires forall j :: 0 <= j < k ==> counts[j] < counts[k]
    ensures FirstMax(counts) == k
  {
    var m := FirstMax(counts);
    assert counts[m] == counts[k];
    assert !(m < k) && !(k < m);
  }

  /** The email count of each match, by `get_collection_email_count`. */
  function Counts(matches: seq<CollectionInfo>, lookup: string -> Option<nat>): (cs: seq<nat>)
    ensures |cs| == |matches|
    ensures forall i :: 0 <= i < |matches| ==> cs[i] == CollectionEmailCount(lookup, matches[i].name)
  {
    seq(|matches|, i requires 0 <= i < |matches| => CollectionEmailCount(lookup, matches[i].name))
  }

  /** `f"{collection_name} ({email_count} emails)"`. */
  function Descriptor(name: string, count: nat): string {
    name + " (" + NatToString(count) + " emails)"
  }

  /** A descriptor starts with the collection name, and its count reads back. */
  lemma DescriptorReadsBack(name: string, count: nat)
    ensures var d := Descriptor(name, count);
            && StartsWith(d, name)
            && |d| >= |name| + 10
            && ParseNat(d[|name| + 2..|d| - 8]) == count
            && d != "new collection"
  {
    var d := Descriptor(name, count);
    var digits := NatToString(count);
    assert d == name + " (" + digits + " emails)";
    assert d[..|name|] == name;
    assert d[|name| + 2..|d| - 8] == digits;
    ParseNatToString(count);
    assert d[|d| - 1] == ')';
  }

  /** What `get_smart_embedder` returns: the constructor call and the collection descriptor. */
  datatype Resolved = Resolved(construction: Construction, description: string)

  /**
   * `get_smart_embedder`: with no matching collection, `get_embedder` and
   * "new collection"; with a model name, the most populated match; with a
   * single match, that match; with several, the most populated. The chosen
   * collection's model id names the embedder, and the descriptor carries its
   * count. `all` is the listing of collections, `lookup` the count oracle.
   */
  function GetSmartEmbedder(provider: Option<string>, model: Option<string>, settings: Settings,
                            all: seq<CollectionInfo>, lookup: string -> Option<nat>): (r: Result<Resolved>)
    ensures r.Ok? ==> (r.value.description == "new collection" <==> FindMatchingCollections(all, provider, model) == [])
    ensures FindMatchingCollections(all, provider, model) == [] ==> (r.Ok? <==> GetEmbedder(provider, model, settings).Ok?)
  {
    var matches := FindMatchingCollections(all, provider, model);
    if matches == [] then
      match GetEmbedder(provider, model, settings)
      case Ok(c) => Ok(Resolved(c, "new collection"))
      case Err(e) => Err(e)
    else
      var k := if Truthy(model) then FirstMax(Counts(matches, lookup))
               else if |matches| == 1 then 0
               else FirstMax(Counts(matches, lookup));
      var chosen := matches[k];
      match FromModelId(chosen.modelId.GetOr(""), provider, model, settings)
      case Ok(c) =>
        DescriptorReadsBack(chosen.name, CollectionEmailCount(lookup, chosen.name));
        Ok(Resolved(c, Descriptor(chosen.name, CollectionEmailCount(lookup, chosen.name))))
      case Err(e) => Err(e)
  }

  /** With no matching collection, the result is the plain factory's embedder and "new collection". */
  lemma NoMatchFallsBack(provider: Option<string>, model: Option<string>, settings: Settings,
                         all: seq<CollectionInfo>, lookup: string -> Option<nat>)
    requires forall c :: c in all ==> !Matches(c, provider, model)
    ensures GetEmbedder(provider, model, settings).Ok? ==>
              GetSmartEmbedder(provider, model, settings, all, lookup)
              == Ok(Resolved(GetEmbedder(provider, model, settings).value, "new collection"))
    ensures GetEmbedder(provider, model, settings).Err? ==>
              GetSmartEmbedder(provider, model, settings, all, lookup).Err?
  {
    NoneMatchingIsEmpty(all, provider, model);
  }

  lemma {:induction false} NoneMatchingIsEmpty(all: seq<CollectionInfo>, provider: Option<string>, model: Option<string>)
    requires forall c :: c in all ==> !Matches(c, provider, model)
    ensures FindMatchingCollections(all, provider, model) == []
  {
    if all != [] {
      var n := |all| - 1;
      assert all[n] in all;
      forall c | c in all[..n] ensures !Matches(c, provider, model) {
        assert c in all;
      }
      NoneMatchingIsEmpty(all[..n], provider, model);
    }
  }

  /**
   * With at least one match, every branch picks the same collection: a
   * matching one whose count is maximal among the matches, and the first
   * such in listing order. The embedder comes from its model id and the
   * descriptor names it with its count.
   */
  lemma ChosenIsFirstMostPopulated(provider: Option<string>, model: Option<string>, settings: Settings,
                                   all: seq<CollectionInfo>, lookup: string -> Option<nat>)
    requires FindMatchingCollections(all, provider, model) != []
    ensures var matches := FindMatchingCollections(all, provider, model);
            var cs := Counts(matches, lookup);
            var k := FirstMax(cs);
            && matches[k] in all && Matches(matches[k], provider, model)
            && (forall j :: 0 <= j < |matches| ==> cs[j] <= cs[k])
            && (forall j :: 0 <= j < k ==> cs[j] < cs[k])
            && GetSmartEmbedder(provider, model, settings, all, lookup)
               == match FromModelId(matches[k].modelId.GetOr(""), provider, model, settings)
                  case Ok(c) => Ok(Resolved(c, Descriptor(matches[k].name, CollectionEmailCount(lookup, matches[k].name))))
                  case Err(e) => Err(e)
  {
    var matches := FindMatchingCollections(all, provider, model);
    FindMatchingSound(all, provider, model);
    assert matches[FirstMax(Counts(matches, lookup))] in matches;
  }

  /**
   * Resolving by provider and model name, when the first listed collection is
   * the one a store made for that Ollama model and no other collection
   * matches, reopens it with an embedder for that same model.
   */
  lemma ResolvesStoredOllamaModel(name: string, settings: Settings, all: seq<CollectionInfo>,
                                  lookup: string -> Option<nat>)
    requires name != "" && '_' !in name && !Contains(name, "ollama:")
    requires all != [] && all[0] == CollectionInfo(CollectionName(OllamaModelId(name)), Some(OllamaModelId(name)))
    requires forall c :: c in all[1..] ==> !Matches(c, Some("ollama"), Some(name))
    ensures GetSmartEmbedder(Some("ollama"), Some(name), settings, all, lookup)
            == Ok(Resolved(BuildOllama(Some(name)),
                           Descriptor(CollectionName(OllamaModelId(name)), CollectionEmailCount(lookup, CollectionName(OllamaModelId(name))))))
  {
    OllamaCollectionIsFound(name);
    assert all == [all[0]] + all[1..];
    FindMatchingAppend([all[0]], all[1..], Some("ollama"), Some(name));
    NoneMatchingIsEmpty(all[1..], Some("ollama"), Some(name));
    assert FindMatchingCollections([all[0]], Some("ollama"), Some(name)) == [all[0]] by {
      assert [all[0]][..0] == [];
    }
    assert FindMatchingCollections(all, Some("ollama"), Some(name)) == [all[0]];
    OllamaRoundTrip(name);
  }
}
