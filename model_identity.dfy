/**
 * Model identity: the string that names an embedding model across providers,
 * the collection name derived from it, and the decoding the factory and the
 * command line apply to get a provider and model name back.
 */
module ModelIdentity {
  import opened Wrappers
  import opened Strings

  datatype Provider = Ollama | OpenAI

  /** `OllamaEmbedder.get_model_id`: "ollama_" and the name with every ':' made '_'. */
  function OllamaModelId(name: string): (r: string)
    ensures |r| == |name| + 7 && r[..7] == "ollama_"
    ensures ':' !in r
    ensures forall i :: 0 <= i < |name| && name[i] != ':' ==> r[7 + i] == name[i]
  {
    "ollama_" + ReplaceChar(name, ':', '_')
  }

  /** `OpenAIEmbedder.get_model_id`: "openai_" and the name with every '-' made '_'. */
  function OpenAIModelId(name: string): (r: string)
    ensures |r| == |name| + 7 && r[..7] == "openai_"
    ensures '-' !in r
    ensures forall i :: 0 <= i < |name| && name[i] != '-' ==> r[7 + i] == name[i]
  {
    "openai_" + ReplaceChar(name, '-', '_')
  }

  function ModelId(p: Provider, name: string): string {
    match p
    case Ollama => OllamaModelId(name)
    case OpenAI => OpenAIModelId(name)
  }

  /** `EmailVectorStore.collection_name`. */
  function CollectionName(modelId: string): (r: string)
    ensures |r| == |modelId| + 7 && r[..7] == "emails_"
    ensures r[7..] == modelId
  {
    "emails_" + modelId
  }

  datatype Decoded = Decoded(provider: Provider, modelName: string)

  /**
   * The decoding of a model id into provider and model name: every "ollama_"
   * (or "openai_") is removed, then every '_' becomes ':' (or '-'). Any other
   * id has no decoding and the caller falls back to its default embedder.
   */
  function DecodeModelId(id: string): (d: Option<Decoded>)
    ensures d.Some? <==> StartsWith(id, "ollama_") || StartsWith(id, "openai_")
    ensures d.Some? ==> (d.value.provider == Ollama <==> StartsWith(id, "ollama_"))
    ensures d.Some? && d.value.provider == Ollama ==> '_' !in d.value.modelName
    ensures d.Some? && d.value.provider == OpenAI ==> '_' !in d.value.modelName
  {
    if StartsWith(id, "ollama_") then
      Some(Decoded(Ollama, ReplaceChar(ReplaceAll(id, "ollama_", ""), '_', ':')))
    else if StartsWith(id, "openai_") then
      Some(Decoded(OpenAI, ReplaceChar(ReplaceAll(id, "openai_", ""), '_', '-')))
    else None
  }

  /** Spellings that differ only in ':' versus '_' name the same Ollama model. */
  lemma OllamaIdCanonical(a: string, b: string)
    requires |a| == |b|
    requires forall i :: 0 <= i < |a| ==> a[i] == b[i] || (a[i] in {':', '_'} && b[i] in {':', '_'})
    ensures OllamaModelId(a) == OllamaModelId(b)
  {
    assert ReplaceChar(a, ':', '_') == ReplaceChar(b, ':', '_');
  }

  /** Spellings that differ only in '-' versus '_' name the same OpenAI model. */
  lemma OpenAIIdCanonical(a: string, b: string)
    requires |a| == |b|
    requires forall i :: 0 <= i < |a| ==> a[i] == b[i] || (a[i] in {'-', '_'} && b[i] in {'-', '_'})
    ensures OpenAIModelId(a) == OpenAIModelId(b)
  {
    assert ReplaceChar(a, '-', '_') == ReplaceChar(b, '-', '_');
  }

  /** The provider is always recovered from an encoded id. */
  lemma DecodeRecoversProvider(p: Provider, name: string)
    ensures DecodeModelId(ModelId(p, name)).Some?
    ensures DecodeModelId(ModelId(p, name)).value.provider == p
  {
    var id := ModelId(p, name);
    if p == Ollama {
      assert id[..7] == "ollama_";
    } else {
      assert id[..7] == "openai_";
    }
  }

  /**
   * In an encoded name, the marker `pat` (a word followed by '_') can only
   * occur where the original name held the word followed by `sep`, when the
   * name has no '_' of its own.
   */
  lemma {:induction false} EncodedHasNoMarker(name: string, sep: char, word: string)
    requires '_' !in name && '_' !in word && sep != '_'
    requires !Contains(name, word + [sep])
    ensures !Contains(ReplaceChar(name, sep, '_'), word + "_")
  {
    var x := ReplaceChar(name, sep, '_');
    var pat := word + "_";
    if Contains(x, pat) {
      var i :| 0 <= i && OccursAt(x, pat, i);
      assert x[i..i + |pat|] == pat;
      forall k | 0 <= k < |word| ensures name[i + k] == word[k] {
        assert x[i + k] == pat[k] == word[k];
        assert word[k] in word;
      }
      assert x[i + |word|] == '_';
      assert name[i + |word|] == sep;
      assert name[i..i + |pat|] == word + [sep];
      assert OccursAt(name, word + [sep], i);
    }
  }

  /**
   * Round trip for Ollama: decoding the id of a name gives the name back when
   * the name has no '_' and does not contain "ollama:".
   */
  lemma OllamaRoundTrip(name: string)
    requires '_' !in name
    requires !Contains(name, "ollama:")
    ensures DecodeModelId(OllamaModelId(name)) == Some(Decoded(Ollama, name))
  {
    var x := ReplaceChar(name, ':', '_');
    var id := OllamaModelId(name);
    assert id[..7] == "ollama_" && id[7..] == x;
    assert "ollama" + [':'] == "ollama:";
    EncodedHasNoMarker(name, ':', "ollama");
    assert "ollama" + "_" == "ollama_";
    ReplaceAllAbsent(x, "ollama_", "");
    assert ReplaceAll(id, "ollama_", "") == "" + ReplaceAll(x, "ollama_", "");
    assert ReplaceAll(id, "ollama_", "") == x;
    assert ReplaceChar(x, '_', ':') == name;
    assert StartsWith(id, "ollama_");
  }

  /**
   * Round trip for OpenAI: decoding the id of a name gives the name back when
   * the name has no '_' and does not contain "openai-".
   */
  lemma OpenAIRoundTrip(name: string)
    requires '_' !in name
    requires !Contains(name, "openai-")
    ensures DecodeModelId(OpenAIModelId(name)) == Some(Decoded(OpenAI, name))
  {
    var x := ReplaceChar(name, '-', '_');
    var id := OpenAIModelId(name);
    assert id[..7] == "openai_" && id[7..] == x;
    assert !StartsWith(id, "ollama_") by { assert id[1] != "ollama_"[1]; }
    assert "openai" + ['-'] == "openai-";
    EncodedHasNoMarker(name, '-', "openai");
    assert "openai" + "_" == "openai_";
    ReplaceAllAbsent(x, "openai_", "");
    assert ReplaceAll(id, "openai_", "") == "" + ReplaceAll(x, "openai_", "");
    assert ReplaceAll(id, "openai_", "") == x;
    assert ReplaceChar(x, '_', '-') == name;
    assert StartsWith(id, "openai_");
  }

  /** A model name containing '_' does not survive the round trip: "a_b" comes back as "a:b". */
  lemma OllamaUnderscoreNotRecovered()
    ensures DecodeModelId(OllamaModelId("a_b")) == Some(Decoded(Ollama, "a:b"))
  {
    var x := ReplaceChar("a_b", ':', '_');
    assert x == "a_b";
    var id := OllamaModelId("a_b");
    assert id == "ollama_" + "a_b";
    assert id[..7] == "ollama_" && id[7..] == "a_b";
    assert ReplaceAll(id, "ollama_", "") == "" + ReplaceAll("a_b", "ollama_", "");
    var y := ReplaceChar("a_b", '_', ':');
    assert y[0] == 'a' && y[1] == ':' && y[2] == 'b';
    assert y == "a:b";
  }
}
