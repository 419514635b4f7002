/**
 * The two pieces of command-line logic that are more than console output:
 * the Gmail query of an incremental sync, and the embedder the stats command
 * rebuilds from a collection's stored model id.
 */
module Cli {
  import opened Wrappers
  import opened Strings
  import opened Models
  import opened Config
  import opened EmbedderFactory
  import ModelIdentity

  /** The Gmail filter `after:YYYY/MM/DD` for the day of the last sync. */
  function AfterFilter(d: DateTime): string {
    "after:" + ZeroPad(d.year, 4) + "/" + ZeroPad(d.month, 2) + "/" + ZeroPad(d.day, 2)
  }

  /**
   * The query `sync` passes to Gmail: unchanged unless the sync is
   * incremental and a last sync date is stored; then the date filter,
   * appended after a space to a non-empty query.
   */
  function IncrementalQuery(query: string, incremental: bool, lastSync: Option<DateTime>): (q: string)
    ensures !incremental || lastSync.None? ==> q == query
    ensures incremental && lastSync.Some? && query != "" ==> q == query + " " + AfterFilter(lastSync.value)
    ensures incremental && lastSync.Some? && query == "" ==> q == AfterFilter(lastSync.value)
  {
    if incremental && lastSync.Some? then
      var filter := AfterFilter(lastSync.value);
      if query != "" then query + " " + filter else filter
    else query
  }

  function Pow10(w: nat): nat {
    if w == 0 then 1 else 10 * Pow10(w - 1)
  }

  lemma {:induction false} DigitsFit(n: nat, w: nat)
    requires w >= 1 && n < Pow10(w)
    ensures |NatToString(n)| <= w
  {
    if n >= 10 {
      var p := Pow10(w - 1);
      assert w >= 2;
      assert n / 10 < p by {
        assert (n / 10) * 10 <= n;
      }
      DigitsFit(n / 10, w - 1);
    }
  }

  lemma PaddedWidth(n: nat, w: nat)
    requires w >= 1 && n < Pow10(w)
    ensures |ZeroPad(n, w)| == w
  {
    DigitsFit(n, w);
  }

  /**
   * For a four-digit year and two-digit month and day, the filter has its
   * fixed layout and each field reads back as the date's.
   */
  lemma AfterFilterReadsBack(d: DateTime)
    requires d.year < 10000 && d.month < 100 && d.day < 100
    ensures var s := AfterFilter(d);
            && |s| == 16 && s[..6] == "after:" && s[10] == '/' && s[13] == '/'
            && ParseNat(s[6..10]) == d.year && ParseNat(s[11..13]) == d.month && ParseNat(s[14..16]) == d.day
  {
    assert Pow10(4) == 10000 && Pow10(2) == 100;
    PaddedWidth(d.year, 4);
    PaddedWidth(d.month, 2);
    PaddedWidth(d.day, 2);
    ZeroPadReadsBack(d.year, 4);
    ZeroPadReadsBack(d.month, 2);
    ZeroPadReadsBack(d.day, 2);
    FilterFields(ZeroPad(d.year, 4), ZeroPad(d.month, 2), ZeroPad(d.day, 2));
  }

  /** The fields of a filter built from a four-, a two- and a two-character field sit at fixed positions. */
  lemma FilterFields(y: string, m: string, dd: string)
    requires |y| == 4 && |m| == 2 && |dd| == 2
    ensures var s := "after:" + y + "/" + m + "/" + dd;
            && |s| == 16 && s[..6] == "after:" && s[10] == '/' && s[13] == '/'
            && s[6..10] == y && s[11..13] == m && s[14..16] == dd
  {
    var s := "after:" + y + "/" + m + "/" + dd;
    assert s[6..10] == y;
    assert s[11..13] == m;
    assert s[14..16] == dd;
  }

  /**
   * The embedder the stats command rebuilds for a collection: the stored
   * model id ("unknown" when there is none) with "ollama_" removed and '_'
   * turned into ':', or "openai_" removed and '_' turned into '-', names the
   * model of an explicit provider; any other id gets the default embedder.
   */
  function StatsEmbedder(modelId: Option<string>, settings: Settings): (r: Result<Construction>)
    ensures var id := modelId.GetOr("unknown");
            && (StartsWith(id, "ollama_") ==> r.Ok? && r.value.BuildOllama?)
            && (StartsWith(id, "openai_") ==> r.Ok? && r.value.BuildOpenAI?)
            && (!StartsWith(id, "ollama_") && !StartsWith(id, "openai_") ==> r == GetEmbedder(None, None, settings))
    ensures modelId.None? ==> r == GetEmbedder(None, None, settings)
  {
    var id := modelId.GetOr("unknown");
    assert modelId.None? ==> id[0] == 'u';
    if StartsWith(id, "ollama_") then
      GetEmbedder(Some("ollama"), Some(ReplaceChar(ReplaceAll(id, "ollama_", ""), '_', ':')), settings)
    else if StartsWith(id, "openai_") then
      GetEmbedder(Some("openai"), Some(ReplaceChar(ReplaceAll(id, "openai_", ""), '_', '-')), settings)
    else GetEmbedder(None, None, settings)
  }

  /**
   * The stats command decodes a stored id exactly as the embedder resolver
   * does when it is given neither provider nor model; a missing id gets the
   * configured default.
   */
  lemma StatsAgreesWithResolver(modelId: Option<string>, settings: Settings)
    ensures modelId.Some? ==> StatsEmbedder(modelId, settings) == FromModelId(modelId.value, None, None, settings)
    ensures modelId.None? ==> StatsEmbedder(modelId, settings) == GetEmbedder(None, None, settings)
  {
    assert !StartsWith("unknown", "ollama_") && !StartsWith("unknown", "openai_") by {
      assert "unknown"[1] != "ollama_"[1];
      assert "unknown"[1] != "openai_"[1];
    }
  }

  /** A collection made by an Ollama embedder is reported with an embedder for that same model. */
  lemma StatsReopensOllamaStore(name: string, settings: Settings)
    requires '_' !in name && !Contains(name, "ollama:")
    ensures StatsEmbedder(Some(ModelIdentity.OllamaModelId(name)), settings) == Ok(BuildOllama(Some(name)))
  {
    StatsAgreesWithResolver(Some(ModelIdentity.OllamaModelId(name)), settings);
    ReopenOllamaCollection(name, None, None, settings);
  }
}
