# semantic-mail core, modelled in Dafny

semantic-mail syncs Gmail messages into a local vector index and answers
natural-language searches and questions over them. This project models its
core:

- **Model identity.** A model id is `ollama_<name with ':' as '_'>` or
  `openai_<name with '-' as '_'>`. Every embedding model gets its own
  collection, `emails_<model id>`.
- **Embedders.** The Ollama and OpenAI embedders cover:
  - the model-name default;
  - the pull-if-missing decision;
  - the cached, probed dimension;
  - per-text and 100-text-chunk batch embedding, with `None` for failures;
  - the connection test.
- **Base embedder.** `embed_emails` pairs each email with its embedding, position by position.
- **Embedder factory.** It has three parts:
  - `get_embedder` dispatches on the provider name;
  - model-id decoding reopens an existing collection with the model that built it;
  - `get_smart_embedder` picks the most populated collection that matches the request.
- **The email vector store.** `EmailVectorStore` keeps a map from email id to
  stored record, the collection metadata and the last-sync watermark. Its operations are:
  - `add_emails`: skip the emails whose embedding is missing, drop the ids
    already held (checked per 100), insert per 100, then advance the watermark;
  - `search`, lookup by id, and the existence check;
  - clearing the collection;
  - collection matching and counts.
- **The searcher.** Hits are rebuilt into emails and scored by one minus their distance.
- **Gmail shaping.** This covers:
  - header maps;
  - address extraction;
  - recipients, attachments and body text;
  - whole-message parsing;
  - paginated listing with a limit;
  - fetching.
- **The answering models.** This covers:
  - the Ollama best-model choice and its "present or pull" check;
  - the OpenAI key guard;
  - the LLM factory;
  - the five-email prompt context.
- **CLI helpers.** The incremental-sync query and the stats-time model-id decoding.

Everything the source gets from outside is a parameter or an oracle:
- the Ollama/OpenAI/Chroma/Gmail answers;
- the clock;
- HTML simplification and stripping;
- base64 decoding;
- date resolution and `str(datetime)`.

Failures that the source catches become `Option`/`Result` values or `None`
entries. Failures it re-raises become `Err`, and a handler that turns an
exception into an empty answer is modelled as that empty answer.

Objects whose fields the source updates in place are classes:
- the settings cache;
- the Chroma client manager and its singleton slot;
- the Ollama embedder with its dimension cache;
- the vector store;
- the Ollama answering model.

The rest is datatypes and functions. Each method with a loop is proved equal
to the recursive function that specifies it, and the lemmas are stated about
those functions.

## Model

| member | source | states |
|---|---|---|
| Models.NewEmail | src/models.py:6-16 | A new email holds the given fields; recipients, labels and attachments start empty and the snippet starts "". |
| Models.IdleSyncStatus | src/models.py:29-34 | A fresh sync status has zero counts, no last sync and status "idle". |
| Models.ContentForEmbedding | src/models.py:18-20 | The embedded text is at least as long as the subject, sender and body together plus the 23 fixed label characters, and it ends with the body. |
| Models.ContentLayout | src/models.py:18-20 | The embedded text starts with the Subject, From and To lines and ends with the body after a blank line. |
| Models.ContentWithoutRecipients | src/models.py:18-20 | With no recipients, the embedded text is exactly subject, sender, an empty To line, a blank line and the body. |
| Models.ContentRecipientAppended | src/models.py:18-20 | One more recipient adds ", " and that recipient to the To line and changes nothing else. |
| Config.LoadSettings | src/config.py:9-25 | Loading fails when either Gmail field is missing. A loaded value carries the two Gmail fields as given, has an OpenAI key exactly when one is set, and has provider "ollama" when none is set. |
| Config.DefaultSettings | src/config.py:9-25 | With only the two Gmail fields set, loading succeeds with every documented default (ollama, nomic-embed-text, localhost:11434, no key, text-embedding-3-small, data/chroma, credentials/token.json, 100, 50). |
| Config.GmailFieldsRequired | src/config.py:9-10 | Loading fails whenever either required Gmail field is missing. |
| Config.EnvironmentOverrides | src/config.py:12-25 | A set variable overrides its default: the provider string, the parsed batch size, and the API key being present exactly when it is set. |
| Config.SettingsCache.constructor | src/config.py:33 | The cache starts empty. |
| Config.SettingsCache.GetSettings | src/config.py:36-40 | Settings are built only when the cache is empty. A cached value is returned unchanged; a failed build leaves the cache empty. |
| Config.SettingsCache.ResetSettings | src/config.py:43-45 | Reset empties the cache. |
| Config.GetSettingsTwice | src/config.py:36-40 | Two calls after one successful build return the same settings, even when the second build would differ. |
| ChromaClient.PersistentClient.constructor | src/search/chroma_client.py:19-25 | A client remembers its persist directory. |
| ChromaClient.ChromaClientManager.constructor | src/search/chroma_client.py:7-9 | A new manager holds no client. |
| ChromaClient.ChromaClientManager.GetClient | src/search/chroma_client.py:16-26 | The first call creates a client for the directory. Later calls return that same client, whatever directory they pass. |
| ChromaClient.ChromaClientManager.Reset | src/search/chroma_client.py:28-30 | Reset drops the client, so the next call creates a new one. |
| ChromaClient.ManagerSlot.constructor | src/search/chroma_client.py:8 | The singleton slot starts empty. |
| ChromaClient.ManagerSlot.Manager | src/search/chroma_client.py:11-14 | The manager is created once and then always returned. |
| ChromaClient.GetChromaClient | src/search/chroma_client.py:33-36 | The global client is the singleton manager's client. It is created for the given directory only when none exists yet. |
| ChromaClient.SameClientTwice | src/search/chroma_client.py:33-36 | Two calls with different directories return one client, built for the first directory. |
| ModelIdentity.OllamaModelId | src/embedding/ollama_embedder.py:21-22 | "ollama_" followed by the name, with no ':' left; every other character of the name is kept in place. |
| ModelIdentity.OpenAIModelId | src/embedding/openai_embedder.py:24-25 | "openai_" followed by the name, with no '-' left; every other character of the name is kept in place. |
| ModelIdentity.CollectionName | src/search/vector_store.py:21 | "emails_" followed by the model id, which reads back from the name. |
| ModelIdentity.DecodeModelId | src/embedding/embedder_factory.py:63-70 | An id decodes exactly when it starts with ollama_ or openai_. The prefix gives the provider, and the decoded name has no '_' left. |
| ModelIdentity.OllamaIdCanonical | src/embedding/ollama_embedder.py:21-22 | Names that differ only by ':' versus '_' get the same Ollama id. |
| ModelIdentity.OpenAIIdCanonical | src/embedding/openai_embedder.py:24-25 | Names that differ only by '-' versus '_' get the same OpenAI id. |
| ModelIdentity.DecodeRecoversProvider | src/embedding/embedder_factory.py:95-103 | Every id built for a provider decodes back to that provider. |
| ModelIdentity.EncodedHasNoMarker | src/embedding/embedder_factory.py:96 | Replacing the separator by '_' creates no new occurrence of a `word_` marker, so a later `replace` of the marker does not remove part of the name. |
| ModelIdentity.OllamaRoundTrip | src/embedding/embedder_factory.py:63-65 | Decoding an Ollama id gives back the original name, for names without '_' and without "ollama:". |
| ModelIdentity.OpenAIRoundTrip | src/embedding/embedder_factory.py:66-68 | Decoding an OpenAI id gives back the original name, for names without '_' and without "openai-". |
| ModelIdentity.OllamaUnderscoreNotRecovered | src/embedding/embedder_factory.py:63-65 | The round trip is lossy: an Ollama model named "a_b" decodes as "a:b". |
| Batching.Chunk | src/embedding/openai_embedder.py:58-62 | A chunk holds min(100, remaining) texts and is never empty while texts remain. |
| Batching.ChunkExtendsPrefix | src/embedding/openai_embedder.py:58-62 | The chunks tile the input: the prefix before a chunk plus the chunk is the next prefix. |
| BaseEmbedder.Texts | src/embedding/base_embedder.py:39 | There is one text per email: its simplified embedding content, in order. |
| BaseEmbedder.ZipPairsByPosition | src/embedding/base_embedder.py:42 | The pairs stop at the shorter list, and pair i is the email and the embedding at position i. |
| BaseEmbedder.SuccessCount | src/embedding/base_embedder.py:44 | The success count is at most the number of pairs. |
| BaseEmbedder.SuccessCountCountsPresent | src/embedding/base_embedder.py:44 | The success count is the number of positions whose embedding is present. |
| BaseEmbedder.AllSucceededIffNoneMissing | src/embedding/base_embedder.py:44 | Every email succeeded exactly when no embedding is missing. |
| BaseEmbedder.EmbedEmails | src/embedding/base_embedder.py:34-49 | Each email is paired with the batch embedding at its own position. |
| BaseEmbedder.EmbedEmailsOnePerEmail | src/embedding/base_embedder.py:34-49 | When the batch answers one entry per text, every email is in the result, in order. |
| OllamaEmbedding.GenerateEmbedding | src/embedding/ollama_embedder.py:58-70 | An embedding is produced exactly when the call returned a non-empty embeddings list, and it is the first one; anything else gives None. |
| OllamaEmbedding.ModelNameFor | src/embedding/ollama_embedder.py:16 | A non-empty model argument wins; otherwise the configured Ollama model is used. |
| OllamaEmbedding.EnsureModelAvailable | src/embedding/ollama_embedder.py:33-56 | A pull happens only when the exact name is not listed. Failure happens exactly when the listing raises, or when a needed pull fails. |
| OllamaEmbedding.ProbeDimension | src/embedding/ollama_embedder.py:24-31 | The probed dimension is the length of a usable test embedding. Otherwise the dimension is unknown. |
| OllamaEmbedding.TestConnection | src/embedding/ollama_embedder.py:85-115 | The test succeeds exactly when listing works and the test embedding is usable. |
| OllamaEmbedding.ConnectionTestMatchesDimensionProbe | src/embedding/ollama_embedder.py:24-31 | Once the listing works, the connection test and the dimension probe agree. |
| OllamaEmbedding.OllamaEmbedder.constructor | src/embedding/ollama_embedder.py:14-19 | A new embedder has the given model and no cached dimension. |
| OllamaEmbedding.OllamaEmbedder.ModelId | src/embedding/ollama_embedder.py:21-22 | The id is the Ollama encoding of the model name, and it decodes back to Ollama. |
| OllamaEmbedding.OllamaEmbedder.GetEmbeddingDimension | src/embedding/ollama_embedder.py:24-31 | A cached dimension is returned without probing. Otherwise the probe's answer is returned and cached only on success; a returned dimension is positive. |
| OllamaEmbedding.OllamaEmbedder.GenerateEmbeddingsBatch | src/embedding/ollama_embedder.py:72-83 | There is one entry per text: the single-text embedding of that text. |
| OllamaEmbedding.NewOllamaEmbedder | src/embedding/ollama_embedder.py:14-19 | Construction succeeds exactly when the availability check does, and the new embedder uses the resolved model name. |
| OllamaEmbedding.DimensionProbedOnce | src/embedding/ollama_embedder.py:24-31 | After a successful probe, a second call returns the same dimension whatever the server would answer. |
| OpenAIEmbedding.ModelDimension | src/embedding/openai_embedder.py:30-36 | The dimension is 3072 exactly for text-embedding-3-large and 1536 otherwise. |
| OpenAIEmbedding.NewOpenAIEmbedder | src/embedding/openai_embedder.py:14-28 | Construction fails with a missing-key error exactly when the key is absent or empty. The model is the argument or the configured one, with its dimension. |
| OpenAIEmbedding.GetModelId | src/embedding/openai_embedder.py:24-25 | The id is the OpenAI encoding of the model name, and it decodes back to OpenAI. |
| OpenAIEmbedding.GenerateEmbedding | src/embedding/openai_embedder.py:38-54 | An embedding is produced exactly when the call returned data, and it is the first vector; an exception gives None. |
| OpenAIEmbedding.TestConnection | src/embedding/openai_embedder.py:81-96 | The test succeeds exactly when the probe returns a non-empty first vector. |
| OpenAIEmbedding.ChunkContribution | src/embedding/openai_embedder.py:64-75 | A chunk that raised contributes one None per text. A chunk that answered contributes its vectors in order. |
| OpenAIEmbedding.BatchAligned | src/embedding/openai_embedder.py:56-79 | When every answering chunk returns one vector per text, the output has one entry per text, and each chunk's entries sit at that chunk's positions. |
| OpenAIEmbedding.BatchAllRaised | src/embedding/openai_embedder.py:73-75 | When the request for every chunk start raises, the output is all None, one per text. |
| OpenAIEmbedding.RaisedChunkFillsNone | src/embedding/openai_embedder.py:73-75 | A raising chunk fills its positions with None, and the later chunks continue unaffected. |
| OpenAIEmbedding.GenerateEmbeddingsBatch | src/embedding/openai_embedder.py:56-79 | The chunked loop computes the chunk-by-chunk batch function. |
| VectorStore.MetadataOf | src/search/vector_store.py:101-109 | Stored metadata keeps the header fields and labels. The snippet is cut to a prefix of at most 500 characters, and has_attachments holds exactly when there are attachments. |
| VectorStore.Kept | src/search/vector_store.py:92-95 | The kept records number at most the pairs. |
| VectorStore.KeptCountsSuccesses | src/search/vector_store.py:92-95 | The number kept equals the number of successful embeddings. |
| VectorStore.KeptOnlyEmbedded | src/search/vector_store.py:92-109 | Each kept record is built from a pair whose embedding is present. |
| VectorStore.IdsAppend | src/search/vector_store.py:149-158 | The ids of two runs of records are the union of their ids. |
| VectorStore.Absent | src/search/vector_store.py:127-147 | The records not yet held number at most those checked. |
| VectorStore.AbsentSound | src/search/vector_store.py:127-147 | A record counts as new exactly when its id is not held, and none are new when every id is held. |
| VectorStore.AbsentAppend | src/search/vector_store.py:127-147 | The new records of two runs are those of each, in order. |
| VectorStore.NewFrom | src/search/vector_store.py:127-147 | The new records number at most those still to check. |
| VectorStore.NoFailureIsFilter | src/search/vector_store.py:127-147 | When no existence check fails, the per-100 check keeps exactly the records whose id is not held. |
| VectorStore.NewFromCovers | src/search/vector_store.py:127-147 | Every new record was pending, and every pending record is either new or already held, even when a check fails. |
| VectorStore.InsertSeqFrame | src/search/vector_store.py:149-158 | Insertion keeps every held record unchanged and adds exactly the inserted ids. |
| VectorStore.InsertChunksFrame | src/search/vector_store.py:149-158 | Chunked insertion keeps every held record and adds only inserted ids. All of them are added when no chunk fails. |
| VectorStore.AddFrame | src/search/vector_store.py:83-177 | add_emails never changes or removes a held record and adds only embedded ids. On success, the held ids grow by exactly the embedded ids. |
| VectorStore.AddNeverStoresMissing | src/search/vector_store.py:92-95 | An email whose embedding is missing is never stored. |
| VectorStore.AddReportCounts | src/search/vector_store.py:91-173 | The report counts the skipped, duplicate and added emails, and these three add up to the number of pairs. |
| VectorStore.DuplicatesAreHeldIds | src/search/vector_store.py:127-147 | When no check fails, the duplicates are the kept records whose id was already held. |
| VectorStore.AllMissingChangesNothing | src/search/vector_store.py:91-117 | If every embedding is missing, nothing is stored, the watermark is unchanged, and all pairs are reported as skipped. |
| VectorStore.AllDuplicatesChangesNothing | src/search/vector_store.py:170-173 | If every id is already held, nothing is stored, the watermark is unchanged, and the embedded emails are reported as duplicates. |
| VectorStore.WatermarkRule | src/search/vector_store.py:169 | The watermark moves to now only after a successful insert of at least one new record and a successful write. |
| VectorStore.AddIdempotent | src/search/vector_store.py:83-177 | Adding the same pairs again changes no record and no watermark, and adds nothing. |
| VectorStore.RepeatedIdInOneCall | src/search/vector_store.py:149-158 | The same email twice in one call is rejected by the insert and stores nothing. |
| VectorStore.HitsOf | src/search/vector_store.py:188-203 | An answer without hits gives none. Otherwise there is one hit per returned id, with its distance and metadata. |
| VectorStore.FindMatchingCollections | src/search/vector_store.py:295-333 | At most every collection matches. |
| VectorStore.FindMatchingSound | src/search/vector_store.py:303-331 | A collection is returned exactly when it is listed and matches the provider and model. |
| VectorStore.FindMatchingAppend | src/search/vector_store.py:303-331 | Matching keeps the listing order. |
| VectorStore.NoCriteriaMatchesAll | src/search/vector_store.py:329-331 | With no provider and no model, every collection matches. |
| VectorStore.OllamaCollectionIsFound | src/search/vector_store.py:303-331 | An Ollama collection is found by provider and model, by model alone, by provider alone, and with no criteria. |
| VectorStore.OpenAICollectionIsFound | src/search/vector_store.py:303-331 | An OpenAI collection is found by provider and model, by model alone, by provider alone, and with no criteria. |
| VectorStore.OtherProviderWithModelMatchesNothing | src/search/vector_store.py:306-324 | Any other provider name given together with a model matches nothing. |
| VectorStore.CollectionEmailCount | src/search/vector_store.py:335-346 | The count is the collection's count, or 0 when the lookup fails. |
| VectorStore.EmailVectorStore.constructor | src/search/vector_store.py:17-23 | A store holds its model id and the collection `emails_<model id>`. |
| VectorStore.EmailVectorStore.UpdateLastSyncDate | src/search/vector_store.py:54-66 | The watermark becomes now only when the write succeeds. The records are unchanged. |
| VectorStore.EmailVectorStore.AddEmails | src/search/vector_store.py:83-177 | The new records, watermark and report are those of the add_emails function, and the metadata is unchanged. |
| VectorStore.EmailVectorStore.InsertAll | src/search/vector_store.py:149-158 | The per-100 insert loop computes the chunked insertion function. |
| VectorStore.EmailVectorStore.Search | src/search/vector_store.py:179-203 | The query asks for min(n_results, count) neighbours and turns the answer into hits. |
| VectorStore.EmailVectorStore.GetEmailById | src/search/vector_store.py:205-221 | A record is found exactly when the lookup works and the id is held, and it carries that record's document and metadata. |
| VectorStore.EmailVectorStore.CheckEmailsExist | src/search/vector_store.py:223-233 | The ids split into disjoint existing and new sets that cover the input. A failed lookup reports all of them as new. |
| VectorStore.EmailVectorStore.ClearCollection | src/search/vector_store.py:258-265 | A failed delete raises and changes nothing. A successful one empties the records. The model id and dimension are re-stamped when the dimension is known; when asking for it raises, the error is returned and the old metadata stays. The watermark is untouched. |
| VectorStore.KeepEmbedded | src/search/vector_store.py:92-109 | The skip loop keeps exactly the embedded pairs and counts the rest. |
| VectorStore.SplitBatch | src/search/vector_store.py:127-147 | One existence-check batch splits into new records and held ones, with nothing lost. |
| VectorStore.SplitNew | src/search/vector_store.py:127-147 | The batched existence check computes the new-records function and counts the duplicates. |
| VectorStore.OpenStore | src/search/vector_store.py:27-46 | Opening reuses an existing collection as is. A new collection is stamped with the model id and the probed dimension; opening fails only when a new collection's dimension cannot be probed. |
| EmbedderFactory.ProviderFor | src/embedding/embedder_factory.py:29 | An empty or missing provider falls back to the configured one. |
| EmbedderFactory.GetEmbedder | src/embedding/embedder_factory.py:26-36 | Exactly "ollama" and "openai" build their embedders, and anything else is an unknown-provider error naming it. |
| EmbedderFactory.EmbedderDispatchIsCaseSensitive | src/embedding/embedder_factory.py:29-36 | "Ollama" and "OPENAI" are refused by the embedder factory. |
| EmbedderFactory.FromModelId | src/embedding/embedder_factory.py:95-103 | An ollama_ or openai_ id builds that provider's embedder with the decoded name. Any other id falls back to get_embedder. |
| EmbedderFactory.ReopenOllamaCollection | src/embedding/embedder_factory.py:95-97 | An Ollama collection's id rebuilds the embedder for the very model that made it. |
| EmbedderFactory.ReopenOpenAICollection | src/embedding/embedder_factory.py:98-100 | An OpenAI collection's id rebuilds the embedder for the very model that made it. |
| EmbedderFactory.FirstMax | src/embedding/embedder_factory.py:82-87 | The chosen position holds the largest count, and every earlier count is smaller. |
| EmbedderFactory.FirstMaxUnique | src/embedding/embedder_factory.py:82-87 | Only one position is first with the largest count. |
| EmbedderFactory.Counts | src/embedding/embedder_factory.py:83-84 | There is one count per matching collection, from the store. |
| EmbedderFactory.DescriptorReadsBack | src/embedding/embedder_factory.py:72-73 | The description names the collection and its count, which reads back. It is never "new collection". |
| EmbedderFactory.NoMatchFallsBack | src/embedding/embedder_factory.py:49-53 | With no matching collection, get_smart_embedder is get_embedder with the description "new collection". |
| EmbedderFactory.NoneMatchingIsEmpty | src/search/vector_store.py:303-331 | No collection satisfying the criteria gives no matches. |
| EmbedderFactory.GetSmartEmbedder | src/embedding/embedder_factory.py:39-106 | The descriptor is "new collection" exactly when no collection matches. With no match, the result succeeds exactly when get_embedder does; which match decides among several is stated by ChosenIsFirstMostPopulated. |
| EmbedderFactory.ChosenIsFirstMostPopulated | src/embedding/embedder_factory.py:76-103 | Among several matches, the chosen collection is the first with the most emails, and its model id decides the embedder. |
| EmbedderFactory.ResolvesStoredOllamaModel | src/embedding/embedder_factory.py:56-73 | A request for an Ollama model whose collection exists reopens that collection's model. |
| Searcher.ResultsFor | src/search/searcher.py:38-62 | There are never more results than hits. |
| Searcher.ResultsAppend | src/search/searcher.py:38-62 | Results keep the order of the hits. |
| Searcher.ResultsSound | src/search/searcher.py:43-59 | Every result comes from a hit whose record was found. It has the stored document as its body and score 1 - distance. |
| Searcher.AllFoundKeepsEveryHit | src/search/searcher.py:38-62 | When every lookup succeeds, result i is hit i, rebuilt. |
| Searcher.NoneFoundIsEmpty | src/search/searcher.py:38-62 | When no lookup succeeds, there are no results. |
| Searcher.SearchedEmailShape | src/search/searcher.py:43-59 | A stored email comes back with its embedded text as the body and its snippet cut to 500 characters. It has no recipients and no attachments, and score plus distance is 1. |
| Searcher.Search | src/search/searcher.py:23-62 | A missing query embedding gives nothing. Otherwise the results are those for the store's hits, in hit order. |
| GmailSync.HeaderMapKeys | src/sync/gmail_sync.py:52-56 | The keys of the header map are the lower-cased header names. |
| GmailSync.HeaderMapLastWins | src/sync/gmail_sync.py:52-56 | A header's value is kept when no later header has the same name in any case. |
| GmailSync.HeaderMapIgnoresCase | src/sync/gmail_sync.py:52-56 | Headers that differ only in the case of their names give the same map. |
| GmailSync.ParseEmailHeaders | src/sync/gmail_sync.py:52-56 | The header loop computes the header map. |
| GmailSync.FindChar | src/sync/gmail_sync.py:58-63 | This finds the first occurrence of a character from a position onward, or reports that there is none. |
| GmailSync.MatchAt | src/sync/gmail_sync.py:58-63 | A match is a non-empty address without '>' that is enclosed in angle brackets at that position. |
| GmailSync.SearchFindsLeftmost | src/sync/gmail_sync.py:58-63 | The search succeeds exactly when some match exists, and it returns the leftmost one. |
| GmailSync.ExtractEmailAddress | src/sync/gmail_sync.py:58-63 | A string with no bracketed address is returned unchanged. Otherwise the result is a non-empty bracketed address from the string. |
| GmailSync.NoAngleUnchanged | src/sync/gmail_sync.py:58-63 | A bare address comes back unchanged. |
| GmailSync.AngleAddress | src/sync/gmail_sync.py:58-63 | `Name <addr> ...` gives addr. |
| GmailSync.Addresses | src/sync/gmail_sync.py:123-124 | There is one address per comma-separated piece: the piece stripped, then extracted. |
| GmailSync.RecipientsLayout | src/sync/gmail_sync.py:120-124 | Recipients are the To addresses, then the Cc addresses, with one per comma-separated piece. |
| GmailSync.PlainToListRoundTrip | src/sync/gmail_sync.py:120-124 | A To header that joins plain addresses with commas gives back exactly those addresses. |
| GmailSync.PlainAddressesUnchanged | src/sync/gmail_sync.py:123-124 | Plain, already-stripped addresses pass through unchanged. |
| GmailSync.CollectRecipients | src/sync/gmail_sync.py:120-124 | The recipient loop computes the recipients function. |
| GmailSync.AppendAddresses | src/sync/gmail_sync.py:123-124 | The inner loop appends the address of every comma-separated piece of one header, in order, after what was there. |
| GmailSync.AttachmentsAppend | src/sync/gmail_sync.py:126-133 | Attachments keep part order. |
| GmailSync.AttachmentsSound | src/sync/gmail_sync.py:126-133 | The attachments are exactly the parts with a non-empty filename. |
| GmailSync.CollectAttachments | src/sync/gmail_sync.py:126-133 | The attachment loop computes the attachments function. |
| GmailSync.NoHtmlIsPlainOnly | src/sync/gmail_sync.py:22-42 | Without HTML parts, the body is the decoded text/plain parts. |
| GmailSync.HtmlAfterTextIgnored | src/sync/gmail_sync.py:36-40 | An HTML part after collected text adds nothing. |
| GmailSync.HtmlBeforePlainKeepsBoth | src/sync/gmail_sync.py:30-42 | An HTML part first contributes its stripped text, and a later plain part is still added. |
| GmailSync.EmptyMessageHasEmptyBody | src/sync/gmail_sync.py:22-42 | A message with no parts and no body data has an empty body. |
| GmailSync.GetEmailContent | src/sync/gmail_sync.py:22-42 | The part loop computes the body function. |
| GmailSync.PiecesNoneStays | src/sync/gmail_sync.py:22-42 | Once a part fails to decode, the whole message fails. |
| GmailSync.SubjectDefault | src/sync/gmail_sync.py:138 | The subject is "(No Subject)" only when no header is named subject in any case. A present but empty Subject stays empty. |
| GmailSync.ParsedFields | src/sync/gmail_sync.py:65-150 | Parsing succeeds exactly when the message has both ids and a decodable body. The email then carries those ids, the body, the attachments and the recipients. |
| GmailSync.ParseEmail | src/sync/gmail_sync.py:65-150 | The parsing method computes the parse function. |
| GmailSync.UnlimitedListsAll | src/sync/gmail_sync.py:152-185 | Without a limit, the listing is every served id, in page order. |
| GmailSync.PrefixOfLonger | src/sync/gmail_sync.py:172-174 | Cutting to n ignores whatever follows the first n ids. |
| GmailSync.LimitedListsPrefix | src/sync/gmail_sync.py:159-178 | With a positive limit, the listing is the first ids served, cut to the limit. |
| GmailSync.GetAllMessages | src/sync/gmail_sync.py:152-185 | The listing loop computes the listing function. A page that raises HttpError gives Ok([]); any other exception propagates as Err. |
| GmailSync.ListingRespectsLimit | src/sync/gmail_sync.py:159-178 | A positive limit yields min(limit, served) ids, and they are the first served. |
| GmailSync.FetchedAppend | src/sync/gmail_sync.py:193-208 | The fetched emails keep the order of the ids. |
| GmailSync.FetchedSound | src/sync/gmail_sync.py:193-208 | Every fetched email was fetched and parsed from one of the ids. |
| GmailSync.AllFetchedKeepsEveryId | src/sync/gmail_sync.py:193-208 | When every fetch and parse succeeds, email i comes from id i. |
| GmailSync.FetchRunAgrees | src/sync/gmail_sync.py:193-214 | The per-message loop completes exactly when no request raises anything but HttpError, and then it yields the fetch function's emails. |
| GmailSync.FetchEmails | src/sync/gmail_sync.py:187-215 | When the service is built and no request raises anything but HttpError, the result is the fetch function with the parser. Otherwise the outer handler returns no emails, discarding those already fetched. |
| LlmContext.BodyPreview | src/answering/ollama_llm.py:154 | A body of at most 1000 characters is kept. A longer one becomes its first 1000 characters followed by "...". |
| LlmContext.BlockLayout | src/answering/ollama_llm.py:149-156 | A block has a numbered header, From, Date, Subject, a Body line only for a non-empty body, and a closing empty line. |
| LlmContext.LaterEmailsIgnored | src/answering/ollama_llm.py:148 | Emails after the fifth never reach the context. |
| LlmContext.NextEmailNumbered | src/answering/ollama_llm.py:148-156 | While fewer than five are shown, one more email adds its own block, numbered next. |
| LlmContext.BlocksLength | src/answering/ollama_llm.py:148-156 | Each shown email contributes five or six lines. |
| LlmContext.FormatEmailsForContext | src/answering/ollama_llm.py:146-158 | The loop joins the blocks of the first five emails with newlines. The same code is at src/answering/openai_llm.py:53-65. |
| OllamaAnswering.FirstPreferred | src/answering/ollama_llm.py:65-68 | The result is the first preferred model that is listed exactly, or none when no preferred model is listed. |
| OllamaAnswering.BestModel | src/answering/ollama_llm.py:25-78 | The choice is a listed model, or llama3.2 when the listing is empty or fails. |
| OllamaAnswering.PreferredWins | src/answering/ollama_llm.py:65-68 | The best listed preferred model is chosen, wherever it appears in the listing. |
| OllamaAnswering.FirstListedWhenNonePreferred | src/answering/ollama_llm.py:70-73 | With no preferred model listed, the first listed model is chosen. |
| OllamaAnswering.PreferenceOrderNotListingOrder | src/answering/ollama_llm.py:49-68 | Preference order beats listing order: mistral is chosen over an earlier-listed llama3.2. |
| OllamaAnswering.GetBestAvailableModel | src/answering/ollama_llm.py:25-78 | The early-return loop computes the best-model function. |
| OllamaAnswering.FindModel | src/answering/ollama_llm.py:106-114 | The flag is set exactly when some listed name is the model or the model with a tag. |
| OllamaAnswering.EnsureModelAvailable | src/answering/ollama_llm.py:83-118 | A present model is not pulled. A missing one is pulled, and a failed listing or pull is an error. |
| OllamaAnswering.BestModelIsPresent | src/answering/ollama_llm.py:65-114 | A model picked from a listing counts as present in it, so it is never pulled. |
| OllamaAnswering.TaggedNameSatisfiesOnlyTheAnsweringModel | src/answering/ollama_llm.py:106-114 | A tagged listing satisfies the answering model, while the embedder would pull. |
| OllamaAnswering.ShorterNameNotPresent | src/answering/ollama_llm.py:106-114 | llama3 is not present just because llama3.1:latest is listed. |
| OllamaAnswering.ResolveModelName | src/answering/ollama_llm.py:19-20 | A given name is kept even when empty, and only None selects the best model. |
| OllamaAnswering.OllamaLLM.constructor | src/answering/ollama_llm.py:14-23 | The model name is stored. |
| OllamaAnswering.OllamaLLM.ModelId | src/answering/ollama_llm.py:80-81 | The id uses the Ollama scheme and decodes back to Ollama. |
| OllamaAnswering.OllamaLLM.TestConnection | src/answering/ollama_llm.py:160-200 | The test succeeds exactly when the listing works and the model is present in it. |
| OllamaAnswering.NewOllamaLLM | src/answering/ollama_llm.py:14-23 | Construction succeeds exactly when the check listing works and the resolved model is present or pulled. |
| OpenAIAnswering.NewOpenAILLM | src/answering/openai_llm.py:13-20 | Construction fails exactly when the key is absent or empty. The model is the argument, or gpt-4o-mini. |
| OpenAIAnswering.SameKeyGuardAsEmbedder | src/answering/openai_llm.py:16-17 | The answering model and the embedder accept exactly the same keys. |
| OpenAIAnswering.GetModelId | src/answering/openai_llm.py:22-23 | The id uses the OpenAI scheme and decodes back to OpenAI. |
| LlmFactory.LlmProviderFor | src/answering/llm_factory.py:18-19 | Only a missing provider falls back to the configured one; an empty one is kept. |
| LlmFactory.GetLlm | src/answering/llm_factory.py:14-28 | The lower-cased provider picks the model; anything else is an error naming the lower-cased provider. |
| LlmFactory.LlmDispatchIgnoresCase | src/answering/llm_factory.py:21 | Providers that are equal up to case give the same answer. |
| LlmFactory.UpperCaseProviderOnlyForLlm | src/answering/llm_factory.py:21-25 | "OLLAMA" works for answering but is refused for embedding. |
| LlmFactory.EmptyProviderRefused | src/answering/llm_factory.py:18-28 | An empty provider is an error for answering, while embedding falls back to the configured provider. |
| Cli.IncrementalQuery | src/cli.py:164-181 | With no watermark or no incremental flag, the query is unchanged. Otherwise the after: filter is appended, or it becomes the whole query. |
| Cli.DigitsFit | src/cli.py:168 | A number below 10^w has at most w digits. |
| Cli.PaddedWidth | src/cli.py:168 | Zero-padding such a number gives exactly w characters. |
| Cli.AfterFilterReadsBack | src/cli.py:168-169 | The filter is `after:YYYY/MM/DD`, and its fields read back as the date. |
| Cli.StatsEmbedder | src/cli.py:387-399 | An ollama_ prefix always rebuilds an Ollama embedder and an openai_ prefix an OpenAI one. Any other id, and a missing one ("unknown"), gets get_embedder(). |
| Cli.StatsAgreesWithResolver | src/cli.py:387-399 | Stats decodes a model id exactly as the resolver's final decoding does, and with no id it uses get_embedder(). |
| Cli.StatsReopensOllamaStore | src/cli.py:392-394 | Stats rebuilds an Ollama collection's embedder for the model that made it. |
| Strings.ToLower | src/sync/gmail_sync.py:55 | Lower-casing keeps the length and maps each character on its own. |
| Strings.JoinSplit | src/sync/gmail_sync.py:123 | Joining the split pieces gives back the string. |
| Strings.SplitJoin | src/sync/gmail_sync.py:123 | Splitting a join of comma-free pieces gives back the pieces. |
| Strings.PyPrefix | src/search/vector_store.py:106 | Python's `s[:n]` is a prefix of length min(n, len). |
| Strings.ZeroPadReadsBack | src/cli.py:168 | A zero-padded number has at least the width and reads back as the number. |

## Left out

- Chroma itself is left out: the HNSW index, cosine distances and on-disk persistence. Distances are given as `real` hits from a query oracle.
- The sync-date file is left out: it is JSON on disk, and `isoformat`/`fromisoformat` are assumed to round-trip, so the watermark is an optional date. A failed write is a boolean.
- The network clients are left out, along with their response-shape normalisation (`hasattr`/dict access on the listing). Listings are lists of model names, and each call's outcome is an oracle keyed by call index or text.
- HTML simplification (src/embedding/simplify_html.py), `_strip_html`, base64 decoding and date parsing (`parsedate_to_datetime`, `fromtimestamp`, `now`) are opaque function parameters.
- `str.lower` is modelled for ASCII letters only.
- Cli.AfterFilterReadsBack: `strftime("%Y")` zero-padding is assumed for years below 1000, which some C libraries do not pad. The lemma covers years below 10000.
- Config.EnvironmentOverrides: pydantic's environment parsing is reduced to exact lower-case keys and digit-only integers. Case-insensitive keys, the `.env` file and other integer spellings are not modelled.
- GmailSync.GetAllMessages: `maxResults` page-size requests are not modelled, and the page oracle ends the listing when its answers run out.
- GmailSync.FetchEmails: the failing exception's kind is not kept, since the outer handler only reports it. sync_emails (listing then fetching) is left as the composition of the two.
- Console output (rich, tqdm, progress and colours) is left out. This includes display_results, list_available_models, list_available_llm_models, get_stats and list_collections, which only print or read I/O.
- Answer generation is left out: the prompts, answer_question and the OpenAI answering test_connection are network round trips whose only logic is string formatting. src/answering/base_llm.py declares only the interface.
- VectorStore.EmailVectorStore.ClearCollection: when the delete succeeds and re-creating the collection fails (asking the embedder for its dimension raises), the source's store still points at the deleted collection and re-raises. The model empties the records, keeps the old metadata and returns the error; it does not model the missing collection.
- Cli.StatsAgreesWithResolver: the exception raised by get_embedder inside the stats try/except is the model's `Err` value; the printed row is not modelled.
- Floats (distances and scores) are `real`, without rounding.
- src/auth/gmail_auth.py (OAuth) and setup.py are not part of this model.
