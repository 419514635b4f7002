/**
 * The per-model email index. Each embedding model owns one collection, named
 * after its model id, which maps email ids to stored records; beside it the
 * store keeps the time of the last sync that inserted something.
 *
 * The vector database is an oracle: the answers of its calls that can fail or
 * that depend on nearest-neighbour search are parameters. Adding a record
 * under an id the collection already holds leaves the existing record in
 * place, and an add call whose ids repeat is rejected as a whole.
 */
module VectorStore {
  import opened Wrappers
  import opened Strings
  import opened Models
  import opened ModelIdentity
  import opened Batching
  import opened BaseEmbedder

  /**
   * The per-record metadata written next to each document. The labels are
   * kept as the list the JSON text decodes to; a record written elsewhere may
   * lack them.
   */
  datatype Metadata = Metadata(
    subject: string, sender: string, date: DateTime, threadId: string,
    snippet: string, labels: Option<seq<string>>, hasAttachments: bool)

  datatype StoredRecord = StoredRecord(document: string, embedding: Vector, metadata: Metadata)

  /** The contents of a collection, by email id. */
  type Records = map<string, StoredRecord>

  /** A record waiting to be added, with its id. */
  datatype Pending = Pending(id: string, record: StoredRecord)

  /** The collection-level metadata: the owning model id and the dimension, when recorded. */
  datatype CollectionMeta = CollectionMeta(modelId: Option<string>, dimension: Option<nat>)

  /** A collection as listed: its name and the model id in its metadata. */
  datatype CollectionInfo = CollectionInfo(name: string, modelId: Option<string>)

  // ---------------------------------------------------------------------------
  // Records built for an email

  /** The metadata stored for an email: the snippet cut to 500 characters, attachments as a flag. */
  function MetadataOf(e: Email): (m: Metadata)
    ensures m.snippet <= e.snippet && |m.snippet| == Min(500, |e.snippet|)
    ensures m.hasAttachments <==> e.attachments != []
    ensures m.subject == e.subject && m.sender == e.sender && m.threadId == e.threadId
    ensures m.date == e.date && m.labels == Some(e.labels)
  {
    Metadata(e.subject, e.sender, e.date, e.threadId, PyPrefix(e.snippet, 500), Some(e.labels), |e.attachments| > 0)
  }

  /** The document, embedding and metadata stored for an email. */
  function PendingOf(e: Email, v: Vector): Pending {
    Pending(e.id, StoredRecord(ContentForEmbedding(e), v, MetadataOf(e)))
  }

  /** The pairs that have an embedding, turned into records, in input order. */
  function Kept(pairs: seq<(Email, Option<Vector>)>): (ps: seq<Pending>)
    ensures |ps| <= |pairs|
  {
    if pairs == [] then []
    else
      var n := |pairs| - 1;
      Kept(pairs[..n]) + (if pairs[n].1.Some? then [PendingOf(pairs[n].0, pairs[n].1.value)] else [])
  }

  /** As many records are kept as the embedder reported successes. */
  lemma {:induction false} KeptCountsSuccesses(pairs: seq<(Email, Option<Vector>)>)
    ensures |Kept(pairs)| == SuccessCount(pairs)
  {
    if pairs != [] {
      KeptCountsSuccesses(pairs[..|pairs| - 1]);
    }
  }

  /** Every kept record is built from an input pair that has an embedding. */
  lemma {:induction false} KeptOnlyEmbedded(pairs: seq<(Email, Option<Vector>)>)
    ensures forall p :: p in Kept(pairs) ==>
              exists i :: 0 <= i < |pairs| && pairs[i].1.Some? && p == PendingOf(pairs[i].0, pairs[i].1.value)
  {
    if pairs != [] {
      var n := |pairs| - 1;
      var init := pairs[..n];
      KeptOnlyEmbedded(init);
      forall p | p in Kept(pairs)
        ensures exists i :: 0 <= i < |pairs| && pairs[i].1.Some? && p == PendingOf(pairs[i].0, pairs[i].1.value)
      {
        if p in Kept(init) {
          var i :| 0 <= i < |init| && init[i].1.Some? && p == PendingOf(init[i].0, init[i].1.value);
          assert pairs[i] == init[i];
        } else {
          assert pairs[n].1.Some? && p == PendingOf(pairs[n].0, pairs[n].1.value);
        }
      }
    }
  }

  /** The ids of a sequence of records. */
  function Ids(ps: seq<Pending>): set<string> {
    set p | p in ps :: p.id
  }

  lemma IdsAppend(a: seq<Pending>, b: seq<Pending>)
    ensures Ids(a + b) == Ids(a) + Ids(b)
  {
    forall x | x in Ids(a + b) ensures x in Ids(a) + Ids(b) {
      var p :| p in a + b && p.id == x;
      if p in a { assert x in Ids(a); } else { assert x in Ids(b); }
    }
  }

  // ---------------------------------------------------------------------------
  // Existence checks

  /** The records whose id the collection does not hold, in order. */
  function Absent(ps: seq<Pending>, records: Records): (r: seq<Pending>)
    ensures |r| <= |ps|
  {
    if ps == [] then []
    else
      var n := |ps| - 1;
      Absent(ps[..n], records) + (if ps[n].id !in records then [ps[n]] else [])
  }

  /**
   * The filter keeps exactly the records whose id is not held: nothing else
   * gets in, nothing absent is dropped, and when every id is held nothing is kept.
   */
  lemma {:induction false} AbsentSound(ps: seq<Pending>, records: Records)
    ensures forall p :: p in Absent(ps, records) ==> p in ps && p.id !in records
    ensures forall p :: p in ps ==> p in Absent(ps, records) || p.id in records
    ensures (forall p :: p in ps ==> p.id in records) ==> Absent(ps, records) == []
  {
    if ps != [] {
      var n := |ps| - 1;
      assert ps == ps[..n] + [ps[n]];
      AbsentSound(ps[..n], records);
    }
  }

  lemma {:induction false} AbsentAppend(a: seq<Pending>, b: seq<Pending>, records: Records)
    ensures Absent(a + b, records) == Absent(a, records) + Absent(b, records)
    decreases |b|
  {
    if b != [] {
      var n := |b| - 1;
      var ab := a + b;
      assert ab[..|ab| - 1] == a + b[..n];
      assert ab[|ab| - 1] == b[n];
      AbsentAppend(a, b[..n], records);
      calc {
        Absent(ab, records);
        Absent(a + b[..n], records) + (if b[n].id !in records then [b[n]] else []);
        Absent(a, records) + Absent(b[..n], records) + (if b[n].id !in records then [b[n]] else []);
        Absent(a, records) + Absent(b, records);
      }
    } else {
      assert a + b == a;
    }
  }

  /** What one existence batch contributes: everything when its check failed, the absent records otherwise. */
  function Fresh(batch: seq<Pending>, records: Records, checkFailed: bool): seq<Pending> {
    if checkFailed then batch else Absent(batch, records)
  }

  /**
   * The new list built by the existence loop from batch start `i` on; the
   * check of the batch starting at `i` fails when `existFails(i)`.
   */
  function NewFrom(pending: seq<Pending>, records: Records, existFails: nat -> bool, i: nat): (r: seq<Pending>)
    ensures i <= |pending| ==> |r| <= |pending| - i
    decreases |pending| - i
  {
    if i >= |pending| then []
    else Fresh(Chunk(pending, i), records, existFails(i)) + NewFrom(pending, records, existFails, i + BatchSize)
  }

  /** With no failed check, the new list is exactly the records whose id is absent, in order. */
  lemma {:induction false} NoFailureIsFilter(pending: seq<Pending>, records: Records, existFails: nat -> bool, i: nat)
    requires i <= |pending|
    requires forall j :: !existFails(j)
    ensures NewFrom(pending, records, existFails, i) == Absent(pending[i..], records)
    decreases |pending| - i
  {
    if i < |pending| {
      var c := Chunk(pending, i);
      if i + BatchSize < |pending| {
        ChunkThenRest(pending, i);
        AbsentAppend(c, pending[i + BatchSize..], records);
        NoFailureIsFilter(pending, records, existFails, i + BatchSize);
      } else {
        ChunkThenRest(pending, i);
      }
    }
  }

  /** Every record of the new list was pending, and every pending record is new or already held. */
  lemma {:induction false} NewFromCovers(pending: seq<Pending>, records: Records, existFails: nat -> bool, i: nat)
    requires i <= |pending|
    ensures forall p :: p in NewFrom(pending, records, existFails, i) ==> p in pending[i..]
    ensures forall p :: p in pending[i..] ==> p in NewFrom(pending, records, existFails, i) || p.id in records
    decreases |pending| - i
  {
    if i < |pending| {
      var c := Chunk(pending, i);
      AbsentSound(c, records);
      if i + BatchSize < |pending| {
        ChunkThenRest(pending, i);
        NewFromCovers(pending, records, existFails, i + BatchSize);
      } else {
        ChunkThenRest(pending, i);
      }
    }
  }

  // ---------------------------------------------------------------------------
  // Inserts

  /** One record added: an id already held keeps its record. */
  function Insert(records: Records, p: Pending): Records {
    if p.id in records then records else records[p.id := p.record]
  }

  /** The records of one add call, in order. */
  function InsertSeq(records: Records, ps: seq<Pending>): Records
    decreases |ps|
  {
    if ps == [] then records else InsertSeq(Insert(records, ps[0]), ps[1..])
  }

  /** Adding records keeps every held record and adds exactly the new ids. */
  lemma {:induction false} InsertSeqFrame(records: Records, ps: seq<Pending>)
    ensures forall k :: k in records ==> k in InsertSeq(records, ps) && InsertSeq(records, ps)[k] == records[k]
    ensures InsertSeq(records, ps).Keys == records.Keys + Ids(ps)
    decreases |ps|
  {
    if ps != [] {
      InsertSeqFrame(Insert(records, ps[0]), ps[1..]);
      assert ps == [ps[0]] + ps[1..];
      IdsAppend([ps[0]], ps[1..]);
      assert Ids([ps[0]]) == {ps[0].id};
    }
  }

  /** Some id occurs twice in the sequence. */
  predicate HasDuplicateIds(ps: seq<Pending>) {
    exists a, b :: 0 <= a < b < |ps| && ps[a].id == ps[b].id
  }

  datatype InsertResult = InsertResult(records: Records, ok: bool)

  /**
   * The insert loop from chunk start `i` on: each chunk of 100 is one add
   * call, which is rejected (and ends the loop with an exception) when
   * `insertFails(i)` or its ids repeat.
   */
  function InsertChunks(records: Records, added: seq<Pending>, insertFails: nat -> bool, i: nat): InsertResult
    decreases |added| - i
  {
    if i >= |added| then InsertResult(records, true)
    else
      var c := Chunk(added, i);
      if insertFails(i) || HasDuplicateIds(c) then InsertResult(records, false)
      else InsertChunks(InsertSeq(records, c), added, insertFails, i + BatchSize)
  }

  /** The insert loop keeps every held record; it adds only new ids, and all of them when it completes. */
  lemma {:induction false} InsertChunksFrame(records: Records, added: seq<Pending>, insertFails: nat -> bool, i: nat)
    requires i <= |added|
    ensures var out := InsertChunks(records, added, insertFails, i);
            && (forall k :: k in records ==> k in out.records && out.records[k] == records[k])
            && out.records.Keys <= records.Keys + Ids(added[i..])
            && (out.ok ==> out.records.Keys == records.Keys + Ids(added[i..]))
    decreases |added| - i
  {
    if i < |added| {
      var c := Chunk(added, i);
      if !(insertFails(i) || HasDuplicateIds(c)) {
        var next := InsertSeq(records, c);
        InsertSeqFrame(records, c);
        ChunkThenRest(added, i);
        if i + BatchSize < |added| {
          var rest := added[i + BatchSize..];
          IdsAppend(c, rest);
          InsertChunksFrame(next, added, insertFails, i + BatchSize);
          var out := InsertChunks(next, added, insertFails, i + BatchSize);
          assert InsertChunks(records, added, insertFails, i) == out;
          forall k | k in records ensures k in out.records && out.records[k] == records[k] {
            assert k in next.Keys;
          }
        }
      }
    }
  }

  // ---------------------------------------------------------------------------
  // The outcome of add_emails

  /** The counts `add_emails` reports: pairs without embedding, ids already held, records added. */
  datatype AddReport = AddReport(skipped: nat, duplicates: nat, added: nat)

  datatype AddState = AddState(result: Result<AddReport>, records: Records, lastSync: Option<DateTime>)

  /** The watermark after a sync write at `now`, which is silently lost when the write fails. */
  function SyncWritten(lastSync: Option<DateTime>, now: DateTime, writeOk: bool): Option<DateTime> {
    if writeOk then Some(now) else lastSync
  }

  /**
   * The state after `add_emails(pairs)` on `records` with watermark `lastSync`:
   * keep the pairs with an embedding, check existence batch by batch, insert
   * the new records chunk by chunk, and write the watermark only when
   * something new was inserted and no insert failed.
   */
  function AddOutcome(pairs: seq<(Email, Option<Vector>)>, records: Records, lastSync: Option<DateTime>,
                      existFails: nat -> bool, insertFails: nat -> bool, now: DateTime, writeOk: bool): AddState
  {
    var pending := Kept(pairs);
    var added := NewFrom(pending, records, existFails, 0);
    var ins := InsertChunks(records, added, insertFails, 0);
    if !ins.ok then AddState(Err(BackendFailed), ins.records, lastSync)
    else
      AddState(Ok(AddReport(|pairs| - |pending|, |pending| - |added|, |added|)), ins.records,
               if added != [] then SyncWritten(lastSync, now, writeOk) else lastSync)
  }

  /**
   * Nothing held is ever overwritten or removed; only ids of pairs that carry
   * an embedding are added; after a successful call every such id is held.
   */
  lemma AddFrame(pairs: seq<(Email, Option<Vector>)>, records: Records, lastSync: Option<DateTime>,
                 existFails: nat -> bool, insertFails: nat -> bool, now: DateTime, writeOk: bool)
    ensures var out := AddOutcome(pairs, records, lastSync, existFails, insertFails, now, writeOk);
            && (forall k :: k in records ==> k in out.records && out.records[k] == records[k])
            && out.records.Keys <= records.Keys + Ids(Kept(pairs))
            && (out.result.Ok? ==> out.records.Keys == records.Keys + Ids(Kept(pairs)))
  {
    var pending := Kept(pairs);
    var added := NewFrom(pending, records, existFails, 0);
    InsertChunksFrame(records, added, insertFails, 0);
    NewFromCovers(pending, records, existFails, 0);
    assert pending[0..] == pending && added[0..] == added;
    assert Ids(added) <= Ids(pending) by {
      forall x | x in Ids(added) ensures x in Ids(pending) {
        var p :| p in added && p.id == x;
      }
    }
    assert Ids(pending) <= records.Keys + Ids(added) by {
      forall x | x in Ids(pending) ensures x in records.Keys + Ids(added) {
        var p :| p in pending && p.id == x;
      }
    }
  }

  /** A pair without an embedding is never stored: an id none of whose pairs has one is not added. */
  lemma AddNeverStoresMissing(pairs: seq<(Email, Option<Vector>)>, records: Records, lastSync: Option<DateTime>,
                              existFails: nat -> bool, insertFails: nat -> bool, now: DateTime, writeOk: bool,
                              id: string)
    requires id !in records
    requires forall i :: 0 <= i < |pairs| && pairs[i].0.id == id ==> pairs[i].1.None?
    ensures id !in AddOutcome(pairs, records, lastSync, existFails, insertFails, now, writeOk).records
  {
    AddFrame(pairs, records, lastSync, existFails, insertFails, now, writeOk);
    KeptOnlyEmbedded(pairs);
    forall p | p in Kept(pairs) ensures p.id != id {
      var i :| 0 <= i < |pairs| && pairs[i].1.Some? && p == PendingOf(pairs[i].0, pairs[i].1.value);
    }
    assert id !in Ids(Kept(pairs));
  }

  /**
   * The reported counts: the skipped pairs are those left out of the kept
   * records (as many as the embedder's failures, by `KeptCountsSuccesses`),
   * and the three counts add up to the number of pairs.
   */
  lemma AddReportCounts(pairs: seq<(Email, Option<Vector>)>, records: Records, lastSync: Option<DateTime>,
                        existFails: nat -> bool, insertFails: nat -> bool, now: DateTime, writeOk: bool)
    requires AddOutcome(pairs, records, lastSync, existFails, insertFails, now, writeOk).result.Ok?
    ensures var rep := AddOutcome(pairs, records, lastSync, existFails, insertFails, now, writeOk).result.value;
            && rep.skipped == |pairs| - |Kept(pairs)|
            && rep.added == |NewFrom(Kept(pairs), records, existFails, 0)|
            && rep.skipped + rep.duplicates + rep.added == |pairs|
  {
  }

  /** With no failed existence check, the duplicates are exactly the kept records whose id is already held. */
  lemma DuplicatesAreHeldIds(pairs: seq<(Email, Option<Vector>)>, records: Records, lastSync: Option<DateTime>,
                             existFails: nat -> bool, insertFails: nat -> bool, now: DateTime, writeOk: bool)
    requires forall j :: !existFails(j)
    requires AddOutcome(pairs, records, lastSync, existFails, insertFails, now, writeOk).result.Ok?
    ensures AddOutcome(pairs, records, lastSync, existFails, insertFails, now, writeOk).result.value.duplicates
            == |Kept(pairs)| - |Absent(Kept(pairs), records)|
  {
    NoFailureIsFilter(Kept(pairs), records, existFails, 0);
    assert Kept(pairs)[0..] == Kept(pairs);
  }

  /** A run where every embedding is missing changes nothing and reports every pair as skipped. */
  lemma AllMissingChangesNothing(pairs: seq<(Email, Option<Vector>)>, records: Records, lastSync: Option<DateTime>,
                                 existFails: nat -> bool, insertFails: nat -> bool, now: DateTime, writeOk: bool)
    requires forall i :: 0 <= i < |pairs| ==> pairs[i].1.None?
    ensures AddOutcome(pairs, records, lastSync, existFails, insertFails, now, writeOk)
            == AddState(Ok(AddReport(|pairs|, 0, 0)), records, lastSync)
  {
    KeptCountsSuccesses(pairs);
    SuccessCountCountsPresent(pairs);
    assert SuccessPositions(pairs) == {};
  }

  /**
   * A run where every kept id is already held (and every check succeeds)
   * changes nothing: the watermark does not move.
   */
  lemma AllDuplicatesChangesNothing(pairs: seq<(Email, Option<Vector>)>, records: Records, lastSync: Option<DateTime>,
                                    existFails: nat -> bool, insertFails: nat -> bool, now: DateTime, writeOk: bool)
    requires forall j :: !existFails(j)
    requires forall i :: 0 <= i < |pairs| ==> pairs[i].0.id in records
    ensures var out := AddOutcome(pairs, records, lastSync, existFails, insertFails, now, writeOk);
            out.records == records && out.lastSync == lastSync
            && out.result == Ok(AddReport(|pairs| - |Kept(pairs)|, |Kept(pairs)|, 0))
  {
    var pending := Kept(pairs);
    assert NewFrom(pending, records, existFails, 0) == [] by {
      NoFailureIsFilter(pending, records, existFails, 0);
      assert pending[0..] == pending;
      KeptOnlyEmbedded(pairs);
      forall p | p in pending ensures p.id in records {
        var i :| 0 <= i < |pairs| && pairs[i].1.Some? && p == PendingOf(pairs[i].0, pairs[i].1.value);
      }
      AbsentSound(pending, records);
    }
    assert InsertChunks(records, [], insertFails, 0) == InsertResult(records, true);
  }

  /** The watermark moves only on a successful run that inserted something, and then to `now`. */
  lemma WatermarkRule(pairs: seq<(Email, Option<Vector>)>, records: Records, lastSync: Option<DateTime>,
                      existFails: nat -> bool, insertFails: nat -> bool, now: DateTime, writeOk: bool)
    ensures var out := AddOutcome(pairs, records, lastSync, existFails, insertFails, now, writeOk);
            out.lastSync != lastSync ==> out.result.Ok? && out.result.value.added > 0 && out.lastSync == Some(now)
  {
  }

  /**
   * Idempotence: after a successful run, running again with the same pairs
   * (and no failed check) adds nothing and changes nothing.
   */
  lemma AddIdempotent(pairs: seq<(Email, Option<Vector>)>, records: Records, lastSync: Option<DateTime>,
                      existFails: nat -> bool, insertFails: nat -> bool, now: DateTime, writeOk: bool,
                      existFails2: nat -> bool, insertFails2: nat -> bool, now2: DateTime, writeOk2: bool)
    requires AddOutcome(pairs, records, lastSync, existFails, insertFails, now, writeOk).result.Ok?
    requires forall j :: !existFails2(j)
    ensures var first := AddOutcome(pairs, records, lastSync, existFails, insertFails, now, writeOk);
            var second := AddOutcome(pairs, first.records, first.lastSync, existFails2, insertFails2, now2, writeOk2);
            && second.records == first.records
            && second.lastSync == first.lastSync
            && second.result.Ok? && second.result.value.added == 0
  {
    var first := AddOutcome(pairs, records, lastSync, existFails, insertFails, now, writeOk);
    AddFrame(pairs, records, lastSync, existFails, insertFails, now, writeOk);
    var pending := Kept(pairs);
    NoFailureIsFilter(pending, first.records, existFails2, 0);
    assert pending[0..] == pending;
    forall p | p in pending ensures p.id in first.records {
      assert p.id in Ids(pending);
    }
    AbsentSound(pending, first.records);
  }

  /**
   * Ids repeated within one call are not deduplicated against each other:
   * both copies go to the new list, and the add call holding them is rejected.
   */
  lemma RepeatedIdInOneCall(e: Email, v: Vector, lastSync: Option<DateTime>,
                            existFails: nat -> bool, insertFails: nat -> bool, now: DateTime, writeOk: bool)
    requires forall j :: !existFails(j)
    ensures var out := AddOutcome([(e, Some(v)), (e, Some(v))], map[], lastSync, existFails, insertFails, now, writeOk);
            out.result.Err? && out.records == map[] && out.lastSync == lastSync
  {
    var p := PendingOf(e, v);
    KeptTwice(e, v);
    TwiceIsNew(p, existFails);
    TwiceIsRejected(p, insertFails);
  }

  lemma KeptTwice(e: Email, v: Vector)
    ensures Kept([(e, Some(v)), (e, Some(v))]) == [PendingOf(e, v), PendingOf(e, v)]
  {
    var pairs := [(e, Some(v)), (e, Some(v))];
    assert pairs[..1] == [(e, Some(v))];
    assert Kept(pairs[..1][..0]) == [];
  }

  lemma TwiceIsNew(p: Pending, existFails: nat -> bool)
    requires forall j :: !existFails(j)
    ensures NewFrom([p, p], map[], existFails, 0) == [p, p]
  {
    NoFailureIsFilter([p, p], map[], existFails, 0);
    assert [p, p][0..] == [p, p];
    assert [p, p][..1] == [p];
    assert Absent([p], map[]) == [p] by { assert [p][..0] == []; }
  }

  lemma TwiceIsRejected(p: Pending, insertFails: nat -> bool)
    ensures InsertChunks(map[], [p, p], insertFails, 0) == InsertResult(map[], false)
  {
    assert Chunk([p, p], 0) == [p, p];
    assert HasDuplicateIds([p, p]) by { assert [p, p][0].id == [p, p][1].id; }
  }

  // ---------------------------------------------------------------------------
  // Searching and listing

  /** The answer to one nearest-neighbour query: an exception, or the per-query lists of ids, distances and metadata. */
  datatype QueryAnswer =
    | QueryRaised
    | QueryResult(ids: seq<seq<string>>, distances: seq<seq<real>>, metadatas: seq<seq<Metadata>>)

  datatype Hit = Hit(id: string, distance: real, metadata: Metadata)

  /** The answer has hits for the (single) query. */
  predicate HasHits(ans: QueryAnswer) {
    ans.QueryResult? && |ans.ids| > 0 && |ans.ids[0]| > 0
  }

  /** The distance and metadata lists cover every returned id (otherwise the loop raises an index error). */
  predicate WellShaped(ans: QueryAnswer)
    requires HasHits(ans)
  {
    |ans.distances| > 0 && |ans.metadatas| > 0
    && |ans.ids[0]| <= |ans.distances[0]| && |ans.ids[0]| <= |ans.metadatas[0]|
  }

  /** The hits `search` returns for an answer: in the store's order, or none on error or no hits. */
  function HitsOf(ans: QueryAnswer): (hits: seq<Hit>)
    ensures !HasHits(ans) ==> hits == []
    ensures HasHits(ans) && !WellShaped(ans) ==> hits == []
    ensures HasHits(ans) && WellShaped(ans) ==>
              |hits| == |ans.ids[0]|
              && forall i :: 0 <= i < |hits| ==>
                   hits[i] == Hit(ans.ids[0][i], ans.distances[0][i], ans.metadatas[0][i])
  {
    if !HasHits(ans) || !WellShaped(ans) then []
    else seq(|ans.ids[0]|, i requires 0 <= i < |ans.ids[0]| =>
               Hit(ans.ids[0][i], ans.distances[0][i], ans.metadatas[0][i]))
  }

  /** The record `get_email_by_id` returns. */
  datatype StoredView = StoredView(id: string, document: string, metadata: Metadata)

  /** Python truthiness of an optional string: present and non-empty. */
  predicate Truthy(s: Option<string>) {
    s.Some? && s.value != ""
  }

  /** The matching rule of `find_matching_collections` for one listed collection. */
  predicate Matches(info: CollectionInfo, provider: Option<string>, model: Option<string>) {
    var id := info.modelId.GetOr("");
    if Truthy(model) then
      (provider == Some("ollama") && id == OllamaModelId(model.value))
      || (provider == Some("openai") && id == OpenAIModelId(model.value))
      || (!Truthy(provider) && (id == OllamaModelId(model.value) || id == OpenAIModelId(model.value)))
    else if Truthy(provider) then StartsWith(id, provider.value + "_")
    else true
  }

  /** `find_matching_collections`: the listed collections that match, in listing order. */
  function FindMatchingCollections(all: seq<CollectionInfo>, provider: Option<string>, model: Option<string>)
    : (r: seq<CollectionInfo>)
    ensures |r| <= |all|
  {
    if all == [] then []
    else
      var n := |all| - 1;
      FindMatchingCollections(all[..n], provider, model)
        + (if Matches(all[n], provider, model) then [all[n]] else [])
  }

  /** The result holds exactly the listed collections that match. */
  lemma {:induction false} FindMatchingSound(all: seq<CollectionInfo>, provider: Option<string>, model: Option<string>)
    ensures forall c :: c in FindMatchingCollections(all, provider, model) <==> c in all && Matches(c, provider, model)
  {
    if all != [] {
      var n := |all| - 1;
      assert all == all[..n] + [all[n]];
      FindMatchingSound(all[..n], provider, model);
    }
  }

  /** Matching distributes over concatenation, so it keeps the listing order. */
  lemma {:induction false} FindMatchingAppend(a: seq<CollectionInfo>, b: seq<CollectionInfo>,
                                              provider: Option<string>, model: Option<string>)
    ensures FindMatchingCollections(a + b, provider, model)
            == FindMatchingCollections(a, provider, model) + FindMatchingCollections(b, provider, model)
    decreases |b|
  {
    if b != [] {
      var n := |b| - 1;
      var ab := a + b;
      assert ab[..|ab| - 1] == a + b[..n];
      assert ab[|ab| - 1] == b[n];
      FindMatchingAppend(a, b[..n], provider, model);
    } else {
      assert a + b == a;
    }
  }

  /** With neither a provider nor a model, every collection matches. */
  lemma {:induction false} NoCriteriaMatchesAll(all: seq<CollectionInfo>)
    ensures FindMatchingCollections(all, None, None) == all
  {
    if all != [] {
      NoCriteriaMatchesAll(all[..|all| - 1]);
    }
  }

  /**
   * The collection a store creates for an Ollama model is found by the model
   * name alone, by the provider alone, by both, and by neither.
   */
  lemma OllamaCollectionIsFound(name: string)
    requires name != ""
    ensures var info := CollectionInfo(CollectionName(OllamaModelId(name)), Some(OllamaModelId(name)));
            && Matches(info, Some("ollama"), Some(name))
            && Matches(info, None, Some(name))
            && Matches(info, Some("ollama"), None)
            && Matches(info, None, None)
  {
    var id := OllamaModelId(name);
    assert "ollama" + "_" == "ollama_";
    assert id[..7] == "ollama_";
  }

  /** The same for an OpenAI model. */
  lemma OpenAICollectionIsFound(name: string)
    requires name != ""
    ensures var info := CollectionInfo(CollectionName(OpenAIModelId(name)), Some(OpenAIModelId(name)));
            && Matches(info, Some("openai"), Some(name))
            && Matches(info, None, Some(name))
            && Matches(info, Some("openai"), None)
            && Matches(info, None, None)
  {
    var id := OpenAIModelId(name);
    assert "openai" + "_" == "openai_";
    assert id[..7] == "openai_";
  }

  /** A model name given with a provider other than "ollama" or "openai" matches nothing. */
  lemma OtherProviderWithModelMatchesNothing(info: CollectionInfo, provider: string, model: string)
    requires provider != "" && provider != "ollama" && provider != "openai" && model != ""
    ensures !Matches(info, Some(provider), Some(model))
  {
  }

  /** `get_collection_email_count`: the count the lookup finds, 0 when the lookup fails. */
  function CollectionEmailCount(lookup: string -> Option<nat>, name: string): (n: nat)
    ensures lookup(name).None? ==> n == 0
    ensures lookup(name).Some? ==> n == lookup(name).value
  {
    lookup(name).GetOr(0)
  }

  // ---------------------------------------------------------------------------
  // The store

  class EmailVectorStore {
    const modelId: string
    const collectionName: string
    var records: Records
    var meta: CollectionMeta
    /** The watermark kept in the sync metadata file, as `get_last_sync_date` reads it back. */
    var lastSync: Option<DateTime>

    constructor (modelId: string, records: Records, meta: CollectionMeta, lastSync: Option<DateTime>)
      ensures this.modelId == modelId && collectionName == CollectionName(modelId)
      ensures this.records == records && this.meta == meta && this.lastSync == lastSync
    {
      this.modelId := modelId;
      collectionName := CollectionName(modelId);
      this.records := records;
      this.meta := meta;
      this.lastSync := lastSync;
    }

    /** The entry `list_collections` shows for this store's collection. */
    function Info(): CollectionInfo
      reads this
    {
      CollectionInfo(collectionName, meta.modelId)
    }

    /** `update_last_sync_date`: the watermark becomes `now`, unless writing the file fails, which is only logged. */
    method UpdateLastSyncDate(now: DateTime, writeOk: bool)
      modifies this
      ensures lastSync == SyncWritten(old(lastSync), now, writeOk)
      ensures records == old(records) && meta == old(meta)
    {
      if writeOk {
        lastSync := Some(now);
      }
    }

    /**
     * `add_emails`: the answers of the database are parameters — the existence
     * check of the batch starting at `i` fails when `existFails(i)`, the add
     * call for the chunk starting at `i` fails when `insertFails(i)`; `now` is
     * the clock and `writeOk` the fate of the sync file write.
     */
    method AddEmails(pairs: seq<(Email, Option<Vector>)>, existFails: nat -> bool, insertFails: nat -> bool,
                     now: DateTime, writeOk: bool)
      returns (r: Result<AddReport>)
      modifies this
      ensures var out := AddOutcome(pairs, old(records), old(lastSync), existFails, insertFails, now, writeOk);
              r == out.result && records == out.records && lastSync == out.lastSync
      ensures meta == old(meta)
    {
      var pending, skipped := KeepEmbedded(pairs);
      if pending == [] {
        assert NewFrom(pending, records, existFails, 0) == [];
        assert InsertChunks(records, [], insertFails, 0) == InsertResult(records, true);
        return Ok(AddReport(skipped, 0, 0));
      }
      var newList, duplicates := SplitNew(pending, records, existFails);
      if newList != [] {
        var ok := InsertAll(newList, insertFails);
        if !ok {
          return Err(BackendFailed);
        }
        UpdateLastSyncDate(now, writeOk);
      } else {
        assert InsertChunks(records, newList, insertFails, 0) == InsertResult(records, true);
      }
      r := Ok(AddReport(skipped, duplicates, |newList|));
    }

    /** The insert loop of `add_emails`: one add call per chunk of 100, stopping at the first rejected call. */
    method InsertAll(newList: seq<Pending>, insertFails: nat -> bool) returns (ok: bool)
      modifies this
      ensures InsertResult(records, ok) == InsertChunks(old(records), newList, insertFails, 0)
      ensures lastSync == old(lastSync) && meta == old(meta)
    {
      var s: nat := 0;
      while s < |newList|
        invariant InsertChunks(records, newList, insertFails, s) == InsertChunks(old(records), newList, insertFails, 0)
        invariant lastSync == old(lastSync) && meta == old(meta)
        decreases |newList| - s
      {
        var chunk := Chunk(newList, s);
        if insertFails(s) || HasDuplicateIds(chunk) {
          return false;
        }
        records := InsertSeq(records, chunk);
        s := s + BatchSize;
      }
      ok := true;
    }

    /**
     * `search`: asks the database for `min(n_results, count)` neighbours (its
     * answer to a request for `k` is `query(k)`) and returns the hits in the
     * answer's order; an error or an empty answer gives no hits.
     */
    method Search(nResults: int, query: int -> QueryAnswer) returns (hits: seq<Hit>)
      ensures hits == HitsOf(query(Min(nResults, |records|)))
    {
      var ans := query(Min(nResults, |records|));
      if ans.QueryRaised? || |ans.ids| == 0 || |ans.ids[0]| == 0 {
        return [];
      }
      hits := [];
      var i := 0;
      while i < |ans.ids[0]|
        invariant 0 <= i <= |ans.ids[0]|
        invariant |hits| == i
        invariant i > 0 ==> |ans.distances| > 0 && |ans.metadatas| > 0
                            && i <= |ans.distances[0]| && i <= |ans.metadatas[0]|
        invariant forall t :: 0 <= t < i ==>
                    hits[t] == Hit(ans.ids[0][t], ans.distances[0][t], ans.metadatas[0][t])
      {
        if |ans.distances| == 0 || i >= |ans.distances[0]| || |ans.metadatas| == 0 || i >= |ans.metadatas[0]| {
          // The index error is caught and logged.
          return [];
        }
        hits := hits + [Hit(ans.ids[0][i], ans.distances[0][i], ans.metadatas[0][i])];
        i := i + 1;
      }
    }

    /** `get_email_by_id`: the stored document and metadata, or `None` when the id is absent or the lookup fails. */
    function GetEmailById(emailId: string, lookupFails: bool): (r: Option<StoredView>)
      reads this
      ensures r.Some? <==> !lookupFails && emailId in records
      ensures r.Some? ==> r.value.id == emailId && r.value.document == records[emailId].document
                          && r.value.metadata == records[emailId].metadata
    {
      if !lookupFails && emailId in records then
        Some(StoredView(emailId, records[emailId].document, records[emailId].metadata))
      else None
    }

    /**
     * `check_emails_exist`: the ids split into the held ones and the others,
     * or, when the lookup fails, every id counted as new.
     */
    function CheckEmailsExist(emailIds: seq<string>, lookupFails: bool): (r: (set<string>, set<string>))
      reads this
      ensures r.0 !! r.1
      ensures r.0 + r.1 == set x | x in emailIds
      ensures lookupFails ==> r.0 == {}
      ensures !lookupFails ==> forall x :: x in emailIds ==> (x in r.0 <==> x in records)
    {
      var all := set x | x in emailIds;
      var existing := if lookupFails then {} else set x | x in emailIds && x in records;
      (existing, all - existing)
    }

    /**
     * `clear_collection`: deletes the collection and creates it afresh with
     * this store's model id and the embedder's dimension (`dimension`, which
     * may raise). A failed delete raises and changes nothing. When the delete
     * succeeds but the dimension raises, the records are gone and the old
     * metadata stays as it was. The sync file is
     * not touched, so the watermark survives.
     */
    method ClearCollection(deleteOk: bool, dimension: Result<nat>) returns (r: Result<nat>)
      modifies this
      ensures !deleteOk ==> r.Err? && records == old(records) && meta == old(meta)
      ensures deleteOk ==> records == map[] && r == dimension
      ensures deleteOk && dimension.Ok? ==> meta == CollectionMeta(Some(modelId), Some(dimension.value))
      ensures deleteOk && dimension.Err? ==> meta == old(meta)
      ensures lastSync == old(lastSync)
    {
      if !deleteOk {
        return Err(BackendFailed);
      }
      records := map[];
      r := dimension;
      if dimension.Ok? {
        meta := CollectionMeta(Some(modelId), Some(dimension.value));
      }
    }
  }

  /** The first loop of `add_emails`: the records of the pairs that carry an embedding, and the count of the others. */
  method KeepEmbedded(pairs: seq<(Email, Option<Vector>)>) returns (pending: seq<Pending>, skipped: nat)
    ensures pending == Kept(pairs)
    ensures skipped == |pairs| - |pending|
  {
    pending := [];
    skipped := 0;
    var k := 0;
    while k < |pairs|
      invariant 0 <= k <= |pairs|
      invariant pending == Kept(pairs[..k])
      invariant skipped == k - |pending|
    {
      assert pairs[..k + 1][..k] == pairs[..k];
      var (email, embedding) := pairs[k];
      if embedding.None? {
        skipped := skipped + 1;
      } else {
        pending := pending + [PendingOf(email, embedding.value)];
      }
      k := k + 1;
    }
    assert pairs[..|pairs|] == pairs;
  }

  /**
   * One batch of the existence loop of `add_emails`: the ids the collection
   * reports as held are counted, the rest go to the new list in order; when
   * the check fails the whole batch counts as new.
   */
  method SplitBatch(batch: seq<Pending>, records: Records, checkFailed: bool)
    returns (part: seq<Pending>, held: nat)
    ensures part == Fresh(batch, records, checkFailed)
    ensures held + |part| == |batch|
  {
    var existing: set<string> :=
      if checkFailed then {} else set p | p in batch && p.id in records :: p.id;
    part := [];
    held := 0;
    var j := 0;
    while j < |batch|
      invariant 0 <= j <= |batch|
      invariant part == Fresh(batch[..j], records, checkFailed)
      invariant held + |part| == j
    {
      assert batch[..j + 1][..j] == batch[..j];
      assert batch[j] in batch;
      if batch[j].id !in existing {
        part := part + [batch[j]];
      } else {
        held := held + 1;
      }
      j := j + 1;
    }
    assert batch[..|batch|] == batch;
  }

  /** One batch of the existence loop moves from the remaining new list to the collected one. */
  lemma NewFromStep(pending: seq<Pending>, records: Records, existFails: nat -> bool, i: nat,
                    whole: seq<Pending>, acc: seq<Pending>, dups: nat, part: seq<Pending>, held: nat)
    requires i < |pending|
    requires acc + NewFrom(pending, records, existFails, i) == whole
    requires dups + |acc| == i
    requires part == Fresh(Chunk(pending, i), records, existFails(i))
    requires held + |part| == |Chunk(pending, i)|
    ensures var next := Min(i + BatchSize, |pending|);
            && (acc + part) + NewFrom(pending, records, existFails, next) == whole
            && (dups + held) + |acc + part| == next
  {
    NewFromUnfold(pending, records, existFails, i, acc);
    NewFromClamp(pending, records, existFails, i + BatchSize);
  }

  lemma NewFromUnfold(pending: seq<Pending>, records: Records, existFails: nat -> bool, i: nat, acc: seq<Pending>)
    requires i < |pending|
    ensures var part := Fresh(Chunk(pending, i), records, existFails(i));
            && acc + NewFrom(pending, records, existFails, i) == (acc + part) + NewFrom(pending, records, existFails, i + BatchSize)
            && i + |Chunk(pending, i)| == Min(i + BatchSize, |pending|)
  {
  }

  /** Past the end nothing is new, so a start beyond the end may be clamped to it. */
  lemma NewFromClamp(pending: seq<Pending>, records: Records, existFails: nat -> bool, i: nat)
    ensures NewFrom(pending, records, existFails, i) == NewFrom(pending, records, existFails, Min(i, |pending|))
  {
  }

  method SplitNew(pending: seq<Pending>, records: Records, existFails: nat -> bool)
    returns (newList: seq<Pending>, duplicates: nat)
    ensures newList == NewFrom(pending, records, existFails, 0)
    ensures duplicates == |pending| - |newList|
  {
    ghost var whole := NewFrom(pending, records, existFails, 0);
    newList := [];
    duplicates := 0;
    var i := 0;
    // The batches start at 0, 100, 200, ... as in `range(0, len(ids), 100)`;
    // the index stops at the end instead of passing it.
    while i < |pending|
      invariant i <= |pending|
      invariant newList + NewFrom(pending, records, existFails, i) == whole
      invariant duplicates + |newList| == i
    {
      var part, held := SplitBatch(Chunk(pending, i), records, existFails(i));
      NewFromStep(pending, records, existFails, i, whole, newList, duplicates, part, held);
      newList := newList + part;
      duplicates := duplicates + held;
      i := Min(i + BatchSize, |pending|);
    }
  }

  /**
   * `EmailVectorStore(embedder)`: opens the collection named after the model
   * id when it exists (`existing`), otherwise creates it with the model id and
   * the embedder's dimension, which may raise.
   */
  method OpenStore(modelId: string, existing: Option<(Records, CollectionMeta)>, dimension: Result<nat>,
                   persistedSync: Option<DateTime>)
    returns (r: Result<EmailVectorStore>)
    ensures r.Err? <==> existing.None? && dimension.Err?
    ensures r.Ok? ==> fresh(r.value) && r.value.collectionName == CollectionName(modelId)
    ensures r.Ok? ==> r.value.modelId == modelId && r.value.lastSync == persistedSync
    ensures r.Ok? && existing.Some? ==> r.value.records == existing.value.0 && r.value.meta == existing.value.1
    ensures r.Ok? && existing.None? ==>
              r.value.records == map[] && r.value.meta == CollectionMeta(Some(modelId), Some(dimension.value))
  {
    if existing.Some? {
      var s := new EmailVectorStore(modelId, existing.value.0, existing.value.1, persistedSync);
      r := Ok(s);
    } else if dimension.Ok? {
      var s := new EmailVectorStore(modelId, map[], CollectionMeta(Some(modelId), Some(dimension.value)), persistedSync);
      r := Ok(s);
    } else {
      r := Err(dimension.error);
    }
  }
}
