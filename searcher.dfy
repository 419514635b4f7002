/**
 * `EmailSearcher.search`: embed the query, ask the store for its nearest
 * records, and rebuild an email for every hit whose record can be looked up,
 * scored by one minus its distance, in the order the store returned the hits.
 */
module Searcher {
  import opened Wrappers
  import opened Strings
  import opened Models
  import opened VectorStore

  /**
   * The email rebuilt from a hit and its looked-up record: the metadata gives
   * the header fields, the stored document becomes the body, the labels
   * default to none, and recipients and attachments are not stored.
   */
  function Rebuilt(h: Hit, view: StoredView): Email {
    Email(h.id, h.metadata.threadId, h.metadata.subject, h.metadata.sender, [], h.metadata.date,
          view.document, h.metadata.labels.GetOr([]), h.metadata.snippet, [])
  }

  function ResultOf(h: Hit, view: StoredView): SearchResult {
    SearchResult(Rebuilt(h, view), 1.0 - h.distance, h.distance)
  }

  /**
   * The results for `hits`, in hit order: one per hit whose lookup
   * (`lookupFails` says which lookups raise) finds the record.
   */
  function ResultsFor(store: EmailVectorStore, hits: seq<Hit>, lookupFails: string -> bool): (rs: seq<SearchResult>)
    reads store
    ensures |rs| <= |hits|
  {
    if hits == [] then []
    else
      var n := |hits| - 1;
      ResultsFor(store, hits[..n], lookupFails)
        + match store.GetEmailById(hits[n].id, lookupFails(hits[n].id))
          case Some(view) => [ResultOf(hits[n], view)]
          case None => []
  }

  /** Results are kept in hit order: the results for two runs of hits are the results of each, in turn. */
  lemma {:induction false} ResultsAppend(store: EmailVectorStore, a: seq<Hit>, b: seq<Hit>, lookupFails: string -> bool)
    ensures ResultsFor(store, a + b, lookupFails) == ResultsFor(store, a, lookupFails) + ResultsFor(store, b, lookupFails)
    decreases |b|
  {
    if b == [] {
      assert a + b == a;
    } else {
      var n := |b| - 1;
      var ab := a + b;
      assert ab[..|ab| - 1] == a + b[..n];
      assert ab[|ab| - 1] == b[n];
      ResultsAppend(store, a, b[..n], lookupFails);
    }
  }

  /**
   * Every result comes from a hit whose record was found: same id, the
   * stored document as body, score one minus the distance, and the distance kept.
   */
  lemma {:induction false} ResultsSound(store: EmailVectorStore, hits: seq<Hit>, lookupFails: string -> bool)
    ensures forall r :: r in ResultsFor(store, hits, lookupFails) ==>
              exists h :: h in hits && !lookupFails(h.id) && h.id in store.records
                          && r.email.id == h.id && r.email.body == store.records[h.id].document
                          && r.score == 1.0 - h.distance && r.distance == h.distance
  {
    if hits != [] {
      var n := |hits| - 1;
      ResultsSound(store, hits[..n], lookupFails);
      forall r | r in ResultsFor(store, hits, lookupFails)
        ensures exists h :: h in hits && !lookupFails(h.id) && h.id in store.records
                            && r.email.id == h.id && r.email.body == store.records[h.id].document
                            && r.score == 1.0 - h.distance && r.distance == h.distance
      {
        if r in ResultsFor(store, hits[..n], lookupFails) {
          var h :| h in hits[..n] && !lookupFails(h.id) && h.id in store.records
                   && r.email.id == h.id && r.email.body == store.records[h.id].document
                   && r.score == 1.0 - h.distance && r.distance == h.distance;
          assert h in hits;
        } else {
          assert hits[n] in hits;
        }
      }
    }
  }

  /** When every lookup finds its record, there is one result per hit, position by position. */
  lemma {:induction false} AllFoundKeepsEveryHit(store: EmailVectorStore, hits: seq<Hit>, lookupFails: string -> bool)
    requires forall h :: h in hits ==> !lookupFails(h.id) && h.id in store.records
    ensures |ResultsFor(store, hits, lookupFails)| == |hits|
    ensures forall i :: 0 <= i < |hits| ==>
              ResultsFor(store, hits, lookupFails)[i]
              == ResultOf(hits[i], StoredView(hits[i].id, store.records[hits[i].id].document, store.records[hits[i].id].metadata))
  {
    if hits != [] {
      var n := |hits| - 1;
      assert hits[n] in hits;
      forall h | h in hits[..n] ensures !lookupFails(h.id) && h.id in store.records {
        assert h in hits;
      }
      AllFoundKeepsEveryHit(store, hits[..n], lookupFails);
    }
  }

  /** When no lookup finds its record, there are no results. */
  lemma {:induction false} NoneFoundIsEmpty(store: EmailVectorStore, hits: seq<Hit>, lookupFails: string -> bool)
    requires forall h :: h in hits ==> lookupFails(h.id) || h.id !in store.records
    ensures ResultsFor(store, hits, lookupFails) == []
  {
    if hits != [] {
      var n := |hits| - 1;
      assert hits[n] in hits;
      forall h | h in hits[..n] ensures lookupFails(h.id) || h.id !in store.records {
        assert h in hits;
      }
      NoneFoundIsEmpty(store, hits[..n], lookupFails);
    }
  }

  /**
   * A stored email found by a search comes back with its embedded text as
   * body (not its original body), its snippet cut to 500 characters, its
   * labels, and no recipients or attachments.
   */
  lemma SearchedEmailShape(e: Email, v: Vector, distance: real)
    ensures var p := PendingOf(e, v);
            var r := ResultOf(Hit(e.id, distance, p.record.metadata),
                              StoredView(e.id, p.record.document, p.record.metadata));
            && r.email.id == e.id && r.email.body == ContentForEmbedding(e)
            && r.email.subject == e.subject && r.email.sender == e.sender
            && r.email.threadId == e.threadId && r.email.date == e.date
            && r.email.labels == e.labels && r.email.snippet == PyPrefix(e.snippet, 500)
            && r.email.recipients == [] && r.email.attachments == []
            && r.score + r.distance == 1.0
  {
  }

  /**
   * `search`: nothing when the query embedding is missing or the store has
   * no hits; otherwise the results for the store's hits for
   * `min(n_results, count)` neighbours, in hit order.
   */
  method Search(store: EmailVectorStore, queryEmbedding: Option<Vector>, nResults: int,
                query: int -> QueryAnswer, lookupFails: string -> bool)
    returns (results: seq<SearchResult>)
    ensures queryEmbedding.None? ==> results == []
    ensures queryEmbedding.Some? ==>
              results == ResultsFor(store, HitsOf(query(Min(nResults, |store.records|))), lookupFails)
  {
    if queryEmbedding.None? {
      return [];
    }
    var hits := store.Search(nResults, query);
    if hits == [] {
      return [];
    }
    results := [];
    var i := 0;
    while i < |hits|
      invariant 0 <= i <= |hits|
      invariant results == ResultsFor(store, hits[..i], lookupFails)
    {
      assert hits[..i + 1][..i] == hits[..i];
      var found := store.GetEmailById(hits[i].id, lookupFails(hits[i].id));
      if found.Some? {
        results := results + [ResultOf(hits[i], found.value)];
      }
      i := i + 1;
    }
    assert hits[..|hits|] == hits;
  }
}
