/**
 * What every embedder shares: the text embedded for an email, the pairing of
 * emails with the vectors a batch call returned, and the success count.
 */
module BaseEmbedder {
  import opened Wrappers
  import opened Strings
  import opened Models

  /** Python truthiness of an optional vector: present and non-empty. */
  predicate Usable(v: Option<Vector>) {
    v.Some? && |v.value| > 0
  }

  /** The texts handed to the batch call: the simplified embedding content, one per email. */
  function Texts(emails: seq<Email>, simplify: string -> string): (texts: seq<string>)
    ensures |texts| == |emails|
    ensures forall i :: 0 <= i < |emails| ==> texts[i] == simplify(ContentForEmbedding(emails[i]))
  {
    if emails == [] then []
    else [simplify(ContentForEmbedding(emails[0]))] + Texts(emails[1..], simplify)
  }

  /** `list(zip(emails, embeddings))`. */
  function Zip(emails: seq<Email>, embeddings: seq<Option<Vector>>): seq<(Email, Option<Vector>)> {
    if emails == [] || embeddings == [] then []
    else [(emails[0], embeddings[0])] + Zip(emails[1..], embeddings[1..])
  }

  /** The zip pairs by position and stops at the shorter input. */
  lemma {:induction false} ZipPairsByPosition(emails: seq<Email>, embeddings: seq<Option<Vector>>)
    ensures |Zip(emails, embeddings)| == Min(|emails|, |embeddings|)
    ensures forall i :: 0 <= i < |Zip(emails, embeddings)| ==>
              Zip(emails, embeddings)[i] == (emails[i], embeddings[i])
  {
    if emails != [] && embeddings != [] {
      ZipPairsByPosition(emails[1..], embeddings[1..]);
    }
  }

  /** `sum(1 for _, emb in results if emb is not None)`, counted from the last pair back. */
  function SuccessCount(results: seq<(Email, Option<Vector>)>): (n: nat)
    ensures n <= |results|
  {
    if results == [] then 0
    else SuccessCount(results[..|results| - 1]) + (if results[|results| - 1].1.Some? then 1 else 0)
  }

  /** The set of positions holding a vector. */
  function SuccessPositions(results: seq<(Email, Option<Vector>)>): set<nat> {
    set i: nat | i < |results| && results[i].1.Some?
  }

  /** The success count is the number of positions whose embedding is present. */
  lemma {:induction false} SuccessCountCountsPresent(results: seq<(Email, Option<Vector>)>)
    ensures SuccessCount(results) == |SuccessPositions(results)|
  {
    if results != [] {
      var n := |results| - 1;
      var init := results[..n];
      SuccessCountCountsPresent(init);
      assert n !in SuccessPositions(init);
      if results[n].1.Some? {
        assert SuccessPositions(results) == SuccessPositions(init) + {n};
      } else {
        assert SuccessPositions(results) == SuccessPositions(init);
      }
    }
  }

  /** Every embedding is counted exactly when none is missing. */
  lemma {:induction false} AllSucceededIffNoneMissing(results: seq<(Email, Option<Vector>)>)
    ensures SuccessCount(results) == |results| <==> forall i :: 0 <= i < |results| ==> results[i].1.Some?
  {
    if results != [] {
      var n := |results| - 1;
      var init := results[..n];
      AllSucceededIffNoneMissing(init);
      if SuccessCount(results) == |results| {
        forall i | 0 <= i < |results| ensures results[i].1.Some? {
          if i < n { assert results[i] == init[i]; }
        }
      }
    }
  }

  /**
   * `embed_emails`: the texts of the emails go to the batch call (`batch`),
   * and its answers are paired with the emails by position.
   */
  function EmbedEmails(emails: seq<Email>, simplify: string -> string,
                       batch: seq<string> -> seq<Option<Vector>>): (r: seq<(Email, Option<Vector>)>)
    ensures |r| == Min(|emails|, |batch(Texts(emails, simplify))|)
    ensures forall i :: 0 <= i < |r| ==> r[i].0 == emails[i] && r[i].1 == batch(Texts(emails, simplify))[i]
  {
    ZipPairsByPosition(emails, batch(Texts(emails, simplify)));
    Zip(emails, batch(Texts(emails, simplify)))
  }

  /** A batch call that answers once per text gives every email its own answer. */
  lemma EmbedEmailsOnePerEmail(emails: seq<Email>, simplify: string -> string,
                               batch: seq<string> -> seq<Option<Vector>>)
    requires |batch(Texts(emails, simplify))| == |emails|
    ensures |EmbedEmails(emails, simplify, batch)| == |emails|
    ensures forall i :: 0 <= i < |emails| ==> EmbedEmails(emails, simplify, batch)[i].0 == emails[i]
  {
  }
}
