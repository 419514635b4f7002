/**
 * The email context both answering models put in their prompts: a block per
 * email for at most the first five emails, numbered from 1, with the body cut
 * to 1000 characters. `str(email.date)` is a parameter.
 */
module LlmContext {
  import opened Strings
  import opened Models

  /** At most this many emails go into the context. */
  const MaxContextEmails: nat := 5

  /** A longer body is cut to this many characters. */
  const MaxPreview: nat := 1000

  /** The body preview: the first 1000 characters and "..." for a longer body, otherwise the body. */
  function BodyPreview(body: string): (p: string)
    ensures |body| <= MaxPreview ==> p == body
    ensures |body| > MaxPreview ==> |p| == MaxPreview + 3 && p[..MaxPreview] == body[..MaxPreview] && p[MaxPreview..] == "..."
  {
    if |body| > MaxPreview then body[..MaxPreview] + "..." else body
  }

  /** The lines of the block for email number `i`. */
  function Block(i: nat, e: Email, dateText: DateTime -> string): seq<string> {
    ["\n--- Email " + NatToString(i) + " ---",
     "From: " + e.sender,
     "Date: " + dateText(e.date),
     "Subject: " + e.subject]
    + (if e.body != "" then ["Body:\n" + BodyPreview(e.body)] else [])
    + [""]
  }

  /** A block opens with its numbered header and closes with an empty line; only a non-empty body has a Body line. */
  lemma BlockLayout(i: nat, e: Email, dateText: DateTime -> string)
    ensures var b := Block(i, e, dateText);
            && |b| == (if e.body == "" then 5 else 6)
            && b[0] == "\n--- Email " + NatToString(i) + " ---"
            && b[1] == "From: " + e.sender && b[3] == "Subject: " + e.subject
            && b[|b| - 1] == ""
            && (e.body != "" ==> b[4] == "Body:\n" + BodyPreview(e.body))
  {
  }

  /** The blocks of `es`, numbered from 1 in order. */
  function Blocks(es: seq<Email>, dateText: DateTime -> string): seq<string> {
    if es == [] then []
    else
      var n := |es| - 1;
      Blocks(es[..n], dateText) + Block(n + 1, es[n], dateText)
  }

  /** The lines of the context: the blocks of the first five emails. */
  function ContextParts(emails: seq<Email>, dateText: DateTime -> string): seq<string> {
    Blocks(PyPrefix(emails, MaxContextEmails), dateText)
  }

  /** Emails after the fifth never reach the context. */
  lemma LaterEmailsIgnored(emails: seq<Email>, more: seq<Email>, dateText: DateTime -> string)
    requires |emails| >= MaxContextEmails
    ensures ContextParts(emails + more, dateText) == ContextParts(emails, dateText)
  {
    assert PyPrefix(emails + more, MaxContextEmails) == PyPrefix(emails, MaxContextEmails);
  }

  /** While fewer than five are shown, one more email adds its own block, numbered after the others. */
  lemma NextEmailNumbered(emails: seq<Email>, e: Email, dateText: DateTime -> string)
    requires |emails| < MaxContextEmails
    ensures ContextParts(emails + [e], dateText) == ContextParts(emails, dateText) + Block(|emails| + 1, e, dateText)
  {
    assert PyPrefix(emails + [e], MaxContextEmails) == emails + [e];
    assert PyPrefix(emails, MaxContextEmails) == emails;
    assert (emails + [e])[..|emails|] == emails;
  }

  /** Each email contributes five or six lines. */
  lemma {:induction false} BlocksLength(es: seq<Email>, dateText: DateTime -> string)
    ensures 5 * |es| <= |Blocks(es, dateText)| <= 6 * |es|
  {
    if es != [] {
      var n := |es| - 1;
      BlocksLength(es[..n], dateText);
      BlockLayout(n + 1, es[n], dateText);
    }
  }

  /** The blocks of one more email are the earlier blocks followed by its own. */
  lemma BlocksStep(es: seq<Email>, i: nat, dateText: DateTime -> string)
    requires i < |es|
    ensures Blocks(es[..i + 1], dateText) == Blocks(es[..i], dateText) + Block(i + 1, es[i], dateText)
  {
    assert es[..i + 1][..i] == es[..i];
  }

  /** Appending a block's lines one at a time appends the block. */
  lemma BlockByLines(before: seq<string>, i: nat, e: Email, dateText: DateTime -> string)
    ensures var h := "\n--- Email " + NatToString(i) + " ---";
            var f := "From: " + e.sender;
            var d := "Date: " + dateText(e.date);
            var s := "Subject: " + e.subject;
            before + Block(i, e, dateText)
            == if e.body != "" then before + [h] + [f] + [d] + [s] + ["Body:\n" + BodyPreview(e.body)] + [""]
               else before + [h] + [f] + [d] + [s] + [""]
  {
  }

  /** `_format_emails_for_context`: the lines of the first five blocks joined by newlines. */
  method FormatEmailsForContext(emails: seq<Email>, dateText: DateTime -> string) returns (context: string)
    ensures context == Join("\n", ContextParts(emails, dateText))
  {
    var shown := PyPrefix(emails, MaxContextEmails);
    var parts: seq<string> := [];
    var i := 0;
    while i < |shown|
      invariant 0 <= i <= |shown|
      invariant parts == Blocks(shown[..i], dateText)
    {
      BlocksStep(shown, i, dateText);
      var e := shown[i];
      ghost var before := parts;
      parts := parts + ["\n--- Email " + NatToString(i + 1) + " ---"];
      parts := parts + ["From: " + e.sender];
      parts := parts + ["Date: " + dateText(e.date)];
      parts := parts + ["Subject: " + e.subject];
      if e.body != "" {
        var preview := BodyPreview(e.body);
        parts := parts + ["Body:\n" + preview];
      }
      parts := parts + [""];
      BlockByLines(before, i + 1, e, dateText);
      i := i + 1;
    }
    assert shown[..|shown|] == shown;
    context := Join("\n", parts);
  }
}
