/**
 * The records shared by every component: an email as fetched from the mailbox,
 * a search hit, and the sync status record, with the one derived property an
 * email has, the text that is embedded for it.
 */
module Models {
  import opened Wrappers
  import opened Strings

  /** A point in time; only the calendar date is ever inspected by the modelled code. */
  datatype DateTime = DateTime(year: nat, month: nat, day: nat, microsecondOfDay: nat)

  /** An embedding vector; only its length matters to the modelled code. */
  type Vector = seq<real>

  datatype Attachment = Attachment(filename: string, mimeType: string, size: int)

  datatype Email = Email(
    id: string,
    threadId: string,
    subject: string,
    sender: string,
    recipients: seq<string>,
    date: DateTime,
    body: string,
    labels: seq<string>,
    snippet: string,
    attachments: seq<Attachment>)

  datatype SearchResult = SearchResult(email: Email, score: real, distance: real)

  datatype SyncStatus = SyncStatus(
    totalEmails: int, syncedEmails: int, embeddedEmails: int,
    lastSync: Option<DateTime>, status: string)

  /** An email built from its required fields only; the optional ones take their defaults. */
  function NewEmail(id: string, threadId: string, subject: string, sender: string,
                    date: DateTime, body: string): (e: Email)
    ensures e.recipients == [] && e.labels == [] && e.attachments == [] && e.snippet == ""
    ensures e.id == id && e.threadId == threadId && e.subject == subject
    ensures e.sender == sender && e.date == date && e.body == body
  {
    Email(id, threadId, subject, sender, [], date, body, [], "", [])
  }

  /** `SyncStatus()`: every field at its default. */
  function IdleSyncStatus(): (s: SyncStatus)
    ensures s.totalEmails == 0 && s.syncedEmails == 0 && s.embeddedEmails == 0
    ensures s.lastSync == None && s.status == "idle"
  {
    SyncStatus(0, 0, 0, None, "idle")
  }

  /** The header block that precedes the body in the embedded text. */
  function EmbeddingHeader(e: Email): string {
    "Subject: " + e.subject + "\nFrom: " + e.sender + "\nTo: " + Join(", ", e.recipients)
  }

  /** `Email.content_for_embedding`. */
  function ContentForEmbedding(e: Email): (r: string)
    ensures |r| >= 23 + |e.subject| + |e.sender| + |e.body|
    ensures r[|r| - |e.body|..] == e.body
  {
    EmbeddingHeader(e) + "\n\n" + e.body
  }

  /**
   * The embedded text opens with the subject line, then the sender line, and
   * closes with a blank line followed by the body, whatever the recipients are.
   */
  lemma ContentLayout(e: Email)
    ensures StartsWith(ContentForEmbedding(e), "Subject: " + e.subject + "\nFrom: " + e.sender + "\nTo: ")
    ensures var c := ContentForEmbedding(e);
            |c| >= |e.body| + 2 && c[|c| - |e.body| - 2..] == "\n\n" + e.body
  {
    var c := ContentForEmbedding(e);
    var head := "Subject: " + e.subject + "\nFrom: " + e.sender + "\nTo: ";
    var tail := "\n\n" + e.body;
    assert c == (head + Join(", ", e.recipients)) + tail;
    OuterPieces(head, Join(", ", e.recipients), tail);
  }

  /** The first and last of three joined pieces can be cut back out. */
  lemma OuterPieces(a: string, m: string, z: string)
    ensures (a + m + z)[..|a|] == a
    ensures (a + m + z)[|a| + |m|..] == z
  {
  }

  /** With no recipients the To line is empty and the body follows the blank line directly. */
  lemma ContentWithoutRecipients(e: Email)
    requires e.recipients == []
    ensures ContentForEmbedding(e) == "Subject: " + e.subject + "\nFrom: " + e.sender + "\nTo: \n\n" + e.body
  {
  }

  /** Recipients are listed in stored order, separated by ", ": adding one appends it to the To line. */
  lemma ContentRecipientAppended(e: Email, r: string)
    requires e.recipients != []
    ensures var e' := e.(recipients := e.recipients + [r]);
            EmbeddingHeader(e') == EmbeddingHeader(e) + ", " + r
  {
    JoinAppend(", ", e.recipients, r);
  }
}
