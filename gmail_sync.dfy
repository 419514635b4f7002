/**
 * Shaping Gmail messages into emails: the header map, the address inside
 * angle brackets, the recipient list, the attachment list, the choice of
 * body text among the message parts, the paginated listing of message ids
 * and the fetch loop that keeps the messages that parse.
 *
 * The Gmail service is an oracle. Base64 decoding (which may raise), the
 * regular-expression HTML stripper and the resolution of the date (from the
 * date header, the internal timestamp or the clock) are parameters.
 */
module GmailSync {
  import opened Wrappers
  import opened Strings
  import opened Models

  // ---------------------------------------------------------------------------
  // Message payloads

  datatype Header = Header(name: string, value: string)

  /**
   * One part of a payload: `mimeType`, `body.data` ("" when absent),
   * `filename` and `body.size`, the optional ones as they may be missing.
   */
  datatype Part = Part(mimeType: Option<string>, data: string, filename: Option<string>, size: Option<int>)

  /**
   * A message as `messages.get(format='full')` returns it. The payload's
   * parts, headers and body data are empty when missing; `id` and `threadId`
   * are required and a message lacking one does not parse.
   */
  datatype Message = Message(
    id: Option<string>, threadId: Option<string>,
    headers: seq<Header>, parts: seq<Part>, bodyData: string,
    labelIds: Option<seq<string>>, snippet: Option<string>)

  /** Python truthiness of an optional string. */
  predicate Truthy(o: Option<string>) {
    o.Some? && o.value != ""
  }

  // ---------------------------------------------------------------------------
  // Headers

  /** The header dictionary: names lower-cased, a later header overwriting an earlier one. */
  function HeaderMap(hs: seq<Header>): map<string, string> {
    if hs == [] then map[]
    else
      var n := |hs| - 1;
      HeaderMap(hs[..n])[ToLower(hs[n].name) := hs[n].value]
  }

  /** The keys are the lower-cased header names. */
  lemma {:induction false} HeaderMapKeys(hs: seq<Header>)
    ensures forall k :: k in HeaderMap(hs) <==> exists i :: 0 <= i < |hs| && ToLower(hs[i].name) == k
  {
    if hs != [] {
      var n := |hs| - 1;
      HeaderMapKeys(hs[..n]);
      forall k | k in HeaderMap(hs) ensures exists i :: 0 <= i < |hs| && ToLower(hs[i].name) == k {
        if k != ToLower(hs[n].name) {
          assert k in HeaderMap(hs[..n]);
          var i :| 0 <= i < n && ToLower(hs[..n][i].name) == k;
          assert ToLower(hs[i].name) == k;
        }
      }
      forall k | exists i :: 0 <= i < |hs| && ToLower(hs[i].name) == k ensures k in HeaderMap(hs) {
        var i :| 0 <= i < |hs| && ToLower(hs[i].name) == k;
        if i < n {
          assert ToLower(hs[..n][i].name) == k;
        }
      }
    }
  }

  /** The value under a name is that of the last header with that name, compared without case. */
  lemma {:induction false} HeaderMapLastWins(hs: seq<Header>, i: nat)
    requires i < |hs|
    requires forall j :: i < j < |hs| ==> ToLower(hs[j].name) != ToLower(hs[i].name)
    ensures ToLower(hs[i].name) in HeaderMap(hs)
    ensures HeaderMap(hs)[ToLower(hs[i].name)] == hs[i].value
  {
    var n := |hs| - 1;
    if i < n {
      forall j | i < j < n ensures ToLower(hs[..n][j].name) != ToLower(hs[..n][i].name) {
        assert hs[..n][j] == hs[j];
      }
      HeaderMapLastWins(hs[..n], i);
      assert hs[..n][i] == hs[i];
    }
  }

  /** Header names that differ only in letter case give the same dictionary. */
  lemma {:induction false} HeaderMapIgnoresCase(hs: seq<Header>, gs: seq<Header>)
    requires |hs| == |gs|
    requires forall i :: 0 <= i < |hs| ==> ToLower(hs[i].name) == ToLower(gs[i].name) && hs[i].value == gs[i].value
    ensures HeaderMap(hs) == HeaderMap(gs)
  {
    if hs != [] {
      var n := |hs| - 1;
      HeaderMapIgnoresCase(hs[..n], gs[..n]);
    }
  }

  /** `_parse_email_headers`. */
  method ParseEmailHeaders(hs: seq<Header>) returns (headers: map<string, string>)
    ensures headers == HeaderMap(hs)
  {
    headers := map[];
    var i := 0;
    while i < |hs|
      invariant 0 <= i <= |hs|
      invariant headers == HeaderMap(hs[..i])
    {
      assert hs[..i + 1][..i] == hs[..i];
      headers := headers[ToLower(hs[i].name) := hs[i].value];
      i := i + 1;
    }
    assert hs[..|hs|] == hs;
  }

  // ---------------------------------------------------------------------------
  // Addresses

  /** The first index at or after `from` holding `c`. */
  function FindChar(s: string, c: char, from: nat): (r: Option<nat>)
    ensures r.Some? ==> from <= r.value < |s| && s[r.value] == c
    ensures r.Some? ==> forall k :: from <= k < r.value ==> s[k] != c
    ensures r.None? ==> forall k :: from <= k < |s| ==> s[k] != c
    decreases |s| - from
  {
    if from >= |s| then None
    else if s[from] == c then Some(from)
    else FindChar(s, c, from + 1)
  }

  /**
   * The group `([^>]+)` of `<([^>]+)>` when a match starts at `i`: the
   * characters after the '<' up to the next '>', when there is at least one.
   */
  function MatchAt(s: string, i: nat): (g: Option<string>)
    ensures g.Some? ==> i < |s| && s[i] == '<' && g.value != [] && '>' !in g.value
                        && OccursAt(s, "<" + g.value + ">", i)
  {
    if i < |s| && s[i] == '<' then
      match FindChar(s, '>', i + 1)
      case Some(j) =>
        if j > i + 1 then
          var g := s[i + 1..j];
          assert s[i..j + 1] == "<" + g + ">";
          Some(g)
        else None
      case None => None
    else None
  }

  /** `re.search`: the leftmost match at or after `i`. */
  function SearchFrom(s: string, i: nat): (g: Option<string>)
    decreases |s| - i
  {
    if i >= |s| then None
    else if MatchAt(s, i).Some? then MatchAt(s, i)
    else SearchFrom(s, i + 1)
  }

  /** The search finds the match at the leftmost position that has one. */
  lemma SearchFindsLeftmost(s: string, i: nat)
    ensures SearchFrom(s, i).Some? <==> exists k :: i <= k && MatchAt(s, k).Some?
    ensures SearchFrom(s, i).Some? ==>
              exists k :: i <= k && MatchAt(s, k) == SearchFrom(s, i)
                          && forall m :: i <= m < k ==> MatchAt(s, m).None?
  {
    if SearchFrom(s, i).None? {
      SearchNoneMeansNoMatch(s, i);
    } else {
      SearchSomeIsLeftmost(s, i);
    }
  }

  lemma {:induction false} SearchNoneMeansNoMatch(s: string, i: nat)
    requires SearchFrom(s, i).None?
    ensures forall k :: i <= k ==> MatchAt(s, k).None?
    decreases |s| - i
  {
    if i < |s| {
      SearchNoneMeansNoMatch(s, i + 1);
    }
  }

  lemma {:induction false} SearchSomeIsLeftmost(s: string, i: nat)
    requires SearchFrom(s, i).Some?
    ensures exists k :: i <= k && MatchAt(s, k) == SearchFrom(s, i)
                        && forall m :: i <= m < k ==> MatchAt(s, m).None?
    decreases |s| - i
  {
    if MatchAt(s, i).None? {
      SearchSomeIsLeftmost(s, i + 1);
      var k :| i + 1 <= k && MatchAt(s, k) == SearchFrom(s, i + 1)
               && forall m :: i + 1 <= m < k ==> MatchAt(s, m).None?;
      assert forall m :: i <= m < k ==> MatchAt(s, m).None?;
    } else {
      assert MatchAt(s, i) == SearchFrom(s, i);
    }
  }

  /**
   * `_extract_email_address`: the text inside the first `<...>` with at
   * least one character and no '>' in it; the whole input when there is none.
   */
  function ExtractEmailAddress(s: string): (r: string)
    ensures SearchFrom(s, 0).None? ==> r == s
    ensures SearchFrom(s, 0).Some? ==> r != [] && '>' !in r && exists i :: OccursAt(s, "<" + r + ">", i)
  {
    match SearchFrom(s, 0)
    case Some(g) =>
      SearchFindsLeftmost(s, 0);
      g
    case None => s
  }

  /** A string with no '<' comes back unchanged. */
  lemma NoAngleUnchanged(s: string)
    requires '<' !in s
    ensures ExtractEmailAddress(s) == s
  {
    SearchFindsLeftmost(s, 0);
    forall k: nat ensures MatchAt(s, k).None? {
      if k < |s| { assert s[k] != '<'; }
    }
  }

  /**
   * The name-addr form of RFC 5322 section 3.4: a display name without '<',
   * then the address in angle brackets, gives the address.
   */
  lemma AngleAddress(name: string, addr: string, rest: string)
    requires '<' !in name
    requires addr != [] && '>' !in addr
    ensures ExtractEmailAddress(name + "<" + addr + ">" + rest) == addr
  {
    var s := name + "<" + addr + ">" + rest;
    var i := |name|;
    forall m | 0 <= m < i ensures MatchAt(s, m).None? {
      assert s[m] == name[m];
    }
    assert s[i] == '<';
    forall k | i + 1 <= k < i + 1 + |addr| ensures s[k] != '>' {
      assert s[k] == addr[k - i - 1];
    }
    assert s[i + 1 + |addr|] == '>';
    assert FindChar(s, '>', i + 1) == Some(i + 1 + |addr|);
    assert s[i + 1..i + 1 + |addr|] == addr;
    assert MatchAt(s, i) == Some(addr);
    SearchFindsLeftmost(s, 0);
    var k :| 0 <= k && MatchAt(s, k) == SearchFrom(s, 0) && forall m :: 0 <= m < k ==> MatchAt(s, m).None?;
    assert !(k < i) && !(i < k);
  }

  // ---------------------------------------------------------------------------
  // Recipients and attachments

  /** Each comma-separated piece, stripped, then address-extracted. */
  function Addresses(pieces: seq<string>): (r: seq<string>)
    ensures |r| == |pieces|
    ensures forall i :: 0 <= i < |pieces| ==> r[i] == ExtractEmailAddress(Strip(pieces[i]))
  {
    seq(|pieces|, i requires 0 <= i < |pieces| => ExtractEmailAddress(Strip(pieces[i])))
  }

  /** The addresses of one header, none when the header is absent. */
  function FieldAddresses(headers: map<string, string>, field: string): seq<string> {
    if field in headers then Addresses(Split(headers[field], ',')) else []
  }

  /** The recipients: the To addresses, then the Cc addresses. */
  function Recipients(headers: map<string, string>): seq<string> {
    FieldAddresses(headers, "to") + FieldAddresses(headers, "cc")
  }

  /** There is one recipient per comma-separated piece of each present field, To first. */
  lemma RecipientsLayout(headers: map<string, string>)
    ensures var to := FieldAddresses(headers, "to");
            && Recipients(headers)[..|to|] == to
            && Recipients(headers)[|to|..] == FieldAddresses(headers, "cc")
            && |to| == (if "to" in headers then |Split(headers["to"], ',')| else 0)
            && |FieldAddresses(headers, "cc")| == (if "cc" in headers then |Split(headers["cc"], ',')| else 0)
  {
  }

  /**
   * A To header written as a comma-separated list of bare addresses gives
   * back exactly that list.
   */
  lemma PlainToListRoundTrip(addrs: seq<string>)
    requires |addrs| >= 1
    requires forall i :: 0 <= i < |addrs| ==> ',' !in addrs[i] && '<' !in addrs[i] && Strip(addrs[i]) == addrs[i]
    ensures Recipients(map["to" := Join([','], addrs)]) == addrs
  {
    var s := Join([','], addrs);
    var h := map["to" := s];
    SplitJoin(addrs, ',');
    PlainAddressesUnchanged(addrs);
    assert FieldAddresses(h, "to") == addrs;
    assert FieldAddresses(h, "cc") == [] by { assert "cc" !in h; }
    assert Recipients(h) == addrs + [];
  }

  lemma PlainAddressesUnchanged(addrs: seq<string>)
    requires forall i :: 0 <= i < |addrs| ==> '<' !in addrs[i] && Strip(addrs[i]) == addrs[i]
    ensures Addresses(addrs) == addrs
  {
    var r := Addresses(addrs);
    forall i | 0 <= i < |addrs| ensures r[i] == addrs[i] {
      NoAngleUnchanged(addrs[i]);
    }
  }

  /** The inner loop over one field's comma-separated pieces. */
  method AppendAddresses(acc: seq<string>, pieces: seq<string>) returns (out: seq<string>)
    ensures out == acc + Addresses(pieces)
  {
    out := acc;
    var j := 0;
    while j < |pieces|
      invariant 0 <= j <= |pieces|
      invariant out == acc + Addresses(pieces[..j])
    {
      assert Addresses(pieces[..j + 1]) == Addresses(pieces[..j]) + [ExtractEmailAddress(Strip(pieces[j]))];
      out := out + [ExtractEmailAddress(Strip(pieces[j]))];
      j := j + 1;
    }
    assert pieces[..|pieces|] == pieces;
  }

  /** `_parse_email`'s recipient loop. */
  method CollectRecipients(headers: map<string, string>) returns (recipients: seq<string>)
    ensures recipients == Recipients(headers)
  {
    recipients := [];
    var fields := ["to", "cc"];
    var f := 0;
    while f < 2
      invariant 0 <= f <= 2
      invariant recipients == if f == 0 then [] else if f == 1 then FieldAddresses(headers, "to") else Recipients(headers)
    {
      var field := fields[f];
      if field in headers {
        recipients := AppendAddresses(recipients, Split(headers[field], ','));
      }
      f := f + 1;
    }
  }

  function AttachmentOf(p: Part): Attachment {
    Attachment(p.filename.GetOr(""), p.mimeType.GetOr(""), p.size.GetOr(0))
  }

  /** The attachments: the parts with a non-empty file name, in order. */
  function Attachments(parts: seq<Part>): seq<Attachment> {
    if parts == [] then []
    else
      var n := |parts| - 1;
      Attachments(parts[..n]) + (if Truthy(parts[n].filename) then [AttachmentOf(parts[n])] else [])
  }

  /** Attachments keep the part order: the list for two runs of parts is the list of each, in turn. */
  lemma {:induction false} AttachmentsAppend(a: seq<Part>, b: seq<Part>)
    ensures Attachments(a + b) == Attachments(a) + Attachments(b)
    decreases |b|
  {
    if b == [] {
      assert a + b == a;
    } else {
      var n := |b| - 1;
      var ab := a + b;
      assert ab[..|ab| - 1] == a + b[..n];
      assert ab[|ab| - 1] == b[n];
      AttachmentsAppend(a, b[..n]);
    }
  }

  /**
   * Every attachment comes from a part with a file name, with its MIME type
   * ("" when missing) and size (0 when missing), and every such part gives one.
   */
  lemma {:induction false} AttachmentsSound(parts: seq<Part>)
    ensures |Attachments(parts)| <= |parts|
    ensures forall a :: a in Attachments(parts) <==> exists p :: p in parts && Truthy(p.filename) && a == AttachmentOf(p)
  {
    if parts != [] {
      var n := |parts| - 1;
      assert parts == parts[..n] + [parts[n]];
      AttachmentsSound(parts[..n]);
    }
  }

  /** `_parse_email`'s attachment loop. */
  method CollectAttachments(parts: seq<Part>) returns (attachments: seq<Attachment>)
    ensures attachments == Attachments(parts)
  {
    attachments := [];
    var i := 0;
    while i < |parts|
      invariant 0 <= i <= |parts|
      invariant attachments == Attachments(parts[..i])
    {
      assert parts[..i + 1][..i] == parts[..i];
      if Truthy(parts[i].filename) {
        attachments := attachments + [AttachmentOf(parts[i])];
      }
      i := i + 1;
    }
    assert parts[..|parts|] == parts;
  }

  // ---------------------------------------------------------------------------
  // Body text

  /**
   * The pieces of body text collected from the parts, or `None` when a
   * decoding raised: every text/plain part with data, and a text/html part
   * with data (stripped of markup) only while nothing has been collected.
   */
  function Pieces(parts: seq<Part>, decode: string -> Option<string>, stripHtml: string -> string)
    : Option<seq<string>>
  {
    if parts == [] then Some([])
    else
      var n := |parts| - 1;
      var p := parts[n];
      match Pieces(parts[..n], decode, stripHtml)
      case None => None
      case Some(acc) =>
        if p.mimeType == Some("text/plain") then
          if p.data == "" then Some(acc)
          else match decode(p.data)
               case Some(text) => Some(acc + [text])
               case None => None
        else if p.mimeType == Some("text/html") && acc == [] then
          if p.data == "" then Some(acc)
          else match decode(p.data)
               case Some(html) => Some(acc + [stripHtml(html)])
               case None => None
        else Some(acc)
  }

  predicate IsHtml(p: Part) {
    p.mimeType == Some("text/html")
  }

  /** The decoded text/plain parts with data, in order; `None` when one fails to decode. */
  function PlainTexts(parts: seq<Part>, decode: string -> Option<string>): Option<seq<string>> {
    if parts == [] then Some([])
    else
      var n := |parts| - 1;
      var p := parts[n];
      match PlainTexts(parts[..n], decode)
      case None => None
      case Some(acc) =>
        if p.mimeType == Some("text/plain") && p.data != "" then
          match decode(p.data)
          case Some(text) => Some(acc + [text])
          case None => None
        else Some(acc)
  }

  /** Without HTML parts, the body is exactly the plain-text parts, in order. */
  lemma {:induction false} NoHtmlIsPlainOnly(parts: seq<Part>, decode: string -> Option<string>, stripHtml: string -> string)
    requires forall i :: 0 <= i < |parts| ==> !IsHtml(parts[i])
    ensures Pieces(parts, decode, stripHtml) == PlainTexts(parts, decode)
  {
    if parts != [] {
      var n := |parts| - 1;
      assert !IsHtml(parts[n]);
      NoHtmlIsPlainOnly(parts[..n], decode, stripHtml);
    }
  }

  /** Once a piece is collected, a later HTML part is ignored. */
  lemma HtmlAfterTextIgnored(parts: seq<Part>, p: Part, decode: string -> Option<string>, stripHtml: string -> string)
    requires IsHtml(p)
    requires Pieces(parts, decode, stripHtml).Some? && Pieces(parts, decode, stripHtml).value != []
    ensures Pieces(parts + [p], decode, stripHtml) == Pieces(parts, decode, stripHtml)
  {
    assert (parts + [p])[..|parts|] == parts;
  }

  /** An HTML part ahead of a plain-text part keeps both: the stripped HTML first, then the text. */
  lemma HtmlBeforePlainKeepsBoth(h: Part, t: Part, decode: string -> Option<string>, stripHtml: string -> string)
    requires IsHtml(h) && h.data != "" && decode(h.data).Some?
    requires t.mimeType == Some("text/plain") && t.data != "" && decode(t.data).Some?
    ensures Pieces([h, t], decode, stripHtml) == Some([stripHtml(decode(h.data).value), decode(t.data).value])
  {
    var x, y := decode(h.data).value, decode(t.data).value;
    assert "text/html" != "text/plain" by { assert "text/html"[5] != "text/plain"[5]; }
    assert [h][..0] == [];
    assert [] + [stripHtml(x)] == [stripHtml(x)];
    assert Pieces([h], decode, stripHtml) == Some([stripHtml(x)]);
    var ht := [h, t];
    assert ht[..1] == [h] && ht[1] == t;
    assert [stripHtml(x)] + [y] == [stripHtml(x), y];
  }

  /**
   * The body text: with no parts, the decoded top-level body when there is
   * one; otherwise the collected pieces joined by newlines.
   */
  function Content(msg: Message, decode: string -> Option<string>, stripHtml: string -> string): Option<string> {
    if msg.parts == [] && msg.bodyData != "" then decode(msg.bodyData)
    else
      match Pieces(msg.parts, decode, stripHtml)
      case Some(ps) => Some(Join("\n", ps))
      case None => None
  }

  /** A message with neither parts nor body data has an empty body. */
  lemma EmptyMessageHasEmptyBody(msg: Message, decode: string -> Option<string>, stripHtml: string -> string)
    requires msg.parts == [] && msg.bodyData == ""
    ensures Content(msg, decode, stripHtml) == Some("")
  {
  }

  /** `_get_email_content`; `None` stands for a decoding error, which propagates. */
  method GetEmailContent(msg: Message, decode: string -> Option<string>, stripHtml: string -> string)
    returns (r: Option<string>)
    ensures r == Content(msg, decode, stripHtml)
  {
    var parts := msg.parts;
    if parts == [] && msg.bodyData != "" {
      return decode(msg.bodyData);
    }
    var bodyText: seq<string> := [];
    var i := 0;
    while i < |parts|
      invariant 0 <= i <= |parts|
      invariant Pieces(parts[..i], decode, stripHtml) == Some(bodyText)
    {
      assert parts[..i + 1][..i] == parts[..i];
      assert parts[..i + 1][i] == parts[i];
      var part := parts[i];
      if part.mimeType == Some("text/plain") {
        if part.data != "" {
          var text := decode(part.data);
          if text.None? {
            assert Pieces(parts[..i + 1], decode, stripHtml) == None;
            PiecesNoneStays(parts, i + 1, decode, stripHtml);
            return None;
          }
          bodyText := bodyText + [text.value];
        }
      } else if part.mimeType == Some("text/html") && bodyText == [] {
        if part.data != "" {
          var html := decode(part.data);
          if html.None? {
            assert Pieces(parts[..i + 1], decode, stripHtml) == None;
            PiecesNoneStays(parts, i + 1, decode, stripHtml);
            return None;
          }
          bodyText := bodyText + [stripHtml(html.value)];
        }
      }
      i := i + 1;
    }
    assert parts[..|parts|] == parts;
    return Some(Join("\n", bodyText));
  }

  /** A decoding error in a prefix of the parts is an error for all of them. */
  lemma {:induction false} PiecesNoneStays(parts: seq<Part>, k: nat, decode: string -> Option<string>,
                                           stripHtml: string -> string)
    requires k <= |parts|
    requires Pieces(parts[..k], decode, stripHtml).None?
    ensures Pieces(parts, decode, stripHtml).None?
    decreases |parts| - k
  {
    if k < |parts| {
      assert parts[..k + 1][..k] == parts[..k];
      PiecesNoneStays(parts, k + 1, decode, stripHtml);
    } else {
      assert parts[..k] == parts;
    }
  }

  // ---------------------------------------------------------------------------
  // Whole messages

  /**
   * `_parse_email`: `None` when the message lacks an id or thread id or a
   * body part fails to decode; otherwise the email with the subject header
   * (or "(No Subject)"), the address of the From header, the recipients, the
   * resolved date, the body text, the labels and snippet (empty when
   * missing) and the attachments.
   */
  function Parsed(msg: Message, decode: string -> Option<string>, stripHtml: string -> string,
                  resolveDate: Message -> DateTime): Option<Email>
  {
    var headers := HeaderMap(msg.headers);
    match Content(msg, decode, stripHtml)
    case None => None
    case Some(body) =>
      if msg.id.None? || msg.threadId.None? then None
      else
        Some(Email(msg.id.value, msg.threadId.value,
                   if "subject" in headers then headers["subject"] else "(No Subject)",
                   ExtractEmailAddress(if "from" in headers then headers["from"] else ""),
                   Recipients(headers), resolveDate(msg), body,
                   msg.labelIds.GetOr([]), msg.snippet.GetOr(""), Attachments(msg.parts)))
  }

  /**
   * The subject falls back to "(No Subject)" only when no header is named
   * "subject" in any letter case; a present but empty subject stays empty.
   */
  lemma SubjectDefault(msg: Message, decode: string -> Option<string>, stripHtml: string -> string,
                       resolveDate: Message -> DateTime)
    requires Parsed(msg, decode, stripHtml, resolveDate).Some?
    ensures (forall i :: 0 <= i < |msg.headers| ==> ToLower(msg.headers[i].name) != "subject") ==>
              Parsed(msg, decode, stripHtml, resolveDate).value.subject == "(No Subject)"
    ensures (exists i :: 0 <= i < |msg.headers| && msg.headers[i].name == "Subject" && msg.headers[i].value == ""
                         && forall j :: i < j < |msg.headers| ==> ToLower(msg.headers[j].name) != "subject") ==>
              Parsed(msg, decode, stripHtml, resolveDate).value.subject == ""
  {
    ParsedSubject(msg, decode, stripHtml, resolveDate);
    var hs := msg.headers;
    if forall i :: 0 <= i < |hs| ==> ToLower(hs[i].name) != "subject" {
      NoSubjectKey(hs);
    }
    if exists i :: 0 <= i < |hs| && hs[i].name == "Subject" && hs[i].value == ""
                   && forall j :: i < j < |hs| ==> ToLower(hs[j].name) != "subject" {
      var i :| 0 <= i < |hs| && hs[i].name == "Subject" && hs[i].value == ""
               && forall j :: i < j < |hs| ==> ToLower(hs[j].name) != "subject";
      EmptySubjectKey(hs, i);
    }
  }

  /** A last "Subject" header with an empty value puts an empty subject in the header map. */
  lemma EmptySubjectKey(hs: seq<Header>, i: nat)
    requires i < |hs| && hs[i].name == "Subject" && hs[i].value == ""
    requires forall j :: i < j < |hs| ==> ToLower(hs[j].name) != "subject"
    ensures "subject" in HeaderMap(hs) && HeaderMap(hs)["subject"] == ""
  {
    SubjectNameLowers(hs[i].name);
    HeaderMapLastWins(hs, i);
  }

  /** "Subject" lower-cases to the dictionary key "subject". */
  lemma SubjectNameLowers(name: string)
    requires name == "Subject"
    ensures ToLower(name) == "subject"
  {
  }

  /** The subject of a parsed email is the subject header, or "(No Subject)" without one. */
  lemma ParsedSubject(msg: Message, decode: string -> Option<string>, stripHtml: string -> string,
                      resolveDate: Message -> DateTime)
    requires Parsed(msg, decode, stripHtml, resolveDate).Some?
    ensures var headers := HeaderMap(msg.headers);
            Parsed(msg, decode, stripHtml, resolveDate).value.subject
            == if "subject" in headers then headers["subject"] else "(No Subject)"
  {
  }

  /** Without a header named subject in any case, the header map has no subject key. */
  lemma NoSubjectKey(hs: seq<Header>)
    requires forall i :: 0 <= i < |hs| ==> ToLower(hs[i].name) != "subject"
    ensures "subject" !in HeaderMap(hs)
  {
    HeaderMapKeys(hs);
  }

  /** A parsed email keeps the message's ids, and its sender is the From address. */
  lemma ParsedFields(msg: Message, decode: string -> Option<string>, stripHtml: string -> string,
                     resolveDate: Message -> DateTime)
    ensures Parsed(msg, decode, stripHtml, resolveDate).Some? <==>
              msg.id.Some? && msg.threadId.Some? && Content(msg, decode, stripHtml).Some?
    ensures Parsed(msg, decode, stripHtml, resolveDate).Some? ==>
              var e := Parsed(msg, decode, stripHtml, resolveDate).value;
              && e.id == msg.id.value && e.threadId == msg.threadId.value
              && e.body == Content(msg, decode, stripHtml).value
              && e.attachments == Attachments(msg.parts)
              && e.recipients == Recipients(HeaderMap(msg.headers))
  {
  }

  /** `_parse_email`. */
  method ParseEmail(msg: Message, decode: string -> Option<string>, stripHtml: string -> string,
                    resolveDate: Message -> DateTime)
    returns (r: Option<Email>)
    ensures r == Parsed(msg, decode, stripHtml, resolveDate)
  {
    var headers := ParseEmailHeaders(msg.headers);
    var date := resolveDate(msg);
    var sender := ExtractEmailAddress(if "from" in headers then headers["from"] else "");
    var recipients := CollectRecipients(headers);
    var attachments := CollectAttachments(msg.parts);
    if msg.id.None? || msg.threadId.None? {
      return None;
    }
    var subject := if "subject" in headers then headers["subject"] else "(No Subject)";
    var body := GetEmailContent(msg, decode, stripHtml);
    if body.None? {
      return None;
    }
    r := Some(Email(msg.id.value, msg.threadId.value, subject, sender, recipients, date, body.value,
                    msg.labelIds.GetOr([]), msg.snippet.GetOr(""), attachments));
  }

  // ---------------------------------------------------------------------------
  // Listing and fetching

  /**
   * One answer of `messages.list`: an `HttpError`, any other exception (a
   * transport error, say), or a page of ids with an optional next-page token.
   * Building the service sits inside the same `try`, so its failure is the
   * first answer.
   */
  datatype PageAnswer = PageHttpError | PageFailed | Page(ids: seq<string>, nextToken: Option<string>)

  /** How the listing loop ends: with the ids gathered, or with either kind of exception. */
  datatype ListOutcome = Listed(ids: seq<string>) | ListHttpError | ListFailed

  /** `max_results` is a limit when it is truthy (present and non-zero). */
  predicate Limited(maxResults: Option<int>) {
    maxResults.Some? && maxResults.value != 0
  }

  /**
   * The listing loop from page `k` on, with the ids gathered so far in
   * `acc`. The `k`-th request is answered by `pages[k]`; past the last
   * answer the listing ends.
   */
  function ListFrom(pages: seq<PageAnswer>, maxResults: Option<int>, k: nat, acc: seq<string>): ListOutcome
    decreases |pages| - k
  {
    if k >= |pages| then Listed(acc)
    else
      match pages[k]
      case PageHttpError => ListHttpError
      case PageFailed => ListFailed
      case Page(ids, token) =>
        var all := acc + ids;
        if Limited(maxResults) && |all| >= maxResults.value then Listed(PyPrefix(all, maxResults.value))
        else if !Truthy(token) then Listed(all)
        else ListFrom(pages, maxResults, k + 1, all)
  }

  /**
   * What `get_all_messages` gives for a listing: the ids, an empty list for a
   * caught `HttpError`, and the propagated exception for anything else.
   */
  function ListingResult(outcome: ListOutcome): (r: Result<seq<string>>)
    ensures r.Err? <==> outcome.ListFailed?
    ensures outcome.ListHttpError? ==> r == Ok([])
    ensures outcome.Listed? ==> r == Ok(outcome.ids)
  {
    match outcome
    case Listed(ids) => Ok(ids)
    case ListHttpError => Ok([])
    case ListFailed => Err(BackendFailed)
  }

  /** The ids the service serves from page `k` on: each page's ids, up to the page with no next token. */
  function Served(pages: seq<PageAnswer>, k: nat): seq<string>
    decreases |pages| - k
  {
    if k >= |pages| then []
    else
      match pages[k]
      case Page(ids, token) => ids + (if Truthy(token) then Served(pages, k + 1) else [])
      case _ => []
  }

  predicate NoErrors(pages: seq<PageAnswer>) {
    forall k :: 0 <= k < |pages| ==> pages[k].Page?
  }

  /** Without a limit, the listing is every served id, in page order. */
  lemma {:induction false} UnlimitedListsAll(pages: seq<PageAnswer>, maxResults: Option<int>, k: nat, acc: seq<string>)
    requires !Limited(maxResults) && NoErrors(pages)
    ensures ListFrom(pages, maxResults, k, acc) == Listed(acc + Served(pages, k))
    decreases |pages| - k
  {
    if k < |pages| {
      var ids := pages[k].ids;
      if Truthy(pages[k].nextToken) {
        UnlimitedListsAll(pages, maxResults, k + 1, acc + ids);
        assert Served(pages, k) == ids + Served(pages, k + 1);
        assert (acc + ids) + Served(pages, k + 1) == acc + (ids + Served(pages, k + 1));
      } else {
        assert pages[k] == Page(ids, pages[k].nextToken);
        assert Served(pages, k) == ids + [] == ids;
        assert ListFrom(pages, maxResults, k, acc) == Listed(acc + ids);
      }
    } else {
      assert Served(pages, k) == [];
      assert acc + [] == acc;
    }
  }

  /** A prefix of `n` or more elements determines the first `n`. */
  lemma PrefixOfLonger(s: seq<string>, t: seq<string>, n: nat)
    requires n <= |s|
    ensures PyPrefix(s + t, n) == PyPrefix(s, n)
  {
    assert PyPrefix(s + t, n) == (s + t)[..n];
    assert PyPrefix(s, n) == s[..n];
  }

  /** With a positive limit, the listing is the first `max_results` served ids (all of them if fewer). */
  lemma {:induction false} LimitedListsPrefix(pages: seq<PageAnswer>, m: int, k: nat, acc: seq<string>)
    requires m > 0 && |acc| < m && NoErrors(pages)
    ensures ListFrom(pages, Some(m), k, acc) == Listed(PyPrefix(acc + Served(pages, k), m))
    decreases |pages| - k
  {
    if k >= |pages| {
      assert acc + Served(pages, k) == acc;
    } else {
      var ids := pages[k].ids;
      var all := acc + ids;
      var rest := if Truthy(pages[k].nextToken) then Served(pages, k + 1) else [];
      assert acc + Served(pages, k) == all + rest;
      if |all| >= m {
        PrefixOfLonger(all, rest, m);
      } else if Truthy(pages[k].nextToken) {
        LimitedListsPrefix(pages, m, k + 1, all);
      } else {
        assert all + rest == all;
      }
    }
  }

  /**
   * `get_all_messages`: the ids of every page until one has no next token,
   * cut to `max_results` once that many are gathered; an `HttpError` gives
   * an empty list, and any other exception propagates.
   */
  method GetAllMessages(pages: seq<PageAnswer>, maxResults: Option<int>) returns (r: Result<seq<string>>)
    ensures r == ListingResult(ListFrom(pages, maxResults, 0, []))
  {
    var messageIds := [];
    var k := 0;
    while k < |pages|
      invariant 0 <= k <= |pages|
      invariant ListFrom(pages, maxResults, k, messageIds) == ListFrom(pages, maxResults, 0, [])
      decreases |pages| - k
    {
      match pages[k]
      case PageHttpError =>
        return Ok([]);
      case PageFailed =>
        return Err(BackendFailed);
      case Page(ids, token) =>
        messageIds := messageIds + ids;
        if Limited(maxResults) && |messageIds| >= maxResults.value {
          return Ok(PyPrefix(messageIds, maxResults.value));
        }
        if !Truthy(token) {
          return Ok(messageIds);
        }
      k := k + 1;
    }
    r := Ok(messageIds);
  }

  /** The listing with a positive limit has at most that many ids, and they are the first served. */
  lemma ListingRespectsLimit(pages: seq<PageAnswer>, m: int)
    requires m > 0 && NoErrors(pages)
    ensures ListFrom(pages, Some(m), 0, []).Listed?
    ensures var r := ListFrom(pages, Some(m), 0, []).ids;
            |r| == Min(m, |Served(pages, 0)|) && r <= Served(pages, 0)
  {
    LimitedListsPrefix(pages, m, 0, []);
    assert [] + Served(pages, 0) == Served(pages, 0);
  }

  /** One answer of `messages.get`: an `HttpError`, any other exception, or the message. */
  datatype GetAnswer = GetHttpError | GetFailed | Got(msg: Message)

  /**
   * The emails of `fetch_emails`, in the order of the ids: one per message
   * that was fetched and that `parse` turns into an email.
   */
  function Fetched(ids: seq<string>, fetch: string -> GetAnswer, parse: Message -> Option<Email>): seq<Email> {
    if ids == [] then []
    else
      var n := |ids| - 1;
      Fetched(ids[..n], fetch, parse)
        + match fetch(ids[n])
          case Got(msg) =>
            (match parse(msg)
             case Some(e) => [e]
             case None => [])
          case _ => []
  }

  /** Some request raised an exception other than `HttpError`, which the per-message handler lets through. */
  predicate AnyGetFailed(ids: seq<string>, fetch: string -> GetAnswer) {
    exists i :: 0 <= i < |ids| && fetch(ids[i]).GetFailed?
  }

  /** Fetching keeps the id order: the emails for two runs of ids are the emails of each, in turn. */
  lemma {:induction false} FetchedAppend(a: seq<string>, b: seq<string>, fetch: string -> GetAnswer,
                                         parse: Message -> Option<Email>)
    ensures Fetched(a + b, fetch, parse) == Fetched(a, fetch, parse) + Fetched(b, fetch, parse)
    decreases |b|
  {
    if b == [] {
      assert a + b == a;
    } else {
      var n := |b| - 1;
      var ab := a + b;
      assert ab[..|ab| - 1] == a + b[..n];
      assert ab[|ab| - 1] == b[n];
      FetchedAppend(a, b[..n], fetch, parse);
    }
  }

  /** Every email fetched is the parse of the message some id fetched; there are at most as many as ids. */
  lemma {:induction false} FetchedSound(ids: seq<string>, fetch: string -> GetAnswer,
                                        parse: Message -> Option<Email>)
    ensures |Fetched(ids, fetch, parse)| <= |ids|
    ensures forall e :: e in Fetched(ids, fetch, parse) ==>
              exists id :: id in ids && fetch(id).Got? && parse(fetch(id).msg) == Some(e)
  {
    if ids != [] {
      var n := |ids| - 1;
      FetchedSound(ids[..n], fetch, parse);
      forall e | e in Fetched(ids, fetch, parse)
        ensures exists id :: id in ids && fetch(id).Got? && parse(fetch(id).msg) == Some(e)
      {
        if e in Fetched(ids[..n], fetch, parse) {
          var id :| id in ids[..n] && fetch(id).Got? && parse(fetch(id).msg) == Some(e);
          assert id in ids;
        } else {
          assert ids[n] in ids;
        }
      }
    }
  }

  /** When every message is fetched and parses, there is one email per id, in order. */
  lemma {:induction false} AllFetchedKeepsEveryId(ids: seq<string>, fetch: string -> GetAnswer,
                                                  parse: Message -> Option<Email>)
    requires forall id :: id in ids ==> fetch(id).Got? && parse(fetch(id).msg).Some?
    ensures |Fetched(ids, fetch, parse)| == |ids|
    ensures forall i :: 0 <= i < |ids| ==> Fetched(ids, fetch, parse)[i] == parse(fetch(ids[i]).msg).value
  {
    if ids != [] {
      var n := |ids| - 1;
      assert ids[n] in ids;
      forall id | id in ids[..n] ensures fetch(id).Got? && parse(fetch(id).msg).Some? {
        assert id in ids;
      }
      AllFetchedKeepsEveryId(ids[..n], fetch, parse);
    }
  }

  /**
   * `fetch_emails`: the loop over the ids, keeping what was fetched and
   * parsed. An `HttpError` skips one id; any other exception, or a failure to
   * build the service (`serviceOk` false), reaches the outer handler, which
   * discards everything fetched so far and returns no emails. The answers
   * are given per id, so an id listed twice gets the same answer both times,
   * where the source requests it twice.
   */
  method FetchEmails(serviceOk: bool, ids: seq<string>, fetch: string -> GetAnswer, decode: string -> Option<string>,
                     stripHtml: string -> string, resolveDate: Message -> DateTime)
    returns (emails: seq<Email>)
    ensures !serviceOk || AnyGetFailed(ids, fetch) ==> emails == []
    ensures serviceOk && !AnyGetFailed(ids, fetch) ==>
              emails == Fetched(ids, fetch, m => Parsed(m, decode, stripHtml, resolveDate))
  {
    if !serviceOk {
      return [];
    }
    emails := [];
    var i := 0;
    while i < |ids|
      invariant 0 <= i <= |ids|
      invariant FetchRun(ids[..i], fetch, m => Parsed(m, decode, stripHtml, resolveDate)) == Some(emails)
    {
      assert ids[..i + 1][..i] == ids[..i];
      var answer := fetch(ids[i]);
      if answer.GetFailed? {
        assert AnyGetFailed(ids, fetch);
        return [];
      }
      if answer.Got? {
        var email := ParseEmail(answer.msg, decode, stripHtml, resolveDate);
        if email.Some? {
          emails := emails + [email.value];
        }
      }
      i := i + 1;
    }
    assert ids[..|ids|] == ids;
    FetchRunAgrees(ids, fetch, m => Parsed(m, decode, stripHtml, resolveDate));
  }

  /**
   * The per-message loop of `fetch_emails` on its own: the emails gathered,
   * or `None` once a request raises an exception other than `HttpError`.
   */
  function FetchRun(ids: seq<string>, fetch: string -> GetAnswer, parse: Message -> Option<Email>): Option<seq<Email>> {
    if ids == [] then Some([])
    else
      var n := |ids| - 1;
      match FetchRun(ids[..n], fetch, parse)
      case None => None
      case Some(es) =>
        match fetch(ids[n])
        case GetFailed => None
        case GetHttpError => Some(es)
        case Got(msg) =>
          (match parse(msg)
           case Some(e) => Some(es + [e])
           case None => Some(es))
  }

  /**
   * The loop runs to the end exactly when no request fails other than with
   * `HttpError`, and then it gathers the fetched emails.
   */
  lemma {:induction false} FetchRunAgrees(ids: seq<string>, fetch: string -> GetAnswer, parse: Message -> Option<Email>)
    ensures FetchRun(ids, fetch, parse).Some? <==> !AnyGetFailed(ids, fetch)
    ensures FetchRun(ids, fetch, parse).Some? ==> FetchRun(ids, fetch, parse).value == Fetched(ids, fetch, parse)
  {
    if ids != [] {
      var n := |ids| - 1;
      FetchRunAgrees(ids[..n], fetch, parse);
      if AnyGetFailed(ids[..n], fetch) {
        var i :| 0 <= i < n && fetch(ids[..n][i]).GetFailed?;
        assert ids[i] == ids[..n][i];
      }
      if AnyGetFailed(ids, fetch) && !fetch(ids[n]).GetFailed? {
        var i :| 0 <= i < |ids| && fetch(ids[i]).GetFailed?;
        assert ids[..n][i] == ids[i];
      }
    }
  }
}
