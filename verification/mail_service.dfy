/** The deterministic steps of the Gmail service (servers/mail/service.py):
    which message ids `recieve_emails` fetches and in what order, which
    MIME part becomes the body and how it is trimmed, and how
    `send_email_with_attachments` names and orders its attachments. SMTP,
    IMAP, header decoding and payload decoding are not modelled: fetched
    messages arrive already parsed, and delivery is a parameter. */
module MailService {
  import opened Wrappers
  import MailUtils

  /** Python's normalisation of a slice start against a list of length `n`:
      a negative start counts from the end, and the result is clamped to
      `[0, n]`. */
  function SliceStart(n: nat, start: int): (k: nat)
    ensures k <= n
  {
    if start < 0 then (if start + n < 0 then 0 else start + n)
    else if start > n then n
    else start
  }

  /** `mail_ids[-limit:]`. */
  function LatestIds<T>(ids: seq<T>, limit: int): (r: seq<T>)
    ensures |r| <= |ids| && r == ids[|ids| - |r|..]
    ensures 0 <= limit <= |ids| ==> |r| == (if limit == 0 then |ids| else limit)
  {
    ids[SliceStart(|ids|, -limit)..]
  }

  function Reverse<T>(s: seq<T>): (r: seq<T>)
    ensures |r| == |s|
    ensures forall k :: 0 <= k < |s| ==> r[k] == s[|s| - 1 - k]
  {
    if |s| == 0 then [] else Reverse(s[1..]) + [s[0]]
  }

  /** `reversed(mail_ids[-limit:])`: the ids fetched, in fetch order. The
      result is always a suffix of the ids, newest first. How many:
      `limit` of them for `1 <= limit <= n`; all of them for `limit == 0`
      (since `-0` is `0`) and for `limit > n` (the slice clamps); and for a
      negative `limit`, all but the first `-limit`. */
  function FetchOrder<T>(ids: seq<T>, limit: int): (r: seq<T>)
    ensures |r| <= |ids|
    ensures forall k :: 0 <= k < |r| ==> r[k] == ids[|ids| - 1 - k]
    ensures 1 <= limit <= |ids| ==> |r| == limit
    ensures limit == 0 || limit > |ids| ==> |r| == |ids|
    ensures limit < 0 ==> |r| == (if -limit >= |ids| then 0 else |ids| + limit)
  {
    Reverse(LatestIds(ids, limit))
  }

  /** One node of `msg.walk()`: its content type, its Content-Disposition
      header if any, and its payload already decoded as UTF-8. */
  datatype Part = Part(contentType: string, disposition: Option<string>, text: string)

  /** A message body: a single payload, or the nodes `walk()` visits in
      order (for a multipart message the first is the container itself). */
  datatype MimeBody = SinglePart(text: string) | Multipart(walk: seq<Part>)

  /** A fetched message: the From header (absent is `None`), the decoded
      subject, and the body. */
  datatype Message = Message(sender: Option<string>, subject: string, body: MimeBody)

  /** One entry of the result: `{"from": ..., "subject": ..., "body": ...}`. */
  datatype EmailSummary = EmailSummary(sender: Option<string>, subject: string, body: string)

  /** The part that may serve as the body: plain text, not an attachment. */
  predicate IsPlainBody(p: Part)
  {
    p.contentType == "text/plain" && p.disposition.None?
  }

  /** The loop over `msg.walk()` that stops at the first plain-text part
      without a Content-Disposition; `""` when there is none. */
  function FirstPlainText(walk: seq<Part>): (r: string)
    ensures (forall i :: 0 <= i < |walk| ==> !IsPlainBody(walk[i])) ==> r == ""
    ensures forall k :: (0 <= k < |walk| && IsPlainBody(walk[k])
      && (forall j :: 0 <= j < k ==> !IsPlainBody(walk[j]))) ==> r == walk[k].text
    ensures || (forall i :: 0 <= i < |walk| ==> !IsPlainBody(walk[i]))
            || exists k :: && 0 <= k < |walk| && IsPlainBody(walk[k]) && r == walk[k].text
                           && forall j :: 0 <= j < k ==> !IsPlainBody(walk[j])
  {
    if |walk| == 0 then ""
    else if IsPlainBody(walk[0]) then walk[0].text
    else
      assert forall i :: 1 <= i < |walk| ==> walk[i] == walk[1..][i - 1];
      FirstPlainText(walk[1..])
  }

  /** The body text before trimming: the whole payload of a single-part
      message, else the first plain-text part without a
      Content-Disposition, or `""` when there is none. */
  function BodyText(body: MimeBody): (r: string)
    ensures body.SinglePart? ==> r == body.text
    ensures body.Multipart? ==>
      || (r == "" && forall i :: 0 <= i < |body.walk| ==> !IsPlainBody(body.walk[i]))
      || exists k :: && 0 <= k < |body.walk| && IsPlainBody(body.walk[k]) && r == body.walk[k].text
                     && forall j :: 0 <= j < k ==> !IsPlainBody(body.walk[j])
  {
    match body
    case SinglePart(text) => text
    case Multipart(walk) => FirstPlainText(walk)
  }

  /** Python's `str.isspace()` for one character. */
  predicate IsSpace(c: char)
  {
    || ('\t' <= c <= '\r') || ('\U{1C}' <= c <= '\U{1F}') || c == ' '
    || c == '\U{85}' || c == '\U{A0}' || c == '\U{1680}' || ('\U{2000}' <= c <= '\U{200A}')
    || c == '\U{2028}' || c == '\U{2029}' || c == '\U{202F}' || c == '\U{205F}' || c == '\U{3000}'
  }

  predicate AllSpace(s: string)
  {
    forall i :: 0 <= i < |s| ==> IsSpace(s[i])
  }

  /** Drops leading whitespace. */
  function StripLeft(s: string): (r: string)
    ensures |r| <= |s| && r == s[|s| - |r|..]
    ensures AllSpace(s[..|s| - |r|])
    ensures |r| > 0 ==> !IsSpace(r[0])
  {
    if |s| > 0 && IsSpace(s[0]) then StripLeft(s[1..]) else s
  }

  /** Drops trailing whitespace. */
  function StripRight(s: string): (r: string)
    ensures |r| <= |s| && r == s[..|r|]
    ensures AllSpace(s[|r|..])
    ensures |r| > 0 ==> !IsSpace(r[|r| - 1])
  {
    if |s| > 0 && IsSpace(s[|s| - 1]) then StripRight(s[..|s| - 1]) else s
  }

  /** `str.strip()`: the text between the leading and the trailing runs of
      whitespace. */
  function Strip(s: string): (r: string)
    ensures exists i, j :: 0 <= i <= j <= |s| && r == s[i..j] && AllSpace(s[..i]) && AllSpace(s[j..])
    ensures |r| > 0 ==> !IsSpace(r[0]) && !IsSpace(r[|r| - 1])
  {
    var left := StripLeft(s);
    var r := StripRight(left);
    var i := |s| - |left|;
    assert r == s[i..i + |r|];
    assert s[i + |r|..] == left[|r|..];
    r
  }

  /** The dict built for one fetched message. */
  function Summarize(m: Message): (r: EmailSummary)
    ensures r.sender == m.sender && r.subject == m.subject
    ensures |r.body| > 0 ==> !IsSpace(r.body[0]) && !IsSpace(r.body[|r.body| - 1])
    ensures var text := BodyText(m.body);
      exists i, j :: 0 <= i <= j <= |text| && r.body == text[i..j] && AllSpace(text[..i]) && AllSpace(text[j..])
  {
    EmailSummary(m.sender, m.subject, Strip(BodyText(m.body)))
  }

  /** `recieve_emails`: one summary per fetched id, in fetch order. `fetch`
      stands for the IMAP fetch and parse of one id. */
  method ReceiveEmails<Id>(ids: seq<Id>, limit: int, fetch: Id -> Message) returns (messages: seq<EmailSummary>)
    ensures |messages| == |FetchOrder(ids, limit)|
    ensures forall k :: 0 <= k < |messages| ==>
      messages[k] == Summarize(fetch(FetchOrder(ids, limit)[k]))
    ensures forall k :: 0 <= k < |messages| && |messages[k].body| > 0 ==>
      !IsSpace(messages[k].body[0]) && !IsSpace(messages[k].body[|messages[k].body| - 1])
  {
    messages := SummarizeInOrder(FetchOrder(ids, limit), id => Summarize(fetch(id)));
  }

  /** The loop body of `recieve_emails`, applied to each id in order. */
  method SummarizeInOrder<Id>(order: seq<Id>, summarize: Id -> EmailSummary) returns (messages: seq<EmailSummary>)
    ensures |messages| == |order|
    ensures forall k :: 0 <= k < |order| ==> messages[k] == summarize(order[k])
  {
    messages := [];
    var k := 0;
    while k < |order|
      invariant 0 <= k <= |order|
      invariant |messages| == k
      invariant forall m :: 0 <= m < k ==> messages[m] == summarize(order[m])
    {
      messages := messages + [summarize(order[k])];
      k := k + 1;
    }
  }

  /** An uploaded file: its `name` attribute, if it has one, and its bytes. */
  datatype Upload = Upload(name: Option<string>, content: MailUtils.Bytes)

  /** One `msg.add_attachment(...)` call. */
  datatype MailAttachment = MailAttachment(filename: string, maintype: string, subtype: string, content: MailUtils.Bytes)

  /** The message handed to SMTP. */
  datatype Email = Email(sender: string, to: string, subject: string, body: string, attachments: seq<MailAttachment>)

  /** `getattr(file, "name", f"attachment_{i}.bin")` for the `i`-th file. */
  function AttachmentFilename(i: nat, file: Upload): string
  {
    file.name.GetOr(MailUtils.AttachmentName(i))
  }

  /** The attachment loop: every file in order, as an octet stream, under
      its own name or the numbered default. */
  function AttachmentParts(files: seq<Upload>): (r: seq<MailAttachment>)
    ensures |r| == |files|
    ensures forall i :: 0 <= i < |files| ==>
      && r[i].maintype == "application" && r[i].subtype == "octet-stream"
      && r[i].content == files[i].content
      && (files[i].name.Some? ==> r[i].filename == files[i].name.value)
      && (files[i].name.None? ==> r[i].filename == MailUtils.AttachmentName(i + 1))
  {
    seq(|files|, i requires 0 <= i < |files| =>
      MailAttachment(AttachmentFilename(i + 1, files[i]), "application", "octet-stream", files[i].content))
  }

  /** `send_email_with_attachments`: the message it composes and whether it
      went out. `deliver` stands for the SMTP session; an exception there
      is `false`. */
  function SendEmailWithAttachments(account: string, to: string, subject: string, body: string,
                                    files: seq<Upload>, deliver: Email -> bool): (r: (Email, bool))
    ensures r.0.sender == account && r.0.to == to && r.0.subject == subject && r.0.body == body
    ensures r.0.attachments == AttachmentParts(files)
    ensures r.1 == deliver(r.0)
  {
    var msg := Email(account, to, subject, body, AttachmentParts(files));
    (msg, deliver(msg))
  }

  /** `send_email`: the same message without attachments. */
  function SendEmail(account: string, to: string, subject: string, body: string,
                     deliver: Email -> bool): (r: (Email, bool))
    ensures r.0 == Email(account, to, subject, body, [])
    ensures r.1 == deliver(r.0)
  {
    SendEmailWithAttachments(account, to, subject, body, [], deliver)
  }

  /** Buffers produced by attachment conversion keep their names in the
      message: the `i`-th attachment is `attachment_<i>.bin` either way. */
  lemma ConvertedNamesKept(buffers: seq<MailUtils.NamedBuffer>)
    requires forall i :: 0 <= i < |buffers| ==> buffers[i].name == MailUtils.AttachmentName(i + 1)
    ensures var files := seq(|buffers|, i requires 0 <= i < |buffers| => Upload(Some(buffers[i].name), buffers[i].data));
      forall i :: 0 <= i < |buffers| ==>
        AttachmentParts(files)[i].filename == MailUtils.AttachmentName(i + 1)
  {
  }

  /** With the default `limit` of 5 and at least five ids, the five newest
      are fetched, newest first. */
  lemma DefaultLimitFetchesFiveNewest<T>(ids: seq<T>)
    requires |ids| >= 5
    ensures FetchOrder(ids, 5) == [ids[|ids| - 1], ids[|ids| - 2], ids[|ids| - 3], ids[|ids| - 4], ids[|ids| - 5]]
  {
  }

  /** `limit == 0` fetches every id rather than none. */
  lemma ZeroLimitFetchesAll<T>(ids: seq<T>)
    ensures FetchOrder(ids, 0) == Reverse(ids)
  {
  }
}
