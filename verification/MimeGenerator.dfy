/** Printing a composed draft as a MIME message. */
module MimeGenerator {
  import opened Outcomes
  import opened JsText
  import opened MimeHeaders
  import opened MimeParser
  import Base64

  /** An empty name is an absent one: both are falsy to the source. */
  datatype Address = Address(name: string, email: string)

  /** Empty `contentId` is absent; `data` is the base64 text held by the draft. */
  datatype DraftAttachment = DraftAttachment(
    filename: string,
    mimeType: string,
    disposition: Option<Disposition>,
    contentId: string,
    data: string)

  /** Empty `signature` and `inReplyTo`, and empty lists, are the source's absent fields. */
  datatype Draft = Draft(
    alias: Option<Address>,
    to: seq<Address>,
    cc: seq<Address>,
    bcc: seq<Address>,
    subject: string,
    bodyText: string,
    bodyHtml: string,
    signature: string,
    inReplyTo: string,
    references: seq<string>,
    attachments: seq<DraftAttachment>,
    requestReadReceipt: bool)

  /** What the platform supplies: the date and three random UUIDs. */
  datatype Stamp = Stamp(date: string, mixedId: string, alternativeId: string, messageId: string)

  function RemoveNewlines(s: string): string {
    if s == "" then "" else (if s[0] == '\r' || s[0] == '\n' then "" else [s[0]]) + RemoveNewlines(s[1..])
  }

  function FormatAddress(a: Address): string {
    if a.name != "" then EncodeHeader(a.name) + " <" + RemoveNewlines(a.email) + ">" else RemoveNewlines(a.email)
  }

  function CommaSeparated(list: seq<Address>): string {
    if list == [] then ""
    else if |list| == 1 then FormatAddress(list[0])
    else FormatAddress(list[0]) + ", " + CommaSeparated(list[1..])
  }

  function AngleList(ids: seq<string>): string {
    if ids == [] then ""
    else if |ids| == 1 then "<" + ids[0] + ">"
    else "<" + ids[0] + "> " + AngleList(ids[1..])
  }

  function Sender(d: Draft): Address {
    if d.alias.Some? && Trim(d.alias.value.email) != "" then d.alias.value
    else Address(if d.alias.Some? then d.alias.value.name else "", "me")
  }

  function Optionally(present: bool, name: string, value: string): seq<Field> {
    if present then [Field(name, value)] else []
  }

  function MixedBoundary(stamp: Stamp): string {
    "galmail-mixed-" + stamp.mixedId
  }

  function AlternativeBoundary(stamp: Stamp): string {
    "galmail-alt-" + stamp.alternativeId
  }

  function MultipartType(subtype: string, boundary: string): string {
    "multipart/" + subtype + "; boundary=\"" + boundary + "\""
  }

  function IdentityFields(d: Draft, stamp: Stamp): seq<Field> {
    [Field("Date", stamp.date),
     Field("Message-ID", "<" + stamp.messageId + "@galmail.local>"),
     Field("From", FormatAddress(Sender(d)))]
  }

  function RecipientFields(d: Draft): seq<Field> {
    Optionally(d.to != [], "To", CommaSeparated(d.to))
    + Optionally(d.cc != [], "Cc", CommaSeparated(d.cc))
    + Optionally(d.bcc != [], "Bcc", CommaSeparated(d.bcc))
  }

  function FieldsBeforeSubject(d: Draft, stamp: Stamp): seq<Field> {
    IdentityFields(d, stamp) + RecipientFields(d)
  }

  function FieldsAfterSubject(d: Draft): seq<Field> {
    Optionally(d.inReplyTo != "", "In-Reply-To", "<" + d.inReplyTo + ">")
    + Optionally(d.references != [], "References", AngleList(d.references))
    + [Field("MIME-Version", "1.0")]
  }

  function FieldsAfterType(d: Draft): seq<Field> {
    Optionally(d.requestReadReceipt && Trim(Sender(d).email) != "",
               "Disposition-Notification-To", FormatAddress(Sender(d)))
  }

  function HeaderFields(d: Draft, stamp: Stamp): seq<Field> {
    FieldsBeforeSubject(d, stamp)
    + [Field("Subject", EncodeHeader(d.subject))]
    + FieldsAfterSubject(d)
    + [Field("Content-Type", MultipartType("mixed", MixedBoundary(stamp)))]
    + FieldsAfterType(d)
  }

  /** `filename.replace(/["\r\n]/g, "_")` */
  function SafeFilename(f: string): string {
    seq(|f|, i requires 0 <= i < |f| => if f[i] == '"' || f[i] == '\r' || f[i] == '\n' then '_' else f[i])
  }

  function DispositionName(d: Option<Disposition>): string {
    if d == Some(Inline) then "inline" else "attachment"
  }

  function AttachmentFields(a: DraftAttachment): seq<Field> {
    [Field("Content-Type", a.mimeType + "; name=\"" + SafeFilename(a.filename) + "\""),
     Field("Content-Transfer-Encoding", "base64"),
     Field("Content-Disposition", DispositionName(a.disposition) + "; filename=\"" + SafeFilename(a.filename) + "\"")]
    + Optionally(a.contentId != "", "Content-ID", "<" + a.contentId + ">")
  }

  /** `attachmentPart(attachment)` */
  function AttachmentPart(a: DraftAttachment): string {
    Join(Lines(AttachmentFields(a)) + ["", Base64.EncodeLines(Base64.Decode(a.data))])
  }

  function SignedText(d: Draft): string {
    d.bodyText + (if d.signature != "" then "\r\n\r\n" + d.signature else "")
  }

  function SignedHtml(d: Draft): string {
    d.bodyHtml + (if d.signature != "" then "<br><br>" + d.signature else "")
  }

  function TextFields(subtype: string): seq<Field> {
    [Field("Content-Type", "text/" + subtype + "; charset=utf-8"), Field("Content-Transfer-Encoding", "8bit")]
  }

  function AttachmentLines(attachments: seq<DraftAttachment>, mixed: string): seq<string> {
    if attachments == [] then []
    else ["--" + mixed, AttachmentPart(attachments[0])] + AttachmentLines(attachments[1..], mixed)
  }

  function AlternativeLines(d: Draft, alternative: string): seq<string> {
    Lines([Field("Content-Type", MultipartType("alternative", alternative))])
    + ["", "--" + alternative]
    + Lines(TextFields("plain")) + ["", SignedText(d), "--" + alternative]
    + Lines(TextFields("html")) + ["", SignedHtml(d), "--" + alternative + "--"]
  }

  /** `generateMime(draft)` */
  function GenerateMime(d: Draft, stamp: Stamp): string {
    var mixed, alternative := MixedBoundary(stamp), AlternativeBoundary(stamp);
    Join(Lines(HeaderFields(d, stamp)) + [""]
         + ["--" + mixed] + AlternativeLines(d, alternative)
         + AttachmentLines(d.attachments, mixed)
         + ["--" + mixed + "--", ""])
  }
}
