/** Parsing what the generator prints gives back what the draft said. */
module MimeRoundTrip {
  import opened Outcomes
  import opened JsText
  import opened MimeHeaders
  import opened MimeParser
  import opened MimeGenerator
  import opened MimeMultipart
  import Utf8
  import Base64

  // ---- what the draft and the platform must provide

  predicate UuidChar(c: char) {
    '0' <= c <= '9' || 'a' <= c <= 'f' || c == '-'
  }

  /** The alphabet of `crypto.randomUUID()`. */
  predicate IsUuid(u: string) {
    forall c <- u :: UuidChar(c)
  }

  predicate StampIsFresh(stamp: Stamp) {
    && IsUuid(stamp.mixedId) && IsUuid(stamp.alternativeId) && IsUuid(stamp.messageId)
    && NewlineFree(stamp.date)
  }

  /** The random marker does not occur in the lines printed for the attachment, the printed
      fields hold no line end, and the filename does not decode to nothing. */
  ghost predicate AttachmentIsPrintable(a: DraftAttachment, mixed: string) {
    && NewlineFree(a.mimeType) && !("multipart/" <= MimeTypeOf(a.mimeType))
    && NewlineFree(a.contentId)
    && a.filename != "" && DecodeParameter(SafeFilename(a.filename)) != ""
    && (forall l <- Lines(AttachmentFields(a)) :: !Occurs("--" + mixed, l))
  }

  ghost predicate AllPrintableAttachments(list: seq<DraftAttachment>, mixed: string) {
    forall a <- list :: AttachmentIsPrintable(a, mixed)
  }

  ghost predicate Printable(d: Draft, stamp: Stamp) {
    && StampIsFresh(stamp)
    && NewlineFree(d.inReplyTo) && (forall r <- d.references :: NewlineFree(r))
    && AllPrintableAttachments(d.attachments, MixedBoundary(stamp))
    && !Occurs("--" + MixedBoundary(stamp), SignedText(d))
    && !Occurs("--" + MixedBoundary(stamp), SignedHtml(d))
    && !Occurs("--" + AlternativeBoundary(stamp), SignedText(d))
    && !Occurs("--" + AlternativeBoundary(stamp), SignedHtml(d))
  }

  // ---- header fields

  lemma {:induction false} RemovedNewlines(s: string)
    ensures NewlineFree(RemoveNewlines(s))
  {
    if s != "" {
      RemovedNewlines(s[1..]);
    }
  }

  lemma EncodedHeaderIsOneLine(s: string)
    ensures NewlineFree(EncodeHeader(s))
  {
    if !PrintableAscii(s) {
      EncodedWordDecodes(SpacesForNewlines(s));
    }
  }

  lemma AddressIsOneLine(a: Address)
    ensures NewlineFree(FormatAddress(a))
  {
    RemovedNewlines(a.email);
    EncodedHeaderIsOneLine(a.name);
  }

  lemma {:induction false} AddressesAreOneLine(list: seq<Address>)
    ensures NewlineFree(CommaSeparated(list))
  {
    if list != [] {
      AddressIsOneLine(list[0]);
      AddressesAreOneLine(list[1..]);
    }
  }

  lemma {:induction false} IdsAreOneLine(ids: seq<string>)
    requires forall r <- ids :: NewlineFree(r)
    ensures NewlineFree(AngleList(ids))
  {
    if ids != [] {
      assert ids[0] in ids && forall r <- ids[1..] :: r in ids;
      IdsAreOneLine(ids[1..]);
    }
  }

  /** Names made of letters and hyphens are printable header names. */
  predicate PlainName(name: string) {
    name != "" && forall c <- name :: 'a' <= c <= 'z' || 'A' <= c <= 'Z' || c == '-'
  }

  lemma PlainFieldIsPrintable(name: string, value: string)
    requires PlainName(name) && NewlineFree(value)
    ensures Field(name, value).Printable()
  {
    assert name[0] in name && name[|name| - 1] in name;
  }

  lemma OptionalFieldIsPrintable(present: bool, name: string, value: string)
    requires PlainName(name) && NewlineFree(value)
    ensures AllPrintable(Optionally(present, name, value))
    ensures AllPrintable([Field(name, value)])
  {
    PlainFieldIsPrintable(name, value);
  }

  lemma MessageFieldNames()
    ensures PlainName("Date") && PlainName("Message-ID") && PlainName("From") && PlainName("To")
    ensures PlainName("Cc") && PlainName("Bcc") && PlainName("Subject") && PlainName("In-Reply-To")
  {
  }

  lemma TypeFieldNames()
    ensures PlainName("References") && PlainName("MIME-Version") && PlainName("Content-Type")
    ensures PlainName("Disposition-Notification-To")
  {
  }

  lemma IdentityFieldsArePrintable(d: Draft, stamp: Stamp)
    requires StampIsFresh(stamp)
    ensures AllPrintable(IdentityFields(d, stamp))
  {
    MessageFieldNames();
    AddressIsOneLine(Sender(d));
    UuidIsOneLine("<", stamp.messageId);
    ConcatIsOneLine("<", stamp.messageId, "@galmail.local>");
    PlainFieldIsPrintable("Date", stamp.date);
    PlainFieldIsPrintable("Message-ID", "<" + stamp.messageId + "@galmail.local>");
    PlainFieldIsPrintable("From", FormatAddress(Sender(d)));
  }

  lemma RecipientFieldsArePrintable(d: Draft)
    ensures AllPrintable(RecipientFields(d))
  {
    MessageFieldNames();
    AddressesAreOneLine(d.to);
    AddressesAreOneLine(d.cc);
    AddressesAreOneLine(d.bcc);
    OptionalFieldIsPrintable(d.to != [], "To", CommaSeparated(d.to));
    OptionalFieldIsPrintable(d.cc != [], "Cc", CommaSeparated(d.cc));
    OptionalFieldIsPrintable(d.bcc != [], "Bcc", CommaSeparated(d.bcc));
  }

  lemma FieldsAfterSubjectArePrintable(d: Draft)
    requires NewlineFree(d.inReplyTo) && (forall r <- d.references :: NewlineFree(r))
    ensures AllPrintable(FieldsAfterSubject(d))
  {
    MessageFieldNames();
    TypeFieldNames();
    IdsAreOneLine(d.references);
    OptionalFieldIsPrintable(d.inReplyTo != "", "In-Reply-To", "<" + d.inReplyTo + ">");
    OptionalFieldIsPrintable(d.references != [], "References", AngleList(d.references));
    OptionalFieldIsPrintable(true, "MIME-Version", "1.0");
  }

  lemma ConcatIsOneLine(a: string, b: string, c: string)
    requires NewlineFree(a) && NewlineFree(b) && NewlineFree(c)
    ensures NewlineFree(a + b + c)
  {
  }

  lemma UuidIsOneLine(prefix: string, u: string)
    requires IsUuid(u) && NewlineFree(prefix)
    ensures NewlineFree(u) && NewlineFree(prefix + u)
  {
  }

  lemma BoundaryIsOneLine(subtype: string, prefix: string, u: string)
    requires IsUuid(u) && NewlineFree(prefix) && NewlineFree(subtype)
    ensures NewlineFree(MultipartType(subtype, prefix + u))
  {
  }

  lemma ConcatIsPrintable(a: seq<Field>, b: seq<Field>)
    requires AllPrintable(a) && AllPrintable(b)
    ensures AllPrintable(a + b)
  {
  }

  lemma HeaderFieldsArePrintable(d: Draft, stamp: Stamp)
    requires Printable(d, stamp)
    ensures AllPrintable(HeaderFields(d, stamp))
  {
    var a, b, c := FieldsBeforeSubject(d, stamp), FieldsAfterSubject(d), FieldsAfterType(d);
    IdentityFieldsArePrintable(d, stamp);
    RecipientFieldsArePrintable(d);
    ConcatIsPrintable(IdentityFields(d, stamp), RecipientFields(d));
    FieldsAfterSubjectArePrintable(d);
    OwnFieldsArePrintable(d, stamp);
    AllFiveArePrintable(a, [Field("Subject", EncodeHeader(d.subject))], b,
                        [Field("Content-Type", MultipartType("mixed", MixedBoundary(stamp)))], c);
  }

  lemma AllFiveArePrintable(a: seq<Field>, subject: seq<Field>, b: seq<Field>, contentType: seq<Field>, c: seq<Field>)
    requires AllPrintable(a) && AllPrintable(subject) && AllPrintable(b) && AllPrintable(contentType) && AllPrintable(c)
    ensures AllPrintable(a + subject + b + contentType + c)
  {
  }

  lemma OwnFieldsArePrintable(d: Draft, stamp: Stamp)
    requires Printable(d, stamp)
    ensures AllPrintable([Field("Subject", EncodeHeader(d.subject))])
    ensures AllPrintable([Field("Content-Type", MultipartType("mixed", MixedBoundary(stamp)))])
    ensures AllPrintable(FieldsAfterType(d))
  {
    MessageFieldNames();
    TypeFieldNames();
    EncodedHeaderIsOneLine(d.subject);
    AddressIsOneLine(Sender(d));
    BoundaryIsOneLine("mixed", "galmail-mixed-", stamp.mixedId);
    PlainFieldIsPrintable("Subject", EncodeHeader(d.subject));
    PlainFieldIsPrintable("Content-Type", MultipartType("mixed", MixedBoundary(stamp)));
    OptionalFieldIsPrintable(d.requestReadReceipt && Trim(Sender(d).email) != "",
                             "Disposition-Notification-To", FormatAddress(Sender(d)));
  }

  lemma KeyNames()
    ensures Lower("Content-Type") == "content-type"
    ensures Lower("Subject") == "subject"
  {
  }

  lemma EncodingKeyName()
    ensures Lower("Content-Transfer-Encoding") == "content-transfer-encoding"
  {
  }

  lemma AttachmentKeyNames()
    ensures Lower("Content-Disposition") == "content-disposition"
    ensures Lower("Content-ID") == "content-id"
  {
  }

  /** Two fields of a block are found when no later field shares their key. */
  lemma TwoFieldsAreFound(a: seq<Field>, s: Field, b: seq<Field>, t: Field, c: seq<Field>)
    requires forall f <- b + c :: |f.name| != |s.name|
    requires forall f <- c :: |f.name| != |t.name|
    requires |s.name| != |t.name|
    ensures var h := FieldMap(map[], a + [s] + b + [t] + c);
      && s.Key() in h && h[s.Key()] == Trim(s.value)
      && t.Key() in h && h[t.Key()] == Trim(t.value)
  {
    var fields := a + [s] + b + [t] + c;
    var i := |a|;
    var k := i + 1 + |b|;
    assert fields[i] == s && fields[k] == t;
    forall j | i < j < |fields|
      ensures |fields[j].name| != |s.name|
      ensures j > k ==> |fields[j].name| != |t.name|
    {
      if j < k {
        assert fields[j] == b[j - i - 1] && fields[j] in b + c;
      } else if j > k {
        assert fields[j] == c[j - k - 1] && fields[j] in b + c;
      }
    }
    FieldMapLookup(map[], fields, i);
    FieldMapLookup(map[], fields, k);
  }

  /** The subject and the content type of the message header. */
  lemma HeaderFieldValues(d: Draft, stamp: Stamp)
    ensures var h := FieldMap(map[], HeaderFields(d, stamp));
      && "subject" in h && h["subject"] == Trim(EncodeHeader(d.subject))
      && "content-type" in h && h["content-type"] == Trim(MultipartType("mixed", MixedBoundary(stamp)))
  {
    KeyNames();
    TwoFieldsAreFound(
      FieldsBeforeSubject(d, stamp), Field("Subject", EncodeHeader(d.subject)),
      FieldsAfterSubject(d), Field("Content-Type", MultipartType("mixed", MixedBoundary(stamp))),
      FieldsAfterType(d));
  }

  // ---- content types

  lemma {:induction false} IndexOfAfter(a: string, c: char, rest: string)
    requires c !in a
    ensures IndexOf(a + ([c] + rest), c) == |a|
  {
    IndexOfSkips(a, c, rest);
    assert a + ([c] + rest) == a + [c] + rest;
  }

  /** `t; name="f"` */
  function WithParameter(t: string, name: string, f: string): string {
    t + (";" + (" " + name + "=\"" + f + "\""))
  }

  /** The type before the semicolon, and the parameter after it. */
  lemma ParameterIsFound(t: string, name: string, f: string)
    requires ';' !in t && '"' !in f && f != ""
    requires name != "" && Lower(name) == name && !IsSpace(name[0])
    requires ParameterHere(WithParameter(t, name, f), name).None?
    ensures WithParameter(t, name, f)[..IndexOf(WithParameter(t, name, f), ';')] == t
    ensures Parameter(WithParameter(t, name, f), name) == Some(DecodeParameter(f))
  {
    var here := " " + name + "=\"" + f + "\"";
    var after := ";" + here;
    IndexOfAfter(t, ';', here);
    assert WithParameter(t, name, f)[..|t|] == t;
    QuotedParameterHere(name, f);
    NoSemicolonNoParameter(t, after, name);
    assert after[1..] == here;
  }

  /** A parameter is not taken from the start of a value that starts with another letter. */
  lemma NoParameterHere(value: string, name: string)
    requires value != "" && !IsSpace(value[0]) && name != ""
    requires LowerChar(value[0]) != name[0]
    ensures ParameterHere(value, name).None?
  {
  }

  predicate BoundaryText(boundary: string) {
    boundary != "" && forall c <- boundary :: 'a' <= c <= 'z' || UuidChar(c)
  }

  lemma MultipartTypeIsRead(subtype: string, boundary: string)
    requires subtype != "" && ';' !in subtype && !IsSpace(subtype[|subtype| - 1])
    requires BoundaryText(boundary)
    ensures Trim(MultipartType(subtype, boundary)) == MultipartType(subtype, boundary)
    ensures "multipart/" <= MimeTypeOf(MultipartType(subtype, boundary))
    ensures Parameter(MultipartType(subtype, boundary), "boundary") == Some(boundary)
  {
    var t, m := MultipartType(subtype, boundary), "multipart/" + subtype;
    assert t == WithParameter(m, "boundary", boundary);
    assert t[0] == 'm' && t[|t| - 1] == '"';
    TrimSpaceThen(t);
    MultipartPrefix(subtype);
    BoundaryIsRead(m, boundary);
  }

  lemma BoundaryIsRead(m: string, boundary: string)
    requires m != "" && !IsSpace(m[0]) && LowerChar(m[0]) != 'b' && ';' !in m && BoundaryText(boundary)
    ensures MimeTypeOf(WithParameter(m, "boundary", boundary)) == Lower(Trim(m))
    ensures Parameter(WithParameter(m, "boundary", boundary), "boundary") == Some(boundary)
  {
    NoParameterHere(WithParameter(m, "boundary", boundary), "boundary");
    BoundaryName();
    ParameterIsFound(m, "boundary", boundary);
    PlainParameter(boundary);
  }

  lemma BoundaryName()
    ensures Lower("boundary") == "boundary"
  {
  }

  lemma MultipartPrefix(subtype: string)
    requires subtype != "" && !IsSpace(subtype[|subtype| - 1])
    ensures "multipart/" <= Lower(Trim("multipart/" + subtype))
  {
  }

  // ---- the two body parts

  lemma TextFieldsArePrintable(subtype: string)
    requires NewlineFree(subtype)
    ensures AllPrintable(TextFields(subtype))
  {
    TypeFieldNames();
    EncodingFieldName();
    ConcatIsOneLine("text/", subtype, "; charset=utf-8");
    PlainFieldIsPrintable("Content-Type", "text/" + subtype + "; charset=utf-8");
    PlainFieldIsPrintable("Content-Transfer-Encoding", "8bit");
  }

  lemma EncodingFieldName()
    ensures PlainName("Content-Transfer-Encoding")
  {
  }

  lemma TextHeaders(subtype: string)
    ensures var h := FieldMap(map[], TextFields(subtype));
      && ContentType(h) == Trim("text/" + subtype + "; charset=utf-8")
      && "content-disposition" !in h
      && HeaderOr(h, "content-transfer-encoding", "") == Trim("8bit")
  {
    var fields := TextFields(subtype);
    KeyNames();
    EncodingKeyName();
    FieldMapLookup(map[], fields, 0);
    FieldMapLookup(map[], fields, 1);
    FieldMapFrame(map[], fields, "content-disposition");
  }

  lemma EightBitIsPlain(body: string)
    ensures BodyBytes(body, Trim("8bit")) == Utf8.Encode(body)
  {
  }

  /** The fixed content types of the two bodies: their type, and no name. */
  lemma TextTypeIsRead(subtype: string)
    requires subtype == "plain" || subtype == "html"
    ensures var t := "text/" + subtype + "; charset=utf-8";
      Trim(t) == t && MimeTypeOf(t) == "text/" + subtype && Parameter(t, "name") == None
  {
    var m, after := "text/" + subtype, " charset=utf-8";
    var t := m + "; charset=utf-8";
    assert t == m + ([';'] + after);
    TypeBeforeSemicolon(m, after);
    LowerOfTextTypes();
    NoParameterHere(t, "name");
    NoSemicolonNoParameter(m, [';'] + after, "name");
    NoNameInCharset();
  }

  lemma TypeBeforeSemicolon(m: string, after: string)
    requires m != "" && after != "" && !IsSpace(m[0]) && !IsSpace(m[|m| - 1]) && !IsSpace(after[|after| - 1])
    requires ';' !in m
    ensures var t := m + ([';'] + after); Trim(t) == t && MimeTypeOf(t) == Lower(m)
  {
    var t := m + ([';'] + after);
    assert t[0] == m[0] && t[|t| - 1] == after[|after| - 1];
    TrimSpaceThen(t);
    IndexOfAfter(m, ';', after);
    assert t[..|m|] == m;
    TrimSpaceThen(m);
  }

  lemma LowerOfTextTypes()
    ensures Lower("text/plain") == "text/plain" && Lower("text/html") == "text/html"
    ensures "text/" + "plain" == "text/plain" && "text/" + "html" == "text/html"
  {
  }

  lemma NoNameInCharset()
    ensures ParameterAfterSemicolon([';'] + " charset=utf-8", "name") == None
  {
    var rest := "charset=utf-8";
    assert ([';'] + " charset=utf-8")[1..] == " charset=utf-8";
    assert " charset=utf-8"[1..] == rest;
    assert TrimStart(" charset=utf-8") == rest;
    assert Lower(rest[..4])[0] == 'c';
    NoSemicolonNoParameter(" charset=utf-8", "", "name");
    assert " charset=utf-8" + "" == " charset=utf-8";
  }

  lemma NothingInNothing(name: string)
    requires name != ""
    ensures Parameter("", name) == None && DispositionOf("") == None
  {
  }

  function TextPart(subtype: string, body: string): Part {
    Assemble(FieldMap(map[], TextFields(subtype)), body, [])
  }

  /** A body part parses to a plain leaf of its type that holds the text. */
  lemma BodyPart(subtype: string, body: string, counter: nat)
    requires subtype == "plain" || subtype == "html"
    ensures ParsePart(PrintedPart(TextFields(subtype), body), counter)
         == if counter + 1 > MAX_PARTS then Err(TooManyParts) else Ok((TextPart(subtype, body), counter + 1))
    ensures var p := TextPart(subtype, body);
      && !IsAttachment(p) && p.mimeType == "text/" + subtype && p.parts == []
      && Utf8.Decode(p.body) == Utf8.StripBom(body)
  {
    TextFieldsArePrintable(subtype);
    TextHeaders(subtype);
    TextTypeIsRead(subtype);
    EightBitIsPlain(body);
    NothingInNothing("filename");
    Utf8.DecodeInvertsEncode(body);
    assert ("text/" + subtype)[0] == 't';
    ParseLeaf(TextFields(subtype), body, counter);
  }

  // ---- attachments

  /** What the reader should see of an attachment. */
  function ExpectedView(a: DraftAttachment): AttachmentView {
    AttachmentView(
      DecodeParameter(SafeFilename(a.filename)),
      MimeTypeOf(a.mimeType),
      if a.disposition == Some(Inline) && !OccursIgnoringCase("attachment", SafeFilename(a.filename))
      then Inline else Attached,
      if a.contentId != "" then Some(a.contentId) else None,
      Base64.Decode(a.data))
  }

  lemma {:induction false} TrimStartIsIdempotent(s: string)
    ensures TrimStart(TrimStart(s)) == TrimStart(s)
  {
    if s != "" && IsSpace(s[0]) {
      TrimStartIsIdempotent(s[1..]);
    }
  }

  lemma {:induction false} TrimStartThenMore(s: string, rest: string)
    requires rest != "" && !IsSpace(rest[0])
    ensures TrimStart(s + rest) == TrimStart(s) + rest
  {
    if s == "" {
      assert s + rest == rest;
      assert TrimStart(s) + rest == rest;
    } else {
      assert (s + rest)[1..] == s[1..] + rest;
      TrimStartThenMore(s[1..], rest);
    }
  }

  lemma SliceOfRest(x: string, y: string, i: nat, n: nat)
    requires i + n <= |y|
    ensures (x + y)[|x| + i..|x| + i + n] == y[i..i + n]
  {
  }

  lemma OccursInWhole(m: string, x: string, y: string)
    ensures Occurs(m, x) || Occurs(m, y) ==> Occurs(m, x + y)
  {
    if i :| 0 <= i <= |x| && OccursAt(m, x, i) {
      assert (x + y)[i..i + |m|] == x[i..i + |m|];
      assert OccursAt(m, x + y, i);
    }
    if i :| 0 <= i <= |y| && OccursAt(m, y, i) {
      SliceOfRest(x, y, i, |m|);
      assert OccursAt(m, x + y, |x| + i);
    }
  }

  /** An occurrence of a word does not span a character that is not in it. */
  lemma OccursAcrossChar(m: string, x: string, c: char, y: string)
    requires m != "" && c !in m
    ensures Occurs(m, x + [c] + y) <==> Occurs(m, x) || Occurs(m, y)
  {
    OccursInWhole(m, x, [c]);
    OccursInWhole(m, x + [c], y);
    if !Occurs(m, x) && !Occurs(m, y) {
      forall i | 0 <= i <= |x| + 1 + |y| - |m|
        ensures !OccursAt(m, x + [c] + y, i)
      {
        OccursNowhere(m, x, c, y, i);
      }
    }
  }

  lemma OccursNowhere(m: string, x: string, c: char, y: string, i: nat)
    requires m != "" && c !in m && !Occurs(m, x) && !Occurs(m, y)
    requires i + |m| <= |x| + 1 + |y|
    ensures !OccursAt(m, x + [c] + y, i)
  {
    var s := x + [c] + y;
    if i + |m| <= |x| {
      assert !OccursAt(m, x, i);
      assert x[i..i + |m|] == s[i..i + |m|];
    } else if i > |x| {
      var k := i - |x| - 1;
      assert !OccursAt(m, y, k);
      SliceOfRest(x + [c], y, k, |m|);
    } else {
      assert s[i..i + |m|][|x| - i] == s[|x|] == c;
      assert m[|x| - i] in m;
    }
  }

  lemma SafeFilenameIsOneLine(f: string)
    ensures NewlineFree(SafeFilename(f)) && '"' !in SafeFilename(f) && |SafeFilename(f)| == |f|
  {
  }

  lemma AttachmentFieldNames()
    ensures PlainName("Content-Disposition") && PlainName("Content-ID")
  {
  }

  function NamedType(a: DraftAttachment): string {
    a.mimeType + "; name=\"" + SafeFilename(a.filename) + "\""
  }

  function NamedDisposition(a: DraftAttachment): string {
    DispositionName(a.disposition) + "; filename=\"" + SafeFilename(a.filename) + "\""
  }

  lemma AttachmentFieldsArePrintable(a: DraftAttachment)
    requires NewlineFree(a.mimeType) && NewlineFree(a.contentId)
    ensures AllPrintable(AttachmentFields(a))
  {
    var f := SafeFilename(a.filename);
    SafeFilenameIsOneLine(a.filename);
    TypeFieldNames();
    EncodingFieldName();
    AttachmentFieldNames();
    ConcatIsOneLine(a.mimeType, "; name=\"", f);
    ConcatIsOneLine(a.mimeType + "; name=\"" + f, "\"", "");
    assert NamedType(a) + "" == NamedType(a);
    ConcatIsOneLine(DispositionName(a.disposition), "; filename=\"", f);
    ConcatIsOneLine(DispositionName(a.disposition) + "; filename=\"" + f, "\"", "");
    assert NamedDisposition(a) + "" == NamedDisposition(a);
    ConcatIsOneLine("<", a.contentId, ">");
    PlainFieldIsPrintable("Content-Type", NamedType(a));
    PlainFieldIsPrintable("Content-Transfer-Encoding", "base64");
    PlainFieldIsPrintable("Content-Disposition", NamedDisposition(a));
    OptionalFieldIsPrintable(a.contentId != "", "Content-ID", "<" + a.contentId + ">");
  }

  lemma AttachmentHeaders(a: DraftAttachment)
    ensures var h := FieldMap(map[], AttachmentFields(a));
      && ContentType(h) == Trim(NamedType(a))
      && HeaderOr(h, "content-disposition", "") == Trim(NamedDisposition(a))
      && HeaderOr(h, "content-transfer-encoding", "") == Trim("base64")
      && ("content-id" in h <==> a.contentId != "")
      && (a.contentId != "" ==> h["content-id"] == Trim("<" + a.contentId + ">"))
  {
    var fields := AttachmentFields(a);
    KeyNames();
    EncodingKeyName();
    AttachmentKeyNames();
    assert |fields[0].name| == 12 && |fields[1].name| == 25 && |fields[2].name| == 19;
    FieldMapLookup(map[], fields, 0);
    FieldMapLookup(map[], fields, 1);
    FieldMapLookup(map[], fields, 2);
    if a.contentId != "" {
      FieldMapLookup(map[], fields, 3);
    } else {
      FieldMapFrame(map[], fields, "content-id");
    }
  }

  /** What stands before the first semicolon. */
  function BeforeSemicolon(s: string): string {
    s[..IndexOf(s, ';')]
  }

  lemma {:induction false} BeforeSemicolonOfConcat(s: string, rest: string)
    ensures BeforeSemicolon(s + ([';'] + rest)) == BeforeSemicolon(s)
  {
    var t := s + ([';'] + rest);
    if s != "" && s[0] != ';' {
      BeforeSemicolonOfConcat(s[1..], rest);
      assert t[1..] == s[1..] + ([';'] + rest);
      BeforeSemicolonStep(t);
      BeforeSemicolonStep(s);
    }
  }

  lemma BeforeSemicolonStep(s: string)
    requires s != "" && s[0] != ';'
    ensures BeforeSemicolon(s) == [s[0]] + BeforeSemicolon(s[1..])
  {
  }

  lemma {:induction false} BeforeSemicolonOfTrimmed(s: string)
    ensures BeforeSemicolon(TrimStart(s)) == TrimStart(BeforeSemicolon(s))
  {
    if s != "" && s[0] != ';' {
      BeforeSemicolonStep(s);
      if IsSpace(s[0]) {
        BeforeSemicolonOfTrimmed(s[1..]);
        assert ([s[0]] + BeforeSemicolon(s[1..]))[1..] == BeforeSemicolon(s[1..]);
      }
    }
  }

  /** The type of an attachment is read back without its parameters. */
  lemma NamedTypeIsRead(a: DraftAttachment)
    ensures MimeTypeOf(Trim(NamedType(a))) == MimeTypeOf(a.mimeType)
  {
    var m, rest := a.mimeType, " name=\"" + SafeFilename(a.filename) + "\"";
    assert NamedType(a) == m + ([';'] + rest);
    TrimStartThenMore(m, [';'] + rest);
    var t := TrimStart(m) + ([';'] + rest);
    assert t[|t| - 1] == '"';
    assert TrimEnd(t) == t;
    BeforeSemicolonOfConcat(TrimStart(m), rest);
    BeforeSemicolonOfTrimmed(m);
    TrimStartIsIdempotent(BeforeSemicolon(m));
  }

  lemma FilenameName()
    ensures Lower("filename") == "filename"
  {
  }

  /** The filename is read back from the disposition. */
  lemma NamedDispositionIsRead(a: DraftAttachment)
    requires a.filename != ""
    ensures Trim(NamedDisposition(a)) == NamedDisposition(a)
    ensures Parameter(NamedDisposition(a), "filename") == Some(DecodeParameter(SafeFilename(a.filename)))
  {
    var f, d := SafeFilename(a.filename), DispositionName(a.disposition);
    var v := NamedDisposition(a);
    SafeFilenameIsOneLine(a.filename);
    assert v == WithParameter(d, "filename", f);
    assert v[0] == d[0] && v[|v| - 1] == '"';
    TrimSpaceThen(v);
    NoParameterHere(v, "filename");
    FilenameName();
    ParameterIsFound(d, "filename", f);
  }

  lemma LowerOfConcat(a: string, b: string)
    ensures Lower(a + b) == Lower(a) + Lower(b)
  {
  }

  /** A word that is not in the prefix and holds no quote can only come from the quoted text. */
  lemma OccursInQuoted(word: string, prefix: string, quoted: string)
    requires word != "" && '"' !in word && !Occurs(word, prefix)
    ensures Occurs(word, prefix + ['"'] + quoted + ['"']) <==> Occurs(word, quoted)
  {
    var inner := prefix + ['"'] + quoted;
    assert inner + ['"'] == inner + ['"'] + "";
    OccursAcrossChar(word, inner, '"', "");
    OccursAcrossChar(word, prefix, '"', quoted);
    OccursNeedsChar(word, "", 0);
  }

  lemma LowerOfInline(f: string)
    ensures Lower("inline; filename=\"" + f + "\"") == "inline; filename=" + ['"'] + Lower(f) + ['"']
  {
    LowerOfDispositions();
    LowerOfConcat("inline; filename=\"" + f, "\"");
    LowerOfConcat("inline; filename=\"", f);
    LowerOfConcat("inline; filename=", "\"");
    assert "inline; filename=\"" == "inline; filename=" + "\"";
  }

  /** "attachment" can only come from the filename. */
  lemma InlineDispositionIsRead(f: string)
    ensures OccursIgnoringCase("attachment", "inline; filename=\"" + f + "\"") <==> OccursIgnoringCase("attachment", f)
    ensures OccursIgnoringCase("inline", "inline; filename=\"" + f + "\"")
  {
    var prefix := "inline; filename=";
    LowerOfDispositions();
    LowerOfInline(f);
    OccursNeedsChar("attachment", prefix, 5);
    OccursInQuoted("attachment", prefix, Lower(f));
    PrefixOccurs("inline", Lower("inline; filename=\"" + f + "\""));
  }

  lemma PrefixOccurs(p: string, s: string)
    requires p <= s
    ensures Occurs(p, s)
  {
    assert OccursAt(p, s, 0);
  }

  lemma AttachedDispositionIsRead(rest: string)
    ensures OccursIgnoringCase("attachment", "attachment" + rest)
  {
    LowerOfDispositions();
    LowerOfConcat("attachment", rest);
    var v := Lower("attachment" + rest);
    assert v[0..10] == "attachment";
    assert OccursAt("attachment", v, 0);
  }

  lemma DispositionIsRead(a: DraftAttachment)
    ensures DispositionOf(NamedDisposition(a)) == Some(ExpectedView(a).disposition)
  {
    DispositionOfName(a.disposition == Some(Inline), SafeFilename(a.filename));
  }

  lemma DispositionOfName(isInline: bool, f: string)
    ensures var name := if isInline then "inline" else "attachment";
      DispositionOf(name + "; filename=\"" + f + "\"")
        == Some(if isInline && !OccursIgnoringCase("attachment", f) then Inline else Attached)
  {
    if isInline {
      InlineDispositionIsRead(f);
      assert "inline" + "; filename=\"" + f + "\"" == "inline; filename=\"" + f + "\"";
    } else {
      var rest := "; filename=\"" + f + "\"";
      AttachedDispositionIsRead(rest);
      assert "attachment" + "; filename=\"" + f + "\"" == "attachment" + rest;
    }
  }

  lemma LowerOfDispositions()
    ensures Lower("attachment") == "attachment"
    ensures Lower("inline; filename=") == "inline; filename="
    ensures Lower("base64") == "base64" && Trim("base64") == "base64"
  {
  }

  lemma ContentIdIsRead(id: string)
    ensures StripAngles(Trim("<" + id + ">")) == id
  {
  }

  function AttachmentLeaf(a: DraftAttachment): Part {
    Assemble(FieldMap(map[], AttachmentFields(a)), Base64.EncodeLines(Base64.Decode(a.data)), [])
  }

  lemma AttachmentBodyIsRead(a: DraftAttachment)
    ensures BodyBytes(Base64.EncodeLines(Base64.Decode(a.data)), Trim("base64")) == Base64.Decode(a.data)
  {
    LowerOfDispositions();
    assert Lower("base64")[0..6] == "base64";
    assert OccursAt("base64", Lower("base64"), 0);
    Base64.DecodeInvertsEncodeLines(Base64.Decode(a.data));
  }

  lemma AttachmentIsViewed(a: DraftAttachment, mixed: string)
    requires AttachmentIsPrintable(a, mixed)
    ensures var p := AttachmentLeaf(a); IsAttachment(p) && p.parts == [] && ViewOf(p) == ExpectedView(a)
  {
    AttachmentHeaders(a);
    NamedTypeIsRead(a);
    NamedDispositionIsRead(a);
    DispositionIsRead(a);
    AttachmentBodyIsRead(a);
    ContentIdIsRead(a.contentId);
  }

  lemma AttachmentPartIsPrinted(a: DraftAttachment)
    ensures AttachmentPart(a) == PrintedPart(AttachmentFields(a), Base64.EncodeLines(Base64.Decode(a.data)))
  {
    var b := Base64.EncodeLines(Base64.Decode(a.data));
    JoinIsPrintedPart(AttachmentFields(a), [b]);
    assert [""] + [b] == ["", b];
  }

  lemma ParseAttachment(a: DraftAttachment, mixed: string, counter: nat)
    requires AttachmentIsPrintable(a, mixed)
    ensures ParsePart(AttachmentPart(a), counter)
         == CountedLeaf(AttachmentLeaf(a), counter)
    ensures Trim(AttachmentPart(a)) != ""
  {
    AttachmentPartIsPrinted(a);
    AttachmentFieldsArePrintable(a);
    AttachmentHeaders(a);
    NamedTypeIsRead(a);
    ParseLeaf(AttachmentFields(a), Base64.EncodeLines(Base64.Decode(a.data)), counter);
    PrintedPartIsVisible(AttachmentFields(a), Base64.EncodeLines(Base64.Decode(a.data)));
  }

  lemma AttachmentHasNoMarker(a: DraftAttachment, mixed: string)
    requires AttachmentIsPrintable(a, mixed) && NewlineFree(mixed)
    ensures !Occurs("--" + mixed, AttachmentPart(a))
  {
    var m, b := "--" + mixed, Base64.EncodeLines(Base64.Decode(a.data));
    EncodedHasNoMarker(Base64.Decode(a.data), mixed);
    LinesThenBody(m, Lines(AttachmentFields(a)), b);
    NoMarkerInJoin(m, Lines(AttachmentFields(a)) + ["", b]);
  }

  /** The alphabet of the encoding has no hyphen. */
  lemma EncodedHasNoMarker(x: seq<Byte>, mixed: string)
    ensures !Occurs("--" + mixed, Base64.EncodeLines(x))
  {
    Base64.EncodedLinesAreShort(x);
    OccursNeedsChar("--" + mixed, Base64.EncodeLines(x), 0);
  }

  lemma LinesThenBody(marker: string, lines: seq<string>, body: string)
    requires |marker| > 1 && !Occurs(marker, body) && forall l <- lines :: !Occurs(marker, l)
    ensures forall i :: 0 <= i < |lines + ["", body]| ==> !Occurs(marker, (lines + ["", body])[i])
  {
    OccursNeedsChar(marker, "", 0);
    forall i | 0 <= i < |lines|
      ensures !Occurs(marker, lines[i])
    {
      assert lines[i] in lines;
    }
  }

  function Map<A, B>(f: A -> B, list: seq<A>): seq<B> {
    seq(|list|, i requires 0 <= i < |list| => f(list[i]))
  }

  lemma MapFirst<A, B>(f: A -> B, list: seq<A>)
    requires list != []
    ensures Map(f, list) == [f(list[0])] + Map(f, list[1..])
  {
    assert forall i :: 0 < i < |list| ==> list[i] == list[1..][i - 1];
  }

  function AttachmentParts(list: seq<DraftAttachment>): seq<string> {
    Map(AttachmentPart, list)
  }

  function AttachmentLeaves(list: seq<DraftAttachment>): seq<Part> {
    seq(|list|, i requires 0 <= i < |list| => AttachmentLeaf(list[i]))
  }

  function ExpectedViews(list: seq<DraftAttachment>): seq<AttachmentView> {
    seq(|list|, i requires 0 <= i < |list| => ExpectedView(list[i]))
  }

  lemma ParseAttachments(list: seq<DraftAttachment>, mixed: string, counter: nat)
    requires AllPrintableAttachments(list, mixed) && counter <= MAX_PARTS
    ensures ParseAll(PartReader(), AttachmentParts(list), counter) == CountedLeaves(AttachmentLeaves(list), counter)
  {
    forall i, n: nat | 0 <= i < |list|
      ensures PartReader()(AttachmentParts(list)[i], n) == CountedLeaf(AttachmentLeaves(list)[i], n)
    {
      assert list[i] in list;
      ParseAttachment(list[i], mixed, n);
    }
    ParseLeaves(PartReader(), AttachmentParts(list), AttachmentLeaves(list), counter);
  }

  lemma VisitAttachments(list: seq<DraftAttachment>, mixed: string, seen: Contents)
    requires AllPrintableAttachments(list, mixed)
    ensures VisitParts(AttachmentLeaves(list), seen) == seen.(attachments := seen.attachments + ExpectedViews(list))
  {
    forall i: nat | i < |list|
      ensures AttachmentLeaves(list)[i].parts == [] && IsAttachment(AttachmentLeaves(list)[i])
      ensures ViewOf(AttachmentLeaves(list)[i]) == ExpectedViews(list)[i]
    {
      assert list[i] in list;
      AttachmentIsViewed(list[i], mixed);
    }
    VisitLeaves(AttachmentLeaves(list), ExpectedViews(list), seen);
  }

  // ---- markers

  ghost predicate NoLineHas(marker: string, lines: seq<string>) {
    forall i :: 0 <= i < |lines| ==> !Occurs(marker, lines[i])
  }

  lemma NoLineOfTwoHas(marker: string, a: seq<string>, b: seq<string>)
    requires NoLineHas(marker, a) && NoLineHas(marker, b)
    ensures NoLineHas(marker, a + b)
  {
  }

  /** A marker of either kind: it starts with the product's name. */
  predicate IsMarker(marker: string) {
    |marker| > 10 && NewlineFree(marker) && marker[0] == '-' && marker[2] == 'g' && marker[5] == 'm'
  }

  lemma EncodingLine(marker: string)
    requires IsMarker(marker)
    ensures !Occurs(marker, "Content-Transfer-Encoding: 8bit") && !Occurs(marker, "")
  {
    OccursNeedsChar(marker, "Content-Transfer-Encoding: 8bit", 5);
    OccursNeedsChar(marker, "", 0);
  }

  lemma TypeLineText(subtype: string)
    ensures Field("Content-Type", "text/" + subtype + "; charset=utf-8").Line()
         == "Content-Type: text/" + subtype + "; charset=utf-8"
    ensures Field("Content-Transfer-Encoding", "8bit").Line() == "Content-Transfer-Encoding: 8bit"
  {
  }

  lemma TypeLineHasNoMarker(subtype: string, marker: string)
    requires subtype == "plain" || subtype == "html"
    requires IsMarker(marker)
    ensures !Occurs(marker, "Content-Type: text/" + subtype + "; charset=utf-8")
  {
  }

  lemma TextLinesHaveNoMarker(subtype: string, body: string, marker: string)
    requires subtype == "plain" || subtype == "html"
    requires IsMarker(marker) && !Occurs(marker, body)
    ensures NoLineHas(marker, Lines(TextFields(subtype)) + ["", body])
  {
    TypeLineHasNoMarker(subtype, marker);
    EncodingLine(marker);
    TypeLineText(subtype);
    var fields := TextFields(subtype);
    assert Lines(fields) == [fields[0].Line(), fields[1].Line()];
  }

  // ---- the alternative part

  function AlternativeFields(alternative: string): seq<Field> {
    [Field("Content-Type", MultipartType("alternative", alternative))]
  }

  function TextContent(subtype: string, body: string): string {
    PrintedPart(TextFields(subtype), body)
  }

  function AlternativeContents(d: Draft): seq<string> {
    [TextContent("plain", SignedText(d)), TextContent("html", SignedHtml(d))]
  }

  lemma TextBlock(subtype: string, body: string)
    ensures Join(Lines(TextFields(subtype)) + ["", body]) == TextContent(subtype, body)
  {
    JoinIsPrintedPart(TextFields(subtype), [body]);
    assert [""] + [body] == ["", body];
  }

  lemma AlternativeLinesNest(d: Draft, alternative: string)
    ensures var marker := "--" + alternative;
      var text := Lines(TextFields("plain")) + ["", SignedText(d)];
      var html := Lines(TextFields("html")) + ["", SignedHtml(d)];
      AlternativeLines(d, alternative)
      == Lines(AlternativeFields(alternative)) + ([""] + MultipartLines(marker, [text, html], []))
  {
    var marker := "--" + alternative;
    var text := Lines(TextFields("plain")) + ["", SignedText(d)];
    var html := Lines(TextFields("html")) + ["", SignedHtml(d)];
    assert [text, html][1..] == [html] && [html][1..] == [];
    assert MultipartLines(marker, [html], []) == [marker] + html + [marker + "--"];
    assert MultipartLines(marker, [text, html], []) == [marker] + text + ([marker] + html + [marker + "--"]);
    assert marker + "--" == "--" + alternative + "--";
  }

  lemma AlternativeIsPrinted(d: Draft, alternative: string)
    ensures Join(AlternativeLines(d, alternative))
         == PrintedPart(AlternativeFields(alternative), MultipartBody(alternative, AlternativeContents(d), "--"))
  {
    var marker := "--" + alternative;
    var text := Lines(TextFields("plain")) + ["", SignedText(d)];
    var html := Lines(TextFields("html")) + ["", SignedHtml(d)];
    AlternativeLinesNest(d, alternative);
    JoinMultipartLines(marker, [text, html], []);
    TextBlock("plain", SignedText(d));
    TextBlock("html", SignedHtml(d));
    assert [text, html][1..] == [html] && [html][1..] == [];
    assert JoinAll([html]) == [Join(html)];
    assert JoinAll([text, html]) == AlternativeContents(d);
    assert Closing([]) == "--";
    JoinIsPrintedPart(AlternativeFields(alternative), MultipartLines(marker, [text, html], []));
  }

  lemma TypedHeaders(fields: seq<Field>, value: string)
    requires fields == [Field("Content-Type", value)]
    ensures ContentType(FieldMap(map[], fields)) == Trim(value)
  {
    KeyNames();
    FieldMapLookup(map[], fields, 0);
  }

  function AlternativeLeaves(d: Draft): seq<Part> {
    [TextPart("plain", SignedText(d)), TextPart("html", SignedHtml(d))]
  }

  function AlternativePart(d: Draft, alternative: string): Part {
    Assemble(FieldMap(map[], AlternativeFields(alternative)),
             MultipartBody(alternative, AlternativeContents(d), "--"), AlternativeLeaves(d))
  }

  lemma BodyIsLeaf(subtype: string, body: string, n: nat)
    requires subtype == "plain" || subtype == "html"
    ensures PartReader()(TextContent(subtype, body), n) == CountedLeaf(TextPart(subtype, body), n)
  {
    BodyPart(subtype, body, n);
  }

  lemma ParseBodies(d: Draft, counter: nat)
    requires counter + 2 <= MAX_PARTS
    ensures ParseAll(PartReader(), AlternativeContents(d), counter) == Ok((AlternativeLeaves(d), counter + 2))
  {
    var contents, leaves := AlternativeContents(d), AlternativeLeaves(d);
    forall i, n: nat | 0 <= i < |contents|
      ensures PartReader()(contents[i], n) == CountedLeaf(leaves[i], n)
    {
      if i == 0 {
        BodyIsLeaf("plain", SignedText(d), n);
      } else {
        BodyIsLeaf("html", SignedHtml(d), n);
      }
    }
    ParseLeaves(PartReader(), contents, leaves, counter);
  }

  lemma BodiesAreSound(d: Draft, alternative: string)
    requires IsMarker("--" + alternative)
    requires !Occurs("--" + alternative, SignedText(d)) && !Occurs("--" + alternative, SignedHtml(d))
    ensures AllVisible(AlternativeContents(d)) && MarkerFree("--" + alternative, AlternativeContents(d))
  {
    var marker := "--" + alternative;
    TextFieldsArePrintable("plain");
    TextFieldsArePrintable("html");
    PrintedPartIsVisible(TextFields("plain"), SignedText(d));
    PrintedPartIsVisible(TextFields("html"), SignedHtml(d));
    TextLinesHaveNoMarker("plain", SignedText(d), marker);
    TextLinesHaveNoMarker("html", SignedHtml(d), marker);
    NoMarkerInJoin(marker, Lines(TextFields("plain")) + ["", SignedText(d)]);
    NoMarkerInJoin(marker, Lines(TextFields("html")) + ["", SignedHtml(d)]);
    TextBlock("plain", SignedText(d));
    TextBlock("html", SignedHtml(d));
  }

  lemma AlternativeBoundaryIsSound(stamp: Stamp)
    requires StampIsFresh(stamp)
    ensures BoundaryText(AlternativeBoundary(stamp)) && IsMarker("--" + AlternativeBoundary(stamp))
  {
  }

  lemma MixedBoundaryIsSound(stamp: Stamp)
    requires StampIsFresh(stamp)
    ensures BoundaryText(MixedBoundary(stamp)) && IsMarker("--" + MixedBoundary(stamp))
  {
  }

  lemma AlternativeHeaders(stamp: Stamp)
    requires StampIsFresh(stamp)
    ensures var b := AlternativeBoundary(stamp);
      && AllPrintable(AlternativeFields(b)) && NewlineFree(b)
      && ContentType(FieldMap(map[], AlternativeFields(b))) == MultipartType("alternative", b)
      && "multipart/" <= MimeTypeOf(MultipartType("alternative", b))
      && Parameter(MultipartType("alternative", b), "boundary") == Some(b)
  {
    var b := AlternativeBoundary(stamp);
    AlternativeBoundaryIsSound(stamp);
    TypedHeaders(AlternativeFields(b), MultipartType("alternative", b));
    MultipartTypeIsRead("alternative", b);
    AlternativeFieldsArePrintable(stamp);
  }

  lemma AlternativeFieldsArePrintable(stamp: Stamp)
    requires StampIsFresh(stamp)
    ensures var b := AlternativeBoundary(stamp); AllPrintable(AlternativeFields(b)) && NewlineFree(b)
  {
    var b := AlternativeBoundary(stamp);
    TypeFieldNames();
    BoundaryIsOneLine("alternative", "galmail-alt-", stamp.alternativeId);
    UuidIsOneLine("galmail-alt-", stamp.alternativeId);
    PlainFieldIsPrintable("Content-Type", MultipartType("alternative", b));
  }

  /** The alternative part parses to the text and the html, in that order. */
  lemma ParseAlternative(d: Draft, stamp: Stamp, counter: nat)
    requires Printable(d, stamp) && counter + 3 <= MAX_PARTS
    ensures ParsePart(Join(AlternativeLines(d, AlternativeBoundary(stamp))), counter)
         == Ok((AlternativePart(d, AlternativeBoundary(stamp)), counter + 3))
    ensures Trim(Join(AlternativeLines(d, AlternativeBoundary(stamp)))) != ""
  {
    var b := AlternativeBoundary(stamp);
    AlternativeHeaders(stamp);
    AlternativeBoundaryIsSound(stamp);
    BodiesAreSound(d, b);
    OccursNeedsChar("--" + b, "--", 2);
    AlternativeIsPrinted(d, b);
    PrintedPartIsVisible(AlternativeFields(b), MultipartBody(b, AlternativeContents(d), "--"));
    ParseMultipart(AlternativeFields(b), b, AlternativeContents(d), "--", counter);
    ParseBodies(d, counter + 1);
  }

  lemma VisitTextThenHtml(whole: Part, text: Part, html: Part)
    requires whole.parts == [text, html]
    requires !IsAttachment(text) && text.mimeType == "text/plain" && text.parts == []
    requires !IsAttachment(html) && html.mimeType == "text/html" && html.parts == []
    ensures VisitPart(whole, Contents(None, None, []))
         == Contents(Some(Utf8.Decode(text.body)), Some(Utf8.Decode(html.body)), [])
  {
    assert [text, html][1..] == [html] && [html][1..] == [];
    assert "text/html"[5] != "text/plain"[5];
    var afterText := VisitPart(text, Contents(None, None, []));
    assert VisitParts([html], afterText) == VisitPart(html, afterText);
  }

  lemma VisitAlternative(d: Draft, alternative: string)
    ensures VisitPart(AlternativePart(d, alternative), Contents(None, None, []))
         == Contents(Some(Utf8.StripBom(SignedText(d))), Some(Utf8.StripBom(SignedHtml(d))), [])
  {
    var text, html := TextPart("plain", SignedText(d)), TextPart("html", SignedHtml(d));
    BodyPart("plain", SignedText(d), 0);
    BodyPart("html", SignedHtml(d), 0);
    LowerOfTextTypes();
    VisitTextThenHtml(AlternativePart(d, alternative), text, html);
  }

  // ---- the whole message

  function AttachmentBlock(a: DraftAttachment): seq<string> {
    [AttachmentPart(a)]
  }

  function AttachmentBlocks(list: seq<DraftAttachment>): seq<seq<string>> {
    Map(AttachmentBlock, list)
  }

  lemma {:induction false} AttachmentLinesNest(list: seq<DraftAttachment>, mixed: string)
    ensures AttachmentLines(list, mixed) + ["--" + mixed + "--", ""]
         == MultipartLines("--" + mixed, AttachmentBlocks(list), [""])
  {
    var marker := "--" + mixed;
    if list == [] {
      assert [marker + "--"] + [""] == [marker + "--", ""];
    } else {
      AttachmentLinesNest(list[1..], mixed);
      var part, later := AttachmentPart(list[0]), AttachmentLines(list[1..], mixed);
      LinesNestOne(marker, part, later, [marker + "--", ""]);
      MapFirst(AttachmentBlock, list);
      MultipartLinesStep(marker, [part], AttachmentBlocks(list[1..]), [""]);
    }
  }

  lemma MultipartLinesStep(marker: string, block: seq<string>, others: seq<seq<string>>, last: seq<string>)
    ensures MultipartLines(marker, [block] + others, last) == [marker] + block + MultipartLines(marker, others, last)
    ensures JoinAll([block] + others) == [Join(block)] + JoinAll(others)
  {
    assert ([block] + others)[1..] == others;
  }

  lemma {:induction false} AttachmentBlocksJoin(list: seq<DraftAttachment>)
    ensures JoinAll(AttachmentBlocks(list)) == AttachmentParts(list)
  {
    if list != [] {
      AttachmentBlocksJoin(list[1..]);
      MapFirst(AttachmentBlock, list);
      MapFirst(AttachmentPart, list);
      MultipartLinesStep("", [AttachmentPart(list[0])], AttachmentBlocks(list[1..]), []);
    }
  }

  lemma LinesNestOne(marker: string, part: string, later: seq<string>, closing: seq<string>)
    ensures [marker, part] + later + closing == [marker] + [part] + (later + closing)
  {
  }

  function MixedContents(d: Draft, stamp: Stamp): seq<string> {
    [Join(AlternativeLines(d, AlternativeBoundary(stamp)))] + AttachmentParts(d.attachments)
  }

  lemma MixedLinesNest(header: seq<string>, marker: string, inner: seq<string>, attachments: seq<string>, closing: seq<string>,
                       rest: seq<string>)
    requires attachments + closing == rest
    ensures header + [""] + [marker] + inner + attachments + closing == header + ([""] + ([marker] + inner + rest))
  {
  }

  function MixedBlocks(d: Draft, stamp: Stamp): seq<seq<string>> {
    [AlternativeLines(d, AlternativeBoundary(stamp))] + AttachmentBlocks(d.attachments)
  }

  lemma MessageLinesNest(d: Draft, stamp: Stamp)
    ensures GenerateMime(d, stamp)
         == Join(Lines(HeaderFields(d, stamp))
                 + ([""] + MultipartLines("--" + MixedBoundary(stamp), MixedBlocks(d, stamp), [""])))
  {
    var mixed := MixedBoundary(stamp);
    var marker := "--" + mixed;
    var inner := AlternativeLines(d, AlternativeBoundary(stamp));
    AttachmentLinesNest(d.attachments, mixed);
    MixedLinesNest(Lines(HeaderFields(d, stamp)), marker, inner, AttachmentLines(d.attachments, mixed),
                   [marker + "--", ""], MultipartLines(marker, AttachmentBlocks(d.attachments), [""]));
    MultipartLinesStep(marker, inner, AttachmentBlocks(d.attachments), [""]);
  }

  lemma MixedBlocksJoin(d: Draft, stamp: Stamp)
    ensures JoinAll(MixedBlocks(d, stamp)) == MixedContents(d, stamp)
    ensures forall b <- MixedBlocks(d, stamp) :: b != []
  {
    MultipartLinesStep("", AlternativeLines(d, AlternativeBoundary(stamp)), AttachmentBlocks(d.attachments), []);
    AttachmentBlocksJoin(d.attachments);
    assert forall i :: 0 <= i < |d.attachments| ==>
      AttachmentBlocks(d.attachments)[i] == AttachmentBlock(d.attachments[i]);
  }

  /** A generated message is its header block and a multipart body of its contents. */
  lemma MessageIsPrinted(d: Draft, stamp: Stamp)
    ensures GenerateMime(d, stamp)
         == PrintedPart(HeaderFields(d, stamp), MultipartBody(MixedBoundary(stamp), MixedContents(d, stamp), "--\r\n"))
  {
    var marker, blocks := "--" + MixedBoundary(stamp), MixedBlocks(d, stamp);
    MessageLinesNest(d, stamp);
    MixedBlocksJoin(d, stamp);
    JoinMultipartLines(marker, blocks, [""]);
    ClosingOfMessage();
    JoinIsPrintedPart(HeaderFields(d, stamp), MultipartLines(marker, blocks, [""]));
  }

  lemma ClosingOfMessage()
    ensures Closing([""]) == "--\r\n"
  {
  }

  lemma NoX(prefix: string, u: string, suffix: string)
    requires IsUuid(u) && 'x' !in prefix && 'x' !in suffix
    ensures 'x' !in prefix + u && 'x' !in prefix + u + suffix
  {
  }

  lemma NoXInTypeLine(u: string)
    requires IsUuid(u)
    ensures 'x' !in Field("Content-Type", MultipartType("alternative", "galmail-alt-" + u)).Line()
  {
    NoX("galmail-alt-", u, "");
    var boundary := "galmail-alt-" + u;
    assert 'x' !in "multipart/" + "alternative";
    assert 'x' !in "multipart/" + "alternative" + "; boundary=\"";
    assert 'x' !in "multipart/" + "alternative" + "; boundary=\"" + boundary;
    assert 'x' !in MultipartType("alternative", boundary);
    assert 'x' !in "Content-Type" + ": ";
  }

  /** The letter x of the mixed marker is in no line of the alternative part's frame. */
  lemma AlternativeLineHasNoMarker(m: string, stamp: Stamp)
    requires StampIsFresh(stamp) && |m| > 12 && m[12] == 'x'
    ensures var a := AlternativeBoundary(stamp);
      && !Occurs(m, Field("Content-Type", MultipartType("alternative", a)).Line())
      && !Occurs(m, "--" + a) && !Occurs(m, "--" + a + "--")
  {
    var a, u := AlternativeBoundary(stamp), stamp.alternativeId;
    NoXInTypeLine(u);
    NoX("--galmail-alt-", u, "--");
    assert "--" + a == "--galmail-alt-" + u;
    OccursNeedsChar(m, Field("Content-Type", MultipartType("alternative", a)).Line(), 12);
    OccursNeedsChar(m, "--" + a, 12);
    OccursNeedsChar(m, "--" + a + "--", 12);
  }

  lemma AlternativeHasNoMarker(d: Draft, stamp: Stamp)
    requires Printable(d, stamp)
    ensures !Occurs("--" + MixedBoundary(stamp), Join(AlternativeLines(d, AlternativeBoundary(stamp))))
  {
    var m, a := "--" + MixedBoundary(stamp), AlternativeBoundary(stamp);
    MixedBoundaryIsSound(stamp);
    assert m[12] == 'x';
    AlternativeLineHasNoMarker(m, stamp);
    EncodingLine(m);
    TextLinesHaveNoMarker("plain", SignedText(d), m);
    TextLinesHaveNoMarker("html", SignedHtml(d), m);
    var l0 := Lines(AlternativeFields(a)) + ["", "--" + a];
    var l1 := Lines(TextFields("plain")) + ["", SignedText(d)];
    var l2 := Lines(TextFields("html")) + ["", SignedHtml(d)];
    assert NoLineHas(m, l0);
    NoLineOfTwoHas(m, l0, l1);
    NoLineOfTwoHas(m, l0 + l1, ["--" + a]);
    NoLineOfTwoHas(m, l0 + l1 + ["--" + a], l2);
    NoLineOfTwoHas(m, l0 + l1 + ["--" + a] + l2, ["--" + a + "--"]);
    assert AlternativeLines(d, a) == l0 + l1 + ["--" + a] + l2 + ["--" + a + "--"];
    NoMarkerInJoin(m, AlternativeLines(d, a));
  }

  lemma AttachmentContentsAreSound(list: seq<DraftAttachment>, mixed: string)
    requires AllPrintableAttachments(list, mixed) && NewlineFree(mixed)
    ensures AllVisible(AttachmentParts(list)) && MarkerFree("--" + mixed, AttachmentParts(list))
  {
    forall c | c in AttachmentParts(list)
      ensures Trim(c) != "" && !Occurs("--" + mixed, c)
    {
      var i :| 0 <= i < |list| && c == AttachmentParts(list)[i];
      assert list[i] in list;
      ParseAttachment(list[i], mixed, 0);
      AttachmentHasNoMarker(list[i], mixed);
    }
  }

  lemma FirstIsSound(marker: string, first: string, others: seq<string>)
    requires Trim(first) != "" && !Occurs(marker, first)
    requires AllVisible(others) && MarkerFree(marker, others)
    ensures AllVisible([first] + others) && MarkerFree(marker, [first] + others)
  {
  }

  lemma ContentsAreSound(d: Draft, stamp: Stamp)
    requires Printable(d, stamp)
    ensures AllVisible(MixedContents(d, stamp))
    ensures MarkerFree("--" + MixedBoundary(stamp), MixedContents(d, stamp))
  {
    UuidIsOneLine("galmail-mixed-", stamp.mixedId);
    ParseAlternative(d, stamp, 0);
    AlternativeHasNoMarker(d, stamp);
    AttachmentContentsAreSound(d.attachments, MixedBoundary(stamp));
    FirstIsSound("--" + MixedBoundary(stamp), Join(AlternativeLines(d, AlternativeBoundary(stamp))),
                 AttachmentParts(d.attachments));
  }

  lemma MixedTypeIsRead(stamp: Stamp)
    requires StampIsFresh(stamp)
    ensures var b := MixedBoundary(stamp);
      && NewlineFree(b)
      && Trim(MultipartType("mixed", b)) == MultipartType("mixed", b)
      && "multipart/" <= MimeTypeOf(MultipartType("mixed", b))
      && Parameter(MultipartType("mixed", b), "boundary") == Some(b)
  {
    MixedBoundaryIsSound(stamp);
    MultipartTypeIsRead("mixed", MixedBoundary(stamp));
    UuidIsOneLine("galmail-mixed-", stamp.mixedId);
  }

  lemma MixedHeaders(d: Draft, stamp: Stamp)
    requires StampIsFresh(stamp)
    ensures var h := FieldMap(map[], HeaderFields(d, stamp));
      && HeaderOr(h, "subject", "") == Trim(EncodeHeader(d.subject))
      && ContentType(h) == MultipartType("mixed", MixedBoundary(stamp))
  {
    HeaderFieldValues(d, stamp);
    MixedTypeIsRead(stamp);
  }

  function RootLeaves(d: Draft, stamp: Stamp): seq<Part> {
    [AlternativePart(d, AlternativeBoundary(stamp))] + AttachmentLeaves(d.attachments)
  }

  function Root(d: Draft, stamp: Stamp): Part {
    Assemble(MessageHeaders(d, stamp), MessageBody(d, stamp), RootLeaves(d, stamp))
  }

  lemma ParseContents(d: Draft, stamp: Stamp, counter: nat)
    requires Printable(d, stamp) && counter + 3 <= MAX_PARTS
    ensures ParseAll(PartReader(), MixedContents(d, stamp), counter)
         == Prepend([AlternativePart(d, AlternativeBoundary(stamp))],
                    CountedLeaves(AttachmentLeaves(d.attachments), counter + 3))
  {
    var first := Join(AlternativeLines(d, AlternativeBoundary(stamp)));
    ParseAlternative(d, stamp, counter);
    ParseFirst(PartReader(), first, AttachmentParts(d.attachments), counter,
               AlternativePart(d, AlternativeBoundary(stamp)), counter + 3);
    ParseAttachments(d.attachments, MixedBoundary(stamp), counter + 3);
  }

  lemma ParseMixed(fields: seq<Field>, stamp: Stamp, contents: seq<string>, tail: string, counter: nat)
    requires StampIsFresh(stamp) && fields != [] && AllPrintable(fields)
    requires ContentType(FieldMap(map[], fields)) == MultipartType("mixed", MixedBoundary(stamp))
    requires AllVisible(contents) && MarkerFree("--" + MixedBoundary(stamp), contents)
    requires "--" <= tail && !Occurs("--" + MixedBoundary(stamp), tail) && counter + 1 <= MAX_PARTS
    ensures ParsePart(PrintedPart(fields, MultipartBody(MixedBoundary(stamp), contents, tail)), counter)
         == Assembled(FieldMap(map[], fields), MultipartBody(MixedBoundary(stamp), contents, tail),
                      ParseAll(PartReader(), contents, counter + 1))
  {
    MixedTypeIsRead(stamp);
    ParseMultipart(fields, MixedBoundary(stamp), contents, tail, counter);
  }

  lemma ClosingIsSound(b: string)
    requires b != "" && b[0] == 'g'
    ensures "--" <= "--\r\n" && !Occurs("--" + b, "--\r\n")
  {
    OccursNeedsChar("--" + b, "--\r\n", 2);
  }

  lemma MultipartMessage(d: Draft, stamp: Stamp, counter: nat)
    requires Printable(d, stamp) && counter + 1 <= MAX_PARTS
    ensures ParsePart(GenerateMime(d, stamp), counter)
         == Assembled(FieldMap(map[], HeaderFields(d, stamp)),
                      MultipartBody(MixedBoundary(stamp), MixedContents(d, stamp), "--\r\n"),
                      ParseAll(PartReader(), MixedContents(d, stamp), counter + 1))
  {
    MessageIsPrinted(d, stamp);
    HeaderFieldsArePrintable(d, stamp);
    MixedHeaders(d, stamp);
    ContentsAreSound(d, stamp);
    assert MixedBoundary(stamp)[0] == 'g';
    ClosingIsSound(MixedBoundary(stamp));
    ParseMixed(HeaderFields(d, stamp), stamp, MixedContents(d, stamp), "--\r\n", counter);
  }

  function CountedPart(part: Part, more: nat, counter: nat): Parsed {
    if counter + more > MAX_PARTS then Err(TooManyParts) else Ok((part, counter + more))
  }

  function MessageBody(d: Draft, stamp: Stamp): string {
    MultipartBody(MixedBoundary(stamp), MixedContents(d, stamp), "--\r\n")
  }

  function MessageHeaders(d: Draft, stamp: Stamp): HeaderMap {
    FieldMap(map[], HeaderFields(d, stamp))
  }

  lemma MessageChildren(d: Draft, stamp: Stamp, counter: nat)
    requires Printable(d, stamp) && counter + 4 <= MAX_PARTS
    ensures ParsePart(GenerateMime(d, stamp), counter)
         == Assembled(MessageHeaders(d, stamp), MessageBody(d, stamp),
                      Prepend([AlternativePart(d, AlternativeBoundary(stamp))],
                              CountedLeaves(AttachmentLeaves(d.attachments), counter + 4)))
  {
    MultipartMessage(d, stamp, counter);
    ParseContents(d, stamp, counter + 1);
  }

  lemma CountChildren(headers: HeaderMap, body: string, first: Part, others: seq<Part>, counter: nat)
    ensures Assembled(headers, body, Prepend([first], CountedLeaves(others, counter)))
         == CountedPart(Assemble(headers, body, [first] + others), |others|, counter)
  {
  }

  /** Parsing the printed message: too many attachments are rejected, otherwise every part is there. */
  lemma ParseMessage(d: Draft, stamp: Stamp, counter: nat)
    requires Printable(d, stamp) && counter + 4 <= MAX_PARTS
    ensures ParsePart(GenerateMime(d, stamp), counter) == CountedPart(Root(d, stamp), |d.attachments|, counter + 4)
  {
    MessageChildren(d, stamp, counter);
    CountChildren(MessageHeaders(d, stamp), MessageBody(d, stamp),
                  AlternativePart(d, AlternativeBoundary(stamp)), AttachmentLeaves(d.attachments), counter + 4);
  }

  function ExpectedContents(d: Draft): Contents {
    Contents(Some(Utf8.StripBom(SignedText(d))), Some(Utf8.StripBom(SignedHtml(d))), ExpectedViews(d.attachments))
  }

  lemma VisitFirst(whole: Part, first: Part, others: seq<Part>, seen: Contents)
    requires whole.parts == [first] + others
    ensures VisitPart(whole, seen) == VisitParts(others, VisitPart(first, seen))
  {
  }

  lemma VisitMessage(d: Draft, stamp: Stamp)
    requires Printable(d, stamp)
    ensures VisitPart(Root(d, stamp), Contents(None, None, [])) == ExpectedContents(d)
  {
    var alternative := AlternativePart(d, AlternativeBoundary(stamp));
    var seen := Contents(Some(Utf8.StripBom(SignedText(d))), Some(Utf8.StripBom(SignedHtml(d))), []);
    VisitAlternative(d, AlternativeBoundary(stamp));
    VisitFirst(Root(d, stamp), alternative, AttachmentLeaves(d.attachments), Contents(None, None, []));
    ViewsAfterBodies(d, stamp, seen);
  }

  lemma ViewsAfterBodies(d: Draft, stamp: Stamp, seen: Contents)
    requires Printable(d, stamp) && seen.attachments == []
    ensures VisitParts(AttachmentLeaves(d.attachments), seen) == seen.(attachments := ExpectedViews(d.attachments))
  {
    VisitAttachments(d.attachments, MixedBoundary(stamp), seen);
    assert [] + ExpectedViews(d.attachments) == ExpectedViews(d.attachments);
  }

  /**
   The round trip. Whatever the draft, parsing its printed form succeeds exactly within the size
   and part limits, and then gives back the text and the html (signature appended, one leading
   byte order mark lost), every attachment in order with its bytes, name, type, disposition and
   content id, and the subject as header encoding leaves it.
   */
  lemma ParsingInvertsGeneration(d: Draft, stamp: Stamp)
    requires Printable(d, stamp)
    ensures |Utf8.Encode(GenerateMime(d, stamp))| > MAX_MIME_BYTES ==>
      ParsedMime(GenerateMime(d, stamp)) == Err(TooLarge)
    ensures |Utf8.Encode(GenerateMime(d, stamp))| <= MAX_MIME_BYTES && |d.attachments| > MAX_PARTS - 4 ==>
      ParsedMime(GenerateMime(d, stamp)) == Err(TooManyParts)
    ensures |Utf8.Encode(GenerateMime(d, stamp))| <= MAX_MIME_BYTES && |d.attachments| <= MAX_PARTS - 4 ==>
      && ParsedMime(GenerateMime(d, stamp)).Ok?
      && ParsedMime(GenerateMime(d, stamp)).value.contents == ExpectedContents(d)
      && ParsedMime(GenerateMime(d, stamp)).value.subject == DecodeWords(Trim(EncodeHeader(d.subject)))
  {
    ParseMessage(d, stamp, 0);
    if 4 + |d.attachments| <= MAX_PARTS {
      VisitMessage(d, stamp);
      MixedHeaders(d, stamp);
    }
  }

  /** A subject that needs encoding comes back with line ends as spaces; a plain one comes back
      trimmed, unless it spells an encoded word itself. */
  lemma SubjectComesBack(subject: string)
    ensures !PrintableAscii(subject) ==>
      DecodeWords(Trim(EncodeHeader(subject))) == Utf8.StripBom(SpacesForNewlines(subject))
    ensures PrintableAscii(subject) && !Occurs("=?", Trim(subject)) ==>
      DecodeWords(Trim(EncodeHeader(subject))) == Trim(subject)
  {
    if PrintableAscii(subject) {
      assert SpacesForNewlines(subject) == subject;
      if !Occurs("=?", Trim(subject)) {
        NoWordToDecode(Trim(subject));
      }
    } else {
      EncodedWordDecodes(SpacesForNewlines(subject));
      TrimSpaceThen(EncodedText(SpacesForNewlines(subject)));
    }
  }

  /** Names without quote marks, percent signs and line ends are returned as they are. */
  lemma PlainFilenameComesBack(a: DraftAttachment)
    requires '"' !in a.filename && NewlineFree(a.filename) && '%' !in a.filename && '\'' !in a.filename
    ensures ExpectedView(a).filename == a.filename
  {
    assert SafeFilename(a.filename) == a.filename;
    PlainParameter(a.filename);
  }
}
