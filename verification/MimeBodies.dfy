/**
 Messages of a single part: whatever their transfer encoding, parsing gives back the octets that were
 encoded, and shows them as text, as html or as an attachment.
 */
module MimeBodies {
  import opened Outcomes
  import opened JsText
  import opened MimeHeaders
  import opened MimeParser
  import opened MimeMultipart
  import opened MimeGenerator
  import opened MimeRoundTrip
  import Utf8
  import Base64
  import QuotedPrintable

  function Headers(fields: seq<Field>): HeaderMap {
    FieldMap(map[], fields)
  }

  /** The block can be printed, and its content type is not a multipart type. */
  ghost predicate IsSinglePart(fields: seq<Field>) {
    && fields != [] && AllPrintable(fields)
    && !("multipart/" <= MimeTypeOf(ContentType(Headers(fields))))
  }

  predicate Fits(raw: string) {
    |Utf8.Encode(raw)| <= 50 * 1024 * 1024
  }

  /** The field names the encoding, in any case; base64 is looked for first. */
  predicate NamesQuotedPrintable(h: HeaderMap) {
    && "content-transfer-encoding" in h
    && Occurs("quoted-printable", Lower(h["content-transfer-encoding"]))
    && !Occurs("base64", Lower(h["content-transfer-encoding"]))
  }

  predicate NamesBase64(h: HeaderMap) {
    "content-transfer-encoding" in h && Occurs("base64", Lower(h["content-transfer-encoding"]))
  }

  predicate NamesNeither(h: HeaderMap) {
    "content-transfer-encoding" in h ==>
      && !Occurs("base64", Lower(h["content-transfer-encoding"]))
      && !Occurs("quoted-printable", Lower(h["content-transfer-encoding"]))
  }

  /** What a part without children is made of. */
  lemma LeafIsAssembled(h: HeaderMap, body: string)
    ensures var part := Assemble(h, body, []);
      && part.headers == h && part.parts == []
      && part.mimeType == MimeTypeOf(ContentType(h)) && part.charset == Parameter(ContentType(h), "charset")
      && part.disposition == DispositionOf(HeaderOr(h, "content-disposition", ""))
      && part.filename == FilenameOf(ContentType(h), HeaderOr(h, "content-disposition", ""))
      && part.contentId == (if "content-id" in h then Some(StripAngles(h["content-id"])) else None)
    ensures NamesQuotedPrintable(h) ==> Assemble(h, body, []).body == QuotedPrintable.Decode(body)
    ensures NamesBase64(h) ==> Assemble(h, body, []).body == Base64.Decode(body)
    ensures NamesNeither(h) ==> Assemble(h, body, []).body == Utf8.Encode(body)
  {
    NothingOccursInNothing("base64");
    NothingOccursInNothing("quoted-printable");
  }

  lemma NothingOccursInNothing(p: string)
    requires p != ""
    ensures !OccursIgnoringCase(p, "")
  {
    OccursNeedsChar(p, "", 0);
  }

  /** What the reader sees of a message that is one part. */
  lemma LeafIsShown(part: Part)
    requires part.parts == []
    ensures MessageOf(part).headers == part.headers && MessageOf(part).root == part
    ensures MessageOf(part).contents == VisitLeaf(part, Contents(None, None, []))
  {
  }

  lemma SinglePartParses(fields: seq<Field>, body: string)
    requires IsSinglePart(fields)
    ensures ParsedMime(PrintedPart(fields, body))
         == if Fits(PrintedPart(fields, body)) then Ok(MessageOf(Assemble(Headers(fields), body, []))) else Err(TooLarge)
  {
    ParseLeaf(fields, body, 0);
  }

  /** The message is one part with these headers and octets. */
  predicate IsOnePart(r: Result<Message, MimeError>, h: HeaderMap, octets: seq<Byte>) {
    && r.Ok? && r.value.headers == h
    && r.value.root.headers == h && r.value.root.parts == [] && r.value.root.body == octets
  }

  lemma OnePartIsParsed(fields: seq<Field>, body: string, octets: seq<Byte>)
    requires IsSinglePart(fields) && Assemble(Headers(fields), body, []).body == octets
    ensures if Fits(PrintedPart(fields, body))
      then IsOnePart(ParsedMime(PrintedPart(fields, body)), Headers(fields), octets)
      else ParsedMime(PrintedPart(fields, body)) == Err(TooLarge)
  {
    SinglePartParses(fields, body);
    LeafIsAssembled(Headers(fields), body);
    LeafIsShown(Assemble(Headers(fields), body, []));
  }

  /**
   Quoted-printable, section 6.7 of RFC 2045: for every octet string and every encoding of it, the
   parsed message has the octets, or is too large.
   */
  lemma QuotedPrintableIsDecoded(fields: seq<Field>, ts: seq<QuotedPrintable.Token>)
    requires IsSinglePart(fields) && NamesQuotedPrintable(Headers(fields)) && QuotedPrintable.AllAcceptable(ts)
    ensures var raw := PrintedPart(fields, QuotedPrintable.Render(ts));
      if Fits(raw) then IsOnePart(ParsedMime(raw), Headers(fields), QuotedPrintable.Denotation(ts))
      else ParsedMime(raw) == Err(TooLarge)
  {
    QuotedPrintable.DecodeInvertsEveryEncoding(ts);
    LeafIsAssembled(Headers(fields), QuotedPrintable.Render(ts));
    OnePartIsParsed(fields, QuotedPrintable.Render(ts), QuotedPrintable.Denotation(ts));
  }

  /** Each octet string has such a message. */
  lemma EveryOctetStringCanBeSent(fields: seq<Field>, x: seq<Byte>)
    requires IsSinglePart(fields) && NamesQuotedPrintable(Headers(fields))
    ensures var ts := QuotedPrintable.EscapeAll(x);
      var raw := PrintedPart(fields, QuotedPrintable.Render(ts));
      && QuotedPrintable.AllAcceptable(ts) && QuotedPrintable.LegalFrom(ts, 0)
      && (Fits(raw) ==> IsOnePart(ParsedMime(raw), Headers(fields), x))
  {
    QuotedPrintable.EveryOctetStringHasALegalEncoding(x);
    QuotedPrintableIsDecoded(fields, QuotedPrintable.EscapeAll(x));
  }

  /** Base64 in lines of 76 symbols. */
  lemma Base64IsDecoded(fields: seq<Field>, x: seq<Byte>)
    requires IsSinglePart(fields) && NamesBase64(Headers(fields))
    ensures var raw := PrintedPart(fields, Base64.EncodeLines(x));
      if Fits(raw) then IsOnePart(ParsedMime(raw), Headers(fields), x) else ParsedMime(raw) == Err(TooLarge)
  {
    Base64.DecodeInvertsEncodeLines(x);
    LeafIsAssembled(Headers(fields), Base64.EncodeLines(x));
    OnePartIsParsed(fields, Base64.EncodeLines(x), x);
  }

  /** Without either, the octets are the UTF-8 encoding of the text. */
  lemma PlainBodyIsKept(fields: seq<Field>, body: string)
    requires IsSinglePart(fields) && NamesNeither(Headers(fields))
    ensures var raw := PrintedPart(fields, body);
      if Fits(raw) then IsOnePart(ParsedMime(raw), Headers(fields), Utf8.Encode(body))
      else ParsedMime(raw) == Err(TooLarge)
  {
    LeafIsAssembled(Headers(fields), body);
    OnePartIsParsed(fields, body, Utf8.Encode(body));
  }

  // ---- what the reader is shown

  /** Neither the disposition nor a name makes the part an attachment. */
  predicate IsShown(h: HeaderMap) {
    "content-disposition" !in h && Parameter(ContentType(h), "name") in {None, Some("")}
  }

  lemma ShownLeaf(part: Part, octets: seq<Byte>)
    requires part.disposition.None? && part.filename in {None, Some("")} && part.body == octets
    ensures VisitLeaf(part, Contents(None, None, []))
         == Contents(if part.mimeType == "text/plain" then Some(Utf8.Decode(octets)) else None,
                     if part.mimeType == "text/html" then Some(Utf8.Decode(octets)) else None,
                     [])
  {
  }

  lemma AttachedLeaf(part: Part)
    requires part.disposition == Some(Attached)
          || (part.disposition.None? && part.filename.Some? && part.filename.value != "")
    ensures VisitLeaf(part, Contents(None, None, []))
         == Contents(None, None, [AttachmentView(
              if part.filename.Some? && part.filename.value != "" then part.filename.value else "attachment",
              part.mimeType, Attached, part.contentId, part.body)])
  {
  }

  /** A part that is shown: plain text and html as such, anything else not at all. */
  lemma BodyIsShown(fields: seq<Field>, body: string, octets: seq<Byte>)
    requires IsSinglePart(fields) && IsShown(Headers(fields))
    requires IsOnePart(ParsedMime(PrintedPart(fields, body)), Headers(fields), octets)
    ensures var kind := MimeTypeOf(ContentType(Headers(fields)));
      ParsedMime(PrintedPart(fields, body)).value.contents
        == Contents(if kind == "text/plain" then Some(Utf8.Decode(octets)) else None,
                    if kind == "text/html" then Some(Utf8.Decode(octets)) else None,
                    [])
  {
    var part := Assemble(Headers(fields), body, []);
    SinglePartParses(fields, body);
    LeafIsAssembled(Headers(fields), body);
    LeafIsShown(part);
    NothingInNothing("filename");
    ShownLeaf(part, octets);
  }

  /** A part that its disposition calls an attachment. */
  lemma AttachedBodyIsAnAttachment(fields: seq<Field>, body: string, octets: seq<Byte>)
    requires IsSinglePart(fields) && "content-disposition" in Headers(fields)
    requires Occurs("attachment", Lower(Headers(fields)["content-disposition"]))
    requires IsOnePart(ParsedMime(PrintedPart(fields, body)), Headers(fields), octets)
    ensures var contents := ParsedMime(PrintedPart(fields, body)).value.contents;
      && contents.text.None? && contents.html.None? && |contents.attachments| == 1
      && contents.attachments[0].mimeType == MimeTypeOf(ContentType(Headers(fields)))
      && contents.attachments[0].disposition == Attached && contents.attachments[0].data == octets
  {
    var part := Assemble(Headers(fields), body, []);
    SinglePartParses(fields, body);
    LeafIsAssembled(Headers(fields), body);
    LeafIsShown(part);
    AttachedLeaf(part);
  }

  function NamedFields(t: string, name: string): seq<Field> {
    [Field("Content-Type", t + "; name=\"" + name + "\""), Field("Content-Transfer-Encoding", "base64")]
  }

  /** Without a disposition, a name in the content type makes the part an attachment of that name. */
  lemma NamedBodyIsAnAttachment(t: string, name: string, x: seq<Byte>)
    requires NewlineFree(t) && NewlineFree(name) && '"' !in name && '%' !in name && '\'' !in name && name != ""
    requires t != "" && Trimmed(t) && ';' !in t && '=' !in t && !("multipart/" <= Lower(t))
    requires Fits(PrintedPart(NamedFields(t, name), Base64.EncodeLines(x)))
    ensures ParsedMime(PrintedPart(NamedFields(t, name), Base64.EncodeLines(x))).Ok?
    ensures ParsedMime(PrintedPart(NamedFields(t, name), Base64.EncodeLines(x))).value.contents
         == Contents(None, None, [AttachmentView(name, Lower(t), Attached, None, x)])
  {
    var fields := NamedFields(t, name);
    NamedFieldsAreRead(t, name);
    Base64IsDecoded(fields, x);
    var part := Assemble(Headers(fields), Base64.EncodeLines(x), []);
    SinglePartParses(fields, Base64.EncodeLines(x));
    LeafIsAssembled(Headers(fields), Base64.EncodeLines(x));
    LeafIsShown(part);
    NothingInNothing("filename");
    AttachedLeaf(part);
  }

  lemma NamedFieldsAreRead(t: string, name: string)
    requires NewlineFree(t) && NewlineFree(name) && '"' !in name && '%' !in name && '\'' !in name && name != ""
    requires t != "" && Trimmed(t) && ';' !in t && '=' !in t && !("multipart/" <= Lower(t))
    ensures var h := Headers(NamedFields(t, name));
      && IsSinglePart(NamedFields(t, name)) && NamesBase64(h)
      && "content-disposition" !in h && "content-id" !in h
      && MimeTypeOf(ContentType(h)) == Lower(t) && Parameter(ContentType(h), "name") == Some(name)
  {
    NamedFieldsArePrintable(t, name);
    NamedFieldsHeaders(t, name);
    NamedTypeValue(t, name);
    LowerOfDispositions();
    PrefixOccurs("base64", "base64");
  }

  lemma NamedFieldsArePrintable(t: string, name: string)
    requires NewlineFree(t) && NewlineFree(name)
    ensures AllPrintable(NamedFields(t, name))
  {
    TypeFieldNames();
    EncodingFieldName();
    ConcatIsOneLine(t, "; name=\"", name);
    ConcatIsOneLine(t + "; name=\"" + name, "\"", "");
    assert t + "; name=\"" + name + "\"" + "" == t + "; name=\"" + name + "\"";
    PlainFieldIsPrintable("Content-Type", t + "; name=\"" + name + "\"");
    PlainFieldIsPrintable("Content-Transfer-Encoding", "base64");
  }

  lemma NamedFieldsHeaders(t: string, name: string)
    ensures var h := Headers(NamedFields(t, name));
      && ContentType(h) == Trim(t + "; name=\"" + name + "\"")
      && "content-transfer-encoding" in h && h["content-transfer-encoding"] == Trim("base64")
      && "content-disposition" !in h && "content-id" !in h
  {
    var fields := NamedFields(t, name);
    KeyNames();
    EncodingKeyName();
    AttachmentKeyNames();
    FieldMapLookup(map[], fields, 0);
    FieldMapLookup(map[], fields, 1);
    FieldMapFrame(map[], fields, "content-disposition");
    FieldMapFrame(map[], fields, "content-id");
  }

  lemma NamedTypeValue(t: string, name: string)
    requires '"' !in name && '%' !in name && '\'' !in name && name != ""
    requires t != "" && Trimmed(t) && ';' !in t && '=' !in t
    ensures var v := t + "; name=\"" + name + "\"";
      Trim(v) == v && MimeTypeOf(v) == Lower(t) && Parameter(v, "name") == Some(name)
  {
    SplitNamedType(t, name);
    TypeBeforeSemicolon(t, " name=\"" + name + "\"");
    NameIsFound(t, name);
  }

  lemma NameIsFound(t: string, name: string)
    requires '"' !in name && '%' !in name && '\'' !in name && name != ""
    requires t != "" && Trimmed(t) && ';' !in t && '=' !in t
    ensures Parameter(WithParameter(t, "name", name), "name") == Some(name)
  {
    SplitNamedType(t, name);
    NoNameAtStart(t, " name=\"" + name + "\"");
    NameName();
    ParameterIsFound(t, "name", name);
    PlainParameter(name);
  }

  lemma SplitNamedType(t: string, name: string)
    requires t != "" && Trimmed(t)
    ensures var v, after := t + "; name=\"" + name + "\"", " name=\"" + name + "\"";
      v == t + ([';'] + after) && v == WithParameter(t, "name", name) && Trimmed(v) && after[|after| - 1] == '"'
  {
    var v := t + "; name=\"" + name + "\"";
    assert v[0] == t[0] && v[|v| - 1] == '"';
  }

  /** The name does not stand at the start of the value, where no equals sign follows. */
  lemma NoNameAtStart(t: string, after: string)
    requires t != "" && Trimmed(t) && '=' !in t
    ensures ParameterHere(t + ([';'] + after), "name").None?
  {
    var v := t + ([';'] + after);
    assert v[0] == t[0] && TrimStart(v) == v;
    if |v| >= 4 {
      var u := v[4..];
      if 4 < |t| {
        assert u[0] == t[4];
        assert 5 < |t| ==> u[1] == t[5];
        assert 5 == |t| ==> u[1] == ';';
      } else if 4 == |t| {
        assert u[0] == ';';
      } else {
        assert v[|t|] == ';' && v[..4][|t|] == ';' && Lower(v[..4])[|t|] == ';';
      }
    }
  }

  lemma NameName()
    ensures Lower("name") == "name"
  {
  }

  // ---- a message without a content type

  lemma UntypedIsPlainText(h: HeaderMap)
    requires "content-type" !in h
    ensures MimeTypeOf(ContentType(h)) == "text/plain" && Parameter(ContentType(h), "name") == None
    ensures !("multipart/" <= MimeTypeOf(ContentType(h)))
  {
    TextTypeIsRead("plain");
    LowerOfTextTypes();
    PlainTypeText();
    TextIsNotMultipart("plain");
  }

  lemma PlainTypeText()
    ensures "text/" + "plain" + "; charset=utf-8" == "text/plain; charset=utf-8"
  {
  }

  /** A message that says nothing about its content is text. */
  lemma UntypedBodyIsText(fields: seq<Field>, body: string)
    requires fields != [] && AllPrintable(fields) && Fits(PrintedPart(fields, body))
    requires "content-type" !in Headers(fields) && "content-disposition" !in Headers(fields)
    requires "content-transfer-encoding" !in Headers(fields)
    ensures var r := ParsedMime(PrintedPart(fields, body));
      r.Ok? && r.value.contents == Contents(Some(Utf8.StripBom(body)), None, [])
  {
    var h := Headers(fields);
    UntypedIsPlainText(h);
    PlainBodyIsKept(fields, body);
    BodyIsShown(fields, body, Utf8.Encode(body));
    Utf8.DecodeInvertsEncode(body);
  }

  // ---- a text in quoted-printable

  function EncodedTextFields(subtype: string): seq<Field> {
    [Field("Content-Type", "text/" + subtype + "; charset=utf-8"),
     Field("Content-Transfer-Encoding", "quoted-printable")]
  }

  lemma EncodedTextFieldsArePrintable(subtype: string)
    requires subtype == "plain" || subtype == "html"
    ensures AllPrintable(EncodedTextFields(subtype))
  {
    TextFieldsArePrintable(subtype);
    assert EncodedTextFields(subtype)[0] == TextFields(subtype)[0];
    EncodingFieldName();
    QuotedPrintableName();
    PlainFieldIsPrintable("Content-Transfer-Encoding", "quoted-printable");
  }

  lemma EncodedTextValues(subtype: string)
    ensures var h := Headers(EncodedTextFields(subtype));
      && ContentType(h) == Trim("text/" + subtype + "; charset=utf-8")
      && "content-transfer-encoding" in h && h["content-transfer-encoding"] == Trim("quoted-printable")
      && "content-disposition" !in h
  {
    var fields := EncodedTextFields(subtype);
    KeyNames();
    EncodingKeyName();
    AttachmentKeyNames();
    FieldMapLookup(map[], fields, 0);
    FieldMapLookup(map[], fields, 1);
    FieldMapFrame(map[], fields, "content-disposition");
  }

  lemma TextIsNotMultipart(subtype: string)
    ensures !("multipart/" <= "text/" + subtype)
  {
    assert ("text/" + subtype)[0] == 't';
  }

  lemma EncodedTextHeaders(subtype: string)
    requires subtype == "plain" || subtype == "html"
    ensures var fields := EncodedTextFields(subtype);
      && IsSinglePart(fields) && NamesQuotedPrintable(Headers(fields)) && IsShown(Headers(fields))
      && MimeTypeOf(ContentType(Headers(fields))) == "text/" + subtype
  {
    EncodedTextFieldsArePrintable(subtype);
    EncodedTextValues(subtype);
    TextTypeIsRead(subtype);
    TextIsNotMultipart(subtype);
    QuotedPrintableName();
  }

  /** A word of small letters and hyphens is read as itself, and is not base64. */
  lemma SmallWord(w: string)
    requires w != "" && forall i :: 0 <= i < |w| ==> 'a' <= w[i] <= 'z' || w[i] == '-'
    ensures NewlineFree(w) && Trim(w) == w && Occurs(w, Lower(w)) && !Occurs("base64", Lower(w))
  {
    assert Lower(w) == w;
    TrimSpaceThen(w);
    PrefixOccurs(w, w);
    assert '6' !in w;
    OccursNeedsChar("base64", w, 4);
  }

  lemma QuotedPrintableName()
    ensures NewlineFree("quoted-printable") && Trim("quoted-printable") == "quoted-printable"
    ensures Occurs("quoted-printable", Lower("quoted-printable")) && !Occurs("base64", Lower("quoted-printable"))
  {
    SmallWord("quoted-printable");
  }

  /** Every text sent as quoted-printable is shown as it was, up to one leading byte order mark. */
  lemma EncodedTextIsShown(subtype: string, text: string, ts: seq<QuotedPrintable.Token>)
    requires subtype == "plain" || subtype == "html"
    requires QuotedPrintable.AllAcceptable(ts) && QuotedPrintable.Denotation(ts) == Utf8.Encode(text)
    requires Fits(PrintedPart(EncodedTextFields(subtype), QuotedPrintable.Render(ts)))
    ensures var r := ParsedMime(PrintedPart(EncodedTextFields(subtype), QuotedPrintable.Render(ts)));
      var shown := Some(Utf8.StripBom(text));
      r.Ok? && r.value.contents == if subtype == "plain" then Contents(shown, None, []) else Contents(None, shown, [])
  {
    EncodedTextHeaders(subtype);
    QuotedPrintableIsDecoded(EncodedTextFields(subtype), ts);
    BodyIsShown(EncodedTextFields(subtype), QuotedPrintable.Render(ts), Utf8.Encode(text));
    Utf8.DecodeInvertsEncode(text);
    LowerOfTextTypes();
  }
}
