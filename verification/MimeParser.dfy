/** The recursive MIME parser: parts, their bodies, and the message a reader shows. */
module MimeParser {
  import opened Outcomes
  import opened JsText
  import opened MimeHeaders
  import opened MimeAddresses
  import Utf8
  import Base64
  import QuotedPrintable

  const MAX_MIME_BYTES := 50 * 1024 * 1024
  const MAX_PARTS := 1000

  datatype MimeError = TooLarge | TooManyParts

  datatype Disposition = Inline | Attached

  datatype Part = Part(
    headers: HeaderMap,
    mimeType: string,
    charset: Option<string>,
    disposition: Option<Disposition>,
    filename: Option<string>,
    contentId: Option<string>,
    body: seq<Byte>,
    parts: seq<Part>)

  function HeaderOr(headers: HeaderMap, key: string, default: string): string {
    if key in headers then headers[key] else default
  }

  /** `body` decoded by its transfer encoding; anything else is the UTF-8 of the text. */
  function BodyBytes(body: string, encoding: string): seq<Byte> {
    if OccursIgnoringCase("base64", encoding) then Base64.Decode(body)
    else if OccursIgnoringCase("quoted-printable", encoding) then QuotedPrintable.Decode(body)
    else Utf8.Encode(body)
  }

  function DropLeadingNewline(s: string): string {
    s[NewlineLength(s)..]
  }

  /** `s.replace(/\r?\n$/, "")` */
  function DropTrailingNewline(s: string): string {
    if s != "" && s[|s| - 1] == '\n' then
      if |s| >= 2 && s[|s| - 2] == '\r' then s[..|s| - 2] else s[..|s| - 1]
    else s
  }

  /** The content of a section between two markers. */
  function Cleaned(section: string): (r: string)
    ensures |r| <= |section|
  {
    DropTrailingNewline(DropLeadingNewline(section))
  }

  function ContentType(headers: HeaderMap): string {
    HeaderOr(headers, "content-type", "text/plain; charset=utf-8")
  }

  function MimeTypeOf(contentType: string): string {
    Lower(Trim(contentType[..IndexOf(contentType, ';')]))
  }

  function DispositionOf(header: string): Option<Disposition> {
    if OccursIgnoringCase("attachment", header) then Some(Attached)
    else if OccursIgnoringCase("inline", header) then Some(Inline)
    else None
  }

  /** `value.replace(/^<|>$/g, "")` */
  function StripAngles(value: string): string {
    var inner := if value != "" && value[0] == '<' then value[1..] else value;
    if inner != "" && inner[|inner| - 1] == '>' then inner[..|inner| - 1] else inner
  }

  function FilenameOf(contentType: string, dispositionHeader: string): Option<string> {
    var named := Parameter(dispositionHeader, "filename");
    if named.Some? then named else Parameter(contentType, "name")
  }

  function HeaderText(raw: string): string {
    match FindSeparator(raw) case None => raw case Some(i) => raw[..i]
  }

  function BodyText(raw: string): (r: string)
    ensures |r| <= |raw|
  {
    match FindSeparator(raw)
    case None => ""
    case Some(i) => raw[i..][SeparatorLength(raw[i..])..]
  }

  /** `bodyText.split(marker).slice(1)` */
  function AfterFirst(bodyText: string, marker: string): (r: seq<string>)
    requires marker != ""
    ensures forall s <- r :: |s| < |bodyText|
  {
    var pieces := SplitOn(bodyText, marker);
    assert forall i :: 0 <= i < |pieces| - 1 ==> pieces[1..][i] == pieces[i + 1];
    pieces[1..]
  }

  /** The raw sections of a multipart body, up to and including whatever follows the last marker. */
  function Sections(headers: HeaderMap, bodyText: string): (r: seq<string>)
    ensures forall s <- r :: |s| < |bodyText|
  {
    var contentType := ContentType(headers);
    var boundary := Parameter(contentType, "boundary");
    if "multipart/" <= MimeTypeOf(contentType) && boundary.Some? && boundary.value != ""
    then AfterFirst(bodyText, "--" + boundary.value)
    else []
  }

  function Assemble(headers: HeaderMap, bodyText: string, parts: seq<Part>): Part {
    var contentType := ContentType(headers);
    var dispositionHeader := HeaderOr(headers, "content-disposition", "");
    Part(
      headers,
      MimeTypeOf(contentType),
      Parameter(contentType, "charset"),
      DispositionOf(dispositionHeader),
      FilenameOf(contentType, dispositionHeader),
      if "content-id" in headers then Some(StripAngles(headers["content-id"])) else None,
      if parts != [] then [] else BodyBytes(bodyText, HeaderOr(headers, "content-transfer-encoding", "")),
      parts)
  }

  type Parsed = Result<(Part, nat), MimeError>
  type ParsedList = Result<(seq<Part>, nat), MimeError>

  /** `parsePart(raw, { value: counter })`: the part and the counter afterwards. */
  function ParsePart(raw: string, counter: nat): Parsed
    decreases |raw|, 1, 0
  {
    if counter + 1 > MAX_PARTS then Err(TooManyParts)
    else
      var headers := HeadersOf(HeaderText(raw));
      var bodyText := BodyText(raw);
      match ParseSections(Sections(headers, bodyText), counter + 1, |raw|)
      case Err(e) => Err(e)
      case Ok((parts, n)) => Ok((Assemble(headers, bodyText, parts), n))
  }

  /** The sections up to the closing marker, in order; blank sections are skipped. */
  function ParseSections(sections: seq<string>, counter: nat, bound: nat): ParsedList
    requires forall s <- sections :: |s| < bound
    decreases bound, 0, |sections|
  {
    if sections == [] || "--" <= sections[0] then Ok(([], counter))
    else
      var cleaned := Cleaned(sections[0]);
      if Trim(cleaned) == "" then ParseSections(sections[1..], counter, bound)
      else
        match ParsePart(cleaned, counter)
        case Err(e) => Err(e)
        case Ok((part, n)) => Prepend([part], ParseSections(sections[1..], n, bound))
  }

  function Prepend(parts: seq<Part>, r: ParsedList): ParsedList {
    match r
    case Err(e) => Err(e)
    case Ok((rest, n)) => Ok((parts + rest, n))
  }

  /** The counter object that the recursive calls share. */
  class Counter {
    var value: nat

    constructor ()
      ensures value == 0
    {
      value := 0;
    }
  }

  predicate Reports(r: Result<Part, MimeError>, counter: nat, expected: Parsed) {
    match expected
    case Err(e) => r == Err(e)
    case Ok((part, n)) => r == Ok(part) && counter == n
  }

  /** `parsePart` with the shared counter. */
  method ReadPart(raw: string, counter: Counter) returns (r: Result<Part, MimeError>)
    modifies counter
    ensures Reports(r, counter.value, ParsePart(raw, old(counter.value)))
    decreases |raw|, 1
  {
    counter.value := counter.value + 1;
    if counter.value > MAX_PARTS {
      return Err(TooManyParts);
    }
    var headers := UnfoldHeaders(HeaderText(raw));
    var bodyText := BodyText(raw);
    var parts := ReadSections(Sections(headers, bodyText), counter, |raw|);
    if parts.Err? {
      return Err(parts.error);
    }
    r := Ok(Assemble(headers, bodyText, parts.value));
  }

  predicate ReportsAll(r: Result<seq<Part>, MimeError>, counter: nat, expected: ParsedList) {
    match expected
    case Err(e) => r == Err(e)
    case Ok((parts, n)) => r == Ok(parts) && counter == n
  }

  lemma PrependTwice(parts: seq<Part>, more: seq<Part>, r: ParsedList)
    ensures Prepend(parts, Prepend(more, r)) == Prepend(parts + more, r)
  {
    if r.Ok? {
      assert parts + (more + r.value.0) == parts + more + r.value.0;
    }
  }

  lemma PrependNone(parts: seq<Part>, n: nat, r: ParsedList)
    ensures Prepend(parts, Ok(([], n))) == Ok((parts, n))
    ensures Prepend([], r) == r
  {
    assert parts + [] == parts;
    if r.Ok? {
      assert [] + r.value.0 == r.value.0;
    }
  }

  /** What one section adds: nothing when it is blank. */
  function ParseSection(section: string, counter: nat): ParsedList {
    if Trim(Cleaned(section)) == "" then Ok(([], counter))
    else
      match ParsePart(Cleaned(section), counter)
      case Err(e) => Err(e)
      case Ok((part, n)) => Ok(([part], n))
  }

  function PartsOf(r: ParsedList): seq<Part> {
    match r case Err(_) => [] case Ok((parts, _)) => parts
  }

  function CounterOf(r: ParsedList): nat {
    match r case Err(_) => 0 case Ok((_, n)) => n
  }

  lemma SectionStep(sections: seq<string>, i: nat, counter: nat, bound: nat)
    requires i < |sections| && !("--" <= sections[i]) && forall s <- sections :: |s| < bound
    ensures var r := ParseSection(sections[i], counter);
      ParseSections(sections[i..], counter, bound) ==
        if r.Err? then Err(r.error)
        else Prepend(PartsOf(r), ParseSections(sections[i + 1..], CounterOf(r), bound))
  {
    var rest := sections[i..];
    assert rest[0] == sections[i] && rest[1..] == sections[i + 1..];
    PrependNone([], 0, ParseSections(sections[i + 1..], counter, bound));
  }

  lemma SectionsEnd(sections: seq<string>, i: nat, counter: nat, bound: nat)
    requires i <= |sections| && forall s <- sections :: |s| < bound
    requires i < |sections| ==> "--" <= sections[i]
    ensures ParseSections(sections[i..], counter, bound) == Ok(([], counter))
  {
  }

  /** A section that is not the closing one. */
  method ReadSection(section: string, counter: Counter, bound: nat) returns (r: Result<seq<Part>, MimeError>)
    requires |section| < bound
    modifies counter
    ensures ReportsAll(r, counter.value, ParseSection(section, old(counter.value)))
    decreases bound, 0, 0
  {
    var cleaned := Cleaned(section);
    if Trim(cleaned) == "" {
      return Ok([]);
    }
    var child := ReadPart(cleaned, counter);
    r := match child case Err(e) => Err(e) case Ok(part) => Ok([part]);
  }

  /** The loop of `parsePart` over the sections of a multipart body. */
  method ReadSections(sections: seq<string>, counter: Counter, bound: nat)
    returns (r: Result<seq<Part>, MimeError>)
    requires forall s <- sections :: |s| < bound
    modifies counter
    ensures ReportsAll(r, counter.value, ParseSections(sections, old(counter.value), bound))
    decreases bound, 0, 1
  {
    var parts: seq<Part> := [];
    ghost var whole := ParseSections(sections, counter.value, bound);
    PrependNone([], 0, whole);
    assert sections[0..] == sections;
    var i := 0;
    while i < |sections| && !("--" <= sections[i])
      invariant 0 <= i <= |sections|
      invariant whole == Prepend(parts, ParseSections(sections[i..], counter.value, bound))
    {
      SectionStep(sections, i, counter.value, bound);
      var more := ReadSection(sections[i], counter, bound);
      if more.Err? {
        return more;
      }
      PrependTwice(parts, more.value, ParseSections(sections[i + 1..], counter.value, bound));
      parts := parts + more.value;
      i := i + 1;
    }
    SectionsEnd(sections, i, counter.value, bound);
    PrependNone(parts, counter.value, whole);
    r := Ok(parts);
  }

  // ---- what the reader sees

  datatype AttachmentView = AttachmentView(
    filename: string,
    mimeType: string,
    disposition: Disposition,
    contentId: Option<string>,
    data: seq<Byte>)

  datatype Contents = Contents(
    text: Option<string>,
    html: Option<string>,
    attachments: seq<AttachmentView>)

  predicate IsAttachment(part: Part) {
    part.disposition == Some(Attached) || (part.filename.Some? && part.filename.value != "")
  }

  function ViewOf(part: Part): AttachmentView {
    AttachmentView(
      if part.filename.Some? && part.filename.value != "" then part.filename.value else "attachment",
      part.mimeType,
      match part.disposition case Some(d) => d case None => Attached,
      part.contentId,
      part.body)
  }

  function VisitLeaf(part: Part, seen: Contents): Contents {
    if IsAttachment(part) then seen.(attachments := seen.attachments + [ViewOf(part)])
    else if part.mimeType == "text/plain" && seen.text.None? then seen.(text := Some(Utf8.Decode(part.body)))
    else if part.mimeType == "text/html" && seen.html.None? then seen.(html := Some(Utf8.Decode(part.body)))
    else seen
  }

  /** Depth first, left to right; the first text and the first html win. */
  function VisitPart(part: Part, seen: Contents): Contents
    decreases part, 1
  {
    if part.parts != [] then VisitParts(part.parts, seen) else VisitLeaf(part, seen)
  }

  function VisitParts(parts: seq<Part>, seen: Contents): Contents
    decreases parts, 0
  {
    if parts == [] then seen else VisitParts(parts[1..], VisitPart(parts[0], seen))
  }

  /** The variables the `visit` closure of `parseMime` captures. */
  class Collector {
    var text: Option<string>
    var html: Option<string>
    var attachments: seq<AttachmentView>

    constructor ()
      ensures Seen() == Contents(None, None, [])
    {
      text, html, attachments := None, None, [];
    }

    function Seen(): Contents
      reads this
    {
      Contents(text, html, attachments)
    }

    /** `visit(part)` */
    method Visit(part: Part)
      modifies this
      ensures Seen() == VisitPart(part, old(Seen()))
      decreases part
    {
      if part.parts != [] {
        for i := 0 to |part.parts|
          invariant VisitParts(part.parts[i..], Seen()) == VisitPart(part, old(Seen()))
        {
          assert part.parts[i..][1..] == part.parts[i + 1..];
          Visit(part.parts[i]);
        }
        return;
      }
      if IsAttachment(part) {
        attachments := attachments + [ViewOf(part)];
      } else if part.mimeType == "text/plain" && text.None? {
        text := Some(Utf8.Decode(part.body));
      } else if part.mimeType == "text/html" && html.None? {
        html := Some(Utf8.Decode(part.body));
      }
    }
  }

  datatype Message = Message(
    headers: HeaderMap,
    subject: string,
    from: Option<MailAddress>,
    to: seq<MailAddress>,
    cc: seq<MailAddress>,
    bcc: seq<MailAddress>,
    contents: Contents,
    root: Part)

  /** The addresses of a header; none when it is absent. */
  function AddressesIn(headers: HeaderMap, key: string): seq<MailAddress> {
    ParseAddressList(HeaderOr(headers, key, ""))
  }

  function FirstOf<T>(list: seq<T>): Option<T> {
    if list == [] then None else Some(list[0])
  }

  function MessageOf(root: Part): Message {
    Message(
      root.headers,
      DecodeWords(HeaderOr(root.headers, "subject", "")),
      FirstOf(AddressesIn(root.headers, "from")),
      AddressesIn(root.headers, "to"),
      AddressesIn(root.headers, "cc"),
      AddressesIn(root.headers, "bcc"),
      VisitPart(root, Contents(None, None, [])),
      root)
  }

  function ParsedMime(raw: string): Result<Message, MimeError> {
    if |Utf8.Encode(raw)| > MAX_MIME_BYTES then Err(TooLarge)
    else match ParsePart(raw, 0)
      case Err(e) => Err(e)
      case Ok((root, _)) => Ok(MessageOf(root))
  }

  /** `parseMime(raw)` for a string. */
  method ParseMime(raw: string) returns (r: Result<Message, MimeError>)
    ensures r == ParsedMime(raw)
  {
    if |Utf8.Encode(raw)| > MAX_MIME_BYTES {
      return Err(TooLarge);
    }
    var counter := new Counter();
    var root := ReadPart(raw, counter);
    if root.Err? {
      return Err(root.error);
    }
    var visitor := new Collector();
    visitor.Visit(root.value);
    r := Ok(Message(
      root.value.headers,
      DecodeWords(HeaderOr(root.value.headers, "subject", "")),
      FirstOf(AddressesIn(root.value.headers, "from")),
      AddressesIn(root.value.headers, "to"),
      AddressesIn(root.value.headers, "cc"),
      AddressesIn(root.value.headers, "bcc"),
      visitor.Seen(),
      root.value));
  }
}
