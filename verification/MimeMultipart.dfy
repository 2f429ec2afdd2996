/** How the parser takes a printed part, and a printed multipart body, apart again. */
module MimeMultipart {
  import opened Outcomes
  import opened JsText
  import opened MimeHeaders
  import opened MimeParser

  /** A header block, an empty line and a body. */
  function PrintedPart(fields: seq<Field>, body: string): string {
    Join(Lines(fields)) + (CRLF + CRLF + body)
  }

  lemma JoinIsPrintedPart(fields: seq<Field>, bodyLines: seq<string>)
    requires fields != [] && bodyLines != []
    ensures Join(Lines(fields) + ([""] + bodyLines)) == PrintedPart(fields, Join(bodyLines))
  {
    var block := [""] + bodyLines;
    JoinConcat(Lines(fields), block);
    assert block[1..] == bodyLines;
    assert "" + CRLF + Join(bodyLines) == CRLF + Join(bodyLines);
    assert Join(Lines(fields)) + CRLF + (CRLF + Join(bodyLines)) == PrintedPart(fields, Join(bodyLines));
  }

  lemma PrintedPartSplits(fields: seq<Field>, body: string)
    requires fields != [] && AllPrintable(fields)
    ensures HeadersOf(HeaderText(PrintedPart(fields, body))) == FieldMap(map[], fields)
    ensures BodyText(PrintedPart(fields, body)) == body
  {
    var head := Join(Lines(fields));
    var tail := CRLF + CRLF + body;
    HeadersOfFields(fields);
    SeparatorAtOnce(body);
    SeparatorAfterLines(Lines(fields), tail);
    var raw := PrintedPart(fields, body);
    assert raw[..|head|] == head;
    assert raw[|head|..] == tail;
    assert tail[4..] == body;
  }

  lemma PrintedPartIsVisible(fields: seq<Field>, body: string)
    requires fields != [] && AllPrintable(fields)
    ensures Trim(PrintedPart(fields, body)) != ""
  {
    FieldLine(fields[0], map[]);
    assert Lines(fields)[0] == fields[0].Line();
    assert Join(Lines(fields))[0] == fields[0].Line()[0];
    VisibleSurvivesTrim(PrintedPart(fields, body), 0);
  }

  /** A part whose type is not multipart has no children. */
  lemma ParseLeaf(fields: seq<Field>, body: string, counter: nat)
    requires fields != [] && AllPrintable(fields)
    requires !("multipart/" <= MimeTypeOf(ContentType(FieldMap(map[], fields))))
    ensures ParsePart(PrintedPart(fields, body), counter)
         == if counter + 1 > MAX_PARTS then Err(TooManyParts)
            else Ok((Assemble(FieldMap(map[], fields), body, []), counter + 1))
  {
    var raw, headers := PrintedPart(fields, body), FieldMap(map[], fields);
    PrintedPartSplits(fields, body);
    NoSections(headers, body, counter + 1, |raw|);
    ParsePartOf(raw, headers, body, counter, Ok(([], counter + 1)));
  }

  lemma NoSections(headers: HeaderMap, body: string, counter: nat, bound: nat)
    requires !("multipart/" <= MimeTypeOf(ContentType(headers)))
    ensures ParseSections(Sections(headers, body), counter, bound) == Ok(([], counter))
  {
    assert Sections(headers, body) == [];
  }

  /** A part is its headers, its body text and what its sections parse to. */
  lemma ParsePartOf(raw: string, headers: HeaderMap, body: string, counter: nat, children: ParsedList)
    requires HeadersOf(HeaderText(raw)) == headers && BodyText(raw) == body
    requires ParseSections(Sections(headers, body), counter + 1, |raw|) == children
    ensures ParsePart(raw, counter)
         == if counter + 1 > MAX_PARTS then Err(TooManyParts) else Assembled(headers, body, children)
  {
  }

  // ---- multipart bodies

  function Section(content: string): string {
    CRLF + content + CRLF
  }

  lemma CleanedSection(content: string)
    ensures Cleaned(Section(content)) == content
  {
  }

  /** What follows the first marker: the sections, separated by markers, and the closing tail. */
  function MarkedSections(marker: string, contents: seq<string>, tail: string): string {
    if contents == [] then tail
    else Section(contents[0]) + marker + MarkedSections(marker, contents[1..], tail)
  }

  function SectionList(contents: seq<string>, tail: string): seq<string> {
    if contents == [] then [tail] else [Section(contents[0])] + SectionList(contents[1..], tail)
  }

  lemma SectionHasNoMarker(marker: string, content: string)
    requires marker != "" && NewlineFree(marker) && !Occurs(marker, content)
    ensures !Occurs(marker, Section(content))
  {
    OccursInOneSide(marker, "", content);
    assert "" + CRLF + content == CRLF + content;
    OccursInOneSide(marker, CRLF + content, "");
    assert CRLF + content + CRLF + "" == Section(content);
  }

  ghost predicate MarkerFree(marker: string, contents: seq<string>) {
    forall c <- contents :: !Occurs(marker, c)
  }

  lemma {:induction false} SplitMarkedSections(marker: string, contents: seq<string>, tail: string)
    requires marker != "" && NewlineFree(marker)
    requires MarkerFree(marker, contents) && !Occurs(marker, tail)
    ensures SplitOn(MarkedSections(marker, contents, tail), marker) == SectionList(contents, tail)
  {
    if contents == [] {
      SplitWithoutMarker(tail, marker);
    } else {
      var rest := MarkedSections(marker, contents[1..], tail);
      SectionHasNoMarker(marker, contents[0]);
      LineEndIsolates(Section(contents[0]), marker, rest);
      SplitAtMarker(Section(contents[0]), marker, rest);
      SplitMarkedSections(marker, contents[1..], tail);
    }
  }

  lemma SplitMultipartBody(marker: string, contents: seq<string>, tail: string)
    requires marker != "" && NewlineFree(marker)
    requires MarkerFree(marker, contents) && !Occurs(marker, tail)
    ensures SplitOn(marker + MarkedSections(marker, contents, tail), marker)[1..] == SectionList(contents, tail)
  {
    var body := MarkedSections(marker, contents, tail);
    LineEndIsolates("", marker, body);
    assert "" + marker + body == marker + body;
    SplitAtMarker("", marker, body);
    SplitMarkedSections(marker, contents, tail);
  }

  /** A part parser that threads the part counter. */
  type PartParser = (string, nat) -> Parsed

  function PartReader(): PartParser {
    (raw: string, counter: nat) => ParsePart(raw, counter)
  }

  /** The parts of a list of contents, parsed one after the other with one counter. */
  function ParseAll(parse: PartParser, contents: seq<string>, counter: nat): ParsedList
    decreases contents
  {
    if contents == [] then Ok(([], counter))
    else
      var first := parse(contents[0], counter);
      if first.Err? then Err(first.error)
      else Prepend([first.value.0], ParseAll(parse, contents[1..], first.value.1))
  }

  ghost predicate AllVisible(contents: seq<string>) {
    forall c <- contents :: Trim(c) != ""
  }

  lemma {:induction false} ParseSectionList(contents: seq<string>, tail: string, counter: nat, bound: nat)
    requires AllVisible(contents) && "--" <= tail
    requires forall s <- SectionList(contents, tail) :: |s| < bound
    ensures ParseSections(SectionList(contents, tail), counter, bound) == ParseAll(PartReader(), contents, counter)
  {
    if contents != [] {
      var list := SectionList(contents, tail);
      var others := SectionList(contents[1..], tail);
      assert list[0] == Section(contents[0]) && list[1..] == others && list[0..] == list;
      assert forall s <- others :: s in list;
      CleanedSection(contents[0]);
      assert Section(contents[0])[0] == '\r';
      SectionStep(list, 0, counter, bound);
      match ParsePart(contents[0], counter)
      case Err(_) =>
      case Ok((part, n)) =>
        ParseSectionList(contents[1..], tail, n, bound);
    }
  }

  function MultipartBody(boundary: string, contents: seq<string>, tail: string): string {
    "--" + boundary + MarkedSections("--" + boundary, contents, tail)
  }

  function Assembled(headers: HeaderMap, body: string, children: ParsedList): Parsed {
    match children
    case Err(e) => Err(e)
    case Ok((parts, n)) => Ok((Assemble(headers, body, parts), n))
  }

  lemma SectionsOfMultipart(headers: HeaderMap, boundary: string, body: string, contents: seq<string>, tail: string)
    requires "multipart/" <= MimeTypeOf(ContentType(headers))
    requires Parameter(ContentType(headers), "boundary") == Some(boundary)
    requires boundary != "" && NewlineFree(boundary)
    requires MarkerFree("--" + boundary, contents) && !Occurs("--" + boundary, tail)
    requires body == MultipartBody(boundary, contents, tail)
    ensures Sections(headers, body) == SectionList(contents, tail)
  {
    MarkerOfBoundary(boundary);
    SectionsAfterMarker(headers, boundary, "--" + boundary, body, contents, tail);
  }

  lemma MarkerOfBoundary(boundary: string)
    requires NewlineFree(boundary)
    ensures "--" + boundary != "" && NewlineFree("--" + boundary)
  {
    var marker := "--" + boundary;
    assert forall i :: 2 <= i < |marker| ==> marker[i] == boundary[i - 2];
  }

  lemma SectionsAfterMarker(headers: HeaderMap, boundary: string, marker: string, body: string,
                            contents: seq<string>, tail: string)
    requires "multipart/" <= MimeTypeOf(ContentType(headers))
    requires Parameter(ContentType(headers), "boundary") == Some(boundary)
    requires boundary != "" && marker == "--" + boundary && NewlineFree(marker)
    requires MarkerFree(marker, contents) && !Occurs(marker, tail)
    requires body == marker + MarkedSections(marker, contents, tail)
    ensures Sections(headers, body) == SectionList(contents, tail)
  {
    AfterFirstOfMultipart(marker, contents, tail);
    SectionsFollowMarker(headers, boundary, body);
  }

  lemma SectionsFollowMarker(headers: HeaderMap, boundary: string, body: string)
    requires "multipart/" <= MimeTypeOf(ContentType(headers))
    requires Parameter(ContentType(headers), "boundary") == Some(boundary) && boundary != ""
    ensures Sections(headers, body) == AfterFirst(body, "--" + boundary)
  {
  }

  lemma AfterFirstOfMultipart(marker: string, contents: seq<string>, tail: string)
    requires marker != "" && NewlineFree(marker)
    requires MarkerFree(marker, contents) && !Occurs(marker, tail)
    ensures AfterFirst(marker + MarkedSections(marker, contents, tail), marker) == SectionList(contents, tail)
  {
    SplitMultipartBody(marker, contents, tail);
  }

  /** A printed multipart part parses to exactly the parts of its contents, in order. */
  lemma ParseMultipart(fields: seq<Field>, boundary: string, contents: seq<string>, tail: string, counter: nat)
    requires fields != [] && AllPrintable(fields)
    requires "multipart/" <= MimeTypeOf(ContentType(FieldMap(map[], fields)))
    requires Parameter(ContentType(FieldMap(map[], fields)), "boundary") == Some(boundary)
    requires boundary != "" && NewlineFree(boundary)
    requires AllVisible(contents) && MarkerFree("--" + boundary, contents)
    requires "--" <= tail && !Occurs("--" + boundary, tail)
    ensures ParsePart(PrintedPart(fields, MultipartBody(boundary, contents, tail)), counter)
         == if counter + 1 > MAX_PARTS then Err(TooManyParts)
            else Assembled(FieldMap(map[], fields), MultipartBody(boundary, contents, tail),
                           ParseAll(PartReader(), contents, counter + 1))
  {
    var headers, body := FieldMap(map[], fields), MultipartBody(boundary, contents, tail);
    var raw := PrintedPart(fields, body);
    PrintedPartSplits(fields, body);
    SectionsOfMultipart(headers, boundary, body, contents, tail);
    var list := SectionList(contents, tail);
    assert Sections(headers, body) == list;
    assert |body| <= |raw|;
    ParseSectionList(contents, tail, counter + 1, |raw|);
    if counter + 1 <= MAX_PARTS {
      assert ParsePart(raw, counter) == Assembled(headers, body, ParseSections(list, counter + 1, |raw|));
    }
  }

  // ---- contents that are all leaves

  function CountedLeaf(part: Part, counter: nat): Parsed {
    if counter + 1 > MAX_PARTS then Err(TooManyParts) else Ok((part, counter + 1))
  }

  function CountedLeaves(parts: seq<Part>, counter: nat): ParsedList {
    if counter + |parts| > MAX_PARTS then Err(TooManyParts) else Ok((parts, counter + |parts|))
  }

  lemma ParseFirst(parse: PartParser, content: string, others: seq<string>, counter: nat, part: Part, n: nat)
    requires parse(content, counter) == Ok((part, n))
    ensures ParseAll(parse, [content] + others, counter) == Prepend([part], ParseAll(parse, others, n))
  {
  }

  lemma CountOneMore(part: Part, others: seq<Part>, counter: nat)
    requires counter + 1 <= MAX_PARTS
    ensures Prepend([part], CountedLeaves(others, counter + 1)) == CountedLeaves([part] + others, counter)
  {
  }

  /** The contents parse to the given parts, one count each. */
  ghost predicate AreLeaves(parse: PartParser, contents: seq<string>, leaves: seq<Part>) {
    && |contents| == |leaves|
    && forall i, n: nat :: 0 <= i < |contents| ==> parse(contents[i], n) == CountedLeaf(leaves[i], n)
  }

  lemma {:induction false} ParseLeaves(parse: PartParser, contents: seq<string>, leaves: seq<Part>, counter: nat)
    requires AreLeaves(parse, contents, leaves) && counter <= MAX_PARTS
    ensures ParseAll(parse, contents, counter) == CountedLeaves(leaves, counter)
  {
    if contents != [] && counter + 1 <= MAX_PARTS {
      ParseLeaves(parse, contents[1..], leaves[1..], counter + 1);
      CountOneMore(leaves[0], leaves[1..], counter);
      assert leaves == [leaves[0]] + leaves[1..];
    }
  }

  lemma {:induction false} VisitLeaves(leaves: seq<Part>, views: seq<AttachmentView>, seen: Contents)
    requires |leaves| == |views|
    requires forall i: nat | i < |leaves| ::
      leaves[i].parts == [] && IsAttachment(leaves[i]) && ViewOf(leaves[i]) == views[i]
    ensures VisitParts(leaves, seen) == seen.(attachments := seen.attachments + views)
  {
    if leaves == [] {
      assert seen.attachments + views == seen.attachments;
    } else {
      VisitLeaves(leaves[1..], views[1..], seen.(attachments := seen.attachments + [views[0]]));
      assert seen.attachments + [views[0]] + views[1..] == seen.attachments + views;
    }
  }

  // ---- the lines a generator joins

  /** Each block after its marker line, then the closing marker and the last lines. */
  function MultipartLines(marker: string, blocks: seq<seq<string>>, last: seq<string>): seq<string> {
    if blocks == [] then [marker + "--"] + last
    else [marker] + blocks[0] + MultipartLines(marker, blocks[1..], last)
  }

  function JoinAll(blocks: seq<seq<string>>): seq<string> {
    if blocks == [] then [] else [Join(blocks[0])] + JoinAll(blocks[1..])
  }

  function Closing(last: seq<string>): string {
    "--" + (if last == [] then "" else CRLF + Join(last))
  }

  lemma JoinClosing(marker: string, last: seq<string>)
    ensures Join([marker + "--"] + last) == marker + Closing(last)
  {
  }

  lemma {:induction false} JoinMultipartLines(marker: string, blocks: seq<seq<string>>, last: seq<string>)
    requires forall b <- blocks :: b != []
    ensures MultipartLines(marker, blocks, last) != []
    ensures Join(MultipartLines(marker, blocks, last))
         == marker + MarkedSections(marker, JoinAll(blocks), Closing(last))
  {
    if blocks == [] {
      JoinClosing(marker, last);
    } else {
      var others := MultipartLines(marker, blocks[1..], last);
      assert blocks[0] in blocks && forall b <- blocks[1..] :: b in blocks;
      JoinMultipartLines(marker, blocks[1..], last);
      assert JoinAll(blocks)[0] == Join(blocks[0]) && JoinAll(blocks)[1..] == JoinAll(blocks[1..]);
      JoinOneBlock(marker, blocks[0], others, MarkedSections(marker, JoinAll(blocks[1..]), Closing(last)));
    }
  }

  lemma JoinOneBlock(marker: string, block: seq<string>, others: seq<string>, rest: string)
    requires block != [] && others != [] && Join(others) == marker + rest
    ensures Join([marker] + block + others) == marker + (Section(Join(block)) + marker + rest)
  {
    JoinConcat(block, others);
    JoinConcat([marker], block + others);
    assert [marker] + block + others == [marker] + (block + others);
    SectionShape(marker, Join(block), rest);
  }

  lemma SectionShape(marker: string, p: string, rest: string)
    ensures marker + CRLF + (p + CRLF + (marker + rest)) == marker + (Section(p) + marker + rest)
  {
  }
}
