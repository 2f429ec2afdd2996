/**
 The spellings of a message that mean the same to the parser: folded header lines, either line end,
 lines that are no field, a preamble and an epilogue.
 */
module MimeForms {
  import opened Outcomes
  import opened JsText
  import opened MimeHeaders
  import opened MimeParser
  import opened MimeMultipart
  import Utf8

  // ---- header blocks

  predicate IsLineEnd(e: string) {
    e == "\r\n" || e == "\n"
  }

  /** A line break, the white space after it, and the text that continues the field. */
  datatype Fold = Fold(ending: string, blanks: string, text: string) {
    predicate Legal() {
      && IsLineEnd(ending)
      && blanks != "" && (forall i :: 0 <= i < |blanks| ==> IsBlank(blanks[i]))
      && text != "" && NewlineFree(text) && !IsBlank(text[0])
    }
  }

  function Folded(folds: seq<Fold>): string {
    if folds == [] then "" else folds[0].ending + (folds[0].blanks + (folds[0].text + Folded(folds[1..])))
  }

  function Unfolded(folds: seq<Fold>): string {
    if folds == [] then "" else " " + (folds[0].text + Unfolded(folds[1..]))
  }

  ghost predicate AllLegal(folds: seq<Fold>) {
    forall i :: 0 <= i < |folds| ==> folds[i].Legal()
  }

  /** A line of a header block: a field, perhaps folded, or something without a name. */
  datatype HeaderLine =
    | Entry(name: string, value: string, folds: seq<Fold>, ending: string)
    | Stray(text: string, ending: string)
  {
    ghost predicate Legal() {
      && IsLineEnd(ending)
      && match this
         case Entry(name, value, folds, _) =>
           name != "" && Trimmed(name) && NewlineFree(name) && ':' !in name && NewlineFree(value) && AllLegal(folds)
         case Stray(text, _) =>
           text != "" && NewlineFree(text) && !IsBlank(text[0]) && (':' in text ==> text[0] == ':')
    }

    function Head(): string {
      match this
      case Entry(name, value, _, _) => name + ":" + value
      case Stray(text, _) => text
    }

    function Folds(): seq<Fold> {
      match this
      case Entry(_, _, folds, _) => folds
      case Stray(_, _) => []
    }

    /** The line without its line breaks. */
    function Flat(): string {
      Head() + Unfolded(Folds())
    }

    /** The entry the line adds. */
    function AddedTo(h: HeaderMap): HeaderMap {
      match this
      case Entry(name, value, folds, _) => h[Lower(name) := Trim(value + Unfolded(folds))]
      case Stray(_, _) => h
    }
  }

  ghost predicate LegalBlock(lines: seq<HeaderLine>) {
    lines != [] && forall i :: 0 <= i < |lines| ==> lines[i].Legal()
  }

  /** The lines of a block as they are sent, without the last line end. */
  function Block(lines: seq<HeaderLine>): string
    decreases |lines|, 1
  {
    if lines == [] then "" else lines[0].Head() + (Folded(lines[0].Folds()) + Later(lines))
  }

  function Later(lines: seq<HeaderLine>): string
    requires lines != []
    decreases |lines|, 0
  {
    if |lines| == 1 then "" else lines[0].ending + Block(lines[1..])
  }

  function FlatBlock(lines: seq<HeaderLine>): string {
    if lines == [] then ""
    else lines[0].Flat() + (if |lines| == 1 then "" else lines[0].ending + FlatBlock(lines[1..]))
  }

  /** What the block says: the last entry of each name. */
  function Table(h: HeaderMap, lines: seq<HeaderLine>): HeaderMap
    decreases lines
  {
    if lines == [] then h else Table(lines[0].AddedTo(h), lines[1..])
  }

  lemma {:induction false} BlanksAreSkipped(blanks: string, rest: string)
    requires (forall i :: 0 <= i < |blanks| ==> IsBlank(blanks[i])) && rest != "" && !IsBlank(rest[0])
    ensures SkipBlanks(blanks + rest) == rest
  {
    if blanks == "" {
      assert blanks + rest == rest;
    } else {
      assert (blanks + rest)[0] == blanks[0] && (blanks + rest)[1..] == blanks[1..] + rest;
      BlanksAreSkipped(blanks[1..], rest);
    }
  }

  lemma LineEndIsNewline(e: string, rest: string)
    requires IsLineEnd(e)
    ensures NewlineLength(e + rest) == |e| && (e + rest)[|e|..] == rest
  {
    assert (e + rest)[0] == e[0] && (|e| == 2 ==> (e + rest)[1] == e[1]);
  }

  lemma FoldIsASpace(f: Fold, rest: string)
    requires f.Legal()
    ensures Unfold(f.ending + (f.blanks + (f.text + rest))) == " " + (f.text + Unfold(rest))
  {
    var t := f.text + rest;
    var s := f.ending + (f.blanks + t);
    LineEndIsNewline(f.ending, f.blanks + t);
    assert s[|f.ending|] == f.blanks[0];
    assert t[0] == f.text[0];
    BlanksAreSkipped(f.blanks, t);
    UnfoldSkipsLine(f.text, rest);
  }

  lemma LineEndStays(e: string, rest: string)
    requires IsLineEnd(e) && rest != "" && !IsBlank(rest[0])
    ensures Unfold(e + rest) == e + Unfold(rest)
  {
    if e == "\r\n" {
      UnfoldSkipsLineEnd(rest);
    } else {
      assert (e + rest)[1..] == rest && (e + rest)[1] == rest[0];
      UnfoldKeepsChar(e + rest, 1);
    }
  }

  lemma Grouped(a: string, b: string, c: string)
    ensures a + (b + c) == a + b + c
  {
  }

  lemma Regroup(e: string, b: string, t: string, later: string, rest: string)
    ensures e + (b + (t + later)) + rest == e + (b + (t + (later + rest)))
  {
    assert t + later + rest == t + (later + rest);
    assert b + (t + later) + rest == b + (t + (later + rest));
  }

  lemma OneMoreFold(f: Fold, later: string, flat: string, rest: string)
    requires f.Legal() && Unfold(later + rest) == flat + Unfold(rest)
    ensures Unfold(f.ending + (f.blanks + (f.text + later)) + rest) == " " + (f.text + flat) + Unfold(rest)
  {
    FoldIsASpace(f, later + rest);
    Regroup(f.ending, f.blanks, f.text, later, rest);
    FlatInOrder(f.text, flat, Unfold(rest));
  }

  lemma FlatInOrder(text: string, flat: string, rest: string)
    ensures " " + (text + (flat + rest)) == " " + (text + flat) + rest
  {
    assert text + (flat + rest) == text + flat + rest;
  }

  lemma {:induction false} FoldsAreSpaces(folds: seq<Fold>, rest: string)
    requires AllLegal(folds)
    ensures Unfold(Folded(folds) + rest) == Unfolded(folds) + Unfold(rest)
  {
    if folds == [] {
      assert "" + rest == rest && "" + Unfold(rest) == Unfold(rest);
    } else {
      FoldsAreSpaces(folds[1..], rest);
      OneMoreFold(folds[0], Folded(folds[1..]), Unfolded(folds[1..]), rest);
    }
  }

  lemma LineStartsVisibly(l: HeaderLine)
    requires l.Legal()
    ensures l.Head() != "" && NewlineFree(l.Head()) && !IsBlank(l.Head()[0])
  {
  }

  lemma BlockStartsVisibly(lines: seq<HeaderLine>)
    requires LegalBlock(lines)
    ensures Block(lines) != "" && !IsBlank(Block(lines)[0]) && Block(lines)[0] !in "\r\n"
  {
    LineStartsVisibly(lines[0]);
    assert Block(lines)[0] == lines[0].Head()[0];
  }

  lemma {:induction false} BlockUnfolds(lines: seq<HeaderLine>)
    requires LegalBlock(lines)
    ensures Unfold(Block(lines)) == FlatBlock(lines)
  {
    var l := lines[0];
    LineStartsVisibly(l);
    UnfoldSkipsLine(l.Head(), Folded(l.Folds()) + Later(lines));
    FoldsAreSpaces(l.Folds(), Later(lines));
    if |lines| > 1 {
      BlockUnfolds(lines[1..]);
      BlockStartsVisibly(lines[1..]);
      LineEndStays(l.ending, Block(lines[1..]));
    }
    Grouped(l.Head(), Unfolded(l.Folds()), Unfold(Later(lines)));
  }

  lemma {:induction false} UnfoldedIsOneLine(folds: seq<Fold>)
    requires AllLegal(folds)
    ensures NewlineFree(Unfolded(folds))
  {
    if folds != [] {
      UnfoldedIsOneLine(folds[1..]);
    }
  }

  lemma FlatIsOneLine(l: HeaderLine)
    requires l.Legal()
    ensures NewlineFree(l.Flat())
  {
    LineStartsVisibly(l);
    UnfoldedIsOneLine(l.Folds());
  }

  function FlatLines(lines: seq<HeaderLine>): seq<string> {
    if lines == [] then [] else [lines[0].Flat()] + FlatLines(lines[1..])
  }

  lemma SplitAtLineEnd(l: string, e: string, rest: string)
    requires NewlineFree(l) && IsLineEnd(e)
    ensures SplitLines(l + (e + rest)) == [l] + SplitLines(rest)
  {
    SplitLinesSkipsLine(l, e + rest);
    LineEndIsNewline(e, rest);
    assert SplitLines(e + rest) == [""] + SplitLines(rest);
    assert l + "" == l;
  }

  lemma LastLine(l: string)
    requires NewlineFree(l)
    ensures SplitLines(l) == [l]
  {
    SplitLinesSkipsLine(l, "");
    assert l + "" == l;
  }

  lemma {:induction false} BlockSplits(lines: seq<HeaderLine>)
    requires LegalBlock(lines)
    ensures SplitLines(FlatBlock(lines)) == FlatLines(lines)
  {
    FlatIsOneLine(lines[0]);
    if |lines| == 1 {
      LastLine(lines[0].Flat());
      assert lines[0].Flat() + "" == lines[0].Flat();
    } else {
      BlockSplits(lines[1..]);
      SplitAtLineEnd(lines[0].Flat(), lines[0].ending, FlatBlock(lines[1..]));
    }
  }

  lemma {:induction false} StrayLineIsNoField(h: HeaderMap, text: string)
    requires text != "" && (':' in text ==> text[0] == ':')
    ensures AddLine(h, text) == h
  {
  }

  lemma EntryIsAdded(h: HeaderMap, l: HeaderLine)
    requires l.Legal() && l.Entry?
    ensures AddLine(h, l.Flat()) == l.AddedTo(h)
  {
    var v := l.value + Unfolded(l.folds);
    assert l.Flat() == l.name + ":" + v;
    FieldLineSplits(l.Flat(), l.name, v);
    TrimSpaceThen(l.name);
    AddSplitLine(h, l.Flat(), l.name, v);
  }

  lemma LineIsAdded(h: HeaderMap, l: HeaderLine)
    requires l.Legal()
    ensures AddLine(h, l.Flat()) == l.AddedTo(h)
  {
    if l.Entry? {
      EntryIsAdded(h, l);
    } else {
      assert l.Flat() == l.text;
      StrayLineIsNoField(h, l.text);
    }
  }

  lemma {:induction false} BlockIsAdded(h: HeaderMap, lines: seq<HeaderLine>)
    requires forall i :: 0 <= i < |lines| ==> lines[i].Legal()
    ensures AddLines(h, FlatLines(lines)) == Table(h, lines)
    decreases lines
  {
    if lines != [] {
      LineIsAdded(h, lines[0]);
      assert FlatLines(lines)[1..] == FlatLines(lines[1..]);
      BlockIsAdded(lines[0].AddedTo(h), lines[1..]);
    }
  }

  /** However it is folded and whatever its line ends, a block is read as what it says. */
  lemma BlockIsRead(lines: seq<HeaderLine>)
    requires LegalBlock(lines)
    ensures HeadersOf(Block(lines)) == Table(map[], lines)
  {
    BlockUnfolds(lines);
    BlockSplits(lines);
    BlockIsAdded(map[], lines);
  }

  // ---- the end of the block

  lemma SeparatorIsPast(e: string, rest: string)
    requires IsLineEnd(e) && rest != "" && rest[0] !in "\r\n" && FindSeparator(rest).Some?
    ensures FindSeparator(e + rest) == Some(|e| + FindSeparator(rest).value)
  {
    if e == "\r\n" {
      SeparatorAfterLineEnd(rest);
    } else {
      assert (e + rest)[1..] == rest && (e + rest)[1] == rest[0];
      SeparatorIsLater(e + rest);
    }
  }

  /** A piece the search passes over, before a separator at its end. */
  ghost predicate Passed(s: string, tail: string) {
    FindSeparator(s + tail) == Some(|s|)
  }

  lemma LineIsPassed(l: string, rest: string, tail: string)
    requires NewlineFree(l) && Passed(rest, tail)
    ensures Passed(l + rest, tail)
  {
    SeparatorAfterLine(l, rest + tail);
    Grouped(l, rest, tail);
  }

  lemma LineEndIsPassed(e: string, rest: string, tail: string)
    requires IsLineEnd(e) && rest != "" && rest[0] !in "\r\n" && Passed(rest, tail)
    ensures Passed(e + rest, tail)
  {
    assert (rest + tail)[0] == rest[0];
    SeparatorIsPast(e, rest + tail);
    Grouped(e, rest, tail);
  }

  lemma FoldIsPassed(f: Fold, rest: string, tail: string)
    requires f.Legal() && Passed(rest, tail)
    ensures Passed(f.ending + (f.blanks + (f.text + rest)), tail)
  {
    LineIsPassed(f.text, rest, tail);
    assert NewlineFree(f.blanks);
    LineIsPassed(f.blanks, f.text + rest, tail);
    assert (f.blanks + (f.text + rest))[0] == f.blanks[0];
    LineEndIsPassed(f.ending, f.blanks + (f.text + rest), tail);
  }

  lemma {:induction false} FoldsArePassed(folds: seq<Fold>, rest: string, tail: string)
    requires AllLegal(folds) && Passed(rest, tail)
    ensures Passed(Folded(folds) + rest, tail)
  {
    if folds == [] {
      assert "" + rest == rest;
    } else {
      var f := folds[0];
      FoldsArePassed(folds[1..], rest, tail);
      FoldIsPassed(f, Folded(folds[1..]) + rest, tail);
      Regroup(f.ending, f.blanks, f.text, Folded(folds[1..]), rest);
    }
  }

  lemma {:induction false} BlockIsPassed(lines: seq<HeaderLine>, tail: string)
    requires LegalBlock(lines) && FindSeparator(tail) == Some(0)
    ensures Passed(Block(lines), tail)
  {
    var l := lines[0];
    if |lines| == 1 {
      assert "" + tail == tail;
    } else {
      BlockIsPassed(lines[1..], tail);
      BlockStartsVisibly(lines[1..]);
      LineEndIsPassed(l.ending, Block(lines[1..]), tail);
    }
    FoldsArePassed(l.Folds(), Later(lines), tail);
    LineStartsVisibly(l);
    LineIsPassed(l.Head(), Folded(l.Folds()) + Later(lines), tail);
  }

  /** A part: its header block, a line end, an empty line, and the body. */
  function Sent(lines: seq<HeaderLine>, e1: string, e2: string, body: string): string {
    Block(lines) + (e1 + (e2 + body))
  }

  lemma SeparatorIsHere(e1: string, e2: string, body: string)
    requires IsLineEnd(e1) && IsLineEnd(e2)
    ensures var t := e1 + (e2 + body);
      FindSeparator(t) == Some(0) && SeparatorLength(t) == |e1| + |e2| && t[|e1| + |e2|..] == body
  {
    LineEndIsNewline(e1, e2 + body);
    LineEndIsNewline(e2, body);
  }

  lemma HeadAndTail(head: string, tail: string)
    ensures (head + tail)[..|head|] == head && (head + tail)[|head|..] == tail
  {
  }

  /** The block and the body of a part, whatever the line ends. */
  lemma SentIsTakenApart(lines: seq<HeaderLine>, e1: string, e2: string, body: string)
    requires LegalBlock(lines) && IsLineEnd(e1) && IsLineEnd(e2)
    ensures HeadersOf(HeaderText(Sent(lines, e1, e2, body))) == Table(map[], lines)
    ensures BodyText(Sent(lines, e1, e2, body)) == body
  {
    var tail := e1 + (e2 + body);
    SeparatorIsHere(e1, e2, body);
    BlockIsPassed(lines, tail);
    HeadAndTail(Block(lines), tail);
    BlockIsRead(lines);
  }

  /** A part that is not a multipart, in any spelling. */
  lemma SentLeafIsRead(lines: seq<HeaderLine>, e1: string, e2: string, body: string, counter: nat)
    requires LegalBlock(lines) && IsLineEnd(e1) && IsLineEnd(e2)
    requires !("multipart/" <= MimeTypeOf(ContentType(Table(map[], lines))))
    ensures ParsePart(Sent(lines, e1, e2, body), counter)
         == if counter + 1 > 1000 then Err(TooManyParts)
            else Ok((Assemble(Table(map[], lines), body, []), counter + 1))
  {
    var raw, headers := Sent(lines, e1, e2, body), Table(map[], lines);
    SentIsTakenApart(lines, e1, e2, body);
    NoSections(headers, body, counter + 1, |raw|);
    ParsePartOf(raw, headers, body, counter, Ok(([], counter + 1)));
  }

  // ---- a part without a body

  lemma NoSeparatorLater(s: string)
    requires s != "" && SeparatorLength(s) == 0 && FindSeparator(s[1..]).None?
    ensures FindSeparator(s).None?
  {
  }

  lemma {:induction false} NoSeparatorInLine(l: string, rest: string)
    requires NewlineFree(l) && FindSeparator(rest).None?
    ensures FindSeparator(l + rest).None?
  {
    if l == "" {
      assert l + rest == rest;
    } else {
      NoSeparatorInLine(l[1..], rest);
      assert (l + rest)[0] == l[0] && (l + rest)[1..] == l[1..] + rest;
      NoSeparatorAtChar(l + rest);
      NoSeparatorLater(l + rest);
    }
  }

  lemma NoSeparatorAtLineEnd(e: string, rest: string)
    requires IsLineEnd(e) && rest != "" && rest[0] !in "\r\n" && FindSeparator(rest).None?
    ensures FindSeparator(e + rest).None?
  {
    LineEndIsNewline(e, rest);
    assert NewlineLength(rest) == 0;
    NoSeparatorLater("\n" + rest) by {
      assert ("\n" + rest)[1..] == rest;
    }
    if e == "\r\n" {
      assert (e + rest)[1..] == "\n" + rest;
      NoSeparatorLater(e + rest);
    }
  }

  lemma {:induction false} NoSeparatorInFolds(folds: seq<Fold>, rest: string)
    requires AllLegal(folds) && FindSeparator(rest).None?
    ensures FindSeparator(Folded(folds) + rest).None?
  {
    if folds == [] {
      assert "" + rest == rest;
    } else {
      var f, later := folds[0], Folded(folds[1..]) + rest;
      NoSeparatorInFolds(folds[1..], rest);
      NoSeparatorInLine(f.text, later);
      NoSeparatorInLine(f.blanks, f.text + later);
      assert (f.blanks + (f.text + later))[0] == f.blanks[0];
      NoSeparatorAtLineEnd(f.ending, f.blanks + (f.text + later));
      Regroup(f.ending, f.blanks, f.text, Folded(folds[1..]), rest);
    }
  }

  lemma {:induction false} NoSeparatorInBlock(lines: seq<HeaderLine>)
    requires LegalBlock(lines)
    ensures FindSeparator(Block(lines)).None?
  {
    var l := lines[0];
    if |lines| > 1 {
      NoSeparatorInBlock(lines[1..]);
      BlockStartsVisibly(lines[1..]);
      NoSeparatorAtLineEnd(l.ending, Block(lines[1..]));
    }
    NoSeparatorInFolds(l.Folds(), Later(lines));
    LineStartsVisibly(l);
    NoSeparatorInLine(l.Head(), Folded(l.Folds()) + Later(lines));
  }

  /** Without an empty line there are headers only. */
  lemma BareBlockIsRead(lines: seq<HeaderLine>)
    requires LegalBlock(lines)
    ensures HeadersOf(HeaderText(Block(lines))) == Table(map[], lines) && BodyText(Block(lines)) == ""
  {
    NoSeparatorInBlock(lines);
    BlockIsRead(lines);
  }

  // ---- multipart bodies

  /** A section between two markers: a line end, the content, and a line end. */
  datatype RawSection = RawSection(start: string, content: string, end: string) {
    ghost predicate Legal(marker: string) {
      && IsLineEnd(start) && IsLineEnd(end) && !Occurs(marker, content)
      && (end == "\n" && content != "" ==> content[|content| - 1] != '\r')
    }

    function Text(): string {
      start + (content + end)
    }
  }

  ghost predicate LegalSections(marker: string, sections: seq<RawSection>) {
    forall i :: 0 <= i < |sections| ==> sections[i].Legal(marker)
  }

  function SectionTexts(sections: seq<RawSection>): seq<string> {
    if sections == [] then [] else [sections[0].Text()] + SectionTexts(sections[1..])
  }

  /** The contents that hold more than white space. */
  function VisibleContents(sections: seq<RawSection>): seq<string> {
    if sections == [] then []
    else (if Trim(sections[0].content) == "" then [] else [sections[0].content]) + VisibleContents(sections[1..])
  }

  function AfterMarker(marker: string, sections: seq<RawSection>, epilogue: string): string {
    if sections == [] then "--" + epilogue
    else sections[0].Text() + marker + AfterMarker(marker, sections[1..], epilogue)
  }

  /** A preamble, every section behind a marker, the closing marker, and an epilogue. */
  function SentMultipart(marker: string, preamble: string, sections: seq<RawSection>, epilogue: string): string {
    preamble + marker + AfterMarker(marker, sections, epilogue)
  }

  lemma LeadingLineEndIsDropped(e: string, rest: string)
    requires IsLineEnd(e)
    ensures DropLeadingNewline(e + rest) == rest
  {
    LineEndIsNewline(e, rest);
  }

  lemma TrailingLineEndIsDropped(content: string, e: string)
    requires IsLineEnd(e) && (e == "\n" && content != "" ==> content[|content| - 1] != '\r')
    ensures DropTrailingNewline(content + e) == content
  {
    var s := content + e;
    assert s[|s| - 1] == '\n' && s[..|content|] == content;
    if |e| == 2 {
      assert s[|s| - 2] == e[0] == '\r';
    } else if content != "" {
      assert s[|s| - 2] == content[|content| - 1];
    }
  }

  lemma ContentIsCleaned(section: RawSection, marker: string)
    requires section.Legal(marker)
    ensures Cleaned(section.Text()) == section.content
  {
    LeadingLineEndIsDropped(section.start, section.content + section.end);
    TrailingLineEndIsDropped(section.content, section.end);
  }

  lemma OccursAcrossLineEnd(m: string, x: string, e: string, y: string)
    requires m != "" && NewlineFree(m) && IsLineEnd(e) && !Occurs(m, x) && !Occurs(m, y)
    ensures !Occurs(m, x + (e + y))
  {
    if e == "\r\n" {
      OccursInOneSide(m, x, y);
      assert x + CRLF + y == x + (e + y);
    } else {
      assert e == ['\n'];
      var s := x + (e + y);
      forall i | 0 <= i <= |s| - |m|
        ensures !OccursAt(m, s, i)
      {
        var w := s[i..i + |m|];
        if i + |m| <= |x| {
          assert !OccursAt(m, x, i);
          assert x[i..i + |m|] == w;
        } else if i > |x| {
          assert !OccursAt(m, y, i - |x| - 1);
          assert y[i - |x| - 1..i - |x| - 1 + |m|] == w;
        } else {
          assert w[|x| - i] == '\n' != m[|x| - i];
        }
      }
    }
  }

  lemma SectionHasNone(marker: string, section: RawSection)
    requires marker != "" && NewlineFree(marker) && section.Legal(marker)
    ensures !Occurs(marker, section.Text())
  {
    var rest := section.content + section.end;
    OccursNeedsChar(marker, "", 0);
    OccursAcrossLineEnd(marker, section.content, section.end, "");
    assert section.end + "" == section.end;
    OccursAcrossLineEnd(marker, "", section.start, rest);
    assert "" + (section.start + rest) == section.start + rest;
  }

  lemma SectionIsFree(marker: string, section: RawSection, rest: string)
    requires marker != "" && NewlineFree(marker) && section.Legal(marker)
    ensures FreeBefore(section.Text(), marker, rest)
  {
    SectionHasNone(marker, section);
    assert section.Text()[|section.Text()| - 1] == section.end[|section.end| - 1];
    LineEndIsolates(section.Text(), marker, rest);
  }

  lemma FirstOfTwo(first: string, a: seq<string>, b: seq<string>)
    ensures [first] + a + b == [first] + (a + b)
  {
  }

  lemma {:induction false} SectionsAreSplit(marker: string, sections: seq<RawSection>, epilogue: string)
    requires marker != "" && NewlineFree(marker) && LegalSections(marker, sections)
    ensures SplitOn(AfterMarker(marker, sections, epilogue), marker)
         == SectionTexts(sections) + SplitOn("--" + epilogue, marker)
  {
    if sections == [] {
      assert [] + SplitOn("--" + epilogue, marker) == SplitOn("--" + epilogue, marker);
    } else {
      var rest := AfterMarker(marker, sections[1..], epilogue);
      SectionIsFree(marker, sections[0], rest);
      SplitAtMarker(sections[0].Text(), marker, rest);
      SectionsAreSplit(marker, sections[1..], epilogue);
      FirstOfTwo(sections[0].Text(), SectionTexts(sections[1..]), SplitOn("--" + epilogue, marker));
    }
  }

  /** The epilogue starts a new line, if there is one. */
  predicate IsEpilogue(epilogue: string) {
    epilogue == "" || epilogue[0] in "\r\n"
  }

  lemma FirstPieceStarts(s: string, m: string, n: nat)
    requires m != "" && n <= |s| && forall i :: 0 <= i < n ==> !OccursAt(m, s, i)
    ensures s[..n] <= SplitOn(s, m)[0]
  {
    if n > 0 {
      assert !OccursAt(m, s, 0);
      if |s| >= |m| {
        assert s[0..|m|] == s[..|m|];
        forall i | 0 <= i < n - 1
          ensures !OccursAt(m, s[1..], i)
        {
          assert !OccursAt(m, s, i + 1);
          if i + |m| <= |s[1..]| {
            assert s[1..][i..i + |m|] == s[i + 1..i + 1 + |m|];
          }
        }
        FirstPieceStarts(s[1..], m, n - 1);
        assert s[..n] == [s[0]] + s[1..][..n - 1];
      }
    }
  }

  /** The closing marker is recognised. */
  lemma ClosingIsSeen(boundary: string, epilogue: string)
    requires boundary != "" && NewlineFree(boundary) && IsEpilogue(epilogue)
    ensures "--" <= SplitOn("--" + epilogue, "--" + boundary)[0]
  {
    var s, m := "--" + epilogue, "--" + boundary;
    forall i | 0 <= i < 2
      ensures !OccursAt(m, s, i)
    {
      if i + |m| <= |s| {
        assert s[i..i + |m|][2 - i] == s[2] && m[2] == boundary[0] && m[1] == '-';
      }
    }
    FirstPieceStarts(s, m, 2);
    assert s[..2] == "--";
  }

  /** The text of one section before the others. */
  lemma SectionThenOthers(text: string, content: string, others: seq<string>, counter: nat, bound: nat)
    requires Cleaned(text) == content && !("--" <= text)
    requires |text| < bound && forall s <- others :: |s| < bound
    ensures ParseSections([text] + others, counter, bound) ==
      if Trim(content) == "" then ParseSections(others, counter, bound)
      else
        var first := ParsePart(content, counter);
        if first.Err? then Err(first.error)
        else Prepend([first.value.0], ParseSections(others, first.value.1, bound))
  {
    var list := [text] + others;
    assert list[0] == text && list[1..] == others && list[0..] == list;
    SectionStep(list, 0, counter, bound);
    PrependNone([], 0, ParseSections(others, counter, bound));
  }

  lemma ParseFirstVisible(content: string, others: seq<string>, counter: nat)
    ensures ParseAll(PartReader(), [content] + others, counter)
         == var first := ParsePart(content, counter);
            if first.Err? then Err(first.error)
            else Prepend([first.value.0], ParseAll(PartReader(), others, first.value.1))
  {
    assert ([content] + others)[0] == content && ([content] + others)[1..] == others;
  }

  lemma SectionsStep(sections: seq<RawSection>, closing: seq<string>, bound: nat)
    requires sections != [] && forall s <- SectionTexts(sections) + closing :: |s| < bound
    ensures |sections[0].Text()| < bound && forall s <- SectionTexts(sections[1..]) + closing :: |s| < bound
    ensures SectionTexts(sections) + closing == [sections[0].Text()] + (SectionTexts(sections[1..]) + closing)
  {
    var first, others := sections[0].Text(), SectionTexts(sections[1..]);
    FirstOfTwo(first, others, closing);
    BoundSplits(first, others + closing, bound);
  }

  lemma BoundSplits(first: string, others: seq<string>, bound: nat)
    requires forall s <- [first] + others :: |s| < bound
    ensures |first| < bound && forall s <- others :: |s| < bound
  {
    assert first in [first] + others;
  }

  /** Visible contents are parsed in order; the blank ones, and all behind the closing marker, are passed over. */
  lemma {:induction false} SectionsAreParsed(
      marker: string, sections: seq<RawSection>, closing: seq<string>, counter: nat, bound: nat)
    requires LegalSections(marker, sections) && closing != [] && "--" <= closing[0]
    requires forall s <- SectionTexts(sections) + closing :: |s| < bound
    ensures ParseSections(SectionTexts(sections) + closing, counter, bound)
         == ParseAll(PartReader(), VisibleContents(sections), counter)
  {
    if sections == [] {
      assert [] + closing == closing;
    } else {
      var section := sections[0];
      var others := SectionTexts(sections[1..]) + closing;
      SectionsStep(sections, closing, bound);
      ContentIsCleaned(section, marker);
      assert section.Text()[0] == section.start[0];
      forall n: nat
        ensures ParseSections(others, n, bound) == ParseAll(PartReader(), VisibleContents(sections[1..]), n)
      {
        SectionsAreParsed(marker, sections[1..], closing, n, bound);
      }
      OneMoreSection(section.Text(), section.content, others, VisibleContents(sections[1..]), counter, bound);
    }
  }

  lemma OneMoreSection(
      text: string, content: string, others: seq<string>, visible: seq<string>, counter: nat, bound: nat)
    requires Cleaned(text) == content && !("--" <= text)
    requires |text| < bound && forall s <- others :: |s| < bound
    requires forall n: nat :: ParseSections(others, n, bound) == ParseAll(PartReader(), visible, n)
    ensures ParseSections([text] + others, counter, bound)
         == ParseAll(PartReader(), (if Trim(content) == "" then [] else [content]) + visible, counter)
  {
    SectionThenOthers(text, content, others, counter, bound);
    if Trim(content) == "" {
      assert [] + visible == visible;
    } else {
      ParseFirstVisible(content, visible, counter);
    }
  }

  lemma BodySections(boundary: string, preamble: string, sections: seq<RawSection>, epilogue: string)
    requires boundary != "" && NewlineFree(boundary) && IsEpilogue(epilogue)
    requires LegalSections("--" + boundary, sections)
    requires !Occurs("--" + boundary, preamble) && (preamble == "" || preamble[|preamble| - 1] == '\n')
    ensures var marker := "--" + boundary;
      AfterFirst(SentMultipart(marker, preamble, sections, epilogue), marker)
        == SectionTexts(sections) + SplitOn("--" + epilogue, marker)
  {
    var marker := "--" + boundary;
    MarkerOfBoundary(boundary);
    var rest := AfterMarker(marker, sections, epilogue);
    LineEndIsolates(preamble, marker, rest);
    SplitAtMarker(preamble, marker, rest);
    SectionsAreSplit(marker, sections, epilogue);
  }

  /**
   A multipart part in any spelling: its parts are those of the visible contents, in order, whatever
   stands before the first marker and behind the closing one.
   */
  lemma SentMultipartIsRead(
      lines: seq<HeaderLine>, e1: string, e2: string,
      boundary: string, preamble: string, sections: seq<RawSection>, epilogue: string, counter: nat)
    requires LegalBlock(lines) && IsLineEnd(e1) && IsLineEnd(e2)
    requires "multipart/" <= MimeTypeOf(ContentType(Table(map[], lines)))
    requires Parameter(ContentType(Table(map[], lines)), "boundary") == Some(boundary)
    requires boundary != "" && NewlineFree(boundary) && IsEpilogue(epilogue)
    requires LegalSections("--" + boundary, sections)
    requires !Occurs("--" + boundary, preamble) && (preamble == "" || preamble[|preamble| - 1] == '\n')
    ensures var body := SentMultipart("--" + boundary, preamble, sections, epilogue);
      ParsePart(Sent(lines, e1, e2, body), counter)
        == if counter + 1 > 1000 then Err(TooManyParts)
           else Assembled(Table(map[], lines), body, ParseAll(PartReader(), VisibleContents(sections), counter + 1))
  {
    var marker := "--" + boundary;
    var headers, body := Table(map[], lines), SentMultipart(marker, preamble, sections, epilogue);
    var raw := Sent(lines, e1, e2, body);
    var closing := SplitOn("--" + epilogue, marker);
    SentIsTakenApart(lines, e1, e2, body);
    BodySections(boundary, preamble, sections, epilogue);
    ClosingIsSeen(boundary, epilogue);
    SectionsFollowMarker(headers, boundary, body);
    assert |body| <= |raw|;
    SectionsAreParsed(marker, sections, closing, counter + 1, |raw|);
    ParsePartOf(raw, headers, body, counter, ParseAll(PartReader(), VisibleContents(sections), counter + 1));
  }

  // ---- messages

  lemma ReadingOfForm(raw: string, counter: nat, parsed: Parsed)
    requires counter == 0 && ParsePart(raw, counter) == parsed
    ensures ParsedMime(raw) ==
      if |Utf8.Encode(raw)| > 52428800 then Err(TooLarge)
      else if parsed.Err? then Err(parsed.error) else Ok(MessageOf(parsed.value.0))
  {
  }

  /** Two spellings of one header block and one body are one message, if neither is too large. */
  lemma SpellingsAgree(
      a: seq<HeaderLine>, a1: string, a2: string, b: seq<HeaderLine>, b1: string, b2: string, body: string)
    requires LegalBlock(a) && IsLineEnd(a1) && IsLineEnd(a2) && LegalBlock(b) && IsLineEnd(b1) && IsLineEnd(b2)
    requires Table(map[], a) == Table(map[], b)
    requires !("multipart/" <= MimeTypeOf(ContentType(Table(map[], a))))
    requires |Utf8.Encode(Sent(a, a1, a2, body))| <= 52428800 && |Utf8.Encode(Sent(b, b1, b2, body))| <= 52428800
    ensures var r := ParsedMime(Sent(a, a1, a2, body));
      r == ParsedMime(Sent(b, b1, b2, body)) && r.Ok? && r.value.headers == Table(map[], a)
  {
    var counter: nat :| counter == 0;
    SentLeafIsRead(a, a1, a2, body, counter);
    SentLeafIsRead(b, b1, b2, body, counter);
    var parsed := ParsePart(Sent(a, a1, a2, body), counter);
    ReadingOfForm(Sent(a, a1, a2, body), counter, parsed);
    ReadingOfForm(Sent(b, b1, b2, body), counter, parsed);
  }
}
