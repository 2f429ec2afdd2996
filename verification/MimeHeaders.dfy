/**
 Header blocks of a MIME part: unfolding, parameters, encoded words, and the header block a
 generator prints.
 */
module MimeHeaders {
  import opened Outcomes
  import opened JsText
  import Utf8
  import Base64
  import QuotedPrintable

  type HeaderMap = map<string, string>

  // ---- unfolding

  /** Length of a line end (`\r?\n`) at the start of s, or 0. */
  function NewlineLength(s: string): nat {
    if |s| >= 2 && s[0] == '\r' && s[1] == '\n' then 2
    else if |s| >= 1 && s[0] == '\n' then 1 else 0
  }

  predicate IsBlank(c: char) {
    c == ' ' || c == '\t'
  }

  function SkipBlanks(s: string): (r: string)
    ensures |r| <= |s|
  {
    if s != "" && IsBlank(s[0]) then SkipBlanks(s[1..]) else s
  }

  /** `value.replace(/\r?\n[ \t]+/g, " ")` */
  function Unfold(s: string): string
    decreases |s|
  {
    if s == "" then ""
    else
      var k := NewlineLength(s);
      if 0 < k < |s| && IsBlank(s[k]) then " " + Unfold(SkipBlanks(s[k..]))
      else [s[0]] + Unfold(s[1..])
  }

  /** `s.split(/\r?\n/)` */
  function SplitLines(s: string): (lines: seq<string>)
    ensures lines != []
    decreases |s|
  {
    if s == "" then [""]
    else
      var k := NewlineLength(s);
      if k > 0 then [""] + SplitLines(s[k..])
      else
        var rest := SplitLines(s[1..]);
        [[s[0]] + rest[0]] + rest[1..]
  }

  /** `s.indexOf(c)`, or |s| when there is none. */
  function IndexOf(s: string, c: char): (i: nat)
    ensures i <= |s|
    ensures i < |s| ==> s[i] == c
    ensures c !in s[..i]
  {
    if s == "" || s[0] == c then 0
    else
      var i := IndexOf(s[1..], c);
      assert s[..i + 1] == [s[0]] + s[1..][..i];
      i + 1
  }

  /** A header line contributes one entry when something precedes its first colon. */
  function AddLine(headers: HeaderMap, line: string): HeaderMap {
    var split := IndexOf(line, ':');
    if split == |line| || split == 0 then headers
    else headers[Lower(Trim(line[..split])) := Trim(line[split + 1..])]
  }

  function AddLines(headers: HeaderMap, lines: seq<string>): HeaderMap
    decreases lines
  {
    if lines == [] then headers else AddLines(AddLine(headers, lines[0]), lines[1..])
  }

  function HeadersOf(value: string): HeaderMap {
    AddLines(map[], SplitLines(Unfold(value)))
  }

  /** `unfoldHeaders(value)`, with the loop of the source. */
  method UnfoldHeaders(value: string) returns (headers: HeaderMap)
    ensures headers == HeadersOf(value)
  {
    var lines := SplitLines(Unfold(value));
    headers := map[];
    for i := 0 to |lines|
      invariant AddLines(headers, lines[i..]) == HeadersOf(value)
    {
      assert lines[i..][1..] == lines[i + 1..];
      headers := AddLine(headers, lines[i]);
    }
  }

  // ---- parameters

  /** The longest prefix without ';' and white space. */
  function Bare(s: string): string {
    if s == "" || s[0] == ';' || IsSpace(s[0]) then "" else [s[0]] + Bare(s[1..])
  }

  /** The value after '=': quoted when a closing quote exists, else bare. */
  function ParameterText(s: string): string {
    if s != "" && s[0] == '"' && '"' in s[1..] then s[1..][..IndexOf(s[1..], '"')] else Bare(s)
  }

  function ParameterHere(s: string, name: string): Option<string> {
    var t := TrimStart(s);
    if |t| < |name| || Lower(t[..|name|]) != name then None
    else
      var u := t[|name|..];
      var v := if u != "" && u[0] == '*' then u[1..] else u;
      if v != "" && v[0] == '=' then Some(ParameterText(v[1..])) else None
  }

  function ParameterAfterSemicolon(s: string, name: string): Option<string> {
    if s == "" then None
    else if s[0] == ';' && ParameterHere(s[1..], name).Some? then ParameterHere(s[1..], name)
    else ParameterAfterSemicolon(s[1..], name)
  }

  /** The text between `charset'language'` and the end, when it holds no line terminator. */
  function ExtendedValue(raw: string): Option<string> {
    var first := IndexOf(raw, '\'');
    if first == |raw| then None
    else
      var rest := raw[first + 1..];
      var second := IndexOf(rest, '\'');
      if second == |rest| then None
      else
        var v := rest[second + 1..];
        if '\n' in v || '\r' in v || '\U{2028}' in v || '\U{2029}' in v then None else Some(v)
  }

  function PercentBytes(s: string, n: nat): Option<seq<Byte>> {
    if n == 0 then Some([])
    else if |s| < 3 || s[0] != '%' || !Hex(s[1]) || !Hex(s[2]) then None
    else match PercentBytes(s[3..], n - 1)
      case None => None
      case Some(rest) => Some([QuotedPrintable.HexOctet(s[1], s[2])] + rest)
  }

  /** The character escaped at the start of s and the number of escapes it takes. */
  function PercentChar(s: string): (r: Option<(char, nat)>)
    ensures r.Some? ==> 0 < r.value.1 && 3 * r.value.1 <= |s|
  {
    match PercentBytes(s, 1)
    case None => None
    case Some(lead) =>
      match Utf8.Continuations(lead[0])
      case None => None
      case Some(need) =>
        match PercentBytes(s, need + 1)
        case None => None
        case Some(bytes) =>
          PercentBytesLength(s, need + 1);
          if Utf8.Continuations(bytes[0]) == Some(need) && Utf8.ValidRun(bytes, need) == need
          then Some((Utf8.ScalarOf(bytes, need), need + 1)) else None
  }

  lemma {:induction false} PercentBytesLength(s: string, n: nat)
    requires PercentBytes(s, n).Some?
    ensures |PercentBytes(s, n).value| == n && 3 * n <= |s|
  {
    if n > 0 {
      PercentBytesLength(s[3..], n - 1);
    }
  }

  /** `decodeURIComponent(s)`; None when it throws. */
  function DecodeUri(s: string): Option<string>
    decreases |s|
  {
    if s == "" then Some("")
    else if s[0] != '%' then
      match DecodeUri(s[1..])
      case None => None
      case Some(rest) => Some([s[0]] + rest)
    else
      match PercentChar(s)
      case None => None
      case Some((c, n)) =>
        match DecodeUri(s[3 * n..])
        case None => None
        case Some(rest) => Some([c] + rest)
  }

  function DecodeParameter(raw: string): string {
    var text := match ExtendedValue(raw) case Some(v) => v case None => raw;
    match DecodeUri(text) case Some(v) => v case None => raw
  }

  /** `parameter(value, name)` for a lower-case name. */
  function Parameter(value: string, name: string): Option<string> {
    var raw := if ParameterHere(value, name).Some? then ParameterHere(value, name)
               else ParameterAfterSemicolon(value, name);
    match raw
    case None => None
    case Some(text) => if text == "" then None else Some(DecodeParameter(text))
  }

  lemma {:induction false} PlainTextDecodesToItself(s: string)
    requires '%' !in s
    ensures DecodeUri(s) == Some(s)
  {
    if s != "" {
      PlainTextDecodesToItself(s[1..]);
      assert [s[0]] + s[1..] == s;
    }
  }

  lemma PlainParameter(s: string)
    requires '%' !in s && '\'' !in s
    ensures DecodeParameter(s) == s
  {
    PlainTextDecodesToItself(s);
  }

  lemma {:induction false} NoSemicolonNoParameter(a: string, s: string, name: string)
    requires ';' !in a
    ensures ParameterAfterSemicolon(a + s, name) == ParameterAfterSemicolon(s, name)
  {
    if a == "" {
      assert a + s == s;
    } else {
      NoSemicolonNoParameter(a[1..], s, name);
      assert (a + s)[1..] == a[1..] + s;
    }
  }

  lemma {:induction false} FirstQuote(f: string, rest: string)
    requires '"' !in f
    ensures IndexOf(f + "\"" + rest, '"') == |f|
  {
    var s := f + "\"" + rest;
    if f != "" {
      FirstQuote(f[1..], rest);
      assert s[1..] == f[1..] + "\"" + rest;
    }
  }

  /** A quoted parameter is found after a semicolon and a space. */
  lemma QuotedParameterHere(name: string, f: string)
    requires name != "" && Lower(name) == name && !IsSpace(name[0]) && '"' !in f
    ensures ParameterHere(" " + name + "=\"" + f + "\"", name) == Some(f)
  {
    var u := "=\"" + f + "\"";
    TrimStartAtName(name, u);
    assert " " + (name + u) == " " + name + "=\"" + f + "\"";
    ParameterOfParts(" " + (name + u), name, u);
    QuotedTail(f);
    FirstQuote(f, "");
  }

  lemma TrimStartAtName(name: string, u: string)
    requires name != "" && !IsSpace(name[0])
    ensures TrimStart(" " + (name + u)) == name + u
  {
    var t := name + u;
    assert t[0] == name[0] && (" " + t)[1..] == t;
  }

  lemma ParameterOfParts(s: string, name: string, u: string)
    requires TrimStart(s) == name + u && Lower(name) == name && u != "" && u[0] == '='
    ensures ParameterHere(s, name) == Some(ParameterText(u[1..]))
  {
    var t := TrimStart(s);
    assert t[..|name|] == name && t[|name|..] == u;
  }

  lemma QuotedTail(f: string)
    ensures var u := "=\"" + f + "\"";
      && u[1..][1..] == f + "\"" + "" && u[1..][1..][|f|] == '"' && u[1..][1..][..|f|] == f
  {
    var q := ("=\"" + f + "\"")[1..];
    assert q == "\"" + f + "\"";
    assert q[1..] == f + "\"" + "";
  }

  // ---- encoded words

  function SpacesForUnderscores(s: string): string {
    seq(|s|, i requires 0 <= i < |s| => if s[i] == '_' then ' ' else s[i])
  }

  /** The mode, body and length of an encoded word at the start of s. */
  function EncodedWord(s: string): (r: Option<(char, string, nat)>)
    ensures r.Some? ==> 0 < r.value.2 <= |s|
  {
    if |s| < 2 || s[0] != '=' || s[1] != '?' then None
    else
      var charset := IndexOf(s[2..], '?');
      var j := 2 + charset;
      if charset == 0 || j + 2 >= |s| || s[j + 1] !in "bBqQ" || s[j + 2] != '?' then None
      else
        var body := s[j + 3..];
        var n := IndexOf(body, '?');
        if n + 1 >= |body| || body[n + 1] != '=' then None
        else Some((LowerChar(s[j + 1]), body[..n], j + 3 + n + 2))
  }

  function DecodeWords(s: string): string
    decreases |s|
  {
    if s == "" then ""
    else match EncodedWord(s)
      case None => [s[0]] + DecodeWords(s[1..])
      case Some((mode, body, n)) =>
        Utf8.Decode(if mode == 'b' then Base64.Decode(body)
                    else QuotedPrintable.Decode(SpacesForUnderscores(body)))
        + DecodeWords(s[n..])
  }

  predicate PrintableAscii(s: string) {
    forall i :: 0 <= i < |s| ==> ' ' <= s[i] <= '~'
  }

  /** `value.replace(/[\r\n]/g, " ")` */
  function SpacesForNewlines(s: string): string {
    seq(|s|, i requires 0 <= i < |s| => if s[i] == '\r' || s[i] == '\n' then ' ' else s[i])
  }

  function EncodeHeader(value: string): string {
    if PrintableAscii(value) then SpacesForNewlines(value)
    else EncodedText(SpacesForNewlines(value))
  }

  lemma {:induction false} IndexOfSkips(a: string, c: char, rest: string)
    requires c !in a
    ensures IndexOf(a + [c] + rest, c) == |a|
  {
    var s := a + [c] + rest;
    if a != "" {
      IndexOfSkips(a[1..], c, rest);
      assert s[1..] == a[1..] + [c] + rest;
    }
  }

  lemma EncodedWordShape(b: string)
    requires '?' !in b
    ensures EncodedWord("=?UTF-8?B?" + b + "?=") == Some(('b', b, |b| + 12))
  {
    var word := "=?UTF-8?B?" + b + "?=";
    var afterMode := b + ['?'] + "=";
    assert word[2..] == "UTF-8" + ['?'] + ("B?" + afterMode);
    IndexOfSkips("UTF-8", '?', "B?" + afterMode);
    assert word[8] == 'B' && word[9] == '?';
    assert word[10..] == afterMode;
    IndexOfSkips(b, '?', "=");
    assert afterMode[..|b|] == b && afterMode[|b| + 1] == '=';
  }

  lemma EncodedWordIsOneLine(b: string)
    requires forall i :: 0 <= i < |b| ==> Base64.IsEncoded(b[i])
    ensures NewlineFree(b) && '?' !in b && (forall i :: 0 <= i < |b| ==> !IsSpace(b[i]))
    ensures Trimmed("=?UTF-8?B?" + b + "?=") && NewlineFree("=?UTF-8?B?" + b + "?=")
  {
  }

  function EncodedText(text: string): string {
    "=?UTF-8?B?" + Base64.Encode(Utf8.Encode(text)) + "?="
  }

  /** A word the generator encodes is decoded to the text it stands for. */
  lemma EncodedWordDecodes(text: string)
    ensures Trimmed(EncodedText(text)) && NewlineFree(EncodedText(text))
    ensures DecodeWords(EncodedText(text)) == Utf8.StripBom(text)
  {
    var bytes := Utf8.Encode(text);
    var b := Base64.Encode(bytes);
    Base64.EncodedAlphabet(bytes);
    EncodedWordIsOneLine(b);
    EncodedWordShape(b);
    WholeWord(EncodedText(text), 'b', b);
    Base64.DecodeInvertsEncode(bytes);
    Utf8.DecodeInvertsEncode(text);
  }

  lemma WholeWord(word: string, mode: char, body: string)
    requires EncodedWord(word) == Some((mode, body, |word|)) && mode == 'b'
    ensures DecodeWords(word) == Utf8.Decode(Base64.Decode(body))
  {
  }

  lemma {:induction false} NoWordToDecode(s: string)
    requires !Occurs("=?", s)
    ensures DecodeWords(s) == s
  {
    if s != "" {
      assert !OccursAt("=?", s, 0);
      if |s| >= 2 {
        assert s[0..2] == [s[0], s[1]];
      }
      forall i | 0 <= i <= |s[1..]|
        ensures !OccursAt("=?", s[1..], i)
      {
        assert !OccursAt("=?", s, i + 1);
        if i + 2 <= |s[1..]| {
          assert s[1..][i..i + 2] == s[i + 1..i + 3];
        }
      }
      NoWordToDecode(s[1..]);
    }
  }

  // ---- printed header blocks

  datatype Field = Field(name: string, value: string) {
    function Line(): string {
      name + ": " + value
    }

    function Key(): string {
      Lower(name)
    }

    ghost predicate Printable() {
      && name != "" && Trimmed(name) && NewlineFree(name) && ':' !in name
      && NewlineFree(value)
    }
  }

  function Lines(fields: seq<Field>): seq<string> {
    seq(|fields|, i requires 0 <= i < |fields| => fields[i].Line())
  }

  /** The map a reader should get: the last field of each name wins. */
  function FieldMap(headers: HeaderMap, fields: seq<Field>): HeaderMap
    decreases fields
  {
    if fields == [] then headers
    else FieldMap(headers[fields[0].Key() := Trim(fields[0].value)], fields[1..])
  }

  ghost predicate AllPrintable(fields: seq<Field>) {
    forall i :: 0 <= i < |fields| ==> fields[i].Printable()
  }

  /** A printed line: no line end inside, and it starts with a visible character. */
  ghost predicate SolidLine(l: string) {
    l != "" && NewlineFree(l) && !IsSpace(l[0])
  }

  ghost predicate SolidLines(lines: seq<string>) {
    forall i :: 0 <= i < |lines| ==> SolidLine(lines[i])
  }

  /** A character that starts no folded line break stays. */
  lemma UnfoldKeepsChar(s: string, k: nat)
    requires s != "" && NewlineLength(s) == k && (0 < k < |s| ==> !IsBlank(s[k]))
    ensures Unfold(s) == [s[0]] + Unfold(s[1..])
  {
  }

  lemma {:induction false} UnfoldSkipsLine(l: string, rest: string)
    requires NewlineFree(l)
    ensures Unfold(l + rest) == l + Unfold(rest)
  {
    if l == "" {
      assert l + rest == rest;
    } else {
      var t := l + rest;
      assert t[0] == l[0] && t[1..] == l[1..] + rest;
      UnfoldKeepsChar(t, 0);
      UnfoldSkipsLine(l[1..], rest);
      assert [l[0]] + (l[1..] + Unfold(rest)) == l + Unfold(rest);
    }
  }

  lemma UnfoldSkipsLineEnd(rest: string)
    requires rest != "" && !IsBlank(rest[0])
    ensures Unfold(CRLF + rest) == CRLF + Unfold(rest)
  {
    var s, t := CRLF + rest, "\n" + rest;
    assert s[1..] == t && t[1..] == rest && s[2..] == rest;
    assert s[2] == rest[0] && t[1] == rest[0];
    UnfoldKeepsChar(t, 1);
    UnfoldKeepsChar(s, 2);
    var later := Unfold(rest);
    assert "\r" + ("\n" + later) == CRLF + later;
  }

  lemma {:induction false} UnfoldOfLines(lines: seq<string>)
    requires SolidLines(lines)
    ensures Unfold(Join(lines)) == Join(lines)
  {
    if |lines| == 1 {
      UnfoldSkipsLine(lines[0], "");
      assert lines[0] + "" == lines[0];
    } else if |lines| > 1 {
      var rest := Join(lines[1..]);
      UnfoldOfLines(lines[1..]);
      UnfoldSkipsLine(lines[0], CRLF + rest);
      assert rest[0] == lines[1][0];
      UnfoldSkipsLineEnd(rest);
      assert lines[0] + CRLF + rest == lines[0] + (CRLF + rest);
    }
  }

  lemma SplitLinesSkipsChar(c: char, s: string)
    requires c != '\r' && c != '\n'
    ensures SplitLines([c] + s) == [[c] + SplitLines(s)[0]] + SplitLines(s)[1..]
  {
  }

  lemma {:induction false} SplitLinesSkipsLine(l: string, rest: string)
    requires NewlineFree(l)
    ensures SplitLines(l + rest) == [l + SplitLines(rest)[0]] + SplitLines(rest)[1..]
  {
    if l == "" {
      assert l + rest == rest;
      assert l + SplitLines(rest)[0] == SplitLines(rest)[0];
    } else {
      assert NewlineFree(l[1..]) && l[0] != '\r' && l[0] != '\n';
      SplitLinesSkipsLine(l[1..], rest);
      SplitLinesSkipsChar(l[0], l[1..] + rest);
      FirstLineGrows(l, rest, SplitLines(l[1..] + rest), SplitLines(rest)[0], SplitLines(rest)[1..]);
    }
  }

  lemma FirstLineGrows(l: string, rest: string, lines: seq<string>, first: string, others: seq<string>)
    requires l != "" && lines == [l[1..] + first] + others
    ensures [l[0]] + (l[1..] + rest) == l + rest
    ensures [[l[0]] + lines[0]] + lines[1..] == [l + first] + others
  {
    assert lines[0] == l[1..] + first && lines[1..] == others;
    assert [l[0]] + (l[1..] + first) == l + first;
  }

  lemma {:induction false} SplitLinesOfLines(lines: seq<string>)
    requires SolidLines(lines) && lines != []
    ensures SplitLines(Join(lines)) == lines
  {
    if |lines| == 1 {
      SplitLinesSkipsLine(lines[0], "");
      assert lines[0] + "" == lines[0];
    } else {
      var rest := Join(lines[1..]);
      SplitLinesOfLines(lines[1..]);
      SplitLinesSkipsLine(lines[0], CRLF + rest);
      assert lines[0] + CRLF + rest == lines[0] + (CRLF + rest);
      assert (CRLF + rest)[2..] == rest;
      assert lines[0] + "" == lines[0];
    }
  }

  lemma TrimIgnoresLeadingSpace(v: string)
    ensures Trim(" " + v) == Trim(v)
  {
  }

  lemma FieldLine(f: Field, headers: HeaderMap)
    requires f.Printable()
    ensures SolidLine(f.Line())
    ensures AddLine(headers, f.Line()) == headers[f.Key() := Trim(f.value)]
  {
    FieldLineIsSolid(f);
    assert f.Line() == f.name + ":" + (" " + f.value);
    FieldLineSplits(f.Line(), f.name, " " + f.value);
    TrimSpaceThen(f.name);
    TrimIgnoresLeadingSpace(f.value);
    AddSplitLine(headers, f.Line(), f.name, " " + f.value);
  }

  lemma FieldLineIsSolid(f: Field)
    requires f.Printable()
    ensures SolidLine(f.Line())
  {
    assert f.Line()[0] == f.name[0];
  }

  lemma FieldLineSplits(l: string, name: string, v: string)
    requires name != "" && ':' !in name && l == name + ":" + v
    ensures IndexOf(l, ':') == |name| < |l| && l[..|name|] == name && l[|name| + 1..] == v
  {
    assert l == name + [':'] + v;
    IndexOfSkips(name, ':', v);
    PartsAroundColon(name, v);
  }

  lemma AddSplitLine(headers: HeaderMap, l: string, name: string, v: string)
    requires name != "" && |name| < |l| && IndexOf(l, ':') == |name|
    requires l[..|name|] == name && l[|name| + 1..] == v
    ensures AddLine(headers, l) == headers[Lower(Trim(name)) := Trim(v)]
  {
    var split := IndexOf(l, ':');
    assert split != 0 && split != |l|;
    assert l[..split] == name && l[split + 1..] == v;
  }

  lemma PartsAroundColon(name: string, v: string)
    ensures var l := name + [':'] + v; l[..|name|] == name && l[|name| + 1..] == v
  {
  }

  lemma {:induction false} AddFieldLines(headers: HeaderMap, fields: seq<Field>)
    requires AllPrintable(fields)
    ensures AddLines(headers, Lines(fields)) == FieldMap(headers, fields)
    decreases fields
  {
    if fields != [] {
      FieldLine(fields[0], headers);
      AddFieldLines(AddLine(headers, fields[0].Line()), fields[1..]);
      assert Lines(fields)[1..] == Lines(fields[1..]);
    }
  }

  /** Reading a printed header block gives its fields. */
  lemma HeadersOfFields(fields: seq<Field>)
    requires fields != [] && AllPrintable(fields)
    ensures SolidLines(Lines(fields))
    ensures HeadersOf(Join(Lines(fields))) == FieldMap(map[], fields)
  {
    var lines := Lines(fields);
    forall i | 0 <= i < |lines|
      ensures SolidLine(lines[i])
    {
      FieldLine(fields[i], map[]);
    }
    UnfoldOfLines(lines);
    SplitLinesOfLines(lines);
    AddFieldLines(map[], fields);
  }

  lemma {:induction false} FieldMapFrame(headers: HeaderMap, fields: seq<Field>, key: string)
    requires forall i :: 0 <= i < |fields| ==> fields[i].Key() != key
    ensures key in FieldMap(headers, fields) <==> key in headers
    ensures key in headers ==> FieldMap(headers, fields)[key] == headers[key]
    decreases fields
  {
    if fields != [] {
      FieldMapFrame(headers[fields[0].Key() := Trim(fields[0].value)], fields[1..], key);
    }
  }

  /** The value of the last field with a given key. */
  lemma {:induction false} FieldMapLookup(headers: HeaderMap, fields: seq<Field>, i: nat)
    requires i < |fields|
    requires forall j :: i < j < |fields| ==> fields[j].Key() != fields[i].Key()
    ensures fields[i].Key() in FieldMap(headers, fields)
    ensures FieldMap(headers, fields)[fields[i].Key()] == Trim(fields[i].value)
    decreases fields
  {
    var next := headers[fields[0].Key() := Trim(fields[0].value)];
    if i == 0 {
      FieldMapFrame(next, fields[1..], fields[0].Key());
    } else {
      FieldMapLookup(next, fields[1..], i - 1);
    }
  }

  // ---- the end of the header block

  /** Length of an empty-line separator (`\r?\n\r?\n`) at the start of s, or 0. */
  function SeparatorLength(s: string): (k: nat)
    ensures k <= |s|
  {
    var a := NewlineLength(s);
    if a == 0 then 0
    else
      var b := NewlineLength(s[a..]);
      if b == 0 then 0 else a + b
  }

  /** `s.search(/\r?\n\r?\n/)` */
  function FindSeparator(s: string): (r: Option<nat>)
    ensures r.Some? ==> r.value < |s|
  {
    if s == "" then None
    else if SeparatorLength(s) > 0 then Some(0)
    else match FindSeparator(s[1..])
      case None => None
      case Some(i) => Some(i + 1)
  }

  lemma NoSeparatorAtChar(t: string)
    requires t != "" && t[0] != '\r' && t[0] != '\n'
    ensures SeparatorLength(t) == 0
  {
  }

  lemma SeparatorIsLater(t: string)
    requires t != "" && SeparatorLength(t) == 0 && FindSeparator(t[1..]).Some?
    ensures FindSeparator(t) == Some(1 + FindSeparator(t[1..]).value)
  {
  }

  lemma {:induction false} SeparatorAfterLine(l: string, rest: string)
    requires NewlineFree(l)
    requires FindSeparator(rest).Some?
    ensures FindSeparator(l + rest) == Some(|l| + FindSeparator(rest).value)
  {
    if l == "" {
      assert l + rest == rest;
    } else {
      SeparatorAfterLine(l[1..], rest);
      var t := l + rest;
      assert t[0] == l[0] && t[1..] == l[1..] + rest;
      NoSeparatorAtChar(t);
      SeparatorIsLater(t);
    }
  }

  lemma SeparatorAfterLineEnd(rest: string)
    requires rest != "" && rest[0] != '\r' && rest[0] != '\n'
    requires FindSeparator(rest).Some?
    ensures FindSeparator(CRLF + rest) == Some(2 + FindSeparator(rest).value)
  {
  }

  lemma SeparatorAtOnce(body: string)
    ensures SeparatorLength(CRLF + CRLF + body) == 4
    ensures FindSeparator(CRLF + CRLF + body) == Some(0)
  {
  }

  lemma SeparatorAfterOneMore(l: string, joined: string, tail: string)
    requires NewlineFree(l) && joined != "" && joined[0] != '\r' && joined[0] != '\n'
    requires FindSeparator(joined + tail) == Some(|joined|)
    ensures FindSeparator(l + CRLF + joined + tail) == Some(|l| + 2 + |joined|)
  {
    var rest := joined + tail;
    var ended := CRLF + rest;
    SeparatorAfterLineEnd(rest);
    SeparatorAfterLine(l, ended);
    assert l + CRLF + joined + tail == l + ended;
  }

  /** The header block of a printed part ends where its lines end. */
  lemma {:induction false} SeparatorAfterLines(lines: seq<string>, tail: string)
    requires lines != [] && SolidLines(lines)
    requires FindSeparator(tail) == Some(0)
    ensures FindSeparator(Join(lines) + tail) == Some(|Join(lines)|)
  {
    if |lines| == 1 {
      SeparatorAfterLine(lines[0], tail);
    } else {
      SeparatorAfterLines(lines[1..], tail);
      assert SolidLine(lines[1]);
      SeparatorAfterOneMore(lines[0], Join(lines[1..]), tail);
    }
  }
}
