/** Parameters of header values: every spelling of a list of parameters, and of the text of one. */
module MimeParameters {
  import opened Outcomes
  import opened JsText
  import opened MimeHeaders
  import QuotedPrintable
  import Utf8

  // ---- lists of parameters

  /** The text of a parameter: between quotation marks, or bare. */
  datatype Text = Quoted(text: string) | Bare(text: string) {
    function Sent(): string {
      if Quoted? then "\"" + text + "\"" else text
    }

    predicate Legal() {
      && '"' !in text && ';' !in text
      && (Bare? ==> forall c <- text :: !IsSpace(c))
    }
  }

  /** A parameter behind its semicolon; the star announces an extended text. */
  datatype Param = Param(spaces: string, attribute: string, star: bool, value: Text) {
    function Sent(): string {
      spaces + (attribute + ((if star then "*=" else "=") + value.Sent()))
    }

    predicate Legal() {
      && (forall c <- spaces :: IsSpace(c))
      && attribute != "" && PlainName(attribute)
      && value.Legal()
    }
  }

  /** No white space and none of the characters that structure a list. */
  predicate PlainName(name: string) {
    forall c <- name :: !IsSpace(c) && c !in ";=*\""
  }

  ghost predicate AllLegal(params: seq<Param>) {
    forall i :: 0 <= i < |params| ==> params[i].Legal()
  }

  function List(params: seq<Param>): string {
    if params == [] then "" else ";" + (params[0].Sent() + List(params[1..]))
  }

  /** The text of the first parameter of that name, in any case. */
  function Lookup(params: seq<Param>, name: string): Option<string> {
    if params == [] then None
    else if Lower(params[0].attribute) == name then Some(params[0].value.text)
    else Lookup(params[1..], name)
  }

  lemma {:induction false} SpacesAreTrimmed(spaces: string, rest: string)
    requires (forall c <- spaces :: IsSpace(c)) && rest != "" && !IsSpace(rest[0])
    ensures TrimStart(spaces + rest) == rest
  {
    if spaces == "" {
      assert spaces + rest == rest;
    } else {
      assert (spaces + rest)[0] == spaces[0] && spaces[0] in spaces && (spaces + rest)[1..] == spaces[1..] + rest;
      SpacesAreTrimmed(spaces[1..], rest);
    }
  }

  /** What follows a text: nothing, or the next parameter. */
  predicate EndsText(rest: string) {
    rest == "" || rest[0] == ';'
  }

  lemma {:induction false} BareTextIsTaken(text: string, rest: string)
    requires ';' !in text && (forall c <- text :: !IsSpace(c)) && EndsText(rest)
    ensures MimeHeaders.Bare(text + rest) == text
  {
    if text == "" {
      assert text + rest == rest;
    } else {
      assert (text + rest)[0] == text[0] && (text + rest)[1..] == text[1..] + rest;
      assert text[0] in text && forall c <- text[1..] :: c in text;
      BareTextIsTaken(text[1..], rest);
      assert text == [text[0]] + text[1..];
    }
  }

  lemma TextIsTaken(t: Text, rest: string)
    requires t.Legal() && EndsText(rest)
    ensures ParameterText(t.Sent() + rest) == t.text
  {
    if t.Quoted? {
      QuotedTextIsTaken(t.text, rest);
    } else {
      BareTextIsTaken(t.text, rest);
      assert t.text + rest == "" || (t.text + rest)[0] != '"';
    }
  }

  lemma QuotedTextIsTaken(text: string, rest: string)
    requires '"' !in text
    ensures ParameterText("\"" + text + "\"" + rest) == text
  {
    var s, after := "\"" + text + "\"" + rest, text + "\"" + rest;
    assert s[0] == '"' && s[1..] == after;
    FirstQuote(text, rest);
    assert after[|text|] == '"' && after[..|text|] == text;
  }

  lemma LowerOfPrefix(a: string, rest: string, n: nat)
    requires n <= |a|
    ensures Lower((a + rest)[..n]) == Lower(a)[..n]
  {
  }

  /** A name does not reach across a sign that structures the list. */
  lemma NoNameAcross(s: string, name: string, i: nat)
    requires i < |name| <= |s| && PlainName(name) && s[i] in ";=*"
    ensures Lower(s[..|name|]) != name
  {
    assert Lower(s[..|name|])[i] == LowerChar(s[i]);
    assert name[i] in name;
  }

  /** Where the name stops and the sign follows. */
  lemma NameIsMatched(a: string, rest: string, name: string)
    requires PlainName(a) && PlainName(name) && rest != "" && rest[0] in "=*"
    ensures |a + rest| >= |name| && Lower((a + rest)[..|name|]) == name
         ==> |name| <= |a| && Lower(a)[..|name|] == name
  {
    if |a| < |name| <= |a + rest| {
      NoNameAcross(a + rest, name, |a|);
    } else if |name| <= |a| {
      LowerOfPrefix(a, rest, |name|);
    }
  }

  lemma ParameterIsTaken(p: Param, rest: string, name: string)
    requires p.Legal() && name != "" && PlainName(name) && EndsText(rest)
    ensures ParameterHere(p.Sent() + rest, name)
         == if Lower(p.attribute) == name then Some(p.value.text) else None
  {
    var v := p.value.Sent() + rest;
    var sign := if p.star then "*=" else "=";
    var t := p.attribute + (sign + v);
    assert p.attribute[0] in p.attribute && t[0] == p.attribute[0];
    SpacesAreTrimmed(p.spaces, t);
    SentIsInParts(p.spaces, p.attribute, sign, p.value.Sent(), rest);
    SignIsTaken(p.star, v);
    if Lower(p.attribute) == name {
      AttributeIsTaken(p.Sent() + rest, p.attribute, sign + v, name);
      TextIsTaken(p.value, rest);
    } else {
      AttributeIsPassed(p.Sent() + rest, p.attribute, sign + v, name);
    }
  }

  lemma SentIsInParts(spaces: string, attribute: string, sign: string, value: string, rest: string)
    ensures spaces + (attribute + (sign + value)) + rest == spaces + (attribute + (sign + (value + rest)))
  {
    assert sign + value + rest == sign + (value + rest);
    assert attribute + (sign + value) + rest == attribute + (sign + (value + rest));
  }

  lemma AttributeIsTaken(s: string, a: string, u: string, name: string)
    requires TrimStart(s) == a + u && Lower(a) == name
    ensures ParameterHere(s, name)
         == (var v := if u != "" && u[0] == '*' then u[1..] else u;
             if v != "" && v[0] == '=' then Some(ParameterText(v[1..])) else None)
  {
    LowerOfPrefix(a, u, |name|);
    assert Lower(a)[..|name|] == name && (a + u)[|name|..] == u;
  }

  lemma AttributeIsPassed(s: string, a: string, u: string, name: string)
    requires TrimStart(s) == a + u && Lower(a) != name && u != "" && u[0] in "=*"
    requires PlainName(a) && PlainName(name)
    ensures ParameterHere(s, name).None?
  {
    var t := a + u;
    NameIsMatched(a, u, name);
    if |t| >= |name| && Lower(t[..|name|]) == name {
      assert |name| < |a|;
      assert t[|name|..][0] == a[|name|] && a[|name|] in a;
    }
  }

  lemma SignIsTaken(star: bool, v: string)
    ensures var u := (if star then "*=" else "=") + v;
      var w := if u != "" && u[0] == '*' then u[1..] else u;
      w != "" && w[0] == '=' && w[1..] == v
  {
  }

  lemma SentHasNoSemicolon(p: Param)
    requires p.Legal()
    ensures ';' !in p.Sent()
  {
    assert forall c <- p.spaces :: c != ';';
    assert forall c <- p.attribute :: c != ';';
    assert ';' !in p.value.Sent();
  }

  lemma {:induction false} ListIsSearched(params: seq<Param>, name: string)
    requires AllLegal(params) && name != "" && PlainName(name)
    ensures ParameterAfterSemicolon(List(params), name) == Lookup(params, name)
  {
    if params != [] {
      var p, rest := params[0], List(params[1..]);
      ListIsSearched(params[1..], name);
      ParameterIsTaken(p, rest, name);
      SentHasNoSemicolon(p);
      NoSemicolonNoParameter(p.Sent(), rest, name);
      assert List(params)[0] == ';' && List(params)[1..] == p.Sent() + rest;
    }
  }

  /** A type or a disposition before the list. */
  predicate PlainHead(head: string) {
    ';' !in head && '=' !in head
  }

  lemma {:induction false} TrimStartIsASuffix(s: string)
    ensures |TrimStart(s)| <= |s| && TrimStart(s) == s[|s| - |TrimStart(s)|..]
  {
    if s != "" && IsSpace(s[0]) {
      TrimStartIsASuffix(s[1..]);
    }
  }

  lemma NothingInHead(head: string, list: string, name: string)
    requires PlainHead(head) && EndsText(list) && name != "" && PlainName(name)
    ensures ParameterHere(head + list, name).None?
  {
    var s := head + list;
    TrimStartIsASuffix(s);
    var t := TrimStart(s);
    var k := |s| - |t|;
    if |t| >= |name| {
      if k + |name| > |head| {
        NoSpaceSkipsSemicolon(head, list);
        NoNameAcross(t, name, |head| - k);
      } else {
        NoSignInHead(head, list, s[k + |name|..], k + |name|);
        assert t[|name|..] == s[k + |name|..];
      }
    }
  }

  /** Neither an equals sign nor a star and one stands in the head or right behind it. */
  lemma NoSignInHead(head: string, list: string, u: string, k: nat)
    requires PlainHead(head) && EndsText(list) && k <= |head| && u == (head + list)[k..]
    ensures var v := if u != "" && u[0] == '*' then u[1..] else u; v == "" || v[0] != '='
  {
    var s := head + list;
    if k < |head| {
      assert u[0] == s[k] == head[k] && head[k] in head;
      if k + 1 < |head| {
        assert u[1] == s[k + 1] == head[k + 1] && head[k + 1] in head;
      } else if list != "" {
        assert u[1] == s[k + 1] == list[0];
      }
    } else if list != "" {
      assert u[0] == s[k] == list[0];
    }
  }

  /** White space before the list is dropped, and never the semicolon. */
  lemma {:induction false} NoSpaceSkipsSemicolon(head: string, list: string)
    requires EndsText(list)
    ensures list != "" ==> |TrimStart(head + list)| >= |list|
  {
    if head == "" {
      assert head + list == list;
    } else if IsSpace(head[0]) {
      assert (head + list)[1..] == head[1..] + list;
      NoSpaceSkipsSemicolon(head[1..], list);
    }
  }

  /** A parameter is found behind any type, in any case, quoted or bare, and the first of a name counts. */
  lemma ParameterIsRead(head: string, params: seq<Param>, name: string)
    requires PlainHead(head) && AllLegal(params) && name != "" && PlainName(name)
    ensures Parameter(head + List(params), name)
         == match Lookup(params, name)
            case None => None
            case Some(text) => if text == "" then None else Some(DecodeParameter(text))
  {
    NothingInHead(head, List(params), name);
    NoSemicolonNoParameter(head, List(params), name);
    ListIsSearched(params, name);
  }

  // ---- the text of a parameter

  /** A character as itself, or as the escaped octets of its UTF-8 encoding. */
  datatype Unit = Kept(c: char) | Escaped(c: char, upper: bool) {
    function Sent(): string {
      if Kept? then [c] else Escapes(Utf8.EncodeChar(c), upper)
    }

    predicate Legal() {
      Kept? ==> c != '%'
    }
  }

  function Digit(v: int, upper: bool): char
    requires 0 <= v < 16
  {
    if v < 10 then (48 + v) as char else if upper then (55 + v) as char else (87 + v) as char
  }

  function Escapes(bytes: seq<Byte>, upper: bool): string {
    if bytes == [] then ""
    else ['%', Digit(bytes[0] / 16, upper), Digit(bytes[0] % 16, upper)] + Escapes(bytes[1..], upper)
  }

  predicate AllUnits(units: seq<Unit>) {
    forall i :: 0 <= i < |units| ==> units[i].Legal()
  }

  function SentUnits(units: seq<Unit>): string {
    if units == [] then "" else units[0].Sent() + SentUnits(units[1..])
  }

  function Said(units: seq<Unit>): string {
    seq(|units|, i requires 0 <= i < |units| => units[i].c)
  }

  lemma DigitsOfOctet(b: Byte, upper: bool)
    ensures Hex(Digit(b / 16, upper)) && Hex(Digit(b % 16, upper))
    ensures QuotedPrintable.HexOctet(Digit(b / 16, upper), Digit(b % 16, upper)) == b
  {
  }

  lemma {:induction false} EscapesAreRead(bytes: seq<Byte>, upper: bool, rest: string, n: nat)
    requires n <= |bytes|
    ensures PercentBytes(Escapes(bytes, upper) + rest, n) == Some(bytes[..n])
    ensures |Escapes(bytes, upper)| == 3 * |bytes|
  {
    if bytes != [] {
      var hi, lo := Digit(bytes[0] / 16, upper), Digit(bytes[0] % 16, upper);
      var later := Escapes(bytes[1..], upper) + rest;
      var s := Escapes(bytes, upper) + rest;
      DigitsOfOctet(bytes[0], upper);
      assert s == ['%', hi, lo] + later;
      assert s[3..] == later;
      EscapesAreRead(bytes[1..], upper, rest, if n == 0 then 0 else n - 1);
      if n > 0 {
        assert bytes[..n] == [bytes[0]] + bytes[1..][..n - 1];
      }
    }
  }

  lemma EscapedCharIsRead(c: char, upper: bool, rest: string)
    ensures PercentChar(Escapes(Utf8.EncodeChar(c), upper) + rest) == Some((c, |Utf8.EncodeChar(c)|))
  {
    var bytes := Utf8.EncodeChar(c);
    var s := Escapes(bytes, upper) + rest;
    Utf8.EncodedRun(c, []);
    Utf8.EncodedScalar(c, []);
    assert bytes + [] == bytes;
    EscapesAreRead(bytes, upper, rest, 1);
    EscapesAreRead(bytes, upper, rest, |bytes|);
    assert bytes[..|bytes|] == bytes && bytes[..1][0] == bytes[0];
  }

  lemma UnitIsDecoded(u: Unit, rest: string)
    requires u.Legal() && DecodeUri(rest).Some?
    ensures DecodeUri(u.Sent() + rest) == Some([u.c] + DecodeUri(rest).value)
  {
    var s := u.Sent() + rest;
    if u.Kept? {
      assert s[1..] == rest;
    } else {
      var bytes := Utf8.EncodeChar(u.c);
      EscapedCharIsRead(u.c, u.upper, rest);
      EscapesAreRead(bytes, u.upper, rest, 0);
      assert s[0] == '%';
      assert s[3 * |bytes|..] == rest;
    }
  }

  lemma {:induction false} UnitsAreDecoded(units: seq<Unit>)
    requires AllUnits(units)
    ensures DecodeUri(SentUnits(units)) == Some(Said(units))
  {
    if units != [] {
      UnitsAreDecoded(units[1..]);
      UnitIsDecoded(units[0], SentUnits(units[1..]));
      assert Said(units) == [units[0].c] + Said(units[1..]);
    }
  }

  /** A text with escapes, in any mixture. */
  lemma EscapedTextIsRead(units: seq<Unit>)
    requires AllUnits(units) && '\'' !in SentUnits(units)
    ensures DecodeParameter(SentUnits(units)) == Said(units)
  {
    UnitsAreDecoded(units);
  }

  predicate OneLine(s: string) {
    '\n' !in s && '\r' !in s && '\U{2028}' !in s && '\U{2029}' !in s
  }

  /** An extended text, section 4 of RFC 5987: the character set and the language are passed over. */
  lemma ExtendedTextIsRead(charset: string, language: string, units: seq<Unit>)
    requires '\'' !in charset && '\'' !in language
    requires AllUnits(units) && OneLine(SentUnits(units))
    ensures DecodeParameter(charset + "'" + language + "'" + SentUnits(units)) == Said(units)
  {
    var text := SentUnits(units);
    QuotesAreSkipped(charset, language, text);
    UnitsAreDecoded(units);
  }

  lemma AfterQuote(a: string, rest: string)
    requires '\'' !in a
    ensures var raw := a + "'" + rest; IndexOf(raw, '\'') == |a| < |raw| && raw[|a| + 1..] == rest
  {
    IndexOfSkips(a, '\'', rest);
    assert a + "'" + rest == a + ['\''] + rest;
  }

  lemma InTwo(a: string, b: string, c: string, d: string, e: string)
    ensures a + b + c + d + e == a + b + (c + d + e)
  {
    assert c + d + e == c + (d + e);
  }

  lemma ExtendedOf(raw: string, i: nat, rest: string, k: nat, text: string)
    requires IndexOf(raw, '\'') == i < |raw| && raw[i + 1..] == rest
    requires IndexOf(rest, '\'') == k < |rest| && rest[k + 1..] == text && OneLine(text)
    ensures ExtendedValue(raw) == Some(text)
  {
  }

  lemma QuotesAreSkipped(charset: string, language: string, text: string)
    requires '\'' !in charset && '\'' !in language && OneLine(text)
    ensures ExtendedValue(charset + "'" + language + "'" + text) == Some(text)
  {
    var rest := language + "'" + text;
    AfterQuote(charset, rest);
    AfterQuote(language, text);
    InTwo(charset, "'", language, "'", text);
    ExtendedOf(charset + "'" + rest, |charset|, rest, |language|, text);
  }

  lemma {:induction false} BadEscapeFails(units: seq<Unit>, rest: string)
    requires AllUnits(units) && DecodeUri(rest).None?
    ensures DecodeUri(SentUnits(units) + rest).None?
  {
    if units == [] {
      assert SentUnits(units) + rest == rest;
    } else {
      var u, later := units[0], SentUnits(units[1..]) + rest;
      BadEscapeFails(units[1..], rest);
      assert SentUnits(units) + rest == u.Sent() + later;
      UnitThenBad(u, later);
    }
  }

  lemma UnitThenBad(u: Unit, rest: string)
    requires u.Legal() && DecodeUri(rest).None?
    ensures DecodeUri(u.Sent() + rest).None?
  {
    var s := u.Sent() + rest;
    if u.Kept? {
      assert s[1..] == rest;
    } else {
      EscapedCharIsRead(u.c, u.upper, rest);
      EscapesAreRead(Utf8.EncodeChar(u.c), u.upper, rest, 0);
      assert s[0] == '%';
      assert s[3 * |Utf8.EncodeChar(u.c)|..] == rest;
    }
  }

  /** A percent sign that escapes nothing leaves the whole text as it is. */
  lemma BadEscapeIsKept(units: seq<Unit>, rest: string)
    requires AllUnits(units) && '\'' !in SentUnits(units) + ("%" + rest)
    requires |rest| < 2 || !Hex(rest[0]) || !Hex(rest[1])
    ensures DecodeParameter(SentUnits(units) + ("%" + rest)) == SentUnits(units) + ("%" + rest)
  {
    var bad := "%" + rest;
    assert bad[0] == '%' && bad[1..] == rest;
    assert PercentBytes(bad, 1).None?;
    BadEscapeFails(units, bad);
  }
}
