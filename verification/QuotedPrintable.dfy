/** The quoted-printable decoder, and every encoding section 6.7 of RFC 2045 allows. */
module QuotedPrintable {
  import opened Outcomes
  import opened JsText

  /** Removes every soft line break: `value.replace(/=\r?\n/g, "")` */
  function RemoveSoftBreaks(s: string): string {
    if s == "" then ""
    else if |s| >= 3 && s[0] == '=' && s[1] == '\r' && s[2] == '\n' then RemoveSoftBreaks(s[3..])
    else if |s| >= 2 && s[0] == '=' && s[1] == '\n' then RemoveSoftBreaks(s[2..])
    else [s[0]] + RemoveSoftBreaks(s[1..])
  }

  /** The low octets of the UTF-16 code units of a character (`charCodeAt(i) & 0xff`). */
  function LowOctets(c: char): seq<Byte> {
    var n := c as int;
    if n < 0x10000 then [n % 256]
    else [(0xD800 + (n - 0x10000) / 1024) % 256, (n - 0x10000) % 1024 % 256]
  }

  predicate EscapeAt(s: string, i: nat) {
    i + 2 < |s| && s[i] == '=' && Hex(s[i + 1]) && Hex(s[i + 2])
  }

  function HexOctet(hi: char, lo: char): Byte
    requires Hex(hi) && Hex(lo)
  {
    16 * HexValue(hi) + HexValue(lo)
  }

  function Octets(s: string): seq<Byte> {
    if s == "" then []
    else if EscapeAt(s, 0) then [HexOctet(s[1], s[2])] + Octets(s[3..])
    else LowOctets(s[0]) + Octets(s[1..])
  }

  function Decode(value: string): seq<Byte> {
    Octets(RemoveSoftBreaks(value))
  }

  /** `quotedPrintable(value)`, with the loop of the source. */
  method DecodeBytes(value: string) returns (bytes: seq<Byte>)
    ensures bytes == Decode(value)
  {
    var unwrapped := RemoveSoftBreaks(value);
    bytes := [];
    var index := 0;
    while index < |unwrapped|
      invariant 0 <= index <= |unwrapped|
      invariant bytes + Octets(unwrapped[index..]) == Octets(unwrapped)
    {
      OctetsAt(unwrapped, index, bytes);
      if EscapeAt(unwrapped, index) {
        bytes := bytes + [HexOctet(unwrapped[index + 1], unwrapped[index + 2])];
        index := index + 2;
      } else {
        bytes := bytes + LowOctets(unwrapped[index]);
      }
      index := index + 1;
    }
  }

  /** One turn of the loop, after the given bytes. */
  lemma OctetsAt(s: string, i: nat, bytes: seq<Byte>)
    requires i < |s|
    ensures EscapeAt(s, i) ==>
      bytes + Octets(s[i..]) == bytes + [HexOctet(s[i + 1], s[i + 2])] + Octets(s[i + 3..])
    ensures !EscapeAt(s, i) ==> bytes + Octets(s[i..]) == bytes + LowOctets(s[i]) + Octets(s[i + 1..])
  {
    var tail := s[i..];
    assert tail[0] == s[i] && tail[1..] == s[i + 1..];
    assert EscapeAt(tail, 0) <==> EscapeAt(s, i);
    if EscapeAt(s, i) {
      assert tail[1] == s[i + 1] && tail[2] == s[i + 2] && tail[3..] == s[i + 3..];
    }
  }

  // ---- encodings

  /** The units an encoder may emit. */
  datatype Token =
    | Literal(c: char)
    | Escaped(hi: char, lo: char)
    | HardBreak
    | SoftBreak(lineFeedOnly: bool)

  /** Rules 1 to 5, and the two leniencies of the decoder: lower-case hex and bare line feeds. */
  predicate Acceptable(t: Token) {
    match t
    case Literal(c) => c == '\t' || (' ' <= c <= '~' && c != '=')
    case Escaped(hi, lo) => Hex(hi) && Hex(lo)
    case HardBreak => true
    case SoftBreak(_) => true
  }

  function Text(t: Token): string {
    match t
    case Literal(c) => [c]
    case Escaped(hi, lo) => ['=', hi, lo]
    case HardBreak => "\r\n"
    case SoftBreak(lf) => if lf then "=\n" else "=\r\n"
  }

  function Meaning(t: Token): seq<Byte>
    requires Acceptable(t)
  {
    match t
    case Literal(c) => [c as int]
    case Escaped(hi, lo) => [HexOctet(hi, lo)]
    case HardBreak => [13, 10]
    case SoftBreak(_) => []
  }

  predicate AllAcceptable(ts: seq<Token>) {
    forall i :: 0 <= i < |ts| ==> Acceptable(ts[i])
  }

  function Render(ts: seq<Token>): string {
    if ts == [] then "" else Text(ts[0]) + Render(ts[1..])
  }

  function Denotation(ts: seq<Token>): seq<Byte>
    requires AllAcceptable(ts)
  {
    if ts == [] then [] else Meaning(ts[0]) + Denotation(ts[1..])
  }

  function WithoutSoftBreaks(ts: seq<Token>): seq<Token> {
    if ts == [] then []
    else (if ts[0].SoftBreak? then [] else [ts[0]]) + WithoutSoftBreaks(ts[1..])
  }

  lemma PlainCharStays(c: char, rest: string)
    requires c != '=' || (rest != "" && Hex(rest[0]))
    ensures RemoveSoftBreaks([c] + rest) == [c] + RemoveSoftBreaks(rest)
  {
  }

  lemma EscapeStays(hi: char, lo: char, rest: string)
    requires Hex(hi) && Hex(lo)
    ensures RemoveSoftBreaks(['=', hi, lo] + rest) == ['=', hi, lo] + RemoveSoftBreaks(rest)
  {
    var r1, later := [lo] + rest, RemoveSoftBreaks(rest);
    var r2 := [hi] + r1;
    PlainCharStays(lo, rest);
    PlainCharStays(hi, r1);
    PlainCharStays('=', r2);
    ThreeChars('=', hi, lo, rest);
    ThreeChars('=', hi, lo, later);
  }

  lemma ThreeChars(a: char, b: char, c: char, s: string)
    ensures [a, b, c] + s == [a] + ([b] + ([c] + s))
  {
  }

  lemma SoftBreakStep(t: Token, rest: string)
    requires Acceptable(t)
    ensures RemoveSoftBreaks(Text(t) + rest) == (if t.SoftBreak? then "" else Text(t)) + RemoveSoftBreaks(rest)
  {
    match t
    case Literal(c) =>
      PlainCharStays(c, rest);
    case HardBreak =>
      PlainCharStays('\n', rest);
      PlainCharStays('\r', "\n" + rest);
      assert "\r\n" + rest == "\r" + ("\n" + rest);
    case SoftBreak(lf) =>
      var s := Text(t) + rest;
      assert s[|Text(t)|..] == rest;
      assert s[1] == Text(t)[1];
    case Escaped(hi, lo) =>
      EscapeStays(hi, lo, rest);
  }

  lemma OctetStep(t: Token, rest: string)
    requires Acceptable(t) && !t.SoftBreak?
    ensures Octets(Text(t) + rest) == Meaning(t) + Octets(rest)
  {
  }

  lemma {:induction false} SoftBreaksVanish(ts: seq<Token>)
    requires AllAcceptable(ts)
    ensures RemoveSoftBreaks(Render(ts)) == Render(WithoutSoftBreaks(ts))
    ensures AllAcceptable(WithoutSoftBreaks(ts))
    ensures forall t <- WithoutSoftBreaks(ts) :: !t.SoftBreak?
    ensures Denotation(WithoutSoftBreaks(ts)) == Denotation(ts)
  {
    if ts != [] {
      SoftBreaksVanish(ts[1..]);
      SoftBreakStep(ts[0], Render(ts[1..]));
      var kept := WithoutSoftBreaks(ts[1..]);
      if ts[0].SoftBreak? {
        assert WithoutSoftBreaks(ts) == kept;
      } else {
        assert WithoutSoftBreaks(ts) == [ts[0]] + kept;
        assert ([ts[0]] + kept)[1..] == kept;
      }
    }
  }

  lemma {:induction false} OctetsOfTokens(ts: seq<Token>)
    requires AllAcceptable(ts)
    requires forall t <- ts :: !t.SoftBreak?
    ensures Octets(Render(ts)) == Denotation(ts)
  {
    if ts != [] {
      OctetsOfTokens(ts[1..]);
      OctetStep(ts[0], Render(ts[1..]));
    }
  }

  /** The decoder recovers the octets from every choice of literals, escapes and soft breaks. */
  lemma DecodeInvertsEveryEncoding(ts: seq<Token>)
    requires AllAcceptable(ts)
    ensures Decode(Render(ts)) == Denotation(ts)
  {
    SoftBreaksVanish(ts);
    OctetsOfTokens(WithoutSoftBreaks(ts));
  }

  // ---- the encodings RFC 2045 calls legal

  predicate UpperHex(c: char) {
    '0' <= c <= '9' || 'A' <= c <= 'F'
  }

  /** Section 6.7 of RFC 2045: upper-case escapes, CRLF breaks, no white space before a line
      end, and at most 76 characters a line, `column` of which are already used. */
  predicate LegalFrom(ts: seq<Token>, column: nat)
    requires AllAcceptable(ts)
  {
    if ts == [] then column <= 76
    else match ts[0]
      case Literal(c) =>
        && column + 1 <= 76
        && (c == ' ' || c == '\t' ==> |ts| > 1 && !ts[1].HardBreak?)
        && LegalFrom(ts[1..], column + 1)
      case Escaped(hi, lo) => UpperHex(hi) && UpperHex(lo) && column + 3 <= 76 && LegalFrom(ts[1..], column + 3)
      case HardBreak => LegalFrom(ts[1..], 0)
      case SoftBreak(lf) => !lf && column + 1 <= 76 && LegalFrom(ts[1..], 0)
  }

  function HexDigit(v: int): char
    requires 0 <= v < 16
  {
    if v < 10 then (48 + v) as char else (55 + v) as char
  }

  /** One legal encoding of any octet string: escape everything, one octet a line. */
  function EscapeAll(x: seq<Byte>): seq<Token> {
    if x == [] then []
    else [Escaped(HexDigit(x[0] / 16), HexDigit(x[0] % 16)), SoftBreak(false)] + EscapeAll(x[1..])
  }

  lemma EscapedOctet(v: Byte)
    ensures var t := Escaped(HexDigit(v / 16), HexDigit(v % 16));
      Acceptable(t) && UpperHex(t.hi) && UpperHex(t.lo) && Meaning(t) == [v]
  {
  }

  lemma {:induction false} EscapeAllIsLegal(x: seq<Byte>)
    ensures AllAcceptable(EscapeAll(x)) && LegalFrom(EscapeAll(x), 0)
  {
    if x != [] {
      EscapeAllIsLegal(x[1..]);
      EscapedOctet(x[0]);
      var ts, later := EscapeAll(x), EscapeAll(x[1..]);
      assert ts[1..] == [SoftBreak(false)] + later && ts[1..][1..] == later;
      assert LegalFrom(ts[1..], 3);
    }
  }

  lemma {:induction false} EscapeAllDenotes(x: seq<Byte>)
    requires AllAcceptable(EscapeAll(x))
    ensures Denotation(EscapeAll(x)) == x
  {
    if x != [] {
      EscapeAllIsLegal(x[1..]);
      EscapeAllDenotes(x[1..]);
      EscapedOctet(x[0]);
      var octet, later := Escaped(HexDigit(x[0] / 16), HexDigit(x[0] % 16)), EscapeAll(x[1..]);
      DenotationOfTwo(octet, SoftBreak(false), later);
      assert EscapeAll(x) == [octet, SoftBreak(false)] + later;
      assert x == [x[0]] + x[1..];
    }
  }

  lemma DenotationOfTwo(a: Token, b: Token, later: seq<Token>)
    requires AllAcceptable(later) && Acceptable(a) && Acceptable(b)
    ensures AllAcceptable([a, b] + later)
    ensures Denotation([a, b] + later) == Meaning(a) + (Meaning(b) + Denotation(later))
  {
    var ts := [a, b] + later;
    assert ts[1..] == [b] + later && ts[1..][1..] == later;
  }

  /** Every octet string has a legal encoding, so the recovery theorem speaks of all of them. */
  lemma EveryOctetStringHasALegalEncoding(x: seq<Byte>)
    ensures AllAcceptable(EscapeAll(x))
    ensures LegalFrom(EscapeAll(x), 0)
    ensures Denotation(EscapeAll(x)) == x
    ensures Decode(Render(EscapeAll(x))) == x
  {
    EscapeAllIsLegal(x);
    EscapeAllDenotes(x);
    DecodeInvertsEveryEncoding(EscapeAll(x));
  }

  // ---- what is no encoding

  lemma OneMoreKept(t: Token, kept: seq<Token>, text: string, later: string)
    requires text == Render(kept) + later
    ensures Text(t) + text == Render([t] + kept) + later
  {
    assert ([t] + kept)[1..] == kept;
    assert Text(t) + (Render(kept) + later) == Text(t) + Render(kept) + later;
  }

  lemma {:induction false} SoftBreaksVanishBefore(ts: seq<Token>, rest: string)
    requires AllAcceptable(ts)
    ensures RemoveSoftBreaks(Render(ts) + rest) == Render(WithoutSoftBreaks(ts)) + RemoveSoftBreaks(rest)
  {
    if ts == [] {
      assert "" + rest == rest && "" + RemoveSoftBreaks(rest) == RemoveSoftBreaks(rest);
    } else {
      var t, kept, later := ts[0], WithoutSoftBreaks(ts[1..]), Render(ts[1..]) + rest;
      SoftBreaksVanishBefore(ts[1..], rest);
      SoftBreakStep(t, later);
      assert Render(ts) + rest == Text(t) + later;
      if t.SoftBreak? {
        assert WithoutSoftBreaks(ts) == kept;
        assert "" + RemoveSoftBreaks(later) == RemoveSoftBreaks(later);
      } else {
        assert WithoutSoftBreaks(ts) == [t] + kept;
        OneMoreKept(t, kept, RemoveSoftBreaks(later), RemoveSoftBreaks(rest));
      }
    }
  }

  lemma {:induction false} OctetsBefore(ts: seq<Token>, rest: string)
    requires AllAcceptable(ts) && forall t <- ts :: !t.SoftBreak?
    ensures Octets(Render(ts) + rest) == Denotation(ts) + Octets(rest)
  {
    if ts == [] {
      assert Render(ts) + rest == rest;
    } else {
      OctetsBefore(ts[1..], rest);
      OctetStep(ts[0], Render(ts[1..]) + rest);
      TextsOfTwo(Text(ts[0]), Render(ts[1..]), rest);
      BytesOfTwo(Meaning(ts[0]), Denotation(ts[1..]), Octets(rest));
    }
  }

  lemma TextsOfTwo(a: string, b: string, c: string)
    ensures a + b + c == a + (b + c)
  {
  }

  lemma BytesOfTwo(a: seq<Byte>, b: seq<Byte>, c: seq<Byte>)
    ensures a + b + c == a + (b + c)
  {
  }

  /** The text after an encoding is decoded on its own. */
  lemma DecodeOfTwo(ts: seq<Token>, rest: string)
    requires AllAcceptable(ts)
    ensures Decode(Render(ts) + rest) == Denotation(ts) + Decode(rest)
  {
    SoftBreaksVanish(ts);
    SoftBreaksVanishBefore(ts, rest);
    OctetsBefore(WithoutSoftBreaks(ts), RemoveSoftBreaks(rest));
  }

  /** A character an encoder would have escaped stands for its low octet. */
  lemma RawCharacterIsKept(ts: seq<Token>, c: char, rest: string)
    requires AllAcceptable(ts) && c != '=' && c as int < 0x10000
    ensures Decode(Render(ts) + ([c] + rest)) == Denotation(ts) + ([c as int % 256] + Decode(rest))
  {
    DecodeOfTwo(ts, [c] + rest);
    assert ([c] + rest)[1..] == rest;
    assert ([c] + RemoveSoftBreaks(rest))[1..] == RemoveSoftBreaks(rest);
  }

  /** An equals sign before anything but two hexadecimal digits or a line end is kept. */
  lemma StrayEqualsIsKept(ts: seq<Token>, c: char, rest: string)
    requires AllAcceptable(ts) && !Hex(c) && c !in "=\r\n"
    ensures Decode(Render(ts) + (['=', c] + rest)) == Denotation(ts) + ([61] + Decode([c] + rest))
  {
    DecodeOfTwo(ts, ['=', c] + rest);
    var s, t := ['=', c] + rest, [c] + rest;
    assert s[1..] == t && t[1..] == rest && s[1] == c;
    assert (['='] + RemoveSoftBreaks(t))[1..] == RemoveSoftBreaks(t);
    assert RemoveSoftBreaks(t)[0] == c;
  }
}
