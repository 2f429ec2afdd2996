/** The base64 transfer encoding of attachments, in lines of at most 76 characters. */
module Base64 {
  import opened Outcomes
  import opened JsText

  type Sextet = v: int | 0 <= v < 64

  /** The alphabet of section 4 of RFC 4648. */
  function Symbol(v: Sextet): char {
    if v < 26 then (65 + v) as char
    else if v < 52 then (97 + v - 26) as char
    else if v < 62 then (48 + v - 52) as char
    else if v == 62 then '+' else '/'
  }

  /** Both alphabets of RFC 4648 are understood. */
  function SextetOf(c: char): Option<Sextet> {
    if 'A' <= c <= 'Z' then Some(c as int - 65)
    else if 'a' <= c <= 'z' then Some(c as int - 97 + 26)
    else if '0' <= c <= '9' then Some(c as int - 48 + 52)
    else if c == '+' || c == '-' then Some(62)
    else if c == '/' || c == '_' then Some(63)
    else None
  }

  /** The four sextets of three octets. */
  function Quad(p: Byte, q: Byte, r: Byte): seq<Sextet> {
    [p / 4, p % 4 * 16 + q / 16, q % 16 * 4 + r / 64, r % 64]
  }

  function Symbols(v: seq<Sextet>): string {
    seq(|v|, i requires 0 <= i < |v| => Symbol(v[i]))
  }

  /** Groups of three octets become four symbols; a short last group is padded with '='. */
  function Encode(x: seq<Byte>): string {
    if x == [] then ""
    else if |x| == 1 then Symbols(Quad(x[0], 0, 0)[..2]) + "=="
    else if |x| == 2 then Symbols(Quad(x[0], x[1], 0)[..3]) + "="
    else Symbols(Quad(x[0], x[1], x[2])) + Encode(x[3..])
  }

  /** Lines of at most 76 characters, joined with CRLF. */
  function Wrap(e: string): string {
    if |e| <= 76 then e else e[..76] + CRLF + Wrap(e[76..])
  }

  /** `base64(value)` */
  function EncodeLines(x: seq<Byte>): string {
    Wrap(Encode(x))
  }

  function RemoveSpaces(s: string): string {
    if s == "" then "" else (if IsSpace(s[0]) then "" else [s[0]]) + RemoveSpaces(s[1..])
  }

  /** The symbols before the padding; characters outside the alphabet are skipped. */
  function Sextets(s: string): seq<Sextet> {
    if s == "" || s[0] == '=' then []
    else match SextetOf(s[0])
      case Some(v) => [v] + Sextets(s[1..])
      case None => Sextets(s[1..])
  }

  function Pack(v: seq<Sextet>): seq<Byte> {
    if |v| < 2 then []
    else
      var a: int, b: int := v[0], v[1];
      var first := [a * 4 + b / 16];
      if |v| == 2 then first
      else
        var c: int := v[2];
        var second := [b % 16 * 16 + c / 4];
        if |v| == 3 then first + second
        else
          var d: int := v[3];
          first + second + [c % 4 * 64 + d] + Pack(v[4..])
  }

  /** `base64Bytes(value)` */
  function Decode(value: string): seq<Byte> {
    Pack(Sextets(RemoveSpaces(value)))
  }

  predicate IsEncoded(c: char) {
    'A' <= c <= 'Z' || 'a' <= c <= 'z' || '0' <= c <= '9' || c in "+/="
  }

  lemma SymbolRoundTrip(v: Sextet)
    ensures SextetOf(Symbol(v)) == Some(v) && Symbol(v) != '='
  {
  }

  lemma {:induction false} EncodedAlphabet(x: seq<Byte>)
    ensures forall i :: 0 <= i < |Encode(x)| ==> IsEncoded(Encode(x)[i])
  {
    forall v: Sextet
      ensures IsEncoded(Symbol(v))
    {
      SymbolRoundTrip(v);
    }
    if |x| >= 3 {
      EncodedAlphabet(x[3..]);
    }
  }

  lemma SextetsOfSymbol(v: Sextet, rest: string)
    ensures Sextets([Symbol(v)] + rest) == [v] + Sextets(rest)
  {
  }

  lemma {:induction false} SextetsOfSymbols(v: seq<Sextet>, rest: string)
    ensures Sextets(Symbols(v) + rest) == v + Sextets(rest)
  {
    if v == [] {
      assert Symbols(v) + rest == rest;
    } else {
      var first, others := v[0], v[1..];
      SextetsOfSymbols(others, rest);
      SextetsOfSymbol(first, Symbols(others) + rest);
      FirstSymbol(v, rest);
      assert v + Sextets(rest) == [first] + (others + Sextets(rest));
    }
  }

  lemma FirstSymbol(v: seq<Sextet>, rest: string)
    requires v != []
    ensures Symbols(v) + rest == [Symbol(v[0])] + (Symbols(v[1..]) + rest)
  {
  }

  /** The bits of three octets, cut into sextets and put together again. */
  lemma BitsOfGroup(p: int, q: int, r: int)
    requires 0 <= p < 256 && 0 <= q < 256 && 0 <= r < 256
    ensures p / 4 * 4 + (p % 4 * 16 + q / 16) / 16 == p
    ensures (p % 4 * 16 + q / 16) % 16 * 16 + (q % 16 * 4 + r / 64) / 4 == q
    ensures (q % 16 * 4 + r / 64) % 4 * 64 + r % 64 == r
  {
  }

  lemma PackFour(a: Sextet, b: Sextet, c: Sextet, d: Sextet, rest: seq<Sextet>)
    ensures Pack([a, b, c, d] + rest) == [a * 4 + b / 16, b % 16 * 16 + c / 4, c % 4 * 64 + d] + Pack(rest)
    ensures Pack([a, b, c]) == [a * 4 + b / 16, b % 16 * 16 + c / 4]
    ensures Pack([a, b]) == [a * 4 + b / 16]
  {
    assert ([a, b, c, d] + rest)[4..] == rest;
  }

  /** Splitting three octets into four sextets and packing them again is the identity. */
  lemma PackGroup(p: Byte, q: Byte, r: Byte, rest: seq<Sextet>)
    ensures Pack(Quad(p, q, r) + rest) == [p, q, r] + Pack(rest)
  {
    BitsOfGroup(p, q, r);
    PackFour(p / 4, p % 4 * 16 + q / 16, q % 16 * 4 + r / 64, r % 64, rest);
  }

  lemma PackShortGroup(p: Byte, q: Byte)
    ensures Pack(Quad(p, 0, 0)[..2]) == [p]
    ensures Pack(Quad(p, q, 0)[..3]) == [p, q]
  {
    BitsOfGroup(p, 0, 0);
    BitsOfGroup(p, q, 0);
    assert Quad(p, 0, 0)[..2] == [p / 4, p % 4 * 16];
    assert Quad(p, q, 0)[..3] == [p / 4, p % 4 * 16 + q / 16, q % 16 * 4];
    PackFour(p / 4, p % 4 * 16, 0, 0, []);
    PackFour(p / 4, p % 4 * 16 + q / 16, q % 16 * 4, 0, []);
  }

  lemma ShortGroup(p: Byte, q: Byte)
    ensures Pack(Sextets(Encode([p]))) == [p]
    ensures Pack(Sextets(Encode([p, q]))) == [p, q]
  {
    SextetsOfSymbols(Quad(p, 0, 0)[..2], "==");
    SextetsOfSymbols(Quad(p, q, 0)[..3], "=");
    assert Quad(p, 0, 0)[..2] + [] == Quad(p, 0, 0)[..2];
    assert Quad(p, q, 0)[..3] + [] == Quad(p, q, 0)[..3];
    PackShortGroup(p, q);
  }

  lemma {:induction false} PackInvertsEncode(x: seq<Byte>)
    ensures Pack(Sextets(Encode(x))) == x
  {
    if |x| == 1 {
      assert x == [x[0]];
      ShortGroup(x[0], 0);
    } else if |x| == 2 {
      assert x == [x[0], x[1]];
      ShortGroup(x[0], x[1]);
    } else if |x| >= 3 {
      PackInvertsEncode(x[3..]);
      var v, rest := Quad(x[0], x[1], x[2]), Encode(x[3..]);
      SextetsOfSymbols(v, rest);
      PackGroup(x[0], x[1], x[2], Sextets(rest));
      assert Encode(x) == Symbols(v) + rest;
      assert x == [x[0], x[1], x[2]] + x[3..];
    }
  }

  lemma {:induction false} RemoveSpacesOfClean(s: string, rest: string)
    requires forall i :: 0 <= i < |s| ==> !IsSpace(s[i])
    ensures RemoveSpaces(s + rest) == s + RemoveSpaces(rest)
  {
    if s == "" {
      assert s + rest == rest;
    } else {
      RemoveSpacesOfClean(s[1..], rest);
      assert (s + rest)[1..] == s[1..] + rest;
    }
  }

  lemma {:induction false} UnwrapInvertsWrap(e: string)
    requires forall i :: 0 <= i < |e| ==> !IsSpace(e[i])
    ensures RemoveSpaces(Wrap(e)) == e
  {
    if |e| <= 76 {
      RemoveSpacesOfClean(e, "");
      assert e + "" == e;
    } else {
      var rest := CRLF + Wrap(e[76..]);
      RemoveSpacesOfClean(e[..76], rest);
      assert e[..76] + CRLF + Wrap(e[76..]) == e[..76] + rest;
      assert rest[1..] == "\n" + Wrap(e[76..]);
      assert ("\n" + Wrap(e[76..]))[1..] == Wrap(e[76..]);
      UnwrapInvertsWrap(e[76..]);
    }
  }

  /** Decoding recovers every octet string from its wrapped encoding. */
  lemma DecodeInvertsEncodeLines(x: seq<Byte>)
    ensures Decode(EncodeLines(x)) == x
  {
    var e := Encode(x);
    EncodedAlphabet(x);
    assert forall i :: 0 <= i < |e| ==> !IsSpace(e[i]);
    UnwrapInvertsWrap(e);
    assert RemoveSpaces(EncodeLines(x)) == e;
    PackInvertsEncode(x);
  }

  /** One line without line ends is decoded too. */
  lemma DecodeInvertsEncode(x: seq<Byte>)
    ensures Decode(Encode(x)) == x
  {
    var e := Encode(x);
    EncodedAlphabet(x);
    RemoveSpacesOfClean(e, "");
    assert e + "" == e;
    PackInvertsEncode(x);
  }

  lemma EncodedHasNone(x: seq<Byte>, c: char)
    requires !IsEncoded(c)
    ensures c !in Encode(x)
  {
    EncodedAlphabet(x);
  }

  lemma EncodedIsVisible(c: char)
    requires IsEncoded(c)
    ensures !IsSpace(c) && c != '\r' && c != '\n'
  {
  }

  /** Every line, as a reader splitting on CRLF sees it, is at most 76 encoded symbols long. */
  lemma {:induction false} LinesAreShort(e: string)
    requires forall i :: 0 <= i < |e| ==> IsEncoded(e[i])
    ensures forall i :: 0 <= i < |SplitOn(Wrap(e), CRLF)| ==> |SplitOn(Wrap(e), CRLF)[i]| <= 76
    ensures forall i :: 0 <= i < |Wrap(e)| ==> IsEncoded(Wrap(e)[i]) || Wrap(e)[i] in CRLF
  {
    if |e| <= 76 {
      OccursNeedsChar(CRLF, e, 0);
      SplitWithoutMarker(e, CRLF);
    } else {
      LinesAreShort(e[76..]);
      var a, b := e[..76], Wrap(e[76..]);
      forall i | 0 <= i < |a|
        ensures !OccursAt(CRLF, a + CRLF + b, i)
      {
        assert (a + CRLF + b)[i] == a[i] == e[i];
        EncodedIsVisible(e[i]);
      }
      SplitAtMarker(a, CRLF, b);
    }
  }

  lemma EncodedLinesAreShort(x: seq<Byte>)
    ensures forall i :: 0 <= i < |SplitOn(EncodeLines(x), CRLF)| ==> |SplitOn(EncodeLines(x), CRLF)[i]| <= 76
    ensures forall i :: 0 <= i < |EncodeLines(x)| ==> IsEncoded(EncodeLines(x)[i]) || EncodeLines(x)[i] in CRLF
  {
    EncodedAlphabet(x);
    LinesAreShort(Encode(x));
  }

  // ---- every spelling the decoder understands

  /** A character of an encoded text: a symbol, or one that is passed over. */
  datatype Mark = Sign(c: char) | Junk(c: char) {
    predicate Legal() {
      if Sign? then IsSign(c) else !IsSign(c) && c != '='
    }
  }

  predicate IsSign(c: char) {
    'A' <= c <= 'Z' || 'a' <= c <= 'z' || '0' <= c <= '9' || c in "+/-_"
  }

  predicate AllLegal(marks: seq<Mark>) {
    forall i :: 0 <= i < |marks| ==> marks[i].Legal()
  }

  function TextOf(marks: seq<Mark>): string {
    seq(|marks|, i requires 0 <= i < |marks| => marks[i].c)
  }

  /** The symbols in the alphabet of section 4. */
  function SignsOf(marks: seq<Mark>): string {
    if marks == [] then ""
    else
      (match marks[0]
       case Sign(c) => [if c == '-' then '+' else if c == '_' then '/' else c]
       case Junk(_) => "")
      + SignsOf(marks[1..])
  }

  function Unpadded(e: string): string {
    e[..IndexOfPad(e)]
  }

  function IndexOfPad(e: string): (i: nat)
    ensures i <= |e| && '=' !in e[..i] && (i < |e| ==> e[i] == '=')
  {
    if e == "" || e[0] == '=' then 0
    else
      var i := IndexOfPad(e[1..]);
      assert e[..i + 1] == [e[0]] + e[1..][..i];
      i + 1
  }

  lemma MarkIsRead(m: Mark, rest: string)
    requires m.Legal()
    ensures Sextets(RemoveSpaces([m.c] + rest))
         == (match m case Sign(c) => [SextetOf(c).value] case Junk(_) => []) + Sextets(RemoveSpaces(rest))
  {
    assert ([m.c] + rest)[1..] == rest;
    var later := RemoveSpaces(rest);
    if IsSpace(m.c) {
      assert "" + later == later;
    } else {
      assert ([m.c] + later)[1..] == later;
    }
    assert [] + Sextets(later) == Sextets(later);
  }

  lemma SignIsRead(c: char, rest: string)
    requires IsSign(c)
    ensures var plain := if c == '-' then '+' else if c == '_' then '/' else c;
      Sextets([plain] + rest) == [SextetOf(c).value] + Sextets(rest)
  {
  }

  lemma PaddingEndsIt(tail: string)
    requires tail == "" || tail[0] == '='
    ensures Sextets(RemoveSpaces(tail)) == []
  {
  }

  lemma {:induction false} MarksAreRead(marks: seq<Mark>, tail: string)
    requires AllLegal(marks) && (tail == "" || tail[0] == '=')
    ensures Sextets(RemoveSpaces(TextOf(marks) + tail)) == Sextets(SignsOf(marks))
  {
    if marks == [] {
      PaddingEndsIt(tail);
      assert TextOf(marks) + tail == tail;
    } else {
      var m, rest := marks[0], TextOf(marks[1..]) + tail;
      assert TextOf(marks) + tail == [m.c] + rest;
      MarksAreRead(marks[1..], tail);
      MarkIsRead(m, rest);
      if m.Sign? {
        SignIsRead(m.c, SignsOf(marks[1..]));
      } else {
        assert "" + SignsOf(marks[1..]) == SignsOf(marks[1..]);
        assert [] + Sextets(SignsOf(marks[1..])) == Sextets(SignsOf(marks[1..]));
      }
    }
  }

  lemma {:induction false} PaddingIsNotRead(e: string)
    ensures Sextets(Unpadded(e)) == Sextets(e)
  {
    if e != "" && e[0] != '=' {
      PaddingIsNotRead(e[1..]);
      assert Unpadded(e)[1..] == Unpadded(e[1..]);
    }
  }

  /**
   Line ends and characters outside the alphabet may stand anywhere, either alphabet may be used, the
   padding may be missing, and what follows it is not read.
   */
  lemma EverySpellingIsDecoded(x: seq<Byte>, marks: seq<Mark>, tail: string)
    requires AllLegal(marks) && SignsOf(marks) == Unpadded(Encode(x)) && (tail == "" || tail[0] == '=')
    ensures Decode(TextOf(marks) + tail) == x
  {
    MarksAreRead(marks, tail);
    PaddingIsNotRead(Encode(x));
    PackInvertsEncode(x);
  }

  lemma GroupThenMore(x: seq<Byte>, more: string, octets: seq<Byte>)
    requires |x| >= 3 && Pack(Sextets(Encode(x[3..]) + more)) == octets
    ensures Pack(Sextets(Encode(x) + more)) == [x[0], x[1], x[2]] + octets
  {
    var v, rest := Quad(x[0], x[1], x[2]), Encode(x[3..]) + more;
    assert Encode(x) == Symbols(v) + Encode(x[3..]);
    assert Symbols(v) + Encode(x[3..]) + more == Symbols(v) + rest;
    SextetsOfSymbols(v, rest);
    PackGroup(x[0], x[1], x[2], Sextets(rest));
  }

  lemma NothingFromOne(c: char)
    requires IsSign(c)
    ensures Pack(Sextets([c])) == []
  {
    assert [c][1..] == "";
  }

  lemma {:induction false} WholeGroups(x: seq<Byte>, c: char)
    requires |x| % 3 == 0 && IsSign(c)
    ensures Pack(Sextets(Encode(x) + [c])) == x
  {
    if x == [] {
      NothingFromOne(c);
      assert Encode(x) + [c] == [c];
    } else {
      WholeGroups(x[3..], c);
      GroupThenMore(x, [c], x[3..]);
      assert x == [x[0], x[1], x[2]] + x[3..];
    }
  }

  lemma CleanWithOneMore(e: string, c: char)
    requires (forall i :: 0 <= i < |e| ==> IsEncoded(e[i])) && IsSign(c)
    ensures RemoveSpaces(e + [c]) == e + [c]
  {
    forall i | 0 <= i < |e|
      ensures !IsSpace(e[i])
    {
      EncodedIsVisible(e[i]);
    }
    RemoveSpacesOfClean(e, [c]);
    OneSignIsClean(c);
  }

  lemma OneSignIsClean(c: char)
    requires IsSign(c)
    ensures RemoveSpaces([c]) == [c]
  {
    assert [c][1..] == "";
  }

  /** One symbol too many is too short for an octet and is dropped. */
  lemma LoneSignIsDropped(x: seq<Byte>, c: char)
    requires |x| % 3 == 0 && IsSign(c)
    ensures Decode(Encode(x) + [c]) == x
  {
    EncodedAlphabet(x);
    CleanWithOneMore(Encode(x), c);
    WholeGroups(x, c);
  }
}
