/** Encoded words in header values, section 2 of RFC 2047: any mixture of words and plain text. */
module MimeWords {
  import opened Outcomes
  import opened JsText
  import opened MimeHeaders
  import Utf8
  import Base64
  import QuotedPrintable

  /** A character of a word in Q encoding. */
  datatype Letter = Plain(c: char) | Underscore | Escaped(hi: char, lo: char) {
    predicate Legal() {
      match this
      case Plain(c) => '!' <= c <= '~' && c !in "=?_"
      case Underscore => true
      case Escaped(hi, lo) => Hex(hi) && Hex(lo)
    }

    function Sent(): string {
      match this
      case Plain(c) => [c]
      case Underscore => "_"
      case Escaped(hi, lo) => ['=', hi, lo]
    }

    /** The octet it stands for. */
    function Octet(): Byte
      requires Legal()
    {
      match this
      case Plain(c) => c as int
      case Underscore => 32
      case Escaped(hi, lo) => 16 * HexValue(hi) + HexValue(lo)
    }
  }

  datatype Piece =
    | Unencoded(text: string)
    | BWord(charset: string, letter: char, octets: seq<Byte>)
    | QWord(charset: string, letter: char, letters: seq<Letter>)
  {
    ghost predicate Legal() {
      match this
      case Unencoded(text) => !Occurs("=?", text)
      case BWord(charset, letter, _) => charset != "" && '?' !in charset && letter in "bB"
      case QWord(charset, letter, letters) => charset != "" && '?' !in charset && letter in "qQ" && AllLetters(letters)
    }

    function Sent(): string {
      match this
      case Unencoded(text) => text
      case BWord(charset, letter, octets) => Word(charset, letter, Base64.Encode(octets))
      case QWord(charset, letter, letters) => Word(charset, letter, SentLetters(letters))
    }

    /** The text a reader should see. */
    function Shown(): string
      requires Legal()
    {
      match this
      case Unencoded(text) => text
      case BWord(_, _, octets) => Utf8.Decode(octets)
      case QWord(_, _, letters) => Utf8.Decode(Octets(letters))
    }
  }

  function Word(charset: string, letter: char, body: string): string {
    "=?" + (charset + (['?', letter, '?'] + (body + "?=")))
  }

  ghost predicate AllLetters(letters: seq<Letter>) {
    forall i :: 0 <= i < |letters| ==> letters[i].Legal()
  }

  function SentLetters(letters: seq<Letter>): string {
    if letters == [] then "" else letters[0].Sent() + SentLetters(letters[1..])
  }

  function Octets(letters: seq<Letter>): seq<Byte>
    requires AllLetters(letters)
  {
    seq<Byte>(|letters|, i requires 0 <= i < |letters| => letters[i].Octet())
  }

  ghost predicate AllLegal(pieces: seq<Piece>) {
    forall i :: 0 <= i < |pieces| ==> pieces[i].Legal()
  }

  /** No two plain pieces in a row. */
  predicate Alternates(pieces: seq<Piece>) {
    forall i :: 0 <= i < |pieces| - 1 ==> !(pieces[i].Unencoded? && pieces[i + 1].Unencoded?)
  }

  function Sent(pieces: seq<Piece>): string {
    if pieces == [] then "" else pieces[0].Sent() + Sent(pieces[1..])
  }

  function Shown(pieces: seq<Piece>): string
    requires AllLegal(pieces)
  {
    if pieces == [] then "" else pieces[0].Shown() + Shown(pieces[1..])
  }

  // ---- words

  lemma WordShape(charset: string, letter: char, body: string, rest: string)
    ensures var s := Word(charset, letter, body) + rest;
      && s[0] == '=' && s[1] == '?'
      && s[2..] == charset + ['?'] + ([letter, '?'] + (body + ['?'] + ("=" + rest)))
  {
    assert "?=" == ['?'] + "=";
    assert body + "?=" + rest == body + ['?'] + ("=" + rest);
    assert ['?', letter, '?'] + (body + "?=") + rest == ['?'] + ([letter, '?'] + (body + ['?'] + ("=" + rest)));
  }

  /** Where a word ends when its charset and its body hold no question mark. */
  lemma WordEnds(s: string, charset: string, letter: char, body: string, rest: string)
    requires charset != "" && '?' !in charset && letter in "bBqQ" && '?' !in body
    requires |s| >= 2 && s[0] == '=' && s[1] == '?'
    requires s[2..] == charset + ['?'] + ([letter, '?'] + (body + ['?'] + ("=" + rest)))
    ensures EncodedWord(s) == Some((LowerChar(letter), body, |charset| + |body| + 7))
  {
    var tail := body + ['?'] + ("=" + rest);
    var j := 2 + |charset|;
    IndexOfSkips(charset, '?', [letter, '?'] + tail);
    CharsetEnds(s, charset, letter, tail);
    IndexOfSkips(body, '?', "=" + rest);
    BodyEnds(body, rest);
  }

  lemma CharsetEnds(s: string, charset: string, letter: char, tail: string)
    requires |s| >= 2 && s[2..] == charset + ['?'] + ([letter, '?'] + tail)
    ensures var j := 2 + |charset|;
      j + 2 < |s| && s[j + 1] == letter && s[j + 2] == '?' && s[j + 3..] == tail
  {
    var after := s[2..];
    assert after[|charset| + 1] == letter && after[|charset| + 2] == '?' && after[|charset| + 3..] == tail;
  }

  lemma BodyEnds(body: string, rest: string)
    ensures var tail := body + ['?'] + ("=" + rest);
      |body| + 1 < |tail| && tail[|body| + 1] == '=' && tail[..|body|] == body
  {
  }

  /** The body of a word ends at its question mark. */
  lemma WordIsTaken(charset: string, letter: char, body: string, rest: string)
    requires charset != "" && '?' !in charset && letter in "bBqQ" && '?' !in body
    ensures EncodedWord(Word(charset, letter, body) + rest) == Some((LowerChar(letter), body, |Word(charset, letter, body)|))
  {
    WordShape(charset, letter, body, rest);
    WordEnds(Word(charset, letter, body) + rest, charset, letter, body, rest);
  }

  lemma WordIsShown(s: string, mode: char, body: string, n: nat)
    requires EncodedWord(s) == Some((mode, body, n))
    ensures n <= |s| && DecodeWords(s)
         == Utf8.Decode(if mode == 'b' then Base64.Decode(body) else QuotedPrintable.Decode(SpacesForUnderscores(body)))
            + DecodeWords(s[n..])
  {
  }

  lemma AfterWord(w: string, rest: string)
    ensures (w + rest)[|w|..] == rest
  {
  }

  lemma WordAndRest(charset: string, letter: char, body: string, rest: string)
    requires charset != "" && '?' !in charset && letter in "bBqQ" && '?' !in body
    ensures DecodeWords(Word(charset, letter, body) + rest)
         == Utf8.Decode(if letter in "bB" then Base64.Decode(body)
                        else QuotedPrintable.Decode(SpacesForUnderscores(body)))
            + DecodeWords(rest)
  {
    var word := Word(charset, letter, body);
    WordIsTaken(charset, letter, body, rest);
    WordIsShown(word + rest, LowerChar(letter), body, |word|);
    AfterWord(word, rest);
  }

  lemma BWordIsShown(charset: string, letter: char, octets: seq<Byte>, rest: string)
    requires BWord(charset, letter, octets).Legal()
    ensures DecodeWords(BWord(charset, letter, octets).Sent() + rest) == Utf8.Decode(octets) + DecodeWords(rest)
  {
    Base64.EncodedHasNone(octets, '?');
    Base64.DecodeInvertsEncode(octets);
    WordAndRest(charset, letter, Base64.Encode(octets), rest);
  }

  function Tokens(letters: seq<Letter>): seq<QuotedPrintable.Token> {
    if letters == [] then []
    else
      [match letters[0]
       case Plain(c) => QuotedPrintable.Literal(c)
       case Underscore => QuotedPrintable.Literal(' ')
       case Escaped(hi, lo) => QuotedPrintable.Escaped(hi, lo)]
      + Tokens(letters[1..])
  }

  lemma SpacesOfTwo(a: string, b: string)
    ensures SpacesForUnderscores(a + b) == SpacesForUnderscores(a) + SpacesForUnderscores(b)
  {
  }

  lemma LetterIsAToken(l: Letter)
    requires l.Legal()
    ensures var t := Tokens([l])[0];
      && QuotedPrintable.Acceptable(t) && QuotedPrintable.Meaning(t) == [l.Octet()]
      && SpacesForUnderscores(l.Sent()) == QuotedPrintable.Text(t) && '?' !in l.Sent()
  {
  }

  lemma {:induction false} LettersAreTokens(letters: seq<Letter>)
    requires AllLetters(letters)
    ensures QuotedPrintable.AllAcceptable(Tokens(letters))
    ensures SpacesForUnderscores(SentLetters(letters)) == QuotedPrintable.Render(Tokens(letters))
    ensures QuotedPrintable.Denotation(Tokens(letters)) == Octets(letters)
    ensures '?' !in SentLetters(letters)
  {
    if letters != [] {
      var l, others := letters[0], letters[1..];
      LettersAreTokens(others);
      LetterIsAToken(l);
      SpacesOfTwo(l.Sent(), SentLetters(others));
      var ts := Tokens(letters);
      assert ts[0] == Tokens([l])[0] && ts[1..] == Tokens(others);
      assert Octets(letters) == [l.Octet()] + Octets(others);
    }
  }

  lemma QWordIsShown(charset: string, letter: char, letters: seq<Letter>, rest: string)
    requires QWord(charset, letter, letters).Legal()
    ensures DecodeWords(QWord(charset, letter, letters).Sent() + rest) == Utf8.Decode(Octets(letters)) + DecodeWords(rest)
  {
    var body := SentLetters(letters);
    LettersAreTokens(letters);
    WordAndRest(charset, letter, body, rest);
    QuotedPrintable.DecodeInvertsEveryEncoding(Tokens(letters));
  }

  // ---- plain text

  lemma CharIsShown(s: string)
    requires s != "" && (|s| >= 2 ==> s[0] != '=' || s[1] != '?')
    ensures DecodeWords(s) == [s[0]] + DecodeWords(s[1..])
  {
  }

  lemma InTwo(c: char, text: string, rest: string)
    ensures [c] + (text + rest) == [c] + text + rest
  {
  }

  /** Plain text stays, before the end or a word. */
  lemma {:induction false} PlainTextIsShown(text: string, rest: string)
    requires !Occurs("=?", text) && (rest == "" || rest[0] == '=')
    ensures DecodeWords(text + rest) == text + DecodeWords(rest)
  {
    if text == "" {
      assert "" + rest == rest && "" + DecodeWords(rest) == DecodeWords(rest);
    } else {
      var s := text + rest;
      NoWordInside(text);
      assert s[0] == text[0] && s[1..] == text[1..] + rest;
      assert |s| >= 2 ==> s[1] == if |text| > 1 then text[1] else rest[0];
      CharIsShown(s);
      PlainTextIsShown(text[1..], rest);
      InTwo(text[0], text[1..], DecodeWords(rest));
      assert text == [text[0]] + text[1..];
    }
  }

  lemma NoWordInside(text: string)
    requires text != "" && !Occurs("=?", text)
    ensures !Occurs("=?", text[1..])
    ensures |text| >= 2 ==> text[0] != '=' || text[1] != '?'
  {
    assert !OccursAt("=?", text, 0);
    if |text| >= 2 {
      assert text[0..2] == [text[0], text[1]];
    }
    forall i | 0 <= i <= |text[1..]|
      ensures !OccursAt("=?", text[1..], i)
    {
      assert !OccursAt("=?", text, i + 1);
      if i + 2 <= |text[1..]| {
        assert text[1..][i..i + 2] == text[i + 1..i + 3];
      }
    }
  }

  lemma PieceIsShown(p: Piece, rest: string)
    requires p.Legal() && (p.Unencoded? ==> rest == "" || rest[0] == '=')
    ensures DecodeWords(p.Sent() + rest) == p.Shown() + DecodeWords(rest)
  {
    match p
    case Unencoded(text) => PlainTextIsShown(text, rest);
    case BWord(charset, letter, octets) => BWordIsShown(charset, letter, octets, rest);
    case QWord(charset, letter, letters) => QWordIsShown(charset, letter, letters, rest);
  }

  /** A header value of plain text and encoded words is shown piece by piece. */
  lemma {:induction false} PiecesAreShown(pieces: seq<Piece>)
    requires AllLegal(pieces) && Alternates(pieces)
    ensures DecodeWords(Sent(pieces)) == Shown(pieces)
  {
    if pieces != [] {
      var rest := Sent(pieces[1..]);
      PiecesAreShown(pieces[1..]);
      if |pieces| > 1 && pieces[0].Unencoded? {
        assert !pieces[1].Unencoded?;
        assert rest[0] == pieces[1].Sent()[0];
      }
      PieceIsShown(pieces[0], rest);
    }
  }
}
