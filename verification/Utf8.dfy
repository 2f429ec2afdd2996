/**
 UTF-8 as the platform's TextEncoder and TextDecoder implement it: every scalar value has one
 encoding, and the decoder replaces each maximal ill-formed subpart by U+FFFD.
 */
module Utf8 {
  import opened Outcomes

  const REPLACEMENT := '\U{FFFD}'
  const BYTE_ORDER_MARK := '\U{FEFF}'

  function EncodeChar(c: char): seq<Byte> {
    var n := c as int;
    if n < 0x80 then [n]
    else if n < 0x800 then [0xC0 + n / 64, 0x80 + n % 64]
    else if n < 0x10000 then [0xE0 + n / 4096, 0x80 + n / 64 % 64, 0x80 + n % 64]
    else [0xF0 + n / 262144, 0x80 + n / 4096 % 64, 0x80 + n / 64 % 64, 0x80 + n % 64]
  }

  /** `new TextEncoder().encode(s)` */
  function Encode(s: string): seq<Byte> {
    if s == "" then [] else EncodeChar(s[0]) + Encode(s[1..])
  }

  /** The bytes of an ASCII text. */
  function AsciiBytes(s: string): seq<Byte>
    requires forall c <- s :: c as int < 128
  {
    seq<Byte>(|s|, i requires 0 <= i < |s| => assert s[i] in s; s[i] as int as Byte)
  }

  /** Number of continuation bytes a lead byte asks for, or None for a byte that cannot lead. */
  function Continuations(lead: Byte): Option<nat> {
    if lead < 0x80 then Some(0)
    else if 0xC2 <= lead <= 0xDF then Some(1)
    else if 0xE0 <= lead <= 0xEF then Some(2)
    else if 0xF0 <= lead <= 0xF4 then Some(3)
    else None
  }

  /** The first continuation byte is narrower after E0, ED, F0 and F4. */
  predicate ValidSecond(lead: Byte, b: Byte) {
    && (if lead == 0xE0 then 0xA0 else if lead == 0xF0 then 0x90 else 0x80) <= b
    && b <= (if lead == 0xED then 0x9F else if lead == 0xF4 then 0x8F else 0xBF)
  }

  predicate Continues(b: Byte) {
    0x80 <= b <= 0xBF
  }

  /** How many of the bytes after the lead, at most `need`, are acceptable continuations. */
  function ValidRun(s: seq<Byte>, need: nat): (k: nat)
    requires s != []
    ensures k <= need && k < |s|
    ensures k >= 1 ==> ValidSecond(s[0], s[1])
    ensures k >= 2 ==> Continues(s[2])
    ensures k >= 3 ==> Continues(s[3])
  {
    if need == 0 || |s| < 2 || !ValidSecond(s[0], s[1]) then 0
    else if need == 1 || |s| < 3 || !Continues(s[2]) then 1
    else if need == 2 || |s| < 4 || !Continues(s[3]) then 2
    else 3
  }

  function ScalarOf(s: seq<Byte>, need: nat): char
    requires s != [] && Continuations(s[0]) == Some(need) && need < |s|
    requires need >= 1 ==> ValidSecond(s[0], s[1])
    requires need >= 2 ==> Continues(s[2])
    requires need >= 3 ==> Continues(s[3])
  {
    var lead: int := s[0];
    if need == 0 then lead as char
    else
      var second: int := s[1] - 0x80;
      if need == 1 then ((lead - 0xC0) * 64 + second) as char
      else
        var third: int := s[2] - 0x80;
        if need == 2 then ((lead - 0xE0) * 4096 + second * 64 + third) as char
        else
          var fourth: int := s[3] - 0x80;
          ((lead - 0xF0) * 262144 + second * 4096 + third * 64 + fourth) as char
  }

  /** Replacement decoding without byte order mark handling (`Buffer.toString("utf8")`). */
  function DecodeLossy(s: seq<Byte>): string {
    if s == [] then ""
    else match Continuations(s[0])
      case None => [REPLACEMENT] + DecodeLossy(s[1..])
      case Some(need) =>
        var k := ValidRun(s, need);
        if k == need then [ScalarOf(s, need)] + DecodeLossy(s[need + 1..])
        else [REPLACEMENT] + DecodeLossy(s[k + 1..])
  }

  function StripBom(s: string): string {
    if s != "" && s[0] == BYTE_ORDER_MARK then s[1..] else s
  }

  /** `new TextDecoder().decode(s)`: the default decoder drops one leading byte order mark. */
  function Decode(s: seq<Byte>): string {
    StripBom(DecodeLossy(s))
  }

  /** The bytes of a character are a complete, acceptable run, whatever follows them. */
  lemma EncodedRun(c: char, rest: seq<Byte>)
    ensures var s := EncodeChar(c) + rest;
            var need := |EncodeChar(c)| - 1;
            need >= 0 && Continuations(s[0]) == Some(need) && ValidRun(s, need) == need
  {
  }

  lemma EncodedScalar(c: char, rest: seq<Byte>)
    requires var s := EncodeChar(c) + rest;
             var need := |EncodeChar(c)| - 1;
             Continuations(s[0]) == Some(need) && ValidRun(s, need) == need
    ensures ScalarOf(EncodeChar(c) + rest, |EncodeChar(c)| - 1) == c
  {
    SixBitGroups(c as int);
    var encoded, s := EncodeChar(c), EncodeChar(c) + rest;
    assert forall i :: 0 <= i < |encoded| ==> s[i] == encoded[i];
  }

  lemma SixBitGroups(n: nat)
    ensures n / 64 * 64 + n % 64 == n
    ensures n / 4096 * 4096 + n / 64 % 64 * 64 + n % 64 == n
    ensures n / 262144 * 262144 + n / 4096 % 64 * 4096 + n / 64 % 64 * 64 + n % 64 == n
  {
    assert n / 64 / 64 == n / 4096 && n / 4096 / 64 == n / 262144;
    assert n / 64 == n / 4096 * 64 + n / 64 % 64;
    assert n / 4096 == n / 262144 * 64 + n / 4096 % 64;
  }

  lemma DecodeEncodedChar(c: char, rest: seq<Byte>)
    ensures DecodeLossy(EncodeChar(c) + rest) == [c] + DecodeLossy(rest)
  {
    EncodedRun(c, rest);
    EncodedScalar(c, rest);
    var s := EncodeChar(c) + rest;
    assert s[|EncodeChar(c)|..] == rest;
  }

  lemma {:induction false} LossyDecodeInvertsEncode(s: string)
    ensures DecodeLossy(Encode(s)) == s
  {
    if s != "" {
      DecodeEncodedChar(s[0], Encode(s[1..]));
      LossyDecodeInvertsEncode(s[1..]);
    }
  }

  /** Encoding then decoding loses a leading byte order mark and nothing else. */
  lemma DecodeInvertsEncode(s: string)
    ensures Decode(Encode(s)) == StripBom(s)
  {
    LossyDecodeInvertsEncode(s);
  }

  // ---- ill-formed input

  /** The bytes that may follow a started sequence, by table 3-7 of the Unicode Standard. */
  predicate MayFollow(started: seq<Byte>, b: Byte)
    requires started != []
  {
    if |started| > 1 then 0x80 <= b <= 0xBF
    else match started[0]
      case 0xE0 => 0xA0 <= b <= 0xBF
      case 0xED => 0x80 <= b <= 0x9F
      case 0xF0 => 0x90 <= b <= 0xBF
      case 0xF4 => 0x80 <= b <= 0x8F
      case _ => 0x80 <= b <= 0xBF
  }

  /** The length of a sequence that starts so; 0 when none does. */
  function LengthFor(lead: Byte): nat {
    if lead <= 0x7F then 1
    else if 0xC2 <= lead <= 0xDF then 2
    else if 0xE0 <= lead <= 0xEF then 3
    else if 0xF0 <= lead <= 0xF4 then 4
    else 0
  }

  /** A sequence that was started properly and is not complete. */
  predicate IsStarted(s: seq<Byte>) {
    && 0 < |s| < LengthFor(s[0])
    && forall i :: 1 <= i < |s| ==> MayFollow(s[..i], s[i])
  }

  /** The maximal subpart of an ill-formed sequence: a byte that starts nothing, or a start that is not continued. */
  predicate IsIllFormed(s: seq<Byte>, rest: seq<Byte>) {
    || (|s| == 1 && LengthFor(s[0]) == 0)
    || (IsStarted(s) && (rest == [] || !MayFollow(s, rest[0])))
  }

  lemma StartedRun(s: seq<Byte>, rest: seq<Byte>)
    requires IsStarted(s) && (rest == [] || !MayFollow(s, rest[0]))
    ensures var need := LengthFor(s[0]) - 1;
      Continuations((s + rest)[0]) == Some(need) && ValidRun(s + rest, need) == |s| - 1 < need
  {
    var whole := s + rest;
    assert whole[0] == s[0];
    assert |s| > 1 ==> MayFollow(s[..1], s[1]) && whole[1] == s[1];
    assert |s| > 2 ==> MayFollow(s[..2], s[2]) && whole[2] == s[2];
    assert rest != [] ==> whole[|s|] == rest[0];
  }

  lemma IllFormedAtOnce(bad: seq<Byte>, rest: seq<Byte>)
    requires IsIllFormed(bad, rest)
    ensures DecodeLossy(bad + rest) == ['\U{FFFD}'] + DecodeLossy(rest)
  {
    var whole := bad + rest;
    assert whole[0] == bad[0] && whole[|bad|..] == rest;
    if LengthFor(bad[0]) != 0 {
      StartedRun(bad, rest);
    }
  }

  lemma OneMoreChar(c: seq<Byte>, others: seq<Byte>, rest: seq<Byte>)
    ensures c + others + rest == c + (others + rest)
  {
  }

  lemma TextInTwo(c: char, others: string, rest: string)
    ensures [c] + (others + rest) == [c] + others + rest
  {
  }

  lemma {:induction false} DecodeTextBefore(text: string, rest: seq<Byte>)
    ensures DecodeLossy(Encode(text) + rest) == text + DecodeLossy(rest)
  {
    if text == "" {
      assert Encode(text) + rest == rest && "" + DecodeLossy(rest) == DecodeLossy(rest);
    } else {
      DecodeTextBefore(text[1..], rest);
      DecodeEncodedChar(text[0], Encode(text[1..]) + rest);
      OneMoreChar(EncodeChar(text[0]), Encode(text[1..]), rest);
      assert text == [text[0]] + text[1..];
      TextInTwo(text[0], text[1..], DecodeLossy(rest));
    }
  }

  /** Each maximal ill-formed subpart becomes one replacement character, and decoding goes on behind it. */
  lemma IllFormedIsReplaced(text: string, bad: seq<Byte>, rest: seq<Byte>)
    requires IsIllFormed(bad, rest)
    ensures DecodeLossy(Encode(text) + (bad + rest)) == text + (['\U{FFFD}'] + DecodeLossy(rest))
  {
    DecodeTextBefore(text, bad + rest);
    IllFormedAtOnce(bad, rest);
  }
}
