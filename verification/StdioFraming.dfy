/**
 Content-Length framing of the MCP stdio protocol: an incremental parser whose output does not
 depend on how the stream is cut into chunks.

 JSON printing and parsing are the platform's: the module is generic in the message type and
 takes both as functions.
 */
module StdioFraming {
  import opened Outcomes
  import opened JsText
  import Decimal
  import Utf8

  const CRLFCRLF: seq<Byte> := [13, 10, 13, 10]

  predicate BlankLineAt(s: seq<Byte>, i: nat) {
    i + 4 <= |s| && s[i..i + 4] == CRLFCRLF
  }

  /** `rest.indexOf("\r\n\r\n")` */
  function FindBlankLine(s: seq<Byte>): (r: Option<nat>)
    ensures r.Some? ==> BlankLineAt(s, r.value) && forall i :: 0 <= i < r.value ==> !BlankLineAt(s, i)
    ensures r.None? ==> forall i :: 0 <= i < |s| ==> !BlankLineAt(s, i)
  {
    FindBlankLineFrom(s, 0)
  }

  function FindBlankLineFrom(s: seq<Byte>, from: nat): (r: Option<nat>)
    requires from <= |s|
    ensures r.Some? ==> from <= r.value && BlankLineAt(s, r.value)
    ensures r.Some? ==> forall i :: from <= i < r.value ==> !BlankLineAt(s, i)
    ensures r.None? ==> forall i :: from <= i < |s| ==> !BlankLineAt(s, i)
    decreases |s| - from
  {
    if from == |s| then None
    else if BlankLineAt(s, from) then Some(from)
    else FindBlankLineFrom(s, from + 1)
  }

  // ---- the frame length

  function DigitPrefix(s: string): (r: string)
    ensures forall i :: 0 <= i < |r| ==> '0' <= r[i] <= '9'
  {
    if s != "" && '0' <= s[0] <= '9' then [s[0]] + DigitPrefix(s[1..]) else ""
  }

  function Codes(s: string): seq<int> {
    seq(|s|, i requires 0 <= i < |s| => s[i] as int)
  }

  const FIELD := "content-length:"

  /** The number after the field name at the start of s; white space may precede the digits. */
  function LengthHere(s: string): Option<nat> {
    if |s| < |FIELD| || Lower(s[..|FIELD|]) != FIELD then None
    else
      var digits := DigitPrefix(TrimStart(s[|FIELD|..]));
      if digits == "" then None else Some(Decimal.Value(Codes(digits)))
  }

  /** `/Content-Length:\s*(\d+)/i.exec(header)` and `parseInt`: the leftmost match. */
  function DeclaredLength(header: string): Option<nat> {
    if LengthHere(header).Some? then LengthHere(header)
    else if header == "" then None
    else DeclaredLength(header[1..])
  }

  function FrameLength(header: seq<Byte>): Option<nat> {
    DeclaredLength(Utf8.DecodeLossy(header))
  }

  // ---- consuming a buffer

  /** How the protocol reads the length in a header, and a message in a body. */
  datatype Codec<!M> = Codec(frameLength: seq<Byte> -> Option<nat>, parse: seq<Byte> -> Option<M>)

  /** The codec of the protocol, for a given JSON parser. */
  function StdioCodec<M>(parse: seq<Byte> -> Option<M>): Codec<M> {
    Codec((header: seq<Byte>) => FrameLength(header), parse)
  }

  /** The messages of the complete frames, and the bytes that wait for more input. */
  datatype Consumed<M> = Consumed(messages: seq<M>, rest: seq<Byte>)

  function Delivered<M>(message: Option<M>): seq<M> {
    match message case None => [] case Some(m) => [m]
  }

  function Then<M>(first: seq<M>, later: Consumed<M>): Consumed<M> {
    Consumed(first + later.messages, later.rest)
  }

  /** What the start of a buffer is: incomplete, or a frame that ends at `end`. */
  datatype Progress<M> = Waits | Advances(delivered: seq<M>, end: nat)

  /** One turn of the loop; a frame without a length is skipped, an unparsable body dropped. */
  function Advance<M>(codec: Codec<M>, buffer: seq<Byte>): (p: Progress<M>)
    ensures p.Advances? ==> 4 <= p.end <= |buffer|
  {
    match FindBlankLine(buffer)
    case None => Waits
    case Some(headerEnd) =>
      var bodyStart := headerEnd + 4;
      match codec.frameLength(buffer[..headerEnd])
      case None => Advances([], bodyStart)
      case Some(length) =>
        if |buffer| < bodyStart + length then Waits
        else Advances(Delivered(codec.parse(buffer[bodyStart..bodyStart + length])), bodyStart + length)
  }

  /** `consumeStdioBuffer(buffer)` */
  function Consume<M>(codec: Codec<M>, buffer: seq<Byte>): Consumed<M>
    decreases |buffer|
  {
    match Advance(codec, buffer)
    case Waits => Consumed([], buffer)
    case Advances(delivered, end) => Then(delivered, Consume(codec, buffer[end..]))
  }

  /** The loop of `consumeStdioBuffer`: `rest` loses at least four bytes a turn. */
  method ConsumeBuffer<M>(codec: Codec<M>, buffer: seq<Byte>)
    returns (messages: seq<M>, rest: seq<Byte>)
    ensures Consumed(messages, rest) == Consume(codec, buffer)
  {
    messages, rest := [], buffer;
    ThenNothing(Consume(codec, buffer));
    while true
      invariant Then(messages, Consume(codec, rest)) == Consume(codec, buffer)
      decreases |rest|
    {
      ghost var progress := Advance(codec, rest);
      var headerEnd := FindBlankLine(rest);
      if headerEnd.None? {
        break;
      }
      var bodyStart := headerEnd.value + 4;
      var length := codec.frameLength(rest[..headerEnd.value]);
      if length.None? {
        ThenThen(messages, [], Consume(codec, rest[bodyStart..]));
        rest := rest[bodyStart..];
        continue;
      }
      var bodyEnd := bodyStart + length.value;
      if |rest| < bodyEnd {
        break;
      }
      var delivered := Delivered(codec.parse(rest[bodyStart..bodyEnd]));
      assert progress == Advances(delivered, bodyEnd);
      ThenThen(messages, delivered, Consume(codec, rest[bodyEnd..]));
      messages := messages + delivered;
      rest := rest[bodyEnd..];
    }
    assert messages + [] == messages;
  }

  lemma ThenNothing<M>(later: Consumed<M>)
    ensures Then([], later) == later
  {
  }

  lemma ThenThen<M>(first: seq<M>, second: seq<M>, later: Consumed<M>)
    ensures Then(first, Then(second, later)) == Then(first + second, later)
    ensures first + [] == first
  {
  }

  // ---- chunk independence

  lemma FirstBlankLine(s: seq<Byte>, from: nat, h: nat)
    requires from <= h && BlankLineAt(s, h)
    requires forall i :: from <= i < h ==> !BlankLineAt(s, i)
    ensures FindBlankLineFrom(s, from) == Some(h)
  {
  }

  /** A blank line inside the known part of a stream stays the first one when more arrives. */
  lemma BlankLineIsStable(a: seq<Byte>, b: seq<Byte>)
    requires FindBlankLine(a).Some?
    ensures FindBlankLine(a + b) == FindBlankLine(a)
  {
    var h := FindBlankLine(a).value;
    var s := a + b;
    assert s[h..h + 4] == a[h..h + 4];
    forall i | 0 <= i < h
      ensures !BlankLineAt(s, i)
    {
      assert !BlankLineAt(a, i);
      assert s[i..i + 4] == a[i..i + 4];
    }
    FirstBlankLine(s, 0, h);
  }

  lemma SliceOfPrefix<T>(a: seq<T>, b: seq<T>, i: nat, j: nat)
    requires i <= j <= |a|
    ensures (a + b)[i..j] == a[i..j] && (a + b)[j..] == a[j..] + b
  {
  }

  /** A frame that is complete stays the same frame when more arrives. */
  lemma AdvanceIsStable<M>(codec: Codec<M>, a: seq<Byte>, b: seq<Byte>)
    requires Advance(codec, a).Advances?
    ensures Advance(codec, a + b) == Advance(codec, a)
  {
    BlankLineIsStable(a, b);
    var h := FindBlankLine(a).value;
    SliceOfPrefix(a, b, 0, h);
    if codec.frameLength(a[..h]).Some? {
      SliceOfPrefix(a, b, h + 4, h + 4 + codec.frameLength(a[..h]).value);
    }
  }

  /**
   Consuming `a` and later what is left of it together with `b` gives the messages and the rest of
   consuming `a + b`, for all byte strings, malformed frames included.
   */
  lemma {:induction false} ConsumeInTwoSteps<M>(codec: Codec<M>, a: seq<Byte>, b: seq<Byte>)
    ensures Consume(codec, a + b)
         == Then(Consume(codec, a).messages, Consume(codec, Consume(codec, a).rest + b))
    decreases |a|
  {
    match Advance(codec, a) {
      case Waits => ThenNothing(Consume(codec, a + b));
      case Advances(delivered, end) =>
        var tail := a[end..];
        AdvanceIsStable(codec, a, b);
        SliceOfPrefix(a, b, 0, end);
        assert Consume(codec, a + b) == Then(delivered, Consume(codec, tail + b));
        ConsumeInTwoSteps(codec, tail, b);
        ThenThen(delivered, Consume(codec, tail).messages, Consume(codec, Consume(codec, tail).rest + b));
    }
  }

  // ---- the read loop

  function Flatten(chunks: seq<seq<Byte>>): seq<Byte> {
    if chunks == [] then [] else chunks[0] + Flatten(chunks[1..])
  }

  lemma FlattenStep(chunks: seq<seq<Byte>>, i: nat, stream: seq<Byte>)
    requires i < |chunks|
    ensures stream + Flatten(chunks[i..]) == stream + chunks[i] + Flatten(chunks[i + 1..])
  {
  }

  /** What the server hands to the request handler. */
  function Handled<M>(messages: seq<M>, initialized: M -> bool): seq<M> {
    if messages == [] then []
    else (if initialized(messages[0]) then [] else [messages[0]]) + Handled(messages[1..], initialized)
  }

  lemma {:induction false} HandledConcat<M>(a: seq<M>, b: seq<M>, initialized: M -> bool)
    ensures Handled(a + b, initialized) == Handled(a, initialized) + Handled(b, initialized)
  {
    if a == [] {
      assert a + b == b;
    } else {
      HandledConcat(a[1..], b, initialized);
      assert (a + b)[1..] == a[1..] + b && (a + b)[0] == a[0];
      var first := if initialized(a[0]) then [] else [a[0]];
      var second, third := Handled(a[1..], initialized), Handled(b, initialized);
      assert first + (second + third) == first + second + third;
    }
  }

  /** The state of `runStdioServer`. */
  class StdioServer<M> {
    const codec: Codec<M>
    const initialized: M -> bool
    var buffer: seq<Byte>
    var handled: seq<M>
    /** Everything read so far. */
    ghost var stream: seq<Byte>

    ghost predicate Valid()
      reads this
    {
      && handled == Handled(Consume(codec, stream).messages, initialized)
      && buffer == Consume(codec, stream).rest
    }

    constructor (codec: Codec<M>, initialized: M -> bool)
      ensures Valid() && stream == [] && handled == [] && buffer == []
      ensures this.codec == codec && this.initialized == initialized
    {
      this.codec, this.initialized := codec, initialized;
      buffer, handled, stream := [], [], [];
    }

    /** The loop over the messages of one chunk. */
    method Handle(messages: seq<M>)
      modifies this`handled
      ensures handled == old(handled) + Handled(messages, initialized)
    {
      for i := 0 to |messages|
        invariant handled + Handled(messages[i..], initialized) == old(handled) + Handled(messages, initialized)
      {
        assert messages[i..][1..] == messages[i + 1..];
        if !initialized(messages[i]) {
          handled := handled + [messages[i]];
        }
      }
    }

    /** One turn of the read loop: append the chunk, consume, handle the complete messages. */
    method Receive(chunk: seq<Byte>)
      requires Valid()
      modifies this
      ensures Valid() && stream == old(stream) + chunk
    {
      ConsumeInTwoSteps(codec, stream, chunk);
      HandledConcat(Consume(codec, stream).messages, Consume(codec, buffer + chunk).messages, initialized);
      stream := stream + chunk;
      buffer := buffer + chunk;
      var messages, rest := ConsumeBuffer(codec, buffer);
      buffer := rest;
      Handle(messages);
    }

    /** The whole read loop: any cut of a stream into chunks handles the same messages. */
    method Run(chunks: seq<seq<Byte>>)
      requires Valid()
      modifies this
      ensures Valid() && stream == old(stream) + Flatten(chunks)
      ensures handled == Handled(Consume(codec, old(stream) + Flatten(chunks)).messages, initialized)
      ensures buffer == Consume(codec, old(stream) + Flatten(chunks)).rest
    {
      for i := 0 to |chunks|
        invariant Valid() && stream + Flatten(chunks[i..]) == old(stream) + Flatten(chunks)
      {
        FlattenStep(chunks, i, stream);
        Receive(chunks[i]);
      }
    }
  }

  // ---- round trip

  function Header(length: nat): seq<Byte> {
    Utf8.AsciiBytes("Content-Length: ") + Decimal.Print(length)
  }

  /** `encodeStdioMessage(message)` for a body already printed as JSON. */
  function Frame(body: seq<Byte>): seq<Byte> {
    Header(|body|) + CRLFCRLF + body
  }

  function Frames<M>(encode: M -> seq<Byte>, messages: seq<M>): seq<Byte> {
    if messages == [] then [] else Frame(encode(messages[0])) + Frames(encode, messages[1..])
  }

  lemma {:induction false} AsciiDecodes(s: string)
    requires forall c <- s :: c as int < 128
    ensures Utf8.DecodeLossy(Utf8.AsciiBytes(s)) == s
  {
    if s != "" {
      assert forall c <- s[1..] :: c in s;
      AsciiDecodes(s[1..]);
      assert s[0] in s;
      assert Utf8.AsciiBytes(s) == Utf8.EncodeChar(s[0]) + Utf8.AsciiBytes(s[1..]);
      Utf8.DecodeEncodedChar(s[0], Utf8.AsciiBytes(s[1..]));
    }
  }

  lemma {:induction false} AllDigitsAreTaken(s: string)
    requires forall c <- s :: '0' <= c <= '9'
    ensures DigitPrefix(s) == s
  {
    if s != "" {
      assert s[0] in s && forall c <- s[1..] :: c in s;
      AllDigitsAreTaken(s[1..]);
    }
  }

  lemma FieldNameIsFound()
    ensures Lower("Content-Length:") == FIELD
  {
  }

  lemma SpaceIsTrimmed(text: string)
    requires text != "" && '0' <= text[0] <= '9'
    ensures TrimStart(" " + text) == text
  {
  }

  lemma LengthAfterField(digits: seq<Byte>)
    requires digits != [] && Decimal.AllDigits(digits)
    ensures LengthHere("Content-Length: " + Decimal.DigitChars(digits)) == Some(Decimal.Value(digits))
  {
    var text := Decimal.DigitChars(digits);
    var header := "Content-Length: " + text;
    assert header[..|FIELD|] == "Content-Length:";
    FieldNameIsFound();
    assert header[|FIELD|..] == " " + text;
    SpaceIsTrimmed(text);
    AllDigitsAreTaken(text);
    assert Codes(text) == digits;
  }

  lemma HeaderText(digits: seq<Byte>)
    requires Decimal.AllDigits(digits)
    ensures Utf8.DecodeLossy(Utf8.AsciiBytes("Content-Length: ") + digits) == "Content-Length: " + Decimal.DigitChars(digits)
  {
    var header := "Content-Length: " + Decimal.DigitChars(digits);
    assert Utf8.AsciiBytes("Content-Length: ") + digits == Utf8.AsciiBytes(header);
    AsciiDecodes(header);
  }

  /** The header of a frame declares exactly the length it was printed for. */
  lemma HeaderDeclaresLength(n: nat)
    ensures FrameLength(Header(n)) == Some(n)
  {
    Decimal.PrintIsCanonical(n);
    HeaderText(Decimal.Print(n));
    LengthAfterField(Decimal.Print(n));
  }

  /** No blank line starts inside the header, so the header ends where it was made to end. */
  lemma HeaderEndIsFound(n: nat, rest: seq<Byte>)
    ensures FindBlankLine(Header(n) + CRLFCRLF + rest) == Some(|Header(n)|)
  {
    var s, h := Header(n) + CRLFCRLF + rest, |Header(n)|;
    Decimal.PrintIsCanonical(n);
    assert s[h..h + 4] == CRLFCRLF;
    assert BlankLineAt(s, h);
    forall i | 0 <= i < h
      ensures !BlankLineAt(s, i)
    {
      assert s[i] == Header(n)[i] != 13;
      if i + 4 <= |s| {
        assert s[i..i + 4][0] == s[i];
      }
    }
  }

  lemma ConsumeFrame<M>(parse: seq<Byte> -> Option<M>, body: seq<Byte>, rest: seq<Byte>)
    ensures var later := Consume(StdioCodec(parse), rest);
            Consume(StdioCodec(parse), Frame(body) + rest) == Consumed(Delivered(parse(body)) + later.messages, later.rest)
  {
    var n := |body|;
    var s := Frame(body) + rest;
    HeaderDeclaresLength(n);
    HeaderEndIsFound(n, body + rest);
    assert s == Header(n) + CRLFCRLF + (body + rest);
    var start := |Header(n)| + 4;
    assert s[..|Header(n)|] == Header(n);
    assert s[start..start + n] == body;
    assert s[start + n..] == rest;
    assert Advance(StdioCodec(parse), s) == Advances(Delivered(parse(body)), start + n);
  }

  /** JSON parsing inverts JSON printing. */
  ghost predicate Inverts<M(!new)>(parse: seq<Byte> -> Option<M>, encode: M -> seq<Byte>) {
    forall m :: parse(encode(m)) == Some(m)
  }

  /** Consuming the frames of any list of messages yields exactly that list and no rest. */
  lemma {:induction false} ConsumeInvertsFrames<M(!new)>(
      parse: seq<Byte> -> Option<M>, encode: M -> seq<Byte>, messages: seq<M>)
    requires Inverts(parse, encode)
    ensures Consume(StdioCodec(parse), Frames(encode, messages)) == Consumed(messages, [])
  {
    if messages != [] {
      ConsumeFrame(parse, encode(messages[0]), Frames(encode, messages[1..]));
      ConsumeInvertsFrames(parse, encode, messages[1..]);
    }
  }

  /** A stream of frames cut short anywhere has delivered a prefix of its messages, and the
      remaining bytes deliver exactly the others. */
  lemma TruncatedStreamDeliversPrefix<M(!new)>(
      parse: seq<Byte> -> Option<M>, encode: M -> seq<Byte>, messages: seq<M>, cut: nat)
    requires Inverts(parse, encode) && cut <= |Frames(encode, messages)|
    ensures var stream := Frames(encode, messages);
      var early := Consume(StdioCodec(parse), stream[..cut]);
      && early.messages <= messages
      && Consume(StdioCodec(parse), early.rest + stream[cut..]) == Consumed(messages[|early.messages|..], [])
  {
    var codec, stream := StdioCodec(parse), Frames(encode, messages);
    var a, b := stream[..cut], stream[cut..];
    ConsumeInvertsFrames(parse, encode, messages);
    assert a + b == stream;
    ConsumeInTwoSteps(codec, a, b);
    PartsOfWhole(messages, Consume(codec, a).messages, Consume(codec, Consume(codec, a).rest + b).messages);
  }

  lemma PartsOfWhole<M>(all: seq<M>, early: seq<M>, late: seq<M>)
    requires all == early + late
    ensures early <= all && late == all[|early|..]
  {
  }

  // ---- other headers

  lemma DeclaredLengthStep(header: string)
    ensures LengthHere(header).Some? ==> DeclaredLength(header) == LengthHere(header)
    ensures LengthHere(header).None? && header != "" ==> DeclaredLength(header) == DeclaredLength(header[1..])
    ensures LengthHere(header).None? && header == "" ==> DeclaredLength(header).None?
  {
  }

  /** Whether a length stands at position j. */
  predicate StandsAt(header: string, j: nat) {
    j <= |header| && LengthHere(header[j..]).Some?
  }

  lemma StandsAtLater(header: string, j: nat)
    requires header != ""
    ensures StandsAt(header[1..], j) <==> StandsAt(header, j + 1)
  {
    if j <= |header[1..]| {
      assert header[1..][j..] == header[j + 1..];
    }
  }

  /** The declared length is the leftmost that stands in the header, wherever that is. */
  lemma {:induction false} DeclaredLengthIsLeftmost(header: string, i: nat)
    requires StandsAt(header, i) && forall j :: 0 <= j < i ==> !StandsAt(header, j)
    ensures DeclaredLength(header) == LengthHere(header[i..])
  {
    assert header[0..] == header;
    DeclaredLengthStep(header);
    if i > 0 {
      assert !StandsAt(header, 0);
      assert header != "" && header[1..][i - 1..] == header[i..];
      forall j | 0 <= j < i
        ensures StandsAt(header[1..], j) <==> StandsAt(header, j + 1)
      {
        StandsAtLater(header, j);
      }
      DeclaredLengthIsLeftmost(header[1..], i - 1);
    }
  }

  /** A header declares no length when none stands in it. */
  lemma {:induction false} NoLengthIsDeclared(header: string)
    requires forall j :: 0 <= j <= |header| ==> !StandsAt(header, j)
    ensures DeclaredLength(header).None?
  {
    assert header[0..] == header && !StandsAt(header, 0);
    DeclaredLengthStep(header);
    if header != "" {
      forall j | 0 <= j <= |header| - 1
        ensures !StandsAt(header[1..], j)
      {
        StandsAtLater(header, j);
      }
      NoLengthIsDeclared(header[1..]);
    }
  }

  lemma {:induction false} DigitsEnd(digits: string, rest: string)
    requires (forall i :: 0 <= i < |digits| ==> '0' <= digits[i] <= '9') && (rest == "" || !('0' <= rest[0] <= '9'))
    ensures DigitPrefix(digits + rest) == digits
  {
    if digits == "" {
      assert digits + rest == rest;
    } else {
      assert (digits + rest)[0] == digits[0] && (digits + rest)[1..] == digits[1..] + rest;
      DigitsEnd(digits[1..], rest);
    }
  }

  lemma {:induction false} SpacesAreTrimmed(spaces: string, s: string)
    requires (forall i :: 0 <= i < |spaces| ==> IsSpace(spaces[i])) && s != "" && !IsSpace(s[0])
    ensures TrimStart(spaces + s) == s
  {
    if spaces == "" {
      assert spaces + s == s;
    } else {
      assert (spaces + s)[0] == spaces[0] && (spaces + s)[1..] == spaces[1..] + s;
      SpacesAreTrimmed(spaces[1..], s);
    }
  }

  /** In any case, after any white space, up to the first character that is no digit. */
  lemma LengthInOtherText(name: string, spaces: string, digits: seq<Byte>, rest: string)
    requires Lower(name) == FIELD && (forall i :: 0 <= i < |spaces| ==> IsSpace(spaces[i]))
    requires digits != [] && Decimal.AllDigits(digits) && (rest == "" || !('0' <= rest[0] <= '9'))
    ensures LengthHere(name + (spaces + (Decimal.DigitChars(digits) + rest))) == Some(Decimal.Value(digits))
  {
    var text := Decimal.DigitChars(digits);
    var tail := text + rest;
    var s := name + (spaces + tail);
    assert |name| == |FIELD| by { assert |Lower(name)| == |name|; }
    assert s[..|FIELD|] == name && s[|FIELD|..] == spaces + tail;
    assert tail[0] == text[0];
    SpacesAreTrimmed(spaces, tail);
    DigitsEnd(text, rest);
    assert Codes(text) == digits;
  }

  /** A frame without a length is skipped: consuming goes on behind its blank line. */
  lemma HeaderWithoutLengthIsSkipped<M>(codec: Codec<M>, header: seq<Byte>, rest: seq<Byte>)
    requires FindBlankLine(header + CRLFCRLF + rest) == Some(|header|)
    requires codec.frameLength(header).None?
    ensures Consume(codec, header + CRLFCRLF + rest) == Consume(codec, rest)
  {
    var s := header + CRLFCRLF + rest;
    assert s[..|header|] == header && s[|header| + 4..] == rest;
    ThenNothing(Consume(codec, rest));
  }

  /** Without a blank line, or with a body that is not complete, nothing is delivered or lost. */
  lemma IncompleteFrameWaits<M>(codec: Codec<M>, buffer: seq<Byte>)
    requires var h := FindBlankLine(buffer);
      h.None? || (var length := codec.frameLength(buffer[..h.value]);
                  length.Some? && |buffer| < h.value + 4 + length.value)
    ensures Consume(codec, buffer) == Consumed([], buffer)
  {
  }

  /** The handler gets every message but the notification of initialization, as often as it was sent. */
  lemma {:induction false} HandlerGetsTheOthers<M>(messages: seq<M>, initialized: M -> bool, m: M)
    ensures multiset(Handled(messages, initialized))[m] == if initialized(m) then 0 else multiset(messages)[m]
  {
    if messages != [] {
      HandlerGetsTheOthers(messages[1..], initialized, m);
      assert messages == [messages[0]] + messages[1..];
    }
  }
}
