/**
 Versioned ciphertext envelopes and the associated data that binds them to a record.

 The cipher is a parameter: a pair of functions that satisfies the two laws of `IsAead`.
 */
module Envelope {
  import opened Outcomes
  import Utf8

  // ---- associated data

  datatype AssociatedData = AssociatedData(purpose: seq<Byte>, accountId: seq<Byte>, objectId: seq<Byte>)

  const AAD_PREFIX := Utf8.AsciiBytes("galmail/aad/v1")

  /** The low `count` bytes of n, most significant first. */
  function BigEndian(n: nat, count: nat): (r: seq<Byte>)
    ensures |r| == count
  {
    if count == 0 then [] else BigEndian(n / 256, count - 1) + [n % 256]
  }

  /** `(value.len() as u64).to_be_bytes()` and the value. */
  function Field(value: seq<Byte>): seq<Byte> {
    BigEndian(|value|, 8) + value
  }

  function Encode(a: AssociatedData): seq<Byte> {
    AAD_PREFIX + Field(a.purpose) + Field(a.accountId) + Field(a.objectId)
  }

  /** A growing byte buffer, Rust's `Vec<u8>`. */
  class Buffer {
    var bytes: seq<Byte>

    constructor ()
      ensures bytes == []
    {
      bytes := [];
    }

    method Extend(more: seq<Byte>)
      modifies this
      ensures bytes == old(bytes) + more
    {
      bytes := bytes + more;
    }
  }

  method AppendField(output: Buffer, value: seq<Byte>)
    modifies output
    ensures output.bytes == old(output.bytes) + Field(value)
  {
    output.Extend(BigEndian(|value|, 8));
    output.Extend(value);
  }

  method EncodeAssociatedData(a: AssociatedData) returns (encoded: Buffer)
    ensures fresh(encoded) && encoded.bytes == Encode(a)
  {
    encoded := new Buffer();
    encoded.Extend(AAD_PREFIX);
    AppendField(encoded, a.purpose);
    AppendField(encoded, a.accountId);
    AppendField(encoded, a.objectId);
  }

  function Pow256(n: nat): nat {
    if n == 0 then 1 else 256 * Pow256(n - 1)
  }

  lemma {:induction false} BigEndianIsInjective(m: nat, n: nat, count: nat)
    requires m < Pow256(count) && n < Pow256(count) && BigEndian(m, count) == BigEndian(n, count)
    ensures m == n
  {
    if count > 0 {
      var a, b := BigEndian(m, count), BigEndian(n, count);
      assert a[..count - 1] == BigEndian(m / 256, count - 1) && b[..count - 1] == BigEndian(n / 256, count - 1);
      assert a[count - 1] == m % 256 && b[count - 1] == n % 256;
      BigEndianIsInjective(m / 256, n / 256, count - 1);
    }
  }

  /** A value of at most 2^64 - 1 bytes, as every string of the program is. */
  predicate Fits(value: seq<Byte>) {
    |value| < Pow256(8)
  }

  /** A field ends where its length says, whatever follows. */
  lemma FieldIsSelfDelimiting(a: seq<Byte>, r: seq<Byte>, b: seq<Byte>, s: seq<Byte>)
    requires Fits(a) && Fits(b) && Field(a) + r == Field(b) + s
    ensures a == b && r == s
  {
    var left, right := Field(a) + r, Field(b) + s;
    assert left[..8] == BigEndian(|a|, 8) && right[..8] == BigEndian(|b|, 8);
    BigEndianIsInjective(|a|, |b|, 8);
    var end := 8 + |a|;
    assert left[8..end] == a && right[8..end] == b;
    assert left[end..] == r && right[end..] == s;
  }

  predicate AllFit(a: AssociatedData) {
    Fits(a.purpose) && Fits(a.accountId) && Fits(a.objectId)
  }

  lemma Associates(p: seq<Byte>, f: seq<Byte>, g: seq<Byte>, h: seq<Byte>)
    ensures p + f + g + h == p + (f + (g + h))
  {
  }

  lemma SamePrefix(p: seq<Byte>, x: seq<Byte>, y: seq<Byte>)
    requires p + x == p + y
    ensures x == y
  {
    assert (p + x)[|p|..] == x && (p + y)[|p|..] == y;
  }

  lemma TwoFieldsAreInjective(x: seq<Byte>, y: seq<Byte>, u: seq<Byte>, v: seq<Byte>)
    requires Fits(x) && Fits(y) && Fits(u) && Fits(v)
    ensures Field(x) + Field(y) == Field(u) + Field(v) ==> x == u && y == v
  {
    if Field(x) + Field(y) == Field(u) + Field(v) {
      FieldIsSelfDelimiting(x, Field(y), u, Field(v));
      assert Field(y) + [] == Field(y) && Field(v) + [] == Field(v);
      FieldIsSelfDelimiting(y, [], v, []);
    }
  }

  /** No two distinct triples of fields have the same associated data. */
  lemma EncodeIsInjective(a: AssociatedData, b: AssociatedData)
    requires AllFit(a) && AllFit(b) && Encode(a) == Encode(b)
    ensures a == b
  {
    var p, o, u, v := Field(a.accountId), Field(a.objectId), Field(b.accountId), Field(b.objectId);
    Associates(AAD_PREFIX, Field(a.purpose), p, o);
    Associates(AAD_PREFIX, Field(b.purpose), u, v);
    SamePrefix(AAD_PREFIX, Field(a.purpose) + (p + o), Field(b.purpose) + (u + v));
    FieldIsSelfDelimiting(a.purpose, p + o, b.purpose, u + v);
    TwoFieldsAreInjective(a.accountId, a.objectId, b.accountId, b.objectId);
  }

  lemma SmallBigEndian(n: nat)
    requires n < 256
    ensures BigEndian(n, 8) == [0, 0, 0, 0, 0, 0, 0, n]
  {
    ZeroBigEndian();
    assert n / 256 == 0 && n % 256 == n;
  }

  lemma ZeroBigEndian()
    ensures BigEndian(0, 7) == [0, 0, 0, 0, 0, 0, 0]
  {
    assert BigEndian(0, 3) == [0, 0, 0];
    assert BigEndian(0, 5) == [0, 0, 0, 0, 0];
  }

  /** The associated data of short fields, byte for byte: the letters galmail/aad/v1, and each field behind
      its length in eight bytes. */
  lemma AssociatedDataLayout(a: AssociatedData)
    requires |a.purpose| < 256 && |a.accountId| < 256 && |a.objectId| < 256
    ensures Encode(a) ==
      [103, 97, 108, 109, 97, 105, 108, 47, 97, 97, 100, 47, 118, 49]
      + ([0, 0, 0, 0, 0, 0, 0, |a.purpose|] + a.purpose)
      + ([0, 0, 0, 0, 0, 0, 0, |a.accountId|] + a.accountId)
      + ([0, 0, 0, 0, 0, 0, 0, |a.objectId|] + a.objectId)
  {
    PrefixLetters();
    SmallBigEndian(|a.purpose|);
    SmallBigEndian(|a.accountId|);
    SmallBigEndian(|a.objectId|);
  }

  lemma PrefixLetters()
    ensures AAD_PREFIX == [103, 97, 108, 109, 97, 105, 108, 47, 97, 97, 100, 47, 118, 49]
  {
    var s := "galmail/aad/v1";
    assert s == ['g', 'a', 'l', 'm', 'a', 'i', 'l', '/', 'a', 'a', 'd', '/', 'v', '1'];
  }

  // ---- envelopes

  const NONCE_LEN := 24
  const HEADER_LEN := 8
  const TAG_LEN := 16
  const MAGIC := Utf8.AsciiBytes("GMAE")
  const ENVELOPE_VERSION: Byte := 1
  const XCHACHA20_POLY1305: Byte := 1

  type SecretKey = seq<Byte>
  type Nonce = n: seq<Byte> | |n| == 24 witness seq(24, i => 0)

  /** An authenticated cipher: message and associated data under a key and a nonce. */
  datatype Aead = Aead(
    encrypt: (SecretKey, Nonce, seq<Byte>, seq<Byte>) -> seq<Byte>,
    decrypt: (SecretKey, Nonce, seq<Byte>, seq<Byte>) -> Option<seq<Byte>>)

  /** Decryption inverts encryption, and nothing opens under another key, nonce or context. */
  ghost predicate IsAead(c: Aead) {
    && (forall k, n, aad, m :: Inverts(c, k, n, aad, m))
    && (forall k, n, aad, m, l, o, other :: Binds(c, k, n, aad, m, l, o, other))
  }

  predicate Inverts(c: Aead, k: SecretKey, n: Nonce, aad: seq<Byte>, m: seq<Byte>) {
    c.decrypt(k, n, aad, c.encrypt(k, n, aad, m)) == Some(m) && |c.encrypt(k, n, aad, m)| >= TAG_LEN
  }

  predicate Binds(
      c: Aead, k: SecretKey, n: Nonce, aad: seq<Byte>, m: seq<Byte>, l: SecretKey, o: Nonce, other: seq<Byte>) {
    c.decrypt(l, o, other, c.encrypt(k, n, aad, m)).Some? ==> l == k && o == n && other == aad
  }

  datatype CoreError =
    | Truncated
    | InvalidEnvelope
    | UnsupportedEnvelopeVersion(version: Byte)
    | UnsupportedAlgorithm
    | AuthenticationFailed
    | RngUnavailable
    | InvalidInput
    | DatabaseError

  function Header(): seq<Byte> {
    MAGIC + [ENVELOPE_VERSION, XCHACHA20_POLY1305, NONCE_LEN, 0]
  }

  function Sealed(c: Aead, plaintext: seq<Byte>, key: SecretKey, aad: seq<Byte>, nonce: Nonce): seq<Byte> {
    Header() + nonce + c.encrypt(key, nonce, aad, plaintext)
  }

  /** `seal`; no nonce stands for a failing random number generator. */
  method Seal(c: Aead, plaintext: seq<Byte>, key: SecretKey, aad: seq<Byte>, nonce: Option<Nonce>)
    returns (r: Result<seq<Byte>, CoreError>)
    ensures r == if nonce.Some? then Ok(Sealed(c, plaintext, key, aad, nonce.value)) else Err(RngUnavailable)
  {
    if nonce.None? {
      return Err(RngUnavailable);
    }
    var encrypted := c.encrypt(key, nonce.value, aad, plaintext);
    var envelope := new Buffer();
    envelope.Extend(MAGIC);
    envelope.Extend([ENVELOPE_VERSION]);
    envelope.Extend([XCHACHA20_POLY1305]);
    envelope.Extend([NONCE_LEN]);
    envelope.Extend([0]);
    assert envelope.bytes == Header();
    envelope.Extend(nonce.value);
    envelope.Extend(encrypted);
    return Ok(envelope.bytes);
  }

  /** `open` */
  function Open(c: Aead, envelope: seq<Byte>, key: SecretKey, aad: seq<Byte>): Result<seq<Byte>, CoreError> {
    if |envelope| < HEADER_LEN + NONCE_LEN + TAG_LEN then Err(Truncated)
    else if envelope[..4] != MAGIC then Err(InvalidEnvelope)
    else if envelope[4] != ENVELOPE_VERSION then Err(UnsupportedEnvelopeVersion(envelope[4]))
    else if envelope[5] != XCHACHA20_POLY1305 || envelope[6] != NONCE_LEN || envelope[7] != 0 then
      Err(UnsupportedAlgorithm)
    else
      match c.decrypt(key, envelope[HEADER_LEN..HEADER_LEN + NONCE_LEN], aad, envelope[HEADER_LEN + NONCE_LEN..])
      case None => Err(AuthenticationFailed)
      case Some(plaintext) => Ok(plaintext)
  }

  lemma OpenReachesTheCipher(
      c: Aead, plaintext: seq<Byte>, key: SecretKey, aad: seq<Byte>, nonce: Nonce, other: SecretKey, context: seq<Byte>)
    requires |c.encrypt(key, nonce, aad, plaintext)| >= TAG_LEN
    ensures var decrypted := c.decrypt(other, nonce, context, c.encrypt(key, nonce, aad, plaintext));
      Open(c, Sealed(c, plaintext, key, aad, nonce), other, context)
        == if decrypted.Some? then Ok(decrypted.value) else Err(AuthenticationFailed)
  {
  }

  /** `open` inverts `seal` for every plaintext. */
  lemma OpenInvertsSeal(c: Aead, plaintext: seq<Byte>, key: SecretKey, aad: seq<Byte>, nonce: Nonce)
    requires IsAead(c)
    ensures Open(c, Sealed(c, plaintext, key, aad, nonce), key, aad) == Ok(plaintext)
  {
    assert Inverts(c, key, nonce, aad, plaintext);
    OpenReachesTheCipher(c, plaintext, key, aad, nonce, key, aad);
  }

  /** A sealed envelope opens under exactly the key and the context it was sealed with. */
  lemma OpenIsBound(
      c: Aead, plaintext: seq<Byte>, key: SecretKey, aad: seq<Byte>, nonce: Nonce, other: SecretKey, context: seq<Byte>)
    requires IsAead(c)
    ensures Open(c, Sealed(c, plaintext, key, aad, nonce), other, context)
         == if other == key && context == aad then Ok(plaintext) else Err(AuthenticationFailed)
  {
    assert Inverts(c, key, nonce, aad, plaintext);
    assert Binds(c, key, nonce, aad, plaintext, other, nonce, context);
    OpenReachesTheCipher(c, plaintext, key, aad, nonce, other, context);
  }

  /** An envelope sealed for one record opens for that record and for no other. */
  lemma EnvelopeBelongsToOneRecord(
      c: Aead, plaintext: seq<Byte>, key: SecretKey, nonce: Nonce, record: AssociatedData, other: AssociatedData)
    requires IsAead(c) && AllFit(record) && AllFit(other)
    ensures Open(c, Sealed(c, plaintext, key, Encode(record), nonce), key, Encode(other))
         == if other == record then Ok(plaintext) else Err(AuthenticationFailed)
  {
    OpenIsBound(c, plaintext, key, Encode(record), nonce, key, Encode(other));
    if Encode(record) == Encode(other) {
      EncodeIsInjective(record, other);
    }
  }

  /** The layout of a sealed envelope: the letters GMAE, version 1, algorithm 1, the length of the nonce,
      no flags, the nonce, and the ciphertext. */
  lemma SealedLayout(c: Aead, plaintext: seq<Byte>, key: SecretKey, aad: seq<Byte>, nonce: Nonce)
    ensures Sealed(c, plaintext, key, aad, nonce)
         == [71, 77, 65, 69, 1, 1, 24, 0] + nonce + c.encrypt(key, nonce, aad, plaintext)
  {
    MagicLetters();
  }

  lemma MagicLetters()
    ensures MAGIC == [71, 77, 65, 69]
  {
    assert "GMAE"[0] == 'G' && "GMAE"[1] == 'M' && "GMAE"[2] == 'A' && "GMAE"[3] == 'E';
  }

  /** A cut or altered header is refused with the matching error, whatever the cipher would say. */
  lemma AlteredHeaderIsRefused(c: Aead, envelope: seq<Byte>, key: SecretKey, aad: seq<Byte>, i: nat, b: Byte)
    requires i < 8 && |envelope| >= 48 && envelope[..8] == [71, 77, 65, 69, 1, 1, 24, 0] && b != envelope[i]
    ensures Open(c, envelope[i := b], key, aad)
         == Err(if i < 4 then InvalidEnvelope else if i == 4 then UnsupportedEnvelopeVersion(b) else UnsupportedAlgorithm)
  {
    MagicLetters();
    var altered := envelope[i := b];
    if i < 4 {
      assert altered[..4][i] == b && envelope[..8][i] == envelope[i];
    } else {
      assert altered[..4] == envelope[..8][..4];
      assert forall j :: 4 <= j < 8 ==> envelope[j] == envelope[..8][j];
    }
  }

  lemma ShortEnvelopeIsRefused(c: Aead, envelope: seq<Byte>, key: SecretKey, aad: seq<Byte>)
    ensures Open(c, envelope, key, aad) == Err(Truncated) <==> |envelope| < 48
  {
  }

  // ---- the two laws have a model

  function Ones(n: nat): (r: seq<Byte>)
    ensures |r| == n && forall i :: 0 <= i < n ==> r[i] == 1
  {
    seq(n, i => 1)
  }

  /** The value after its length in unary. */
  function Marked(value: seq<Byte>): seq<Byte> {
    Ones(|value|) + [0] + value
  }

  lemma MarkedIsSelfDelimiting(a: seq<Byte>, r: seq<Byte>, b: seq<Byte>, s: seq<Byte>)
    requires Marked(a) + r == Marked(b) + s
    ensures a == b && r == s
  {
    var left, right := Marked(a) + r, Marked(b) + s;
    assert left[|a|] == 0 && right[|b|] == 0;
    assert (forall i :: 0 <= i < |a| ==> left[i] == 1) && (forall i :: 0 <= i < |b| ==> right[i] == 1);
    assert |a| == |b|;
    var end := |a| + 1 + |a|;
    assert left[|a| + 1..end] == a && right[|a| + 1..end] == b;
    assert left[end..] == r && right[end..] == s;
  }

  function Lock(k: SecretKey, n: Nonce, aad: seq<Byte>): seq<Byte> {
    Ones(16) + (Marked(k) + (n + Marked(aad)))
  }

  lemma LockIsSelfDelimiting(
      k: SecretKey, n: Nonce, aad: seq<Byte>, r: seq<Byte>, l: SecretKey, o: Nonce, other: seq<Byte>, s: seq<Byte>)
    requires Lock(k, n, aad) + r == Lock(l, o, other) + s
    ensures k == l && n == o && aad == other && r == s
  {
    var left, right := Lock(k, n, aad) + r, Lock(l, o, other) + s;
    var a, b := Marked(aad) + r, Marked(other) + s;
    assert left[16..] == Marked(k) + (n + a) && right[16..] == Marked(l) + (o + b);
    MarkedIsSelfDelimiting(k, n + a, l, o + b);
    assert (n + a)[..24] == n && (o + b)[..24] == o;
    assert (n + a)[24..] == a && (o + b)[24..] == b;
    MarkedIsSelfDelimiting(aad, r, other, s);
  }

  /** A cipher without secrecy that satisfies both laws. */
  function Transparent(): Aead {
    Aead((k: SecretKey, n: Nonce, aad: seq<Byte>, m: seq<Byte>) => Lock(k, n, aad) + m,
         (k: SecretKey, n: Nonce, aad: seq<Byte>, e: seq<Byte>) =>
           if Lock(k, n, aad) <= e then Some(e[|Lock(k, n, aad)|..]) else None)
  }

  lemma SomeAeadExists()
    ensures IsAead(Transparent())
  {
    var c := Transparent();
    forall k, n, aad, m
      ensures Inverts(c, k, n, aad, m)
    {
      assert (Lock(k, n, aad) + m)[|Lock(k, n, aad)|..] == m;
    }
    forall k, n, aad, m, l, o, other
      ensures Binds(c, k, n, aad, m, l, o, other)
    {
      var e := Lock(k, n, aad) + m;
      if Lock(l, o, other) <= e {
        assert e == Lock(l, o, other) + e[|Lock(l, o, other)|..];
        LockIsSelfDelimiting(k, n, aad, m, l, o, other, e[|Lock(l, o, other)|..]);
      }
    }
  }
}
