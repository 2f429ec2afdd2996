/** What a reader of a generated message is shown: every header, address, body and attachment of the draft. */
module MimeMessages {
  import opened Outcomes
  import opened JsText
  import opened MimeHeaders
  import opened MimeAddresses
  import opened MimeParser
  import opened MimeGenerator
  import opened MimeRoundTrip
  import Base64
  import Utf8

  // ---- the header block

  /** A field that is there only when its condition holds. */
  function With(h: HeaderMap, present: bool, key: string, value: string): HeaderMap {
    if present then h[key := value] else h
  }

  lemma {:induction false} FieldsInTwo(h: HeaderMap, a: seq<Field>, b: seq<Field>)
    ensures FieldMap(h, a + b) == FieldMap(FieldMap(h, a), b)
    decreases a
  {
    if a == [] {
      assert a + b == b;
    } else {
      assert (a + b)[0] == a[0] && (a + b)[1..] == a[1..] + b;
      FieldsInTwo(h[a[0].Key() := Trim(a[0].value)], a[1..], b);
    }
  }

  lemma OneField(h: HeaderMap, name: string, value: string)
    ensures FieldMap(h, [Field(name, value)]) == h[Lower(name) := Trim(value)]
  {
    assert [Field(name, value)][1..] == [];
  }

  lemma OptionalField(h: HeaderMap, present: bool, name: string, value: string)
    ensures FieldMap(h, Optionally(present, name, value)) == With(h, present, Lower(name), Trim(value))
  {
    OneField(h, name, value);
  }

  lemma IdentityKeys()
    ensures Lower("Date") == "date" && Lower("Message-ID") == "message-id" && Lower("From") == "from"
  {
  }

  lemma RecipientKeys()
    ensures Lower("To") == "to" && Lower("Cc") == "cc" && Lower("Bcc") == "bcc" && Lower("Subject") == "subject"
  {
  }

  lemma ThreadKeys()
    ensures Lower("In-Reply-To") == "in-reply-to" && Lower("References") == "references"
    ensures Lower("MIME-Version") == "mime-version"
  {
  }

  lemma ReceiptKey()
    ensures Lower("Disposition-Notification-To") == "disposition-notification-to"
  {
  }

  /** The address whose email is not blank, and otherwise the account itself under the alias's name. */
  function From(d: Draft): Address {
    match d.alias
    case None => Address("", "me")
    case Some(alias) => if Trim(alias.email) == "" then Address(alias.name, "me") else alias
  }

  function PrintedOf(a: Address): Printed {
    Printed(if a.name == "" then "" else EncodeHeader(a.name), RemoveNewlines(a.email))
  }

  function AllPrinted(list: seq<Address>): seq<Printed> {
    if list == [] then [] else [PrintedOf(list[0])] + AllPrinted(list[1..])
  }

  lemma EncodedNameIsNotEmpty(name: string)
    requires name != ""
    ensures EncodeHeader(name) != ""
  {
  }

  lemma AddressIsPrinted(a: Address)
    ensures FormatAddress(a) == PrintedOf(a).Text()
  {
    if a.name != "" {
      EncodedNameIsNotEmpty(a.name);
      Associates(EncodeHeader(a.name), " ", "<" + RemoveNewlines(a.email) + ">");
      assert " <" == " " + "<";
    }
  }

  lemma {:induction false} AddressesArePrinted(list: seq<Address>)
    ensures CommaSeparated(list) == CommaList(AllPrinted(list))
  {
    if list != [] {
      AddressIsPrinted(list[0]);
      AddressesArePrinted(list[1..]);
      assert AllPrinted(list)[1..] == AllPrinted(list[1..]);
    }
  }

  function IdentityHeaders(d: Draft, stamp: Stamp): HeaderMap {
    map[][
      "date" := Trim(stamp.date)][
      "message-id" := "<" + stamp.messageId + "@galmail.local>"][
      "from" := Trim(PrintedOf(From(d)).Text())]
  }

  function WithRecipients(h: HeaderMap, d: Draft): HeaderMap {
    var h := With(h, d.to != [], "to", Trim(CommaList(AllPrinted(d.to))));
    var h := With(h, d.cc != [], "cc", Trim(CommaList(AllPrinted(d.cc))));
    With(h, d.bcc != [], "bcc", Trim(CommaList(AllPrinted(d.bcc))))
  }

  function WithThread(h: HeaderMap, d: Draft): HeaderMap {
    var h := h["subject" := Trim(EncodeHeader(d.subject))];
    var h := With(h, d.inReplyTo != "", "in-reply-to", "<" + d.inReplyTo + ">");
    With(h, d.references != [], "references", AngleList(d.references))
  }

  function WithType(h: HeaderMap, d: Draft, stamp: Stamp): HeaderMap {
    var h := h["mime-version" := "1.0"];
    var h := h["content-type" := "multipart/mixed; boundary=\"galmail-mixed-" + stamp.mixedId + "\""];
    With(h, d.requestReadReceipt && Trim(From(d).email) != "",
         "disposition-notification-to", Trim(PrintedOf(From(d)).Text()))
  }

  lemma IdentityIsRead(d: Draft, stamp: Stamp)
    ensures FieldMap(map[], IdentityFields(d, stamp)) == IdentityHeaders(d, stamp)
  {
    IdentityKeys();
    AddressIsPrinted(From(d));
    var date, id := Field("Date", stamp.date), Field("Message-ID", "<" + stamp.messageId + "@galmail.local>");
    var from := Field("From", FormatAddress(From(d)));
    ThreeFields(date, id, from);
    assert Trimmed("<" + stamp.messageId + "@galmail.local>");
    TrimSpaceThen("<" + stamp.messageId + "@galmail.local>");
    assert IdentityFields(d, stamp) == [date, id, from];
  }

  lemma ThreeFields(a: Field, b: Field, c: Field)
    ensures FieldMap(map[], [a, b, c]) == map[][a.Key() := Trim(a.value)][b.Key() := Trim(b.value)][c.Key() := Trim(c.value)]
  {
    assert [a, b, c] == [a] + ([b] + [c]);
    FieldsInTwo(map[], [a], [b] + [c]);
    OneField(map[], a.name, a.value);
    var h := map[][a.Key() := Trim(a.value)];
    FieldsInTwo(h, [b], [c]);
    OneField(h, b.name, b.value);
    OneField(h[b.Key() := Trim(b.value)], c.name, c.value);
  }

  lemma RecipientsAreRead(h: HeaderMap, d: Draft)
    ensures FieldMap(h, RecipientFields(d)) == WithRecipients(h, d)
  {
    RecipientKeys();
    AddressesArePrinted(d.to);
    AddressesArePrinted(d.cc);
    AddressesArePrinted(d.bcc);
    ThreeOptionalFields(h, d.to != [], "To", CommaSeparated(d.to), d.cc != [], "Cc", CommaSeparated(d.cc),
                        d.bcc != [], "Bcc", CommaSeparated(d.bcc));
  }

  lemma ThreeOptionalFields(h: HeaderMap, p: bool, a: string, v: string, q: bool, b: string, w: string,
                            r: bool, c: string, x: string)
    ensures FieldMap(h, Optionally(p, a, v) + Optionally(q, b, w) + Optionally(r, c, x))
         == With(With(With(h, p, Lower(a), Trim(v)), q, Lower(b), Trim(w)), r, Lower(c), Trim(x))
  {
    var h1 := With(h, p, Lower(a), Trim(v));
    FieldsInTwo(h, Optionally(p, a, v) + Optionally(q, b, w), Optionally(r, c, x));
    FieldsInTwo(h, Optionally(p, a, v), Optionally(q, b, w));
    OptionalField(h, p, a, v);
    OptionalField(h1, q, b, w);
    OptionalField(With(h1, q, Lower(b), Trim(w)), r, c, x);
  }

  lemma {:induction false} AngleListIsTrimmed(ids: seq<string>)
    ensures Trimmed(AngleList(ids))
    ensures ids != [] ==> AngleList(ids) != "" && AngleList(ids)[|AngleList(ids)| - 1] == '>' && AngleList(ids)[0] == '<'
  {
    if |ids| > 1 {
      AngleListIsTrimmed(ids[1..]);
    }
  }

  lemma ThreadIsRead(h: HeaderMap, d: Draft)
    ensures FieldMap(h, [Field("Subject", EncodeHeader(d.subject))] + FieldsAfterSubject(d))
         == WithThread(h, d)["mime-version" := "1.0"]
  {
    RecipientKeys();
    ThreadKeys();
    var h1 := h["subject" := Trim(EncodeHeader(d.subject))];
    FieldsInTwo(h, [Field("Subject", EncodeHeader(d.subject))], FieldsAfterSubject(d));
    OneField(h, "Subject", EncodeHeader(d.subject));
    var reply := "<" + d.inReplyTo + ">";
    assert reply[0] == '<' && reply[|reply| - 1] == '>';
    TrimSpaceThen(reply);
    AngleListIsTrimmed(d.references);
    TrimSpaceThen(AngleList(d.references));
    VersionValue();
    ThreeOptionalFields(h1, d.inReplyTo != "", "In-Reply-To", reply, d.references != [], "References",
                        AngleList(d.references), true, "MIME-Version", "1.0");
    assert Optionally(true, "MIME-Version", "1.0") == [Field("MIME-Version", "1.0")];
  }

  lemma VersionValue()
    ensures Trim("1.0") == "1.0"
  {
    TrimSpaceThen("1.0");
  }

  lemma TypeIsRead(h: HeaderMap, d: Draft, stamp: Stamp)
    requires "mime-version" in h && h["mime-version"] == "1.0"
    ensures FieldMap(h, [Field("Content-Type", MultipartType("mixed", MixedBoundary(stamp)))] + FieldsAfterType(d))
         == WithType(h, d, stamp)
  {
    KeyNames();
    ReceiptKey();
    var t := "multipart/mixed; boundary=\"galmail-mixed-" + stamp.mixedId + "\"";
    MixedTypeText(stamp.mixedId);
    assert t[0] == 'm' && t[|t| - 1] == '"';
    TrimSpaceThen(t);
    FieldsInTwo(h, [Field("Content-Type", t)], FieldsAfterType(d));
    OneField(h, "Content-Type", t);
    AddressIsPrinted(From(d));
    OptionalField(h["content-type" := t], d.requestReadReceipt && Trim(From(d).email) != "",
                  "Disposition-Notification-To", FormatAddress(From(d)));
    assert h["mime-version" := "1.0"] == h;
  }

  lemma MixedTypeText(id: string)
    ensures "multipart/" + "mixed" + "; boundary=\"" + ("galmail-mixed-" + id) + "\""
         == "multipart/mixed; boundary=\"galmail-mixed-" + id + "\""
  {
    assert "multipart/" + "mixed" + "; boundary=\"" + "galmail-mixed-" == "multipart/mixed; boundary=\"galmail-mixed-";
    assert "multipart/" + "mixed" + "; boundary=\"" + ("galmail-mixed-" + id)
        == "multipart/" + "mixed" + "; boundary=\"" + "galmail-mixed-" + id;
  }

  /** Every header of the message, and no other. */
  function DraftHeaders(d: Draft, stamp: Stamp): HeaderMap {
    WithType(WithThread(WithRecipients(IdentityHeaders(d, stamp), d), d), d, stamp)
  }

  lemma FieldsInOrder(a: seq<Field>, r: seq<Field>, s: seq<Field>, b: seq<Field>, t: seq<Field>, c: seq<Field>)
    ensures FieldMap(map[], a + r + s + b + t + c)
         == FieldMap(FieldMap(FieldMap(FieldMap(map[], a), r), s + b), t + c)
  {
    assert a + r + s + b + t + c == a + r + (s + b) + (t + c);
    FieldsInTwo(map[], a + r + (s + b), t + c);
    FieldsInTwo(map[], a + r, s + b);
    FieldsInTwo(map[], a, r);
  }

  lemma HeadersAreRead(d: Draft, stamp: Stamp)
    ensures FieldMap(map[], HeaderFields(d, stamp)) == DraftHeaders(d, stamp)
  {
    FieldsInOrder(
      IdentityFields(d, stamp), RecipientFields(d), [Field("Subject", EncodeHeader(d.subject))], FieldsAfterSubject(d),
      [Field("Content-Type", MultipartType("mixed", MixedBoundary(stamp)))], FieldsAfterType(d));
    IdentityIsRead(d, stamp);
    RecipientsAreRead(IdentityHeaders(d, stamp), d);
    var h := WithRecipients(IdentityHeaders(d, stamp), d);
    ThreadIsRead(h, d);
    TypeIsRead(WithThread(h, d)["mime-version" := "1.0"], d, stamp);
    VersionThenType(WithThread(h, d), d, stamp);
  }

  lemma VersionThenType(h: HeaderMap, d: Draft, stamp: Stamp)
    ensures WithType(h["mime-version" := "1.0"], d, stamp) == WithType(h, d, stamp)
  {
    assert h["mime-version" := "1.0"]["mime-version" := "1.0"] == h["mime-version" := "1.0"];
  }

  /** The references are the ids in angle brackets, in order, with single spaces between. */
  lemma {:induction false} ReferencesAreSeparated(ids: seq<string>)
    requires ids != [] && forall r <- ids :: ' ' !in r
    ensures SplitOn(AngleList(ids), " ") == seq(|ids|, i requires 0 <= i < |ids| => "<" + ids[i] + ">")
  {
    var one := "<" + ids[0] + ">";
    assert ids[0] in ids && ' ' !in one;
    if |ids| == 1 {
      OccursNeedsChar(" ", one, 0);
      SplitWithoutMarker(one, " ");
    } else {
      var rest := AngleList(ids[1..]);
      assert forall r <- ids[1..] :: r in ids;
      ReferencesAreSeparated(ids[1..]);
      SpaceIsFirst(one, rest);
      SplitAtMarker(one, " ", rest);
      assert AngleList(ids) == one + " " + rest by {
        assert "<" + ids[0] + "> " == one + " ";
      }
    }
  }

  lemma SpaceIsFirst(a: string, b: string)
    requires ' ' !in a
    ensures FreeBefore(a, " ", b)
  {
    forall i | 0 <= i < |a|
      ensures !OccursAt(" ", a + " " + b, i)
    {
      assert (a + " " + b)[i] == a[i];
    }
  }

  // ---- the addresses

  /** An email without list punctuation, and a name that either needs encoding or holds none and shows something. */
  predicate PlainAddress(a: Address) {
    && a.email != "" && Trimmed(a.email) && NewlineFree(a.email)
    && ',' !in a.email && '"' !in a.email && '<' !in a.email && '>' !in a.email
    && (PrintableAscii(a.name) && a.name != "" ==>
          Trim(a.name) != "" && ',' !in a.name && '"' !in a.name && '<' !in a.name)
  }

  ghost predicate AllPlainAddresses(list: seq<Address>) {
    forall a <- list :: PlainAddress(a)
  }

  /** What a reader is shown for an address: the email, and the name but for line ends, a leading
      byte order mark, the white space around a plain name, and plain text that spells an encoded word. */
  ghost predicate IsShownAs(a: Address, m: MailAddress) {
    && m.email == a.email
    && (m.name.None? <==> a.name == "")
    && (a.name != "" && !PrintableAscii(a.name) ==> m.name == Some(Utf8.StripBom(SpacesForNewlines(a.name))))
    && (a.name != "" && PrintableAscii(a.name) && !Occurs("=?", Trim(a.name)) ==> m.name == Some(Trim(a.name)))
  }

  ghost predicate AreShownAs(list: seq<Address>, read: seq<MailAddress>) {
    |read| == |list| && forall i :: 0 <= i < |list| ==> IsShownAs(list[i], read[i])
  }

  lemma {:induction false} NothingIsRemoved(s: string)
    requires NewlineFree(s)
    ensures RemoveNewlines(s) == s
  {
    if s != "" {
      NothingIsRemoved(s[1..]);
    }
  }

  /** The line ends of an email are dropped and nothing else. */
  lemma {:induction false} LineEndsAreDropped(x: string, c: char, y: string)
    requires NewlineFree(x) && (c == '\r' || c == '\n')
    ensures RemoveNewlines(x + [c] + y) == x + RemoveNewlines(y)
  {
    var s := x + [c] + y;
    if x == "" {
      assert s[0] == c && s[1..] == y;
    } else {
      assert s[0] == x[0] && s[1..] == x[1..] + [c] + y;
      LineEndsAreDropped(x[1..], c, y);
      assert x == [x[0]] + x[1..];
    }
  }

  lemma EncodedNameIsPlain(name: string)
    requires !PrintableAscii(name)
    ensures var e := EncodeHeader(name);
      e != "" && Trimmed(e) && Trim(e) != "" && ',' !in e && '"' !in e && '<' !in e
  {
    var text := SpacesForNewlines(name);
    EncodedWordDecodes(text);
    TrimSpaceThen(EncodedText(text));
    EncodedTextAlphabet(Utf8.Encode(text));
  }

  lemma EncodedTextAlphabet(bytes: seq<Byte>)
    ensures var e := "=?UTF-8?B?" + Base64.Encode(bytes) + "?="; ',' !in e && '"' !in e && '<' !in e
  {
    Base64.EncodedHasNone(bytes, ',');
    Base64.EncodedHasNone(bytes, '"');
    Base64.EncodedHasNone(bytes, '<');
  }

  lemma PlainAddressIsRead(a: Address)
    requires PlainAddress(a)
    ensures PrintedOf(a).IsPlain() && IsShownAs(a, PrintedOf(a).Read())
  {
    NothingIsRemoved(a.email);
    if a.name != "" {
      SubjectComesBack(a.name);
      if PrintableAscii(a.name) {
        assert SpacesForNewlines(a.name) == a.name;
      } else {
        EncodedNameIsPlain(a.name);
      }
    }
  }

  lemma OneMoreIsShown(a: Address, list: seq<Address>, m: MailAddress, read: seq<MailAddress>)
    requires IsShownAs(a, m) && AreShownAs(list, read)
    ensures AreShownAs([a] + list, [m] + read)
  {
  }

  lemma OneMoreIsPlain(p: Printed, list: seq<Printed>)
    requires p.IsPlain() && AllPlain(list)
    ensures AllPlain([p] + list) && Readings([p] + list) == [p.Read()] + Readings(list)
  {
    assert ([p] + list)[0] == p && ([p] + list)[1..] == list;
  }

  lemma {:induction false} PlainListIsRead(list: seq<Address>)
    requires AllPlainAddresses(list)
    ensures AllPlain(AllPrinted(list)) && AreShownAs(list, Readings(AllPrinted(list)))
  {
    if list != [] {
      var a, rest := list[0], list[1..];
      assert a in list && AllPlainAddresses(rest) by {
        assert forall x <- rest :: x in list;
      }
      PlainAddressIsRead(a);
      PlainListIsRead(rest);
      OneMoreIsPlain(PrintedOf(a), AllPrinted(rest));
      OneMoreIsShown(a, rest, PrintedOf(a).Read(), Readings(AllPrinted(rest)));
      assert list == [a] + rest;
    }
  }

  lemma AddressesAreShown(list: seq<Address>)
    requires AllPlainAddresses(list)
    ensures AreShownAs(list, ParseAddressList(if list == [] then "" else Trim(CommaList(AllPrinted(list)))))
  {
    PlainListIsRead(list);
    TrimmedListIsRead(AllPrinted(list));
    if list == [] {
      NothingIsRead();
      PrintedListIsRead([]);
    }
  }

  lemma OtherKeyStays(h: HeaderMap, present: bool, key: string, value: string, other: string)
    requires |key| != |other| || (key != "" && key[0] != other[0])
    ensures HeaderOr(With(h, present, key, value), other, "") == HeaderOr(h, other, "")
    ensures HeaderOr(h[key := value], other, "") == HeaderOr(h, other, "")
  {
  }

  lemma LaterKeysAreOther(h: HeaderMap, d: Draft, stamp: Stamp, key: string)
    requires key in ["from", "to", "cc", "bcc"]
    ensures HeaderOr(WithType(WithThread(h, d), d, stamp), key, "") == HeaderOr(h, key, "")
  {
    var h1 := h["subject" := Trim(EncodeHeader(d.subject))];
    OtherKeyStays(h, true, "subject", Trim(EncodeHeader(d.subject)), key);
    var h2 := With(h1, d.inReplyTo != "", "in-reply-to", "<" + d.inReplyTo + ">");
    OtherKeyStays(h1, d.inReplyTo != "", "in-reply-to", "<" + d.inReplyTo + ">", key);
    OtherKeyStays(h2, d.references != [], "references", AngleList(d.references), key);
    TypeKeysAreOther(WithThread(h, d), d, stamp, key);
  }

  lemma TypeKeysAreOther(h: HeaderMap, d: Draft, stamp: Stamp, key: string)
    requires |key| in [2, 3, 4]
    ensures HeaderOr(WithType(h, d, stamp), key, "") == HeaderOr(h, key, "")
  {
    var t := "multipart/mixed; boundary=\"galmail-mixed-" + stamp.mixedId + "\"";
    OtherKeyStays(h, true, "mime-version", "1.0", key);
    var h1 := h["mime-version" := "1.0"];
    OtherKeyStays(h1, true, "content-type", t, key);
    OtherKeyStays(h1["content-type" := t], d.requestReadReceipt && Trim(From(d).email) != "",
                  "disposition-notification-to", Trim(PrintedOf(From(d)).Text()), key);
  }

  function ListText(list: seq<Address>): string {
    if list == [] then "" else Trim(CommaList(AllPrinted(list)))
  }

  lemma RecipientValues(d: Draft, stamp: Stamp)
    ensures var h := WithRecipients(IdentityHeaders(d, stamp), d);
      && HeaderOr(h, "from", "") == Trim(PrintedOf(From(d)).Text())
      && HeaderOr(h, "to", "") == ListText(d.to)
      && HeaderOr(h, "cc", "") == ListText(d.cc)
      && HeaderOr(h, "bcc", "") == ListText(d.bcc)
  {
    var h0 := IdentityHeaders(d, stamp);
    var to, cc, bcc := Trim(CommaList(AllPrinted(d.to))), Trim(CommaList(AllPrinted(d.cc))), Trim(CommaList(AllPrinted(d.bcc)));
    var h1 := With(h0, d.to != [], "to", to);
    var h2 := With(h1, d.cc != [], "cc", cc);
    OtherKeyStays(h0, d.to != [], "to", to, "from");
    OtherKeyStays(h1, d.cc != [], "cc", cc, "from");
    OtherKeyStays(h2, d.bcc != [], "bcc", bcc, "from");
    OtherKeyStays(h1, d.cc != [], "cc", cc, "to");
    OtherKeyStays(h2, d.bcc != [], "bcc", bcc, "to");
    OtherKeyStays(h2, d.bcc != [], "bcc", bcc, "cc");
    NoRecipientYet(d, stamp);
    OtherKeyStays(h0, d.to != [], "to", to, "cc");
    OtherKeyStays(h0, d.to != [], "to", to, "bcc");
    OtherKeyStays(h1, d.cc != [], "cc", cc, "bcc");
  }

  lemma NoRecipientYet(d: Draft, stamp: Stamp)
    ensures var h := IdentityHeaders(d, stamp);
      && HeaderOr(h, "to", "") == "" && HeaderOr(h, "cc", "") == "" && HeaderOr(h, "bcc", "") == ""
      && HeaderOr(h, "from", "") == Trim(PrintedOf(From(d)).Text())
  {
  }

  // ---- the message

  /** What a reader is shown for an attachment. */
  predicate IsKeptAs(a: DraftAttachment, v: AttachmentView) {
    && v.data == Base64.Decode(a.data)
    && v.contentId == (if a.contentId == "" then None else Some(a.contentId))
    && (v.disposition == Inline <==>
          a.disposition == Some(Inline) && !OccursIgnoringCase("attachment", SafeFilename(a.filename)))
    && v.mimeType == Lower(Trim(a.mimeType[..IndexOf(a.mimeType, ';')]))
    && ('%' !in a.filename && '\'' !in a.filename ==> IsSafeName(a.filename, v.filename))
  }

  /** The name with quote marks and line ends turned into underscores. */
  predicate IsSafeName(name: string, shown: string) {
    && |shown| == |name|
    && forall i :: 0 <= i < |name| ==> shown[i] == if name[i] in "\"\r\n" then '_' else name[i]
  }

  /** Within the size limit and with few enough parts. */
  predicate IsWithinLimits(d: Draft, stamp: Stamp) {
    |Utf8.Encode(GenerateMime(d, stamp))| <= 52428800 && |d.attachments| <= 996
  }

  lemma ReadingOfRaw(raw: string, counter: nat, root: Part, more: nat)
    requires counter == 0 && ParsePart(raw, counter) == CountedPart(root, more, counter + 4)
    ensures ParsedMime(raw) ==
      if |Utf8.Encode(raw)| > 52428800 then Err(TooLarge)
      else if more > 996 then Err(TooManyParts) else Ok(MessageOf(root))
  {
  }

  lemma MessageIsParsed(d: Draft, stamp: Stamp, raw: string)
    requires Printable(d, stamp) && raw == GenerateMime(d, stamp)
    ensures ParsedMime(raw) ==
      if |Utf8.Encode(raw)| > 52428800 then Err(TooLarge)
      else if |d.attachments| > 996 then Err(TooManyParts) else Ok(MessageOf(Root(d, stamp)))
  {
    var counter: nat :| counter == 0;
    ParseMessage(d, stamp, counter);
    ReadingOfRaw(raw, counter, Root(d, stamp), |d.attachments|);
  }

  lemma MessageIsRead(d: Draft, stamp: Stamp, raw: string)
    requires Printable(d, stamp) && IsWithinLimits(d, stamp) && raw == GenerateMime(d, stamp)
    ensures ParsedMime(raw) == Ok(MessageOf(Root(d, stamp)))
    ensures Root(d, stamp).headers == DraftHeaders(d, stamp)
  {
    MessageIsParsed(d, stamp, raw);
    HeadersAreRead(d, stamp);
  }

  /** The message is refused exactly beyond 50 MiB or 996 attachments. */
  lemma MessageIsReadExactly(d: Draft, stamp: Stamp)
    requires Printable(d, stamp)
    ensures ParsedMime(GenerateMime(d, stamp)).Ok? <==> IsWithinLimits(d, stamp)
  {
    MessageIsParsed(d, stamp, GenerateMime(d, stamp));
  }

  /** Both bodies with the signature, and the attachments one for one. */
  lemma BodiesComeBack(d: Draft, stamp: Stamp)
    requires Printable(d, stamp) && IsWithinLimits(d, stamp)
    ensures var r := ParsedMime(GenerateMime(d, stamp));
      && r.Ok?
      && r.value.contents.text == Some(Utf8.StripBom(
           if d.signature == "" then d.bodyText else d.bodyText + "\r\n\r\n" + d.signature))
      && r.value.contents.html == Some(Utf8.StripBom(
           if d.signature == "" then d.bodyHtml else d.bodyHtml + "<br><br>" + d.signature))
  {
    MessageIsRead(d, stamp, GenerateMime(d, stamp));
    VisitMessage(d, stamp);
    NothingIsSigned(d);
  }

  lemma NothingIsSigned(d: Draft)
    ensures SignedText(d) == if d.signature == "" then d.bodyText else d.bodyText + "\r\n\r\n" + d.signature
    ensures SignedHtml(d) == if d.signature == "" then d.bodyHtml else d.bodyHtml + "<br><br>" + d.signature
  {
    if d.signature == "" {
      assert d.bodyText + "" == d.bodyText && d.bodyHtml + "" == d.bodyHtml;
    } else {
      Associates(d.bodyText, "\r\n\r\n", d.signature);
      Associates(d.bodyHtml, "<br><br>", d.signature);
    }
  }

  lemma AttachmentsComeBack(d: Draft, stamp: Stamp)
    requires Printable(d, stamp) && IsWithinLimits(d, stamp)
    ensures var r := ParsedMime(GenerateMime(d, stamp));
      && r.Ok? && |r.value.contents.attachments| == |d.attachments|
      && forall i :: 0 <= i < |d.attachments| ==> IsKeptAs(d.attachments[i], r.value.contents.attachments[i])
  {
    MessageIsRead(d, stamp, GenerateMime(d, stamp));
    VisitMessage(d, stamp);
    AttachmentsAreKept(d.attachments);
  }

  lemma AttachmentsAreKept(list: seq<DraftAttachment>)
    ensures var views := ExpectedViews(list);
      |views| == |list| && forall i :: 0 <= i < |list| ==> IsKeptAs(list[i], views[i])
  {
    forall i | 0 <= i < |list|
      ensures IsKeptAs(list[i], ExpectedViews(list)[i])
    {
      AttachmentIsKept(list[i]);
    }
  }

  lemma AttachmentIsKept(a: DraftAttachment)
    ensures IsKeptAs(a, ExpectedView(a))
  {
    if '%' !in a.filename && '\'' !in a.filename {
      PlainParameter(SafeFilename(a.filename));
    }
  }

  /** Every header of the message is what the draft says, and there is no other. */
  lemma HeadersComeBack(d: Draft, stamp: Stamp)
    requires Printable(d, stamp) && IsWithinLimits(d, stamp)
    ensures var r := ParsedMime(GenerateMime(d, stamp)); r.Ok? && r.value.headers == DraftHeaders(d, stamp)
  {
    MessageIsRead(d, stamp, GenerateMime(d, stamp));
  }

  /** The addresses of a message with these headers. */
  lemma AddressesAreRead(d: Draft, stamp: Stamp, root: Part)
    requires root.headers == DraftHeaders(d, stamp)
    requires PlainAddress(From(d)) && AllPlainAddresses(d.to) && AllPlainAddresses(d.cc) && AllPlainAddresses(d.bcc)
    ensures var m := MessageOf(root);
      && m.from.Some? && IsShownAs(From(d), m.from.value)
      && AreShownAs(d.to, m.to) && AreShownAs(d.cc, m.cc) && AreShownAs(d.bcc, m.bcc)
  {
    AddressHeaders(d, stamp);
    SenderIsShown(From(d));
    AddressesAreShown(d.to);
    AddressesAreShown(d.cc);
    AddressesAreShown(d.bcc);
  }

  /** The sender and every recipient come back, in order. */
  lemma AddressesComeBack(d: Draft, stamp: Stamp)
    requires Printable(d, stamp) && IsWithinLimits(d, stamp)
    requires PlainAddress(From(d)) && AllPlainAddresses(d.to) && AllPlainAddresses(d.cc) && AllPlainAddresses(d.bcc)
    ensures var r := ParsedMime(GenerateMime(d, stamp));
      && r.Ok? && r.value.from.Some? && IsShownAs(From(d), r.value.from.value)
      && AreShownAs(d.to, r.value.to) && AreShownAs(d.cc, r.value.cc) && AreShownAs(d.bcc, r.value.bcc)
  {
    MessageIsRead(d, stamp, GenerateMime(d, stamp));
    AddressesAreRead(d, stamp, Root(d, stamp));
  }

  lemma AddressHeaders(d: Draft, stamp: Stamp)
    ensures var h := DraftHeaders(d, stamp);
      && HeaderOr(h, "from", "") == Trim(PrintedOf(From(d)).Text())
      && HeaderOr(h, "to", "") == ListText(d.to)
      && HeaderOr(h, "cc", "") == ListText(d.cc)
      && HeaderOr(h, "bcc", "") == ListText(d.bcc)
  {
    RecipientValues(d, stamp);
    var h := WithRecipients(IdentityHeaders(d, stamp), d);
    LaterKeysAreOther(h, d, stamp, "from");
    LaterKeysAreOther(h, d, stamp, "to");
    LaterKeysAreOther(h, d, stamp, "cc");
    LaterKeysAreOther(h, d, stamp, "bcc");
  }

  lemma SenderIsShown(a: Address)
    requires PlainAddress(a)
    ensures var read := ParseAddressList(Trim(PrintedOf(a).Text())); |read| == 1 && IsShownAs(a, read[0])
  {
    PlainAddressIsRead(a);
    TrimmedListIsRead([PrintedOf(a)]);
    assert CommaList([PrintedOf(a)]) == PrintedOf(a).Text();
    assert Readings([PrintedOf(a)]) == [PrintedOf(a).Read()];
  }
}
