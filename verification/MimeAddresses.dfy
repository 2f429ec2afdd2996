/** Address lists of message headers: how the parser takes them apart, and that it finds what was printed. */
module MimeAddresses {
  import opened Outcomes
  import opened JsText
  import opened MimeHeaders

  datatype MailAddress = MailAddress(name: Option<string>, email: string)

  // ---- the items of a list

  /** One turn of `[^,"<]|"[^"]*"|<[^>]*>` at the start of s; 0 when it does not match. */
  function UnitLength(s: string): (n: nat)
    ensures n <= |s|
  {
    if s == "" || s[0] == ',' then 0
    else if s[0] == '"' then
      var close := IndexOf(s[1..], '"');
      if close < |s| - 1 then close + 2 else 0
    else if s[0] == '<' then
      var close := IndexOf(s[1..], '>');
      if close < |s| - 1 then close + 2 else 0
    else 1
  }

  function ItemLength(s: string): (n: nat)
    ensures n <= |s|
    decreases |s|
  {
    var n := UnitLength(s);
    if n == 0 then 0 else n + ItemLength(s[n..])
  }

  /** `value.match(/(?:[^,"<]|"[^"]*"|<[^>]*>)+/g)` */
  function Items(s: string): seq<string>
    decreases |s|
  {
    if s == "" then []
    else
      var n := ItemLength(s);
      if n == 0 then Items(s[1..]) else [s[..n]] + Items(s[n..])
  }

  // ---- one item

  /** `<([^>]+)>$` */
  function AngleHere(s: string): Option<string> {
    if |s| >= 3 && s[0] == '<' && s[|s| - 1] == '>' && '>' !in s[1..|s| - 1] then Some(s[1..|s| - 1]) else None
  }

  /** `"?\s*` */
  function AfterName(s: string): string {
    TrimStart(if s != "" && s[0] == '"' then s[1..] else s)
  }

  /** The name from a to the last position, at most e, after which the address follows. */
  function NamedAngle(t: string, a: nat, e: nat): Option<(string, string)>
    requires a <= e <= |t|
    decreases e
  {
    match AngleHere(AfterName(t[e..]))
    case Some(email) => Some((t[a..e], email))
    case None => if e == a then None else NamedAngle(t, a, e - 1)
  }

  /** `/^(?:"?([^"]*)"?\s*)?<([^>]+)>$/` */
  function AngleMatch(t: string): Option<(string, string)> {
    var a := if t != "" && t[0] == '"' then 1 else 0;
    NamedAngle(t, a, a + IndexOf(t[a..], '"'))
  }

  function ParseItem(item: string): seq<MailAddress> {
    var t := Trim(item);
    if t == "" then []
    else match AngleMatch(t)
      case None => [MailAddress(None, t)]
      case Some((name, email)) =>
        [MailAddress(if name != "" then Some(DecodeWords(Trim(name))) else None, Trim(email))]
  }

  function ParseItems(items: seq<string>): seq<MailAddress> {
    if items == [] then [] else ParseItem(items[0]) + ParseItems(items[1..])
  }

  /** `parseAddressList(value)` */
  function ParseAddressList(value: string): seq<MailAddress> {
    ParseItems(Items(value))
  }

  // ---- printed addresses

  /** A printed address: an encoded name, which may be absent or in quotation marks, and the email. */
  datatype Printed = Printed(name: string, email: string) | Quoted(name: string, email: string) {
    function Text(): string {
      if Quoted? then "\"" + (name + ("\" " + ("<" + email + ">")))
      else if name != "" then name + (" " + ("<" + email + ">"))
      else email
    }

    /** What the reader should find. */
    function Read(): MailAddress {
      MailAddress(if name != "" then Some(DecodeWords(Trim(name))) else None, email)
    }

    /** The name is not blank and, like the email, holds none of the characters that structure a list;
        in quotation marks it is free but for those. */
    predicate IsPlain() {
      && (Printed? && name != "" ==> Trim(name) != "" && ',' !in name && '<' !in name)
      && '"' !in name
      && email != "" && Trimmed(email)
      && ',' !in email && '"' !in email && '<' !in email && '>' !in email
    }
  }

  function CommaList(list: seq<Printed>): string {
    if list == [] then ""
    else if |list| == 1 then list[0].Text()
    else list[0].Text() + ", " + CommaList(list[1..])
  }

  lemma {:induction false} PlainTextIsTaken(x: string, rest: string)
    requires ',' !in x && '"' !in x && '<' !in x
    ensures ItemLength(x + rest) == |x| + ItemLength(rest)
  {
    if x == "" {
      assert x + rest == rest;
    } else {
      var s := x + rest;
      assert s[0] == x[0] && s[1..] == x[1..] + rest;
      assert UnitLength(s) == 1;
      PlainTextIsTaken(x[1..], rest);
    }
  }

  lemma AngleIsTaken(email: string, rest: string)
    requires '>' !in email
    ensures ItemLength("<" + email + ">" + rest) == |email| + 2 + ItemLength(rest)
  {
    var s := "<" + email + ">" + rest;
    assert s[0] == '<' && s[1..] == email + ['>'] + rest;
    IndexOfSkips(email, '>', rest);
    assert UnitLength(s) == |email| + 2;
    assert s[|email| + 2..] == rest;
  }

  /** An address is taken whole, and the item ends at the comma after it. */
  lemma AddressIsOneItem(p: Printed, rest: string)
    requires p.IsPlain() && (rest == "" || rest[0] == ',')
    ensures ItemLength(p.Text() + rest) == |p.Text()|
    ensures ItemLength(" " + p.Text() + rest) == 1 + |p.Text()|
  {
    NothingIsTaken(rest);
    AddressTextIsTaken(p, rest);
    SpaceIsTaken(p.Text(), rest);
  }

  lemma NothingIsTaken(rest: string)
    requires rest == "" || rest[0] == ','
    ensures ItemLength(rest) == 0
  {
  }

  lemma SpaceIsTaken(text: string, rest: string)
    ensures ItemLength(" " + text + rest) == 1 + ItemLength(text + rest)
  {
    PlainTextIsTaken(" ", text + rest);
    assert " " + (text + rest) == " " + text + rest;
  }

  lemma AddressTextIsTaken(p: Printed, rest: string)
    requires p.IsPlain()
    ensures ItemLength(p.Text() + rest) == |p.Text()| + ItemLength(rest)
  {
    if p.Quoted? {
      QuotedTextIsTaken(p.name, p.email, rest);
    } else if p.name != "" {
      NamedTextIsTaken(p.name + " ", p.email, rest);
      assert p.Text() == (p.name + " ") + ("<" + p.email + ">");
    } else {
      PlainTextIsTaken(p.email, rest);
    }
  }

  lemma QuoteIsTaken(name: string, rest: string)
    requires '"' !in name
    ensures ItemLength("\"" + (name + ("\"" + rest))) == |name| + 2 + ItemLength(rest)
  {
    var s := "\"" + (name + ("\"" + rest));
    assert s[0] == '"' && s[1..] == name + ['"'] + rest;
    IndexOfSkips(name, '"', rest);
    assert UnitLength(s) == |name| + 2;
    assert s[|name| + 2..] == rest;
  }

  lemma QuotedShape(name: string, angle: string, rest: string)
    ensures "\"" + (name + ("\" " + angle)) + rest == "\"" + (name + ("\"" + (" " + angle + rest)))
  {
    assert "\" " == "\"" + " ";
    assert "\" " + angle + rest == "\"" + (" " + angle + rest);
    assert name + ("\" " + angle) + rest == name + ("\"" + (" " + angle + rest));
  }

  lemma QuotedTextIsTaken(name: string, email: string, rest: string)
    requires '"' !in name && '>' !in email
    ensures ItemLength(Quoted(name, email).Text() + rest) == |Quoted(name, email).Text()| + ItemLength(rest)
  {
    var angle := "<" + email + ">";
    NamedTextIsTaken(" ", email, rest);
    QuoteIsTaken(name, " " + angle + rest);
    QuotedShape(name, angle, rest);
  }

  lemma NamedTextIsTaken(before: string, email: string, rest: string)
    requires ',' !in before && '"' !in before && '<' !in before && '>' !in email
    ensures ItemLength(before + ("<" + email + ">") + rest) == |before + ("<" + email + ">")| + ItemLength(rest)
  {
    var angle := "<" + email + ">";
    AngleIsTaken(email, rest);
    assert before + angle + rest == before + (angle + rest);
    PlainPrefixIsTaken(before + angle + rest, before, angle + rest);
  }

  lemma PlainPrefixIsTaken(s: string, x: string, rest: string)
    requires s == x + rest && ',' !in x && '"' !in x && '<' !in x
    ensures ItemLength(s) == |x| + ItemLength(rest)
  {
    PlainTextIsTaken(x, rest);
  }

  // ---- an item is read as the address

  lemma {:induction false} TrimStartKeepsOut(c: char, s: string)
    requires c !in s
    ensures c !in TrimStart(s)
  {
    if s != "" && IsSpace(s[0]) {
      TrimStartKeepsOut(c, s[1..]);
    }
  }

  lemma NoAngleNoMatch(s: string)
    requires '<' !in s
    ensures AngleHere(AfterName(s)).None?
  {
    var u := if s != "" && s[0] == '"' then s[1..] else s;
    TrimStartKeepsOut('<', u);
  }

  lemma AngleIsHere(email: string)
    requires email != "" && '>' !in email
    ensures AngleHere(AfterName("<" + email + ">")) == Some(email)
  {
    var s := "<" + email + ">";
    assert s[0] == '<' && s[|s| - 1] == '>' && s[1..|s| - 1] == email;
    assert TrimStart(s) == s;
  }

  /** Going down from the end, the address is found right behind the name. */
  lemma {:induction false} NameIsFound(m: string, email: string, e: nat)
    requires email != "" && '>' !in email && '<' !in email
    requires |m| <= e <= |m + ("<" + email + ">")|
    ensures NamedAngle(m + ("<" + email + ">"), 0, e) == Some((m, email))
    decreases e
  {
    var angle := "<" + email + ">";
    var t := m + angle;
    if e == |m| {
      assert t[e..] == angle && t[0..e] == m;
      AngleIsHere(email);
    } else {
      assert forall i :: e <= i < |t| ==> t[i] == (email + ">")[i - |m| - 1];
      assert '<' !in t[e..];
      NoAngleNoMatch(t[e..]);
      NameIsFound(m, email, e - 1);
    }
  }

  lemma NamedAddressIsMatched(m: string, email: string)
    requires m != "" && '"' !in m && '"' !in email
    requires email != "" && '>' !in email && '<' !in email
    ensures AngleMatch(m + ("<" + email + ">")) == Some((m, email))
  {
    var t := m + ("<" + email + ">");
    assert t[0] == m[0] && '"' !in t && t[0..] == t;
    NoIndexOf(t, '"');
    NameIsFound(m, email, |t|);
  }

  lemma {:induction false} NoIndexOf(s: string, c: char)
    requires c !in s
    ensures IndexOf(s, c) == |s|
  {
    if s != "" {
      NoIndexOf(s[1..], c);
    }
  }

  lemma {:induction false} NoAngleAtAll(t: string, e: nat)
    requires e <= |t| && '<' !in t
    ensures NamedAngle(t, 0, e).None?
    decreases e
  {
    NoAngleNoMatch(t[e..]);
    if e > 0 {
      NoAngleAtAll(t, e - 1);
    }
  }

  lemma BareAddressIsNotMatched(t: string)
    requires t != "" && '<' !in t && '"' !in t
    ensures AngleMatch(t).None?
  {
    assert t[0..] == t;
    NoIndexOf(t, '"');
    NoAngleAtAll(t, |t|);
  }

  lemma {:induction false} TrimEndOfSpace(x: string)
    ensures TrimEnd(x + " ") == TrimEnd(x)
  {
    assert (x + " ")[..|x|] == x;
  }

  lemma {:induction false} TrimStartDropsSpaces(x: string, rest: string)
    requires Trim(x) != ""
    ensures TrimStart(x + rest) == TrimStart(x) + rest
    ensures TrimStart(x) != "" && !IsSpace(TrimStart(x)[0])
    ensures forall c <- TrimStart(x) :: c in x
  {
    assert x != "";
    assert (x + rest)[0] == x[0] && (x + rest)[1..] == x[1..] + rest;
    if IsSpace(x[0]) {
      TrimStartDropsSpaces(x[1..], rest);
    } else {
      assert TrimStart(x + rest) == x + rest;
    }
  }

  lemma {:induction false} TrimStartTwice(x: string)
    ensures TrimStart(TrimStart(x)) == TrimStart(x)
  {
    if x != "" && IsSpace(x[0]) {
      TrimStartTwice(x[1..]);
    }
  }

  lemma NamedItemIsRead(name: string, email: string)
    requires Printed(name, email).IsPlain() && name != ""
    ensures ParseItem(Printed(name, email).Text()) == [Printed(name, email).Read()]
  {
    var angle, m := "<" + email + ">", TrimStart(name) + " ";
    TrimStartDropsSpaces(name, " " + angle);
    var t := m + angle;
    assert Printed(name, email).Text() == name + (" " + angle);
    assert TrimStart(name) + (" " + angle) == t && t[|t| - 1] == '>';
    assert Trim(Printed(name, email).Text()) == t;
    assert m[0] == TrimStart(name)[0];
    assert '"' !in m by {
      assert forall c <- m :: c in TrimStart(name) || c == ' ';
    }
    NamedAddressIsMatched(m, email);
    NameIsTrimmed(name);
    TrimSpaceThen(email);
  }

  lemma NameIsTrimmed(name: string)
    requires Trim(name) != ""
    ensures Trim(TrimStart(name) + " ") == Trim(name)
  {
    TrimStartDropsSpaces(name, " ");
    TrimStartTwice(name);
    var x := TrimStart(name);
    assert (x + " ")[0] == x[0];
    assert TrimStart(x + " ") == x + " ";
    TrimEndOfSpace(x);
  }

  lemma QuotedIsMatched(t: string, name: string, email: string)
    requires '"' !in name && email != "" && '>' !in email
    requires t != "" && t[0] == '"' && t[1..] == name + ['"'] + (" " + ("<" + email + ">"))
    ensures AngleMatch(t) == Some((name, email))
  {
    var angle := "<" + email + ">";
    var e := 1 + |name|;
    IndexOfSkips(name, '"', " " + angle);
    assert t[e..] == t[1..][|name|..] == "\"" + (" " + angle);
    assert t[1..e] == t[1..][..|name|] == name;
    AngleIsHere(email);
    AfterQuote(angle);
  }

  lemma MatchedItemIsRead(t: string, name: string, email: string)
    requires t != "" && Trimmed(t) && Trimmed(email) && AngleMatch(t) == Some((name, email))
    ensures ParseItem(t) == [MailAddress(if name != "" then Some(DecodeWords(Trim(name))) else None, email)]
  {
    TrimSpaceThen(t);
    TrimSpaceThen(email);
  }

  lemma QuotedTextShape(name: string, angle: string)
    requires angle != "" && angle[|angle| - 1] == '>'
    ensures var t := "\"" + (name + ("\" " + angle));
      t[0] == '"' && t[|t| - 1] == '>' && t[1..] == name + ['"'] + (" " + angle)
  {
    var t := "\"" + (name + ("\" " + angle));
    assert "\" " + angle == ['"'] + (" " + angle);
    assert t[|t| - 1] == angle[|angle| - 1];
  }

  lemma QuotedItemIsRead(name: string, email: string)
    requires Quoted(name, email).IsPlain()
    ensures ParseItem(Quoted(name, email).Text()) == [Quoted(name, email).Read()]
  {
    QuotedTextShape(name, "<" + email + ">");
    QuotedIsMatched(Quoted(name, email).Text(), name, email);
    MatchedItemIsRead(Quoted(name, email).Text(), name, email);
  }

  lemma AfterQuote(angle: string)
    requires angle != "" && angle[0] == '<'
    ensures AfterName("\"" + (" " + angle)) == AfterName(angle)
  {
    assert ("\"" + (" " + angle))[1..] == " " + angle && (" " + angle)[1..] == angle;
  }

  lemma BareItemIsRead(email: string)
    requires Printed("", email).IsPlain()
    ensures ParseItem(email) == [Printed("", email).Read()]
  {
    TrimSpaceThen(email);
    BareAddressIsNotMatched(email);
  }

  lemma ItemIsRead(p: Printed)
    requires p.IsPlain()
    ensures ParseItem(p.Text()) == [p.Read()] && ParseItem(" " + p.Text()) == [p.Read()]
  {
    if p.Quoted? {
      QuotedItemIsRead(p.name, p.email);
    } else if p.name != "" {
      NamedItemIsRead(p.name, p.email);
    } else {
      BareItemIsRead(p.email);
    }
    SpacedItem(p.Text());
  }

  lemma SpacedItem(item: string)
    ensures ParseItem(" " + item) == ParseItem(item)
  {
    assert (" " + item)[1..] == item;
    assert Trim(" " + item) == Trim(item);
  }

  // ---- whole lists

  function Readings(list: seq<Printed>): seq<MailAddress> {
    if list == [] then [] else [list[0].Read()] + Readings(list[1..])
  }

  ghost predicate AllPlain(list: seq<Printed>) {
    forall i :: 0 <= i < |list| ==> list[i].IsPlain()
  }

  /** An item that reads as one address, before a list that is read. */
  lemma OneMoreIsRead(item: string, later: string, first: MailAddress, others: seq<MailAddress>)
    requires item != "" && ItemLength(item + later) == |item|
    requires ParseItem(item) == [first] && ParseItems(Items(later)) == others
    ensures ParseItems(Items(item + later)) == [first] + others
  {
    FirstItem(item + later, item, later);
    var items := Items(later);
    assert ([item] + items)[0] == item && ([item] + items)[1..] == items;
  }

  lemma NothingIsRead()
    ensures ParseItems(Items("")) == []
  {
  }

  /** The first address of a list, with or without a space before it. */
  lemma FirstIsRead(p: Printed, later: string, others: seq<MailAddress>)
    requires p.IsPlain() && (later == "" || later[0] == ',')
    requires ParseItems(Items(later)) == others
    ensures ParseItems(Items(p.Text() + later)) == [p.Read()] + others
  {
    ItemIsRead(p);
    AddressIsOneItem(p, later);
    OneMoreIsRead(p.Text(), later, p.Read(), others);
  }

  lemma FirstSpacedIsRead(p: Printed, later: string, others: seq<MailAddress>)
    requires p.IsPlain() && (later == "" || later[0] == ',')
    requires ParseItems(Items(later)) == others
    ensures ParseItems(Items(" " + p.Text() + later)) == [p.Read()] + others
  {
    ItemIsRead(p);
    AddressIsOneItem(p, later);
    OneMoreIsRead(" " + p.Text(), later, p.Read(), others);
  }

  /** What follows the first address of a list. */
  function Later(list: seq<Printed>): string {
    if |list| <= 1 then "" else ", " + CommaList(list[1..])
  }

  /** The addresses after the first are read. */
  lemma {:induction false} LaterIsRead(list: seq<Printed>)
    requires list != [] && AllPlain(list)
    ensures ParseItems(Items(Later(list))) == Readings(list[1..])
    decreases |list|
  {
    if |list| == 1 {
      NothingIsRead();
    } else {
      var rest := list[1..];
      LaterIsRead(rest);
      JoinIsFirstAndLater(rest);
      OneLaterIsRead(rest[0], Later(rest), Readings(rest[1..]));
    }
  }

  lemma OneLaterIsRead(p: Printed, later: string, others: seq<MailAddress>)
    requires p.IsPlain() && (later == "" || later[0] == ',')
    requires ParseItems(Items(later)) == others
    ensures ParseItems(Items(", " + (p.Text() + later))) == [p.Read()] + others
  {
    FirstSpacedIsRead(p, later, others);
    CommaThenSpace(p.Text(), later);
  }

  lemma CommaThenSpace(text: string, later: string)
    ensures Items(", " + (text + later)) == Items(" " + text + later)
  {
    assert " " + text + later == " " + (text + later);
    CommaIsSkipped(text + later);
  }

  lemma JoinStep(list: seq<Printed>)
    requires |list| > 1
    ensures CommaList(list) == list[0].Text() + ", " + CommaList(list[1..])
  {
  }

  lemma Associates(a: string, b: string, c: string)
    ensures a + b + c == a + (b + c)
  {
  }

  lemma JoinIsFirstAndLater(list: seq<Printed>)
    requires list != []
    ensures CommaList(list) == list[0].Text() + Later(list)
  {
    if |list| > 1 {
      JoinStep(list);
      Associates(list[0].Text(), ", ", CommaList(list[1..]));
    } else {
      JoinOfOne(list);
    }
  }

  lemma JoinOfOne(list: seq<Printed>)
    requires |list| == 1
    ensures CommaList(list) == list[0].Text() + ""
  {
    assert list[0].Text() + "" == list[0].Text();
  }

  lemma FirstItem(s: string, item: string, later: string)
    requires item != "" && s == item + later && ItemLength(s) == |item|
    ensures Items(s) == [item] + Items(later)
  {
    assert s[..|item|] == item && s[|item|..] == later;
  }

  lemma CommaIsSkipped(rest: string)
    ensures Items(", " + rest) == Items(" " + rest)
  {
    var s := ", " + rest;
    assert s[0] == ',' && s[1..] == " " + rest;
    assert ItemLength(s) == 0;
  }

  /** Every list of plain addresses is read back, in order. */
  lemma PrintedListIsRead(list: seq<Printed>)
    requires AllPlain(list)
    ensures ParseAddressList(CommaList(list)) == Readings(list)
  {
    if list == [] {
      NothingIsRead();
    } else {
      LaterIsRead(list);
      FirstIsRead(list[0], Later(list), Readings(list[1..]));
      JoinIsFirstAndLater(list);
    }
  }

  // ---- the list as a header holds it

  lemma {:induction false} TextEndsVisibly(list: seq<Printed>)
    requires list != [] && AllPlain(list)
    ensures CommaList(list) != "" && !IsSpace(CommaList(list)[|CommaList(list)| - 1])
  {
    if |list| > 1 {
      TextEndsVisibly(list[1..]);
      JoinStep(list);
      EndOfTwo(list[0].Text() + ", ", CommaList(list[1..]));
    } else {
      AddressEndsVisibly(list[0]);
    }
  }

  lemma EndOfTwo(a: string, b: string)
    requires b != "" && !IsSpace(b[|b| - 1])
    ensures a + b != "" && !IsSpace((a + b)[|a + b| - 1])
  {
  }

  lemma AddressEndsVisibly(p: Printed)
    requires p.IsPlain()
    ensures p.Text() != "" && !IsSpace(p.Text()[|p.Text()| - 1])
  {
    var angle := "<" + p.email + ">";
    if p.Quoted? {
      EndOfTwo("\" ", angle);
      EndOfTwo(p.name, "\" " + angle);
      EndOfTwo("\"", p.name + ("\" " + angle));
    } else if p.name != "" {
      EndOfTwo(" ", angle);
      EndOfTwo(p.name, " " + angle);
    }
  }

  lemma TrimOfName(name: string, rest: string)
    requires Trim(name) != "" && rest != "" && !IsSpace(rest[|rest| - 1])
    ensures Trim(name + rest) == TrimStart(name) + rest
  {
    TrimStartDropsSpaces(name, rest);
    var t := TrimStart(name) + rest;
    assert t[|t| - 1] == rest[|rest| - 1];
  }

  lemma EndOfRest(x: string, rest: string)
    requires rest != "" && !IsSpace((x + rest)[|x + rest| - 1])
    ensures !IsSpace(rest[|rest| - 1])
  {
  }

  lemma AngleThenLater(name: string, email: string, later: string)
    requires name != ""
    ensures Printed(name, email).Text() + later == name + (" " + ("<" + email + ">") + later)
  {
  }

  /** Only spaces before the first name are lost when the header value is trimmed. */
  lemma TrimmedListIsRead(list: seq<Printed>)
    requires AllPlain(list)
    ensures ParseAddressList(Trim(CommaList(list))) == Readings(list)
  {
    PrintedListIsRead(list);
    if list != [] {
      TextEndsVisibly(list);
      JoinIsFirstAndLater(list);
      if list[0].Quoted? || list[0].name == "" {
        assert CommaList(list)[0] == if list[0].Quoted? then '"' else list[0].email[0];
        TrimSpaceThen(CommaList(list));
      } else {
        NamedListIsTrimmed(list);
      }
    }
  }

  lemma NamedListIsTrimmed(list: seq<Printed>)
    requires list != [] && AllPlain(list) && list[0].Printed? && list[0].name != ""
    requires CommaList(list) == list[0].Text() + Later(list)
    requires CommaList(list) != "" && !IsSpace(CommaList(list)[|CommaList(list)| - 1])
    ensures ParseAddressList(Trim(CommaList(list))) == Readings(list)
  {
    var p, later := list[0], Later(list);
    var rest := " " + ("<" + p.email + ">") + later;
    AngleThenLater(p.name, p.email, later);
    EndOfRest(p.name, rest);
    TrimOfName(p.name, rest);
    TrimStartDropsSpaces(p.name, "");
    var q := Printed(TrimStart(p.name), p.email);
    AngleThenLater(q.name, p.email, later);
    FirstTrimmedIsRead(list, q);
  }

  lemma FirstTrimmedIsRead(list: seq<Printed>, q: Printed)
    requires list != [] && AllPlain(list) && list[0].Printed? && list[0].name != ""
    requires q == Printed(TrimStart(list[0].name), list[0].email)
    ensures ParseAddressList(q.Text() + Later(list)) == Readings(list)
  {
    var p := list[0];
    TrimStartTwice(p.name);
    TrimStartDropsSpaces(p.name, "");
    TrimStartKeepsOut(',', p.name);
    TrimStartKeepsOut('"', p.name);
    TrimStartKeepsOut('<', p.name);
    LaterIsRead(list);
    FirstIsRead(q, Later(list), Readings(list[1..]));
  }

  /** The comma of an unquoted name is taken for the end of an address. */
  lemma CommaInNameSplits(x: string, y: string, email: string)
    requires Trim(x) != "" && ',' !in x && '"' !in x && '<' !in x
    ensures var list := ParseAddressList(Printed(x + "," + y, email).Text());
      list != [] && list[0] == MailAddress(None, Trim(x))
  {
    var later := "," + (y + " <" + email + ">");
    var s := Printed(x + "," + y, email).Text();
    assert s == x + later;
    assert x != "";
    PlainTextIsTaken(x, later);
    assert ItemLength(later) == 0;
    FirstItem(s, x, later);
    var items := Items(later);
    assert ([x] + items)[0] == x && ([x] + items)[1..] == items;
    TrimKeepsOut('<', x);
    TrimKeepsOut('"', x);
    BareAddressIsNotMatched(Trim(x));
  }

  lemma {:induction false} TrimEndKeepsOut(c: char, s: string)
    requires c !in s
    ensures c !in TrimEnd(s)
  {
    if s != "" && IsSpace(s[|s| - 1]) {
      TrimEndKeepsOut(c, s[..|s| - 1]);
    }
  }

  lemma TrimKeepsOut(c: char, s: string)
    requires c !in s
    ensures c !in Trim(s)
  {
    TrimStartKeepsOut(c, s);
    TrimEndKeepsOut(c, TrimStart(s));
  }
}
