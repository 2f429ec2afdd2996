/** What a reader is shown of any parsed message, told from the leaves of its part tree. */
module MimeContents {
  import opened Outcomes
  import opened JsText
  import opened MimeHeaders
  import opened MimeParser
  import opened MimeMultipart
  import Utf8

  /** The parts without children, depth first and left to right. */
  function Leaves(part: Part): seq<Part>
    decreases part, 1
  {
    if part.parts == [] then [part] else LeavesOf(part.parts)
  }

  function LeavesOf(parts: seq<Part>): seq<Part>
    decreases parts, 0
  {
    if parts == [] then [] else Leaves(parts[0]) + LeavesOf(parts[1..])
  }

  /** The disposition says so, or there is a name. */
  predicate IsAttached(part: Part) {
    part.disposition == Some(Attached) || (part.filename.Some? && part.filename.value != "")
  }

  predicate IsBody(part: Part, kind: string) {
    !IsAttached(part) && part.mimeType == kind
  }

  predicate IsFirstBody(leaves: seq<Part>, i: nat, kind: string) {
    i < |leaves| && IsBody(leaves[i], kind) && forall j :: 0 <= j < i ==> !IsBody(leaves[j], kind)
  }

  /** The body of the first leaf of the kind, and none without one. */
  ghost predicate ShowsFirst(shown: Option<string>, leaves: seq<Part>, kind: string) {
    && (forall i: nat :: IsFirstBody(leaves, i, kind) ==> shown == Some(Utf8.Decode(leaves[i].body)))
    && ((forall i :: 0 <= i < |leaves| ==> !IsBody(leaves[i], kind)) ==> shown == None)
  }

  function AttachedLeaves(leaves: seq<Part>): seq<Part> {
    if leaves == [] then []
    else (if IsAttached(leaves[0]) then [leaves[0]] else []) + AttachedLeaves(leaves[1..])
  }

  predicate IsViewOf(view: AttachmentView, part: Part) {
    && view.filename == (if part.filename.Some? && part.filename.value != "" then part.filename.value else "attachment")
    && view.mimeType == part.mimeType
    && (view.disposition == Inline <==> part.disposition == Some(Inline))
    && view.contentId == part.contentId
    && view.data == part.body
  }

  ghost predicate AreViewsOf(views: seq<AttachmentView>, parts: seq<Part>) {
    |views| == |parts| && forall i :: 0 <= i < |parts| ==> IsViewOf(views[i], parts[i])
  }

  // ---- the visitor goes over the leaves

  function VisitEach(leaves: seq<Part>, seen: Contents): Contents
    decreases leaves
  {
    if leaves == [] then seen else VisitEach(leaves[1..], VisitLeaf(leaves[0], seen))
  }

  lemma {:induction false} VisitTwo(a: seq<Part>, b: seq<Part>, seen: Contents)
    ensures VisitEach(a + b, seen) == VisitEach(b, VisitEach(a, seen))
    decreases a
  {
    if a == [] {
      assert a + b == b;
    } else {
      assert (a + b)[0] == a[0] && (a + b)[1..] == a[1..] + b;
      VisitTwo(a[1..], b, VisitLeaf(a[0], seen));
    }
  }

  lemma {:induction false} VisitIsOverLeaves(part: Part, seen: Contents)
    ensures VisitPart(part, seen) == VisitEach(Leaves(part), seen)
    decreases part, 1
  {
    if part.parts != [] {
      VisitsAreOverLeaves(part.parts, seen);
    } else {
      assert Leaves(part) == [part] && [part][1..] == [];
    }
  }

  lemma {:induction false} VisitsAreOverLeaves(parts: seq<Part>, seen: Contents)
    ensures VisitParts(parts, seen) == VisitEach(LeavesOf(parts), seen)
    decreases parts, 0
  {
    if parts != [] {
      VisitIsOverLeaves(parts[0], seen);
      VisitsAreOverLeaves(parts[1..], VisitPart(parts[0], seen));
      VisitTwo(Leaves(parts[0]), LeavesOf(parts[1..]), seen);
    }
  }

  // ---- what the visitor collects

  /** What is shown already stays; otherwise the first body of the kind. */
  ghost predicate ShowsAfter(before: Option<string>, shown: Option<string>, leaves: seq<Part>, kind: string) {
    if before.Some? then shown == before else ShowsFirst(shown, leaves, kind)
  }

  lemma LeafIsCollected(part: Part, seen: Contents)
    ensures var after := VisitLeaf(part, seen);
      && after.text == (if IsBody(part, "text/plain") && seen.text.None? then Some(Utf8.Decode(part.body)) else seen.text)
      && after.html == (if IsBody(part, "text/html") && seen.html.None? then Some(Utf8.Decode(part.body)) else seen.html)
      && after.attachments == seen.attachments + (if IsAttached(part) then [ViewOf(part)] else [])
  {
    assert seen.attachments + [] == seen.attachments;
    assert "text/plain" != "text/html";
  }

  lemma FirstOrLater(leaves: seq<Part>, before: Option<string>, middle: Option<string>, shown: Option<string>, kind: string)
    requires leaves != []
    requires middle ==
      if IsBody(leaves[0], kind) && before.None? then Some(Utf8.Decode(leaves[0].body)) else before
    requires ShowsAfter(middle, shown, leaves[1..], kind)
    ensures ShowsAfter(before, shown, leaves, kind)
  {
    if before.None? {
      if IsBody(leaves[0], kind) {
        forall i: nat | IsFirstBody(leaves, i, kind)
          ensures i == 0
        {
        }
      } else {
        forall i: nat | IsFirstBody(leaves, i, kind)
          ensures i > 0 && IsFirstBody(leaves[1..], i - 1, kind)
        {
          assert forall j :: 0 <= j < i - 1 ==> leaves[1..][j] == leaves[j + 1];
        }
      }
    }
  }

  lemma {:induction false} BodiesAreCollected(leaves: seq<Part>, seen: Contents)
    ensures ShowsAfter(seen.text, VisitEach(leaves, seen).text, leaves, "text/plain")
    ensures ShowsAfter(seen.html, VisitEach(leaves, seen).html, leaves, "text/html")
    decreases leaves
  {
    if leaves != [] {
      var next := VisitLeaf(leaves[0], seen);
      var last := VisitEach(leaves[1..], next);
      LeafIsCollected(leaves[0], seen);
      BodiesAreCollected(leaves[1..], next);
      FirstOrLater(leaves, seen.text, next.text, last.text, "text/plain");
      FirstOrLater(leaves, seen.html, next.html, last.html, "text/html");
    }
  }

  function Views(parts: seq<Part>): seq<AttachmentView> {
    seq(|parts|, i requires 0 <= i < |parts| => ViewOf(parts[i]))
  }

  lemma ViewsOfTwo(a: seq<Part>, b: seq<Part>, seen: seq<AttachmentView>)
    ensures seen + Views(a + b) == seen + Views(a) + Views(b)
  {
    assert Views(a + b) == Views(a) + Views(b);
  }

  lemma {:induction false} AttachmentsAreCollected(leaves: seq<Part>, seen: Contents)
    ensures VisitEach(leaves, seen).attachments == seen.attachments + Views(AttachedLeaves(leaves))
    decreases leaves
  {
    if leaves == [] {
      assert seen.attachments + Views([]) == seen.attachments;
    } else {
      var next := VisitLeaf(leaves[0], seen);
      var first := if IsAttached(leaves[0]) then [leaves[0]] else [];
      LeafIsCollected(leaves[0], seen);
      AttachmentsAreCollected(leaves[1..], next);
      ViewsOfTwo(first, AttachedLeaves(leaves[1..]), seen.attachments);
      assert Views(first) == if IsAttached(leaves[0]) then [ViewOf(leaves[0])] else [];
    }
  }

  lemma ViewsAreTold(parts: seq<Part>)
    requires forall i :: 0 <= i < |parts| ==> IsAttached(parts[i])
    ensures AreViewsOf([] + Views(parts), parts)
  {
    assert [] + Views(parts) == Views(parts);
    forall i | 0 <= i < |parts|
      ensures IsViewOf(Views(parts)[i], parts[i])
    {
      ViewIsTold(parts[i]);
    }
  }

  lemma ViewIsTold(part: Part)
    requires IsAttached(part)
    ensures IsViewOf(ViewOf(part), part)
  {
  }

  lemma {:induction false} AttachedLeavesAreAttached(leaves: seq<Part>)
    ensures forall i :: 0 <= i < |AttachedLeaves(leaves)| ==> IsAttached(AttachedLeaves(leaves)[i])
  {
    if leaves != [] {
      AttachedLeavesAreAttached(leaves[1..]);
    }
  }

  lemma LeavesAreTold(leaves: seq<Part>)
    ensures var c := VisitEach(leaves, Contents(None, None, []));
      && ShowsFirst(c.text, leaves, "text/plain")
      && ShowsFirst(c.html, leaves, "text/html")
      && AreViewsOf(c.attachments, AttachedLeaves(leaves))
  {
    BodiesAreCollected(leaves, Contents(None, None, []));
    AttachmentsAreCollected(leaves, Contents(None, None, []));
    AttachedLeavesAreAttached(leaves);
    ViewsAreTold(AttachedLeaves(leaves));
  }

  /**
   For every tree of parts: the text and the html are the first leaf of their type that is no
   attachment, and the attachments are the leaves that are, in order.
   */
  lemma ContentsAreTold(root: Part)
    ensures var leaves, contents := Leaves(root), MessageOf(root).contents;
      && ShowsFirst(contents.text, leaves, "text/plain")
      && ShowsFirst(contents.html, leaves, "text/html")
      && AreViewsOf(contents.attachments, AttachedLeaves(leaves))
  {
    VisitIsOverLeaves(root, Contents(None, None, []));
    LeavesAreTold(Leaves(root));
  }

  // ---- every tree the parser makes

  /** The parts of a tree, itself included. */
  function Size(part: Part): nat
    decreases part, 1
  {
    1 + SizeOf(part.parts)
  }

  function SizeOf(parts: seq<Part>): nat
    decreases parts, 0
  {
    if parts == [] then 0 else Size(parts[0]) + SizeOf(parts[1..])
  }

  /** Only leaves have bodies. */
  predicate OnlyLeavesHaveBodies(part: Part)
    decreases part, 1
  {
    (part.parts != [] ==> part.body == []) && AllOnlyLeavesHaveBodies(part.parts)
  }

  predicate AllOnlyLeavesHaveBodies(parts: seq<Part>)
    decreases parts, 0
  {
    parts == [] || (OnlyLeavesHaveBodies(parts[0]) && AllOnlyLeavesHaveBodies(parts[1..]))
  }

  /** What the counter counted, and the shape of what was made. */
  predicate IsCounted(r: Parsed, counter: nat) {
    r.Ok? ==> r.value.1 == counter + Size(r.value.0) && r.value.1 <= 1000 && OnlyLeavesHaveBodies(r.value.0)
  }

  predicate AreCounted(r: ParsedList, counter: nat) {
    r.Ok? ==> r.value.1 == counter + SizeOf(r.value.0) && AllOnlyLeavesHaveBodies(r.value.0)
              && (r.value.0 == [] || r.value.1 <= 1000)
  }

  lemma AssembledIsCounted(headers: HeaderMap, body: string, children: ParsedList, counter: nat)
    requires counter + 1 <= 1000 && AreCounted(children, counter + 1)
    ensures IsCounted(Assembled(headers, body, children), counter)
  {
  }

  lemma PrependedAreCounted(first: Parsed, rest: ParsedList, counter: nat)
    requires first.Ok? && IsCounted(first, counter) && AreCounted(rest, first.value.1)
    ensures AreCounted(Prepend([first.value.0], rest), counter)
  {
    if rest.Ok? {
      var parts := [first.value.0] + rest.value.0;
      assert parts[0] == first.value.0 && parts[1..] == rest.value.0;
    }
  }

  predicate PartIsFine(raw: string, counter: nat) {
    IsCounted(ParsePart(raw, counter), counter)
  }

  predicate SectionsAreFine(sections: seq<string>, counter: nat, bound: nat)
    requires forall s <- sections :: |s| < bound
  {
    AreCounted(ParseSections(sections, counter, bound), counter)
  }

  lemma PartIsCounted(raw: string, counter: nat, headers: HeaderMap, body: string, children: ParsedList)
    requires HeadersOf(HeaderText(raw)) == headers && BodyText(raw) == body && counter + 1 <= 1000
    requires ParseSections(Sections(headers, body), counter + 1, |raw|) == children
    requires AreCounted(children, counter + 1)
    ensures PartIsFine(raw, counter)
  {
    ParsePartOf(raw, headers, body, counter, children);
    AssembledIsCounted(headers, body, children, counter);
  }

  lemma TooManyAreNotMade(raw: string, counter: nat)
    requires counter + 1 > 1000
    ensures PartIsFine(raw, counter)
  {
  }

  lemma {:induction false} EveryPartIsFine(raw: string, counter: nat)
    ensures PartIsFine(raw, counter)
    decreases |raw|, 1, 0
  {
    if counter + 1 <= 1000 {
      var headers, body := HeadersOf(HeaderText(raw)), BodyText(raw);
      var children := ParseSections(Sections(headers, body), counter + 1, |raw|);
      SectionsAreCounted(Sections(headers, body), counter + 1, |raw|);
      PartIsCounted(raw, counter, headers, body, children);
    } else {
      TooManyAreNotMade(raw, counter);
    }
  }

  lemma {:induction false} SectionsAreCounted(sections: seq<string>, counter: nat, bound: nat)
    requires forall s <- sections :: |s| < bound
    ensures SectionsAreFine(sections, counter, bound)
    decreases bound, 0, |sections|
  {
    if sections != [] && !("--" <= sections[0]) {
      var cleaned := Cleaned(sections[0]);
      assert sections[0] in sections && forall s <- sections[1..] :: s in sections;
      if Trim(cleaned) == "" {
        SectionsAreCounted(sections[1..], counter, bound);
      } else {
        var first := ParsePart(cleaned, counter);
        EveryPartIsFine(cleaned, counter);
        if first.Ok? {
          SectionsAreCounted(sections[1..], first.value.1, bound);
          PrependedAreCounted(first, ParseSections(sections[1..], first.value.1, bound), counter);
        }
      }
    }
  }

  /** The parser counts exactly the parts it makes, makes no more than 1000, and only leaves have bodies. */
  lemma PartsAreCounted(raw: string, counter: nat)
    ensures var r := ParsePart(raw, counter);
      r.Ok? ==> r.value.1 == counter + Size(r.value.0) && r.value.1 <= 1000 && OnlyLeavesHaveBodies(r.value.0)
  {
    EveryPartIsFine(raw, counter);
    assert PartIsFine(raw, counter);
  }
}
