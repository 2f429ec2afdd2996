/**
 The string operations that the mail code relies on: trimming, ASCII case folding, substring
 search, splitting on a marker, and joining lines with CRLF.
 A string is a sequence of Unicode scalar values.
 */
module JsText {

  const CRLF := "\r\n"

  /** White space and line terminators, as `trim` and `\s` understand them. */
  predicate IsSpace(c: char) {
    || '\t' <= c <= '\r' || c == ' '
    || c == '\U{00A0}' || c == '\U{1680}' || '\U{2000}' <= c <= '\U{200A}'
    || c == '\U{2028}' || c == '\U{2029}' || c == '\U{202F}' || c == '\U{205F}'
    || c == '\U{3000}' || c == '\U{FEFF}'
  }

  function TrimStart(s: string): string {
    if s != "" && IsSpace(s[0]) then TrimStart(s[1..]) else s
  }

  function TrimEnd(s: string): string {
    if s != "" && IsSpace(s[|s| - 1]) then TrimEnd(s[..|s| - 1]) else s
  }

  function Trim(s: string): string {
    TrimEnd(TrimStart(s))
  }

  /** No white space at either end. */
  predicate Trimmed(s: string) {
    s == "" || (!IsSpace(s[0]) && !IsSpace(s[|s| - 1]))
  }

  lemma TrimSpaceThen(s: string)
    requires Trimmed(s)
    ensures Trim(s) == s
    ensures Trim(" " + s) == s
  {
  }

  lemma {:induction false} TrimStartKeepsVisible(s: string, i: nat)
    requires i < |s| && !IsSpace(s[i])
    ensures TrimStart(s) != "" && !IsSpace(TrimStart(s)[0])
    ensures exists j :: 0 <= j < |TrimStart(s)| && TrimStart(s)[j] == s[i]
  {
    if IsSpace(s[0]) {
      TrimStartKeepsVisible(s[1..], i - 1);
    }
  }

  /** A string with a visible character does not trim to nothing. */
  lemma VisibleSurvivesTrim(s: string, i: nat)
    requires i < |s| && !IsSpace(s[i])
    ensures Trim(s) != ""
  {
    TrimStartKeepsVisible(s, i);
    TrimEndKeepsHead(TrimStart(s));
  }

  lemma {:induction false} TrimEndKeepsHead(s: string)
    requires s != "" && !IsSpace(s[0])
    ensures TrimEnd(s) != ""
  {
    if IsSpace(s[|s| - 1]) {
      TrimEndKeepsHead(s[..|s| - 1]);
    }
  }

  function LowerChar(c: char): char {
    if 'A' <= c <= 'Z' then (c as int + 32) as char else c
  }

  /** Lower case of the ASCII letters. */
  function Lower(s: string): string {
    seq(|s|, i requires 0 <= i < |s| => LowerChar(s[i]))
  }

  predicate OccursAt(p: string, s: string, i: int) {
    0 <= i <= |s| - |p| && s[i..i + |p|] == p
  }

  predicate Occurs(p: string, s: string) {
    exists i | 0 <= i <= |s| :: OccursAt(p, s, i)
  }

  /** `/p/i.test(s)` for a lower-case literal p. */
  predicate OccursIgnoringCase(p: string, s: string) {
    Occurs(p, Lower(s))
  }

  predicate NewlineFree(s: string) {
    '\r' !in s && '\n' !in s
  }

  predicate Hex(c: char) {
    '0' <= c <= '9' || 'a' <= c <= 'f' || 'A' <= c <= 'F'
  }

  function HexValue(c: char): int
    requires Hex(c)
  {
    if c <= '9' then c as int - 48 else if c <= 'F' then c as int - 55 else c as int - 87
  }

  // ---- splitting on a marker

  /** `s.split(m)`: the pieces between non-overlapping occurrences, leftmost first. */
  function SplitOn(s: string, m: string): (pieces: seq<string>)
    requires m != ""
    ensures pieces != []
    ensures forall i :: 0 <= i < |pieces| ==> |pieces[i]| <= |s|
    ensures forall i :: 0 < i < |pieces| ==> |pieces[i]| + |m| <= |s|
    decreases |s|
  {
    if |s| < |m| then [s]
    else if m <= s then [""] + SplitOn(s[|m|..], m)
    else
      var rest := SplitOn(s[1..], m);
      [[s[0]] + rest[0]] + rest[1..]
  }

  /** No occurrence of the marker starts inside `a` when `a + m + b` is scanned. */
  ghost predicate FreeBefore(a: string, m: string, b: string) {
    forall i :: 0 <= i < |a| ==> !OccursAt(m, a + m + b, i)
  }

  lemma {:induction false} SplitAtMarker(a: string, m: string, b: string)
    requires m != "" && FreeBefore(a, m, b)
    ensures SplitOn(a + m + b, m) == [a] + SplitOn(b, m)
  {
    var s := a + m + b;
    if a == "" {
      assert s == m + b;
      assert s[|m|..] == b;
    } else {
      var t := a[1..] + m + b;
      assert s[1..] == t;
      forall i | 0 <= i < |a[1..]|
        ensures !OccursAt(m, t, i)
      {
        assert !OccursAt(m, s, i + 1);
        assert t[i..i + |m|] == s[i + 1..i + 1 + |m|];
      }
      SplitAtMarker(a[1..], m, b);
      assert !OccursAt(m, s, 0);
      assert [s[0]] + a[1..] == a;
    }
  }

  lemma {:induction false} SplitWithoutMarker(s: string, m: string)
    requires m != "" && !Occurs(m, s)
    ensures SplitOn(s, m) == [s]
  {
    if |s| >= |m| {
      assert !OccursAt(m, s, 0);
      forall i | 0 <= i <= |s[1..]|
        ensures !OccursAt(m, s[1..], i)
      {
        assert !OccursAt(m, s, i + 1);
        if i + |m| <= |s[1..]| {
          assert s[1..][i..i + |m|] == s[i + 1..i + 1 + |m|];
        }
      }
      SplitWithoutMarker(s[1..], m);
      assert s[0..|m|] == s[..|m|];
      assert [s[0]] + s[1..] == s;
    }
  }

  /** A line-terminated block that does not contain a newline-free marker is free before it. */
  lemma LineEndIsolates(a: string, m: string, b: string)
    requires m != "" && NewlineFree(m) && !Occurs(m, a)
    requires a == "" || a[|a| - 1] == '\n'
    ensures FreeBefore(a, m, b)
  {
    var s := a + m + b;
    forall i | 0 <= i < |a|
      ensures !OccursAt(m, s, i)
    {
      if i + |m| <= |a| {
        assert !OccursAt(m, a, i);
        assert a[i..i + |m|] == s[i..i + |m|];
      } else {
        var k := |a| - 1 - i;
        assert s[i..i + |m|][k] == '\n' != m[k];
      }
    }
  }

  /** A newline-free marker never spans a line end. */
  lemma OccursInOneSide(m: string, x: string, y: string)
    requires m != "" && NewlineFree(m)
    requires !Occurs(m, x) && !Occurs(m, y)
    ensures !Occurs(m, x + CRLF + y)
  {
    var s := x + CRLF + y;
    forall i | 0 <= i <= |s| - |m|
      ensures !OccursAt(m, s, i)
    {
      var w := s[i..i + |m|];
      if i + |m| <= |x| {
        assert !OccursAt(m, x, i);
        assert x[i..i + |m|] == w;
      } else if i >= |x| + 2 {
        var k := i - |x| - 2;
        assert !OccursAt(m, y, k);
        assert y[k..k + |m|] == w;
      } else if i <= |x| {
        assert w[|x| - i] == '\r' != m[|x| - i];
      } else {
        assert w[0] == '\n' != m[0];
      }
    }
  }

  lemma OccursNeedsChar(m: string, s: string, k: nat)
    requires k < |m| && m[k] !in s
    ensures !Occurs(m, s)
  {
  }

  // ---- joining lines

  /** `lines.join("\r\n")` */
  function Join(lines: seq<string>): string {
    if lines == [] then ""
    else if |lines| == 1 then lines[0]
    else lines[0] + CRLF + Join(lines[1..])
  }

  lemma {:induction false} JoinConcat(a: seq<string>, b: seq<string>)
    requires a != [] && b != []
    ensures Join(a + b) == Join(a) + CRLF + Join(b)
  {
    if |a| == 1 {
      assert (a + b)[1..] == b;
    } else {
      JoinConcat(a[1..], b);
      assert (a + b)[1..] == a[1..] + b;
      assert a[0] + CRLF + (Join(a[1..]) + CRLF + Join(b)) == (a[0] + CRLF + Join(a[1..])) + CRLF + Join(b);
    }
  }

  lemma {:induction false} NoMarkerInJoin(m: string, lines: seq<string>)
    requires m != "" && NewlineFree(m)
    requires forall i :: 0 <= i < |lines| ==> !Occurs(m, lines[i])
    ensures !Occurs(m, Join(lines))
  {
    if |lines| > 1 {
      NoMarkerInJoin(m, lines[1..]);
      OccursInOneSide(m, lines[0], Join(lines[1..]));
    }
  }
}
