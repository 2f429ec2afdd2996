/**
 The orders on sequences of codes that the sources sort and compare by: bytewise, as SQLite and
 `<` on strings have it, and by length first.
 */
module CodeOrder {

  /** Strict lexicographic order. */
  predicate LexLess(a: seq<int>, b: seq<int>) {
    if b == [] then false
    else if a == [] then true
    else a[0] < b[0] || (a[0] == b[0] && LexLess(a[1..], b[1..]))
  }

  /** Shorter first; equal lengths lexicographically. */
  predicate ShortLexLess(a: seq<int>, b: seq<int>) {
    |a| < |b| || (|a| == |b| && LexLess(a, b))
  }

  /** Exactly one of a < b, a == b and b < a holds. */
  lemma {:induction false} LexIsTrichotomous(a: seq<int>, b: seq<int>)
    ensures LexLess(a, b) ==> a != b && !LexLess(b, a)
    ensures a == b || LexLess(a, b) || LexLess(b, a)
  {
    if a != [] && b != [] {
      LexIsTrichotomous(a[1..], b[1..]);
      assert a == [a[0]] + a[1..] && b == [b[0]] + b[1..];
    }
  }

  lemma {:induction false} LexIsTransitive(a: seq<int>, b: seq<int>, c: seq<int>)
    requires LexLess(a, b) && LexLess(b, c)
    ensures LexLess(a, c)
  {
    if a != [] && a[0] == b[0] && b[0] == c[0] {
      LexIsTransitive(a[1..], b[1..], c[1..]);
    }
  }

  lemma ShortLexIsTrichotomous(a: seq<int>, b: seq<int>)
    ensures ShortLexLess(a, b) ==> a != b && !ShortLexLess(b, a)
    ensures a == b || ShortLexLess(a, b) || ShortLexLess(b, a)
  {
    LexIsTrichotomous(a, b);
  }

  lemma ShortLexIsTransitive(a: seq<int>, b: seq<int>, c: seq<int>)
    requires ShortLexLess(a, b) && ShortLexLess(b, c)
    ensures ShortLexLess(a, c)
  {
    if |a| == |b| == |c| {
      LexIsTransitive(a, b, c);
    }
  }
}
