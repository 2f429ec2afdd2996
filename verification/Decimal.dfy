/**
 Decimal numerals as sequences of character codes.

 The relay prints revisions into object keys, the stdio protocol prints and parses frame
 lengths, and provider cursors are decimal history ids: all three rest on the facts here.
 */
module Decimal {
  import opened CodeOrder
  import opened Outcomes

  predicate IsDigit(c: int) {
    48 <= c <= 57
  }

  predicate AllDigits(s: seq<int>) {
    forall i :: 0 <= i < |s| ==> IsDigit(s[i])
  }

  /** The numeral that `${n}` and `n.to_string()` produce. */
  function Print(n: nat): seq<Byte> {
    if n < 10 then [48 + n] else Print(n / 10) + [48 + n % 10]
  }

  /** The number a string of digits denotes, as `parseInt(s, 10)` reads it. */
  function Value(s: seq<int>): nat
    requires AllDigits(s)
  {
    if s == [] then 0 else 10 * Value(s[..|s| - 1]) + (s[|s| - 1] - 48)
  }

  function DigitChars(digits: seq<Byte>): string
    requires AllDigits(digits)
  {
    seq(|digits|, i requires 0 <= i < |digits| => digits[i] as char)
  }

  /** A numeral without superfluous leading zeros. */
  predicate Canonical(s: seq<int>) {
    && s != []
    && AllDigits(s)
    && (|s| > 1 ==> s[0] != 48)
  }

  lemma {:induction false} PrintIsCanonical(n: nat)
    ensures Canonical(Print(n))
    ensures n > 0 ==> Print(n)[0] != 48
    ensures Value(Print(n)) == n
  {
    if n >= 10 {
      PrintIsCanonical(n / 10);
      assert Print(n)[..|Print(n)| - 1] == Print(n / 10);
    }
  }

  lemma PrintIsInjective(a: nat, b: nat)
    requires Print(a) == Print(b)
    ensures a == b
  {
    PrintIsCanonical(a);
    PrintIsCanonical(b);
  }

  function Pow10(n: nat): nat {
    if n == 0 then 1 else 10 * Pow10(n - 1)
  }

  lemma {:induction false} ValueBelowPow10(s: seq<int>)
    requires AllDigits(s)
    ensures Value(s) < Pow10(|s|)
  {
    if s != [] {
      ValueBelowPow10(s[..|s| - 1]);
    }
  }

  lemma {:induction false} ValueOfConcat(d: int, s: seq<int>)
    requires IsDigit(d) && AllDigits(s)
    ensures AllDigits([d] + s)
    ensures Value([d] + s) == (d - 48) * Pow10(|s|) + Value(s)
  {
    if s == [] {
      assert ([d] + s)[..0] == [];
      assert Pow10(0) == 1;
    } else {
      var init := s[..|s| - 1];
      ValueOfConcat(d, init);
      ValueOfLast([d] + s, [d] + init);
      ValueOfLast(s, init);
      NextPow10(d - 48, |init|);
    }
  }

  lemma ValueOfLast(s: seq<int>, init: seq<int>)
    requires AllDigits(s) && s != [] && init == s[..|s| - 1]
    ensures AllDigits(init) && Value(s) == 10 * Value(init) + (s[|s| - 1] - 48)
  {
  }

  lemma NextPow10(x: int, n: nat)
    ensures x * Pow10(n + 1) == 10 * (x * Pow10(n))
  {
    var p := Pow10(n);
    assert x * (10 * p) == 10 * (x * p);
  }

  /** The leading digit decides, whatever follows. */
  lemma LeadingDigitDecides(x: int, y: int, p: nat, u: nat, v: nat)
    requires x < y && u < p && v < p
    ensures x * p + u < y * p + v
  {
    var d := y - x - 1;
    assert d * p >= 0;
    calc {
      y * p;
      (x + 1 + d) * p;
      x * p + p + d * p;
    }
  }

  lemma {:induction false} EqualLengthOrder(a: seq<int>, b: seq<int>)
    requires AllDigits(a) && AllDigits(b) && |a| == |b|
    ensures Value(a) < Value(b) <==> LexLess(a, b)
    ensures Value(a) == Value(b) <==> a == b
  {
    if a != [] {
      var x, y, ra, rb := a[0], b[0], a[1..], b[1..];
      assert a == [x] + ra && b == [y] + rb;
      ValueOfConcat(x, ra);
      ValueOfConcat(y, rb);
      ValueBelowPow10(ra);
      ValueBelowPow10(rb);
      EqualLengthOrder(ra, rb);
      if x < y {
        LeadingDigitDecides(x - 48, y - 48, Pow10(|ra|), Value(ra), Value(rb));
      } else if y < x {
        LeadingDigitDecides(y - 48, x - 48, Pow10(|ra|), Value(rb), Value(ra));
      }
    }
  }

  /** On canonical numerals the numeric order is exactly the short-lex order. */
  lemma NumericOrderIsShortLex(a: seq<int>, b: seq<int>)
    requires Canonical(a) && Canonical(b)
    ensures Value(a) < Value(b) <==> ShortLexLess(a, b)
    ensures Value(a) == Value(b) <==> a == b
  {
    if |a| == |b| {
      EqualLengthOrder(a, b);
    } else if |a| < |b| {
      ShorterIsSmaller(a, b);
    } else {
      ShorterIsSmaller(b, a);
    }
  }

  lemma ShorterIsSmaller(a: seq<int>, b: seq<int>)
    requires Canonical(a) && Canonical(b) && |a| < |b|
    ensures Value(a) < Value(b)
  {
  }
}
