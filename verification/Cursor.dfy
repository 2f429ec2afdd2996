/**
 Ordering and reconciliation of provider cursors.

 Tokens are sequences of UTF-16 code units, which is what `length` and `<` look at. `Number` is a
 parameter; all that is needed of it is that it reads canonical decimals below 2^53 exactly.
 */
module Cursor {
  import opened CodeOrder
  import opened Decimal
  import opened Outcomes

  type Token = seq<int>

  /** `Number(token)`; None stands for NaN and the infinities. */
  type ToNumber = Token -> Option<real>

  const TWO_TO_53 := 0x20_0000_0000_0000

  predicate IsSpaceUnit(c: int) {
    || 9 <= c <= 13 || c == 32 || c == 0xA0 || c == 0x1680 || 0x2000 <= c <= 0x200A
    || c == 0x2028 || c == 0x2029 || c == 0x202F || c == 0x205F || c == 0x3000 || c == 0xFEFF
  }

  /** `token.trim() === ""` */
  predicate IsBlank(t: Token) {
    forall c <- t :: IsSpaceUnit(c)
  }

  predicate IsNumeric(num: ToNumber, t: Token) {
    num(t).Some? && !IsBlank(t)
  }

  /** A history id as Gmail issues them. */
  predicate IsHistoryId(t: Token) {
    Canonical(t) && Value(t) < TWO_TO_53
  }

  ghost predicate ReadsHistoryIds(num: ToNumber) {
    forall t: Token :: IsHistoryId(t) ==> num(t) == Some(Value(t) as real)
  }

  /** `compareOpaqueToken` */
  function Compare(num: ToNumber, a: Token, b: Token): int {
    if IsNumeric(num, a) && IsNumeric(num, b) then
      if num(a).value == num(b).value then 0 else if num(a).value > num(b).value then 1 else -1
    else if |a| != |b| then if |a| > |b| then 1 else -1
    else if a == b then 0 else if LexLess(b, a) then 1 else -1
  }

  /** The tokens on which the two branches of the comparison fit together. */
  predicate IsOrderable(num: ToNumber, t: Token) {
    IsHistoryId(t) || !IsNumeric(num, t)
  }

  lemma HistoryIdsAreNumeric(num: ToNumber, t: Token)
    requires ReadsHistoryIds(num) && IsHistoryId(t)
    ensures IsNumeric(num, t) && num(t).value == Value(t) as real
  {
    assert IsDigit(t[0]) && t[0] in t;
  }

  /** Numeric order and the fallback are one total order: shorter first, then lexicographic. */
  lemma CompareIsShortLex(num: ToNumber, a: Token, b: Token)
    requires ReadsHistoryIds(num) && IsOrderable(num, a) && IsOrderable(num, b)
    ensures Compare(num, a, b) < 0 <==> ShortLexLess(a, b)
    ensures Compare(num, a, b) == 0 <==> a == b
    ensures Compare(num, a, b) > 0 <==> ShortLexLess(b, a)
  {
    ShortLexIsTrichotomous(a, b);
    if IsHistoryId(a) && IsHistoryId(b) {
      HistoryIdsAreNumeric(num, a);
      HistoryIdsAreNumeric(num, b);
      NumericOrderIsShortLex(a, b);
      NumericOrderIsShortLex(b, a);
    }
  }

  lemma CompareIsAntisymmetric(num: ToNumber, a: Token, b: Token)
    ensures Compare(num, a, b) == -Compare(num, b, a)
  {
    LexIsTrichotomous(a, b);
  }

  /** The one history id of a number below 2^53. */
  lemma PrintIsHistoryId(n: nat)
    requires n < TWO_TO_53
    ensures IsHistoryId(Print(n)) && Value(Print(n)) == n
  {
    PrintIsCanonical(n);
  }

  /** t ties with no history id but itself, as one order on tokens demands. */
  ghost predicate TiesOnlyWithItself(num: ToNumber, t: Token) {
    forall a: Token :: IsHistoryId(a) ==> (Compare(num, t, a) == 0 <==> t == a)
  }

  /**
   Of the tokens that read as a whole number below 2^53, exactly the history ids fit the order:
   any other spelling ("007", "1e3", " 12", "0x1f") ties with a different token.
   */
  lemma HistoryIdsFitExactly(num: ToNumber, t: Token, n: nat)
    requires ReadsHistoryIds(num) && IsNumeric(num, t) && num(t) == Some(n as real) && n < TWO_TO_53
    ensures IsHistoryId(t) <==> TiesOnlyWithItself(num, t)
    ensures !IsHistoryId(t) ==> t != Print(n) && Compare(num, t, Print(n)) == 0
  {
    PrintIsHistoryId(n);
    HistoryIdsAreNumeric(num, Print(n));
    if IsHistoryId(t) {
      forall a: Token | IsHistoryId(a)
        ensures Compare(num, t, a) == 0 <==> t == a
      {
        CompareIsShortLex(num, t, a);
      }
    } else {
      assert Compare(num, t, Print(n)) == 0 && t != Print(n);
    }
  }

  // ---- reconciliation

  datatype SyncCursor = SyncCursor(accountId: string, provider: string, token: Token, updatedAt: string)

  datatype CursorError = AccountMismatch | ProviderMismatch

  /** `reconcileCursor` */
  function Reconcile(num: ToNumber, current: Option<SyncCursor>, incoming: SyncCursor): Result<SyncCursor, CursorError> {
    match current
    case None => Ok(incoming)
    case Some(cursor) =>
      if cursor.accountId != incoming.accountId then Err(AccountMismatch)
      else if cursor.provider != incoming.provider then Err(ProviderMismatch)
      else Ok(if Compare(num, cursor.token, incoming.token) >= 0 then cursor else incoming)
  }

  /** The first cursor is taken as it is. */
  lemma FirstCursorIsTaken(num: ToNumber, incoming: SyncCursor)
    ensures Reconcile(num, None, incoming) == Ok(incoming)
  {
  }

  /**
   Two tokens that read as numbers compare as these; blank tokens never do, whatever `Number` makes of
   them, and are compared by length and then by their units like any other token.
   */
  lemma BlankTokensAreNoNumbers(num: ToNumber, a: Token, b: Token)
    requires forall c <- a :: c in {9, 10, 11, 12, 13, 32, 0xA0}
    ensures Compare(num, a, b) < 0 <==> ShortLexLess(a, b)
    ensures Compare(num, a, b) == 0 <==> a == b
  {
    ShortLexIsTrichotomous(a, b);
  }

  /** Cursors of one account at one provider, with tokens that can be ordered. */
  ghost predicate Comparable(num: ToNumber, a: SyncCursor, b: SyncCursor) {
    && a.accountId == b.accountId && a.provider == b.provider
    && IsOrderable(num, a.token) && IsOrderable(num, b.token)
  }

  /** No newer than. */
  predicate AtMost(a: Token, b: Token) {
    a == b || ShortLexLess(a, b)
  }

  lemma ReconcileIsMaximum(num: ToNumber, a: SyncCursor, b: SyncCursor)
    requires ReadsHistoryIds(num) && Comparable(num, a, b)
    ensures Reconcile(num, Some(a), b) == Ok(if ShortLexLess(a.token, b.token) then b else a)
  {
    CompareIsShortLex(num, a.token, b.token);
    ShortLexIsTrichotomous(a.token, b.token);
  }

  /** Delivering the same cursor twice changes nothing. */
  lemma ReconcileIsIdempotent(num: ToNumber, a: Option<SyncCursor>, b: SyncCursor)
    requires Reconcile(num, a, b).Ok?
    ensures Reconcile(num, Some(b), b) == Ok(b)
    ensures Reconcile(num, Some(Reconcile(num, a, b).value), b) == Reconcile(num, a, b)
  {
  }

  /** Grouping does not matter; order does not matter to the token. */
  lemma ReconcileIsAJoin(num: ToNumber, a: SyncCursor, b: SyncCursor, c: SyncCursor)
    requires ReadsHistoryIds(num) && Comparable(num, a, b) && Comparable(num, b, c)
    ensures Reconcile(num, Some(a), b).Ok? && Reconcile(num, Some(b), a).Ok? && Reconcile(num, Some(b), c).Ok?
    ensures Reconcile(num, Some(Reconcile(num, Some(a), b).value), c)
         == Reconcile(num, Some(a), Reconcile(num, Some(b), c).value)
    ensures Reconcile(num, Some(a), b).value.token == Reconcile(num, Some(b), a).value.token
  {
    ReconcileIsMaximum(num, a, b);
    ReconcileIsMaximum(num, b, a);
    ReconcileIsMaximum(num, b, c);
    ReconcileIsMaximum(num, a, c);
    ShortLexIsTrichotomous(a.token, b.token);
    ShortLexIsTrichotomous(b.token, c.token);
    if ShortLexLess(a.token, b.token) && ShortLexLess(b.token, c.token) {
      ShortLexIsTransitive(a.token, b.token, c.token);
    }
    if ShortLexLess(b.token, a.token) && ShortLexLess(c.token, b.token) {
      ShortLexIsTransitive(c.token, b.token, a.token);
      ShortLexIsTrichotomous(c.token, a.token);
    }
  }

  // ---- any delivery order

  /** The cursor after a sequence of deliveries; the first error stops it. */
  function Deliver(num: ToNumber, current: SyncCursor, incoming: seq<SyncCursor>): Result<SyncCursor, CursorError>
    decreases |incoming|
  {
    if incoming == [] then Ok(current)
    else match Reconcile(num, Some(current), incoming[0])
      case Err(e) => Err(e)
      case Ok(next) => Deliver(num, next, incoming[1..])
  }

  ghost predicate AllComparable(num: ToNumber, current: SyncCursor, incoming: seq<SyncCursor>) {
    IsOrderable(num, current.token) && forall c <- incoming :: Comparable(num, current, c)
  }

  /** t is one of the tokens seen. */
  predicate IsSeen(current: SyncCursor, incoming: seq<SyncCursor>, t: Token) {
    t == current.token || exists c <- incoming :: c.token == t
  }

  lemma {:induction false} DeliverKeepsMaximum(num: ToNumber, current: SyncCursor, incoming: seq<SyncCursor>)
    requires ReadsHistoryIds(num) && AllComparable(num, current, incoming)
    ensures Deliver(num, current, incoming).Ok?
    ensures IsSeen(current, incoming, Deliver(num, current, incoming).value.token)
    ensures AtMost(current.token, Deliver(num, current, incoming).value.token)
    ensures forall c <- incoming :: AtMost(c.token, Deliver(num, current, incoming).value.token)
    decreases |incoming|
  {
    if incoming != [] {
      var first := incoming[0];
      assert first in incoming && Comparable(num, current, first);
      ReconcileIsMaximum(num, current, first);
      ShortLexIsTrichotomous(current.token, first.token);
      var next := Reconcile(num, Some(current), first).value;
      forall c | c in incoming[1..]
        ensures Comparable(num, next, c)
      {
        assert c in incoming && Comparable(num, current, c);
      }
      DeliverKeepsMaximum(num, next, incoming[1..]);
      var last := Deliver(num, next, incoming[1..]).value.token;
      AtMostIsTransitive(current.token, next.token, last);
      AtMostIsTransitive(first.token, next.token, last);
      assert forall c <- incoming :: c == first || c in incoming[1..];
    }
  }

  lemma AtMostIsTransitive(a: Token, b: Token, c: Token)
    ensures AtMost(a, b) && AtMost(b, c) ==> AtMost(a, c)
  {
    if ShortLexLess(a, b) && ShortLexLess(b, c) {
      ShortLexIsTransitive(a, b, c);
    }
  }

  /** Deliveries of the same cursors in any order and any multiplicity end at the same token. */
  lemma DeliveryOrderIsIrrelevant(num: ToNumber, current: SyncCursor, a: seq<SyncCursor>, b: seq<SyncCursor>)
    requires ReadsHistoryIds(num) && AllComparable(num, current, a)
    requires forall c :: c in a <==> c in b
    ensures Deliver(num, current, a).Ok? && Deliver(num, current, b).Ok?
    ensures Deliver(num, current, a).value.token == Deliver(num, current, b).value.token
  {
    DeliverKeepsMaximum(num, current, a);
    DeliverKeepsMaximum(num, current, b);
    ShortLexIsTrichotomous(Deliver(num, current, a).value.token, Deliver(num, current, b).value.token);
  }

  /** A cursor of another account or provider stops the run with the matching error. */
  lemma {:induction false} MismatchIsReported(num: ToNumber, current: SyncCursor, before: seq<SyncCursor>, other: SyncCursor)
    requires ReadsHistoryIds(num) && AllComparable(num, current, before)
    requires other.accountId != current.accountId || other.provider != current.provider
    ensures Deliver(num, current, before + [other])
         == Err(if other.accountId != current.accountId then AccountMismatch else ProviderMismatch)
    decreases |before|
  {
    if before == [] {
      assert before + [other] == [other];
    } else {
      assert before[0] in before;
      ReconcileIsMaximum(num, current, before[0]);
      assert (before + [other])[1..] == before[1..] + [other];
      assert forall c <- before[1..] :: c in before;
      MismatchIsReported(num, Reconcile(num, Some(current), before[0]).value, before[1..], other);
    }
  }

  // ---- what goes wrong with other numerals

  /** Both tokens are numerals of the same number. */
  predicate SameNumber(num: ToNumber, a: Token, b: Token) {
    IsNumeric(num, a) && IsNumeric(num, b) && num(a).value == num(b).value
  }

  /** Delivering either cursor after the other ends at the same token. */
  predicate Commute(num: ToNumber, a: SyncCursor, b: SyncCursor) {
    && Deliver(num, a, [b]).Ok? && Deliver(num, b, [a]).Ok?
    && Deliver(num, a, [b]).value.token == Deliver(num, b, [a]).value.token
  }

  lemma DeliverOne(num: ToNumber, a: SyncCursor, b: SyncCursor)
    requires a.accountId == b.accountId && a.provider == b.provider
    ensures Deliver(num, a, [b]) == Ok(if Compare(num, a.token, b.token) >= 0 then a else b)
  {
    var next := if Compare(num, a.token, b.token) >= 0 then a else b;
    assert [b][1..] == [];
    assert Deliver(num, next, []) == Ok(next);
  }

  /**
   For all cursors of an account, numerals or not: the order of two deliveries is irrelevant exactly
   when their tokens are not two spellings of one number.
   */
  lemma DeliveriesCommuteExactly(num: ToNumber, a: SyncCursor, b: SyncCursor)
    requires a.accountId == b.accountId && a.provider == b.provider
    ensures Commute(num, a, b) <==> (SameNumber(num, a.token, b.token) ==> a.token == b.token)
  {
    DeliverOne(num, a, b);
    DeliverOne(num, b, a);
    CompareIsAntisymmetric(num, a.token, b.token);
    LexIsTrichotomous(a.token, b.token);
  }

  ghost predicate CommutesWithHistoryIds(num: ToNumber, c: SyncCursor) {
    forall a: Token :: IsHistoryId(a) ==> Commute(num, c, c.(token := a))
  }

  /**
   A cursor whose token reads as a whole number below 2^53 can be delivered in any order beside
   history ids exactly when its token is one; otherwise the history id of the same number and it end
   at different tokens in the two orders.
   */
  lemma OnlyHistoryIdsCommute(num: ToNumber, c: SyncCursor, n: nat)
    requires ReadsHistoryIds(num) && IsNumeric(num, c.token) && num(c.token) == Some(n as real) && n < TWO_TO_53
    ensures CommutesWithHistoryIds(num, c) <==> IsHistoryId(c.token)
    ensures !IsHistoryId(c.token) ==> !Commute(num, c, c.(token := Print(n)))
  {
    PrintIsHistoryId(n);
    HistoryIdsAreNumeric(num, Print(n));
    DeliveriesCommuteExactly(num, c, c.(token := Print(n)));
    if IsHistoryId(c.token) {
      forall a: Token | IsHistoryId(a)
        ensures Commute(num, c, c.(token := a))
      {
        CompareIsShortLex(num, c.token, a);
        DeliveriesCommuteExactly(num, c, c.(token := a));
      }
    }
  }

  /** "1e3", "999" and "5xx" even form a cycle, for a `Number` that reads them as JavaScript does. */
  lemma OtherNumeralsCycle(num: ToNumber)
    requires ReadsHistoryIds(num)
    requires num([49, 101, 51]) == Some(1000.0) && num([53, 120, 120]) == None
    ensures Compare(num, [49, 101, 51], [57, 57, 57]) > 0
    ensures Compare(num, [57, 57, 57], [53, 120, 120]) > 0
    ensures Compare(num, [53, 120, 120], [49, 101, 51]) > 0
  {
    var nines: Token := [57, 57, 57];
    assert nines[..2] == [57, 57] && nines[..2][..1] == [57] && nines[..2][..1][..0] == [];
    assert Value([57, 57][..1]) == 9;
    assert Value(nines) == 999;
    HistoryIdsAreNumeric(num, nines);
    assert [49, 101, 51][0] == 49 && !IsSpaceUnit(49);
  }
}
