/**
 The unified inbox: the newest threads over all accounts from the newest threads of each.

 The collation that compares the timestamps is a parameter; all that is needed of it is that it orders them.
 */
module UnifiedInbox {

  datatype Thread = Thread(account: string, id: string, lastMessageAt: string)

  /** `a.localeCompare(b)` */
  type Collation = (string, string) -> int

  /** Comparison both ways agrees, and is transitive. */
  ghost predicate IsOrder(cmp: Collation) {
    && (forall a, b :: Opposite(cmp, a, b))
    && (forall a, b, c :: Chains(cmp, a, b, c))
  }

  predicate Opposite(cmp: Collation, a: string, b: string) {
    (cmp(a, b) > 0 <==> cmp(b, a) < 0) && (cmp(a, b) == 0 <==> cmp(b, a) == 0)
  }

  predicate Chains(cmp: Collation, a: string, b: string, c: string) {
    AtLeast(cmp, a, b) && AtLeast(cmp, b, c) ==> AtLeast(cmp, a, c)
  }

  /** a is no older than b. */
  predicate AtLeast(cmp: Collation, a: string, b: string) {
    cmp(a, b) >= 0
  }

  function Min(a: nat, b: nat): nat {
    if a < b then a else b
  }

  function Flat(batches: seq<seq<Thread>>): seq<Thread> {
    if batches == [] then [] else batches[0] + Flat(batches[1..])
  }

  /** Puts x before the first thread that is not newer. */
  function Insert(cmp: Collation, x: Thread, sorted: seq<Thread>): seq<Thread> {
    if sorted == [] || AtLeast(cmp, x.lastMessageAt, sorted[0].lastMessageAt) then [x] + sorted
    else [sorted[0]] + Insert(cmp, x, sorted[1..])
  }

  /** Newest first; `Array.prototype.sort` is stable. */
  function Sort(cmp: Collation, threads: seq<Thread>): seq<Thread> {
    if threads == [] then [] else Insert(cmp, threads[0], Sort(cmp, threads[1..]))
  }

  function Take(threads: seq<Thread>, limit: nat): seq<Thread> {
    threads[..Min(limit, |threads|)]
  }

  /** `listUnifiedInbox` on what the providers returned. */
  function ListUnifiedInbox(cmp: Collation, batches: seq<seq<Thread>>, limit: nat): seq<Thread> {
    Take(Sort(cmp, Flat(batches)), limit)
  }

  // ---- sorting

  predicate IsSorted(cmp: Collation, s: seq<Thread>) {
    forall i, j :: 0 <= i < j < |s| ==> AtLeast(cmp, s[i].lastMessageAt, s[j].lastMessageAt)
  }

  lemma {:induction false} InsertPermutes(cmp: Collation, x: Thread, s: seq<Thread>)
    ensures multiset(Insert(cmp, x, s)) == multiset{x} + multiset(s)
  {
    if s != [] && !AtLeast(cmp, x.lastMessageAt, s[0].lastMessageAt) {
      InsertPermutes(cmp, x, s[1..]);
      assert s == [s[0]] + s[1..];
    }
  }

  /** No thread of s is newer than t. */
  predicate Bounds(cmp: Collation, t: string, s: seq<Thread>) {
    forall i :: 0 <= i < |s| ==> AtLeast(cmp, t, s[i].lastMessageAt)
  }

  lemma {:induction false} InsertKeepsBound(cmp: Collation, t: string, x: Thread, s: seq<Thread>)
    requires IsOrder(cmp)
    requires Bounds(cmp, t, s) && AtLeast(cmp, t, x.lastMessageAt)
    ensures Bounds(cmp, t, Insert(cmp, x, s))
  {
    if s != [] && !AtLeast(cmp, x.lastMessageAt, s[0].lastMessageAt) {
      InsertKeepsBound(cmp, t, x, s[1..]);
    }
  }

  lemma {:induction false} InsertSorts(cmp: Collation, x: Thread, s: seq<Thread>)
    requires IsOrder(cmp) && IsSorted(cmp, s)
    ensures IsSorted(cmp, Insert(cmp, x, s))
  {
    if s != [] {
      if AtLeast(cmp, x.lastMessageAt, s[0].lastMessageAt) {
        assert forall j :: 0 <= j < |s| ==> Chains(cmp, x.lastMessageAt, s[0].lastMessageAt, s[j].lastMessageAt);
        assert Opposite(cmp, s[0].lastMessageAt, s[0].lastMessageAt);
      } else {
        assert Opposite(cmp, x.lastMessageAt, s[0].lastMessageAt);
        InsertSorts(cmp, x, s[1..]);
        InsertKeepsBound(cmp, s[0].lastMessageAt, x, s[1..]);
      }
    }
  }

  lemma {:induction false} SortSorts(cmp: Collation, s: seq<Thread>)
    requires IsOrder(cmp)
    ensures IsSorted(cmp, Sort(cmp, s)) && multiset(Sort(cmp, s)) == multiset(s)
  {
    if s != [] {
      SortSorts(cmp, s[1..]);
      InsertSorts(cmp, s[0], Sort(cmp, s[1..]));
      InsertPermutes(cmp, s[0], Sort(cmp, s[1..]));
      assert s == [s[0]] + s[1..];
    }
  }

  /** The threads of one instant, in order. */
  function At(cmp: Collation, s: seq<Thread>, t: string): seq<Thread> {
    if s == [] then [] else (if cmp(s[0].lastMessageAt, t) == 0 then [s[0]] else []) + At(cmp, s[1..], t)
  }

  lemma {:induction false} InsertIsStable(cmp: Collation, x: Thread, s: seq<Thread>, t: string)
    requires IsOrder(cmp) && IsSorted(cmp, s)
    ensures At(cmp, Insert(cmp, x, s), t) == At(cmp, [x] + s, t)
  {
    if s != [] && !AtLeast(cmp, x.lastMessageAt, s[0].lastMessageAt) {
      InsertIsStable(cmp, x, s[1..], t);
      assert ([x] + s)[1..] == s && ([x] + s[1..])[1..] == s[1..];
      assert ([s[0]] + Insert(cmp, x, s[1..]))[1..] == Insert(cmp, x, s[1..]);
      assert Opposite(cmp, s[0].lastMessageAt, t);
      assert Chains(cmp, x.lastMessageAt, t, s[0].lastMessageAt);
    }
  }

  /** Threads of the same instant keep the order of the accounts they came from. */
  lemma {:induction false} SortIsStable(cmp: Collation, s: seq<Thread>, t: string)
    requires IsOrder(cmp)
    ensures At(cmp, Sort(cmp, s), t) == At(cmp, s, t)
  {
    if s != [] {
      SortIsStable(cmp, s[1..], t);
      SortSorts(cmp, s[1..]);
      InsertIsStable(cmp, s[0], Sort(cmp, s[1..]), t);
      assert ([s[0]] + Sort(cmp, s[1..]))[1..] == Sort(cmp, s[1..]);
    }
  }

  // ---- the newest threads

  function CountSince(cmp: Collation, s: seq<Thread>, t: string): nat {
    if s == [] then 0 else (if AtLeast(cmp, s[0].lastMessageAt, t) then 1 else 0) + CountSince(cmp, s[1..], t)
  }

  lemma {:induction false} CountSinceConcat(cmp: Collation, a: seq<Thread>, b: seq<Thread>, t: string)
    ensures CountSince(cmp, a + b, t) == CountSince(cmp, a, t) + CountSince(cmp, b, t)
  {
    if a == [] {
      assert a + b == b;
    } else {
      CountSinceConcat(cmp, a[1..], b, t);
      assert (a + b)[1..] == a[1..] + b;
    }
  }

  lemma {:induction false} CountSinceInsert(cmp: Collation, x: Thread, s: seq<Thread>, t: string)
    ensures CountSince(cmp, Insert(cmp, x, s), t) == CountSince(cmp, [x], t) + CountSince(cmp, s, t)
  {
    if s == [] || AtLeast(cmp, x.lastMessageAt, s[0].lastMessageAt) {
      CountSinceConcat(cmp, [x], s, t);
    } else {
      CountSinceInsert(cmp, x, s[1..], t);
      assert ([s[0]] + Insert(cmp, x, s[1..]))[1..] == Insert(cmp, x, s[1..]);
    }
  }

  lemma {:induction false} CountSinceSort(cmp: Collation, s: seq<Thread>, t: string)
    ensures CountSince(cmp, Sort(cmp, s), t) == CountSince(cmp, s, t)
  {
    if s != [] {
      CountSinceSort(cmp, s[1..], t);
      CountSinceInsert(cmp, s[0], Sort(cmp, s[1..]), t);
    }
  }

  lemma {:induction false} CountSinceAll(cmp: Collation, s: seq<Thread>, t: string)
    requires IsOrder(cmp)
    requires forall x <- s :: AtLeast(cmp, x.lastMessageAt, t)
    ensures CountSince(cmp, s, t) == |s|
  {
    if s != [] {
      assert s[0] in s;
      CountSinceAll(cmp, s[1..], t);
    }
  }

  /** In a sorted list the threads since t come first. */
  lemma {:induction false} RecentComeFirst(cmp: Collation, s: seq<Thread>, t: string, i: nat)
    requires IsOrder(cmp)
    requires IsSorted(cmp, s) && i < CountSince(cmp, s, t)
    ensures i < |s| && AtLeast(cmp, s[i].lastMessageAt, t)
    decreases |s|
  {
    if !AtLeast(cmp, s[0].lastMessageAt, t) {
      forall j | 0 <= j < |s|
        ensures !AtLeast(cmp, s[j].lastMessageAt, t)
      {
        assert Chains(cmp, s[0].lastMessageAt, s[j].lastMessageAt, t);
      }
      NoneSince(cmp, s, t);
    } else if i > 0 {
      RecentComeFirst(cmp, s[1..], t, i - 1);
    }
  }

  lemma {:induction false} NoneSince(cmp: Collation, s: seq<Thread>, t: string)
    requires IsOrder(cmp)
    requires forall i :: 0 <= i < |s| ==> !AtLeast(cmp, s[i].lastMessageAt, t)
    ensures CountSince(cmp, s, t) == 0
  {
    if s != [] {
      NoneSince(cmp, s[1..], t);
    }
  }

  lemma {:induction false} BatchCounts(cmp: Collation, batches: seq<seq<Thread>>, i: nat, t: string)
    requires i < |batches|
    ensures CountSince(cmp, batches[i], t) <= CountSince(cmp, Flat(batches), t)
  {
    CountSinceConcat(cmp, batches[0], Flat(batches[1..]), t);
    if i > 0 {
      BatchCounts(cmp, batches[1..], i - 1, t);
    }
  }

  // ---- what the providers hold and return

  /** The batch is the newest `limit` threads of everything an account holds. */
  ghost predicate IsNewest(cmp: Collation, all: seq<Thread>, batch: seq<Thread>, limit: nat) {
    && |batch| == Min(limit, |all|)
    && multiset(batch) <= multiset(all)
    && forall x, y :: x in multiset(all) - multiset(batch) && y in batch ==> AtLeast(cmp, y.lastMessageAt, x.lastMessageAt)
  }

  ghost predicate AllNewest(cmp: Collation, all: seq<seq<Thread>>, batches: seq<seq<Thread>>, limit: nat) {
    |all| == |batches| && forall i :: 0 <= i < |all| ==> IsNewest(cmp, all[i], batches[i], limit)
  }

  lemma {:induction false} SameSizeIsEqual(a: multiset<Thread>, b: multiset<Thread>)
    requires a <= b && |a| == |b|
    ensures a == b
  {
    assert b == a + (b - a);
    assert |b| == |a| + |b - a|;
  }

  lemma LengthIsSize(s: seq<Thread>)
    ensures |multiset(s)| == |s|
  {
  }

  /** A thread an account holds and did not return is older than all of a full batch. */
  lemma UnfetchedIsOlder(cmp: Collation, all: seq<Thread>, batch: seq<Thread>, limit: nat, x: Thread)
    requires IsOrder(cmp)
    requires IsNewest(cmp, all, batch, limit) && x in multiset(all) - multiset(batch)
    ensures |batch| == limit && CountSince(cmp, batch, x.lastMessageAt) == limit
  {
    if |batch| == |all| {
      LengthIsSize(batch);
      LengthIsSize(all);
      SameSizeIsEqual(multiset(batch), multiset(all));
      assert false;
    }
    CountSinceAll(cmp, batch, x.lastMessageAt);
  }

  lemma TailsAreNewest(cmp: Collation, all: seq<seq<Thread>>, batches: seq<seq<Thread>>, limit: nat)
    requires AllNewest(cmp, all, batches, limit) && all != []
    ensures AllNewest(cmp, all[1..], batches[1..], limit)
  {
  }

  /** A thread that some account holds and the merge does not show: not fetched, or cut off. */
  lemma {:induction false} HiddenThread(cmp: Collation, all: seq<seq<Thread>>, batches: seq<seq<Thread>>, limit: nat, x: Thread)
    requires AllNewest(cmp, all, batches, limit) && x in multiset(Flat(all)) - multiset(Flat(batches))
    ensures exists i :: 0 <= i < |all| && x in multiset(all[i]) - multiset(batches[i])
  {
    if all != [] {
      assert IsNewest(cmp, all[0], batches[0], limit);
      if x !in multiset(all[0]) - multiset(batches[0]) {
        TailsAreNewest(cmp, all, batches, limit);
        HiddenThread(cmp, all[1..], batches[1..], limit, x);
        var i :| 0 <= i < |all[1..]| && x in multiset(all[1..][i]) - multiset(batches[1..][i]);
        assert x in multiset(all[i + 1]) - multiset(batches[i + 1]);
      }
    }
  }

  lemma {:induction false} FetchedIsPart(cmp: Collation, all: seq<seq<Thread>>, batches: seq<seq<Thread>>, limit: nat)
    requires AllNewest(cmp, all, batches, limit)
    ensures multiset(Flat(batches)) <= multiset(Flat(all))
    ensures Min(limit, |Flat(batches)|) == Min(limit, |Flat(all)|)
  {
    if all != [] {
      assert IsNewest(cmp, all[0], batches[0], limit);
      TailsAreNewest(cmp, all, batches, limit);
      FetchedIsPart(cmp, all[1..], batches[1..], limit);
    }
  }

  lemma ShownAreNewer(cmp: Collation, all: seq<seq<Thread>>, batches: seq<seq<Thread>>, limit: nat, x: Thread, k: nat)
    requires IsOrder(cmp)
    requires AllNewest(cmp, all, batches, limit) && k < |ListUnifiedInbox(cmp, batches, limit)|
    requires x in multiset(Flat(all)) - multiset(Flat(batches))
    ensures AtLeast(cmp, ListUnifiedInbox(cmp, batches, limit)[k].lastMessageAt, x.lastMessageAt)
  {
    HiddenThread(cmp, all, batches, limit, x);
    var i :| 0 <= i < |all| && x in multiset(all[i]) - multiset(batches[i]);
    assert IsNewest(cmp, all[i], batches[i], limit);
    UnfetchedIsOlder(cmp, all[i], batches[i], limit, x);
    BatchCounts(cmp, batches, i, x.lastMessageAt);
    CountSinceSort(cmp, Flat(batches), x.lastMessageAt);
    SortSorts(cmp, Flat(batches));
    RecentComeFirst(cmp, Sort(cmp, Flat(batches)), x.lastMessageAt, k);
  }

  lemma CutAreOlder(cmp: Collation, batches: seq<seq<Thread>>, limit: nat, x: Thread, k: nat)
    requires IsOrder(cmp)
    requires k < |ListUnifiedInbox(cmp, batches, limit)|
    requires x in multiset(Flat(batches)) - multiset(ListUnifiedInbox(cmp, batches, limit))
    ensures AtLeast(cmp, ListUnifiedInbox(cmp, batches, limit)[k].lastMessageAt, x.lastMessageAt)
  {
    var sorted, shown := Sort(cmp, Flat(batches)), ListUnifiedInbox(cmp, batches, limit);
    SortSorts(cmp, Flat(batches));
    RestOfPrefix(sorted, |shown|, x);
    var i :| |shown| <= i < |sorted| && sorted[i] == x;
    assert sorted[k] == shown[k];
  }

  /** What a prefix leaves of a list stands behind it. */
  lemma RestOfPrefix(s: seq<Thread>, n: nat, x: Thread)
    requires n <= |s| && x in multiset(s) - multiset(s[..n])
    ensures exists i :: n <= i < |s| && s[i] == x
  {
    assert s == s[..n] + s[n..];
    assert multiset(s) == multiset(s[..n]) + multiset(s[n..]);
    assert x in s[n..];
    var k :| 0 <= k < |s[n..]| && s[n..][k] == x;
    assert s[n + k] == x;
  }

  /**
   If every provider returns its newest `limit` threads, the merged list is sorted, has as many
   threads as there are up to the limit, and no thread of any account that it leaves out, fetched
   or not, is newer than one it shows.
   */
  lemma MergedInboxIsGloballyNewest(cmp: Collation, all: seq<seq<Thread>>, batches: seq<seq<Thread>>, limit: nat)
    requires IsOrder(cmp)
    requires AllNewest(cmp, all, batches, limit)
    ensures var shown := ListUnifiedInbox(cmp, batches, limit);
      && IsSorted(cmp, shown)
      && |shown| == Min(limit, |Flat(all)|)
      && multiset(shown) <= multiset(Flat(all))
      && forall x, k :: x in multiset(Flat(all)) - multiset(shown) && 0 <= k < |shown|
           ==> AtLeast(cmp, shown[k].lastMessageAt, x.lastMessageAt)
  {
    var shown := ListUnifiedInbox(cmp, batches, limit);
    ShownIsPartOfFetched(cmp, batches, limit);
    FetchedIsPart(cmp, all, batches, limit);
    forall x, k | x in multiset(Flat(all)) - multiset(shown) && 0 <= k < |shown|
      ensures AtLeast(cmp, shown[k].lastMessageAt, x.lastMessageAt)
    {
      if x in multiset(Flat(batches)) - multiset(shown) {
        CutAreOlder(cmp, batches, limit, x, k);
      } else {
        NotCutIsUnfetched(multiset(Flat(all)), multiset(Flat(batches)), multiset(shown), x);
        ShownAreNewer(cmp, all, batches, limit, x, k);
      }
    }
  }

  lemma NotCutIsUnfetched(all: multiset<Thread>, fetched: multiset<Thread>, shown: multiset<Thread>, x: Thread)
    requires x in all - shown && x !in fetched - shown
    ensures x in all - fetched
  {
  }

  lemma ShownIsPartOfFetched(cmp: Collation, batches: seq<seq<Thread>>, limit: nat)
    requires IsOrder(cmp)
    ensures var shown := ListUnifiedInbox(cmp, batches, limit);
      IsSorted(cmp, shown) && |shown| == Min(limit, |Flat(batches)|) && multiset(shown) <= multiset(Flat(batches))
  {
    var sorted := Sort(cmp, Flat(batches));
    SortSorts(cmp, Flat(batches));
    LengthIsSize(sorted);
    LengthIsSize(Flat(batches));
    TakeIsPart(cmp, sorted, limit);
  }

  lemma TakeIsPart(cmp: Collation, sorted: seq<Thread>, limit: nat)
    requires IsSorted(cmp, sorted)
    ensures var shown := Take(sorted, limit);
      IsSorted(cmp, shown) && |shown| == Min(limit, |sorted|) && multiset(shown) <= multiset(sorted)
  {
    var shown := Take(sorted, limit);
    assert sorted == shown + sorted[|shown|..];
  }
}
