/**
 The encrypted record store as a refinement of a plain map from record keys to plaintexts.

 The table of envelopes is a map; a SQL transaction works on a copy that replaces the table when it
 commits. Strings are their UTF-8 bytes, which is what SQLite orders and the sealing binds.
 */
module RecordStore {
  import opened CodeOrder
  import opened Envelope
  import opened Outcomes
  import Utf8

  type Text = seq<Byte>

  datatype RecordKey = RecordKey(account: Text, kind: Text, id: Text)

  type Plain = map<RecordKey, seq<Byte>>
  type Table = map<RecordKey, seq<Byte>>

  const CURSOR := Utf8.AsciiBytes("cursor")
  const GMAIL := Utf8.AsciiBytes("gmail")

  const DURABLE_MAIL_KINDS: seq<Text> := [
    CURSOR, Utf8.AsciiBytes("message"), Utf8.AsciiBytes("thread"), Utf8.AsciiBytes("label"),
    Utf8.AsciiBytes("contact"), Utf8.AsciiBytes("attachment"), Utf8.AsciiBytes("attachment_blob"),
    Utf8.AsciiBytes("mutation"), Utf8.AsciiBytes("outbox")]

  predicate IsIdentifier(t: Text) {
    1 <= |t| <= 512
  }

  predicate IsDurableKind(t: Text) {
    t in DURABLE_MAIL_KINDS
  }

  predicate IsRecordKey(k: RecordKey) {
    IsIdentifier(k.account) && IsDurableKind(k.kind) && IsIdentifier(k.id)
  }

  function Context(k: RecordKey): seq<Byte> {
    Encode(AssociatedData(k.kind, k.account, k.id))
  }

  /** The random nonces a call draws, and which of its SQL statements succeed. */
  datatype Luck = Luck(nonces: nat -> Option<Nonce>, statement: nat -> bool)

  datatype Answer =
    | Stored
    | Removed(existed: bool)
    | Found(value: Option<seq<Byte>>)
    | Listed(records: seq<(Text, seq<Byte>)>)
    | Counted(n: nat)

  type Reply = Result<Answer, CoreError>

  // ---- the plain store

  datatype Outcome = Outcome(store: Plain, reply: Reply)

  function PlainPut(p: Plain, k: RecordKey, value: seq<Byte>, luck: Luck): Outcome {
    if !IsRecordKey(k) then Outcome(p, Err(InvalidInput))
    else if luck.nonces(0).None? then Outcome(p, Err(RngUnavailable))
    else if !luck.statement(0) then Outcome(p, Err(DatabaseError))
    else Outcome(p[k := value], Ok(Stored))
  }

  function PlainGet(p: Plain, k: RecordKey, luck: Luck): Reply {
    if !IsRecordKey(k) then Err(InvalidInput)
    else if !luck.statement(0) then Err(DatabaseError)
    else Ok(Found(if k in p then Some(p[k]) else None))
  }

  function PlainDelete(p: Plain, k: RecordKey, luck: Luck): Outcome {
    if !IsRecordKey(k) then Outcome(p, Err(InvalidInput))
    else if !luck.statement(0) then Outcome(p, Err(DatabaseError))
    else Outcome(p - {k}, Ok(Removed(k in p)))
  }

  datatype SyncWrite = SyncWrite(kind: Text, id: Text, payload: seq<Byte>)

  datatype SyncDelete = SyncDelete(kind: Text, id: Text)

  datatype Batch = Batch(account: Text, upserts: seq<SyncWrite>, deletes: seq<SyncDelete>, cursor: seq<Byte>)

  function WriteKey(b: Batch, i: nat): RecordKey
    requires i < |b.upserts|
  {
    RecordKey(b.account, b.upserts[i].kind, b.upserts[i].id)
  }

  function DeleteKey(b: Batch, i: nat): RecordKey
    requires i < |b.deletes|
  {
    RecordKey(b.account, b.deletes[i].kind, b.deletes[i].id)
  }

  function CursorKey(b: Batch): RecordKey {
    RecordKey(b.account, CURSOR, GMAIL)
  }

  /** The first problem among upserts i, i + 1, ... : each is validated and then sealed. */
  function SealingProblem(b: Batch, luck: Luck, i: nat): Option<CoreError>
    requires i <= |b.upserts|
    decreases |b.upserts| - i
  {
    if i == |b.upserts| then None
    else if !IsDurableKind(b.upserts[i].kind) || !IsIdentifier(b.upserts[i].id) then Some(InvalidInput)
    else if luck.nonces(i).None? then Some(RngUnavailable)
    else SealingProblem(b, luck, i + 1)
  }

  predicate DeletesAreValid(b: Batch) {
    forall i :: 0 <= i < |b.deletes| ==> IsDurableKind(b.deletes[i].kind) && IsIdentifier(b.deletes[i].id)
  }

  /** What stops a batch before its transaction begins. */
  function BatchProblem(b: Batch, luck: Luck): Option<CoreError> {
    if !IsIdentifier(b.account) then Some(InvalidInput)
    else if SealingProblem(b, luck, 0).Some? then SealingProblem(b, luck, 0)
    else if !DeletesAreValid(b) then Some(InvalidInput)
    else if luck.nonces(|b.upserts|).None? then Some(RngUnavailable)
    else None
  }

  /** BEGIN, the upserts, the deletes, the cursor, the commit mark and COMMIT. */
  function Statements(b: Batch): nat {
    |b.upserts| + |b.deletes| + 4
  }

  predicate AllSucceed(luck: Luck, n: nat) {
    forall i :: 0 <= i < n ==> luck.statement(i)
  }

  function Upserted(p: Plain, b: Batch, n: nat): Plain
    requires n <= |b.upserts|
  {
    if n == 0 then p else Upserted(p, b, n - 1)[WriteKey(b, n - 1) := b.upserts[n - 1].payload]
  }

  function Deleted(p: Plain, b: Batch, n: nat): Plain
    requires n <= |b.deletes|
  {
    if n == 0 then p else Deleted(p, b, n - 1) - {DeleteKey(b, n - 1)}
  }

  /** The upserts in order, then the deletes, then the cursor. */
  function Committed(p: Plain, b: Batch): Plain {
    Deleted(Upserted(p, b, |b.upserts|), b, |b.deletes|)[CursorKey(b) := b.cursor]
  }

  function PlainBatch(p: Plain, b: Batch, luck: Luck): Outcome {
    var problem := BatchProblem(b, luck);
    if problem.Some? then Outcome(p, Err(problem.value))
    else if !AllSucceed(luck, Statements(b)) then Outcome(p, Err(DatabaseError))
    else Outcome(Committed(p, b), Ok(Stored))
  }

  function OfAccount(t: map<RecordKey, seq<Byte>>, account: Text): set<RecordKey> {
    set k | k in t && k.account == account
  }

  /** BEGIN, three deletes and COMMIT, without validation. */
  function PlainDeleteAccount(p: Plain, account: Text, luck: Luck): Outcome {
    if !AllSucceed(luck, 5) then Outcome(p, Err(DatabaseError))
    else Outcome(p - OfAccount(p, account), Ok(Counted(|OfAccount(p, account)|)))
  }

  function PlainCount(p: Plain, luck: Luck): Reply {
    if !luck.statement(0) then Err(DatabaseError) else Ok(Counted(|p|))
  }

  // ---- listings

  function IdsOf(t: map<RecordKey, seq<Byte>>, account: Text, kind: Text): set<Text> {
    set k | k in t && k.account == account && k.kind == kind :: k.id
  }

  predicate IsLeast(ids: set<Text>, id: Text) {
    id in ids && forall other <- ids :: other == id || LexLess(id, other)
  }

  lemma {:induction false} LeastExists(ids: set<Text>)
    requires ids != {}
    ensures exists id :: IsLeast(ids, id)
  {
    var x: Text :| x in ids;
    var rest := ids - {x};
    assert ids == rest + {x};
    if rest == {} {
      assert IsLeast(ids, x);
    } else {
      LeastExists(rest);
      var y: Text :| IsLeast(rest, y);
      LexIsTrichotomous(x, y);
      if LexLess(x, y) {
        forall z: Text | z in rest
          ensures LexLess(x, z)
        {
          if z != y {
            LexIsTransitive(x, y, z);
          }
        }
        assert IsLeast(ids, x);
      } else {
        assert IsLeast(ids, y);
      }
    }
  }

  lemma LeastIsUnique(ids: set<Text>, a: Text, b: Text)
    requires IsLeast(ids, a) && IsLeast(ids, b)
    ensures a == b
  {
    LexIsTrichotomous(a, b);
  }

  /** ORDER BY object_id */
  ghost function Sorted(ids: set<Text>): seq<Text> {
    if ids == {} then []
    else
      LeastExists(ids);
      var id :| IsLeast(ids, id);
      [id] + Sorted(ids - {id})
  }

  lemma SortedStartsWithLeast(ids: set<Text>, id: Text)
    requires IsLeast(ids, id)
    ensures Sorted(ids) == [id] + Sorted(ids - {id})
  {
    LeastExists(ids);
    var least :| IsLeast(ids, least) && Sorted(ids) == [least] + Sorted(ids - {least});
    LeastIsUnique(ids, id, least);
  }

  /** Opens the envelopes of the given ids in turn; the first that fails ends the listing. */
  function OpenAll(c: Aead, key: SecretKey, t: Table, account: Text, kind: Text, ids: seq<Text>):
      Result<seq<(Text, seq<Byte>)>, CoreError>
    requires forall id <- ids :: RecordKey(account, kind, id) in t
  {
    if ids == [] then Ok([])
    else
      assert ids[0] in ids;
      var k := RecordKey(account, kind, ids[0]);
      match Open(c, t[k], key, Context(k))
      case Err(e) => Err(e)
      case Ok(plaintext) =>
        match OpenAll(c, key, t, account, kind, ids[1..])
        case Err(e) => Err(e)
        case Ok(later) => Ok([(ids[0], plaintext)] + later)
  }

  function Paired(p: Plain, account: Text, kind: Text, ids: seq<Text>): seq<(Text, seq<Byte>)>
    requires forall id <- ids :: RecordKey(account, kind, id) in p
  {
    seq(|ids|, i requires 0 <= i < |ids| => assert ids[i] in ids; (ids[i], p[RecordKey(account, kind, ids[i])]))
  }

  lemma {:induction false} SortedHasTheIds(ids: set<Text>)
    ensures forall id :: id in Sorted(ids) <==> id in ids
  {
    if ids != {} {
      LeastExists(ids);
      var id :| IsLeast(ids, id);
      SortedStartsWithLeast(ids, id);
      SortedHasTheIds(ids - {id});
    }
  }

  lemma {:induction false} SortedIsSorted(ids: set<Text>, i: nat, j: nat)
    requires i < j < |Sorted(ids)|
    ensures LexLess(Sorted(ids)[i], Sorted(ids)[j])
  {
    LeastExists(ids);
    var id :| IsLeast(ids, id);
    SortedStartsWithLeast(ids, id);
    if i == 0 {
      SortedHasTheIds(ids - {id});
      assert Sorted(ids)[j] in Sorted(ids - {id});
    } else {
      SortedIsSorted(ids - {id}, i - 1, j - 1);
    }
  }

  ghost function PlainList(p: Plain, account: Text, kind: Text, luck: Luck): Reply {
    if !IsIdentifier(account) || !IsDurableKind(kind) then Err(InvalidInput)
    else if !luck.statement(0) then Err(DatabaseError)
    else
      SortedHasTheIds(IdsOf(p, account, kind));
      Ok(Listed(Paired(p, account, kind, Sorted(IdsOf(p, account, kind)))))
  }

  // ---- the encrypted table represents the plain store

  ghost predicate Holds(c: Aead, key: SecretKey, t: Table, k: RecordKey, value: seq<Byte>) {
    k in t && Open(c, t[k], key, Context(k)) == Ok(value)
  }

  ghost predicate Represents(c: Aead, key: SecretKey, t: Table, p: Plain) {
    t.Keys == p.Keys && forall k <- p :: Holds(c, key, t, k, p[k])
  }

  lemma SealedWriteRepresents(c: Aead, key: SecretKey, t: Table, p: Plain, k: RecordKey, value: seq<Byte>, nonce: Nonce)
    requires IsAead(c) && Represents(c, key, t, p)
    ensures Represents(c, key, t[k := Sealed(c, value, key, Context(k), nonce)], p[k := value])
  {
    OpenInvertsSeal(c, value, key, Context(k), nonce);
    var u := t[k := Sealed(c, value, key, Context(k), nonce)];
    forall l | l in p && l != k
      ensures Holds(c, key, u, l, p[l])
    {
      assert Holds(c, key, t, l, p[l]);
    }
  }

  lemma RemovalRepresents(c: Aead, key: SecretKey, t: Table, p: Plain, gone: set<RecordKey>)
    requires Represents(c, key, t, p)
    ensures Represents(c, key, t - gone, p - gone)
  {
  }

  lemma {:induction false} OpenAllPairs(c: Aead, key: SecretKey, t: Table, p: Plain, account: Text, kind: Text, ids: seq<Text>)
    requires Represents(c, key, t, p) && forall id <- ids :: RecordKey(account, kind, id) in p
    ensures OpenAll(c, key, t, account, kind, ids) == Ok(Paired(p, account, kind, ids))
  {
    if ids == [] {
      assert Paired(p, account, kind, ids) == [];
    } else {
      assert ids[0] in ids && forall id <- ids[1..] :: id in ids;
      OpenAllPairs(c, key, t, p, account, kind, ids[1..]);
      var k := RecordKey(account, kind, ids[0]);
      assert Holds(c, key, t, k, p[k]);
      FirstPair(p, account, kind, ids);
    }
  }

  lemma FirstPair(p: Plain, account: Text, kind: Text, ids: seq<Text>)
    requires ids != [] && forall id <- ids :: RecordKey(account, kind, id) in p
    ensures forall id <- ids[1..] :: id in ids
    ensures Paired(p, account, kind, ids)
         == [(ids[0], p[RecordKey(account, kind, ids[0])])] + Paired(p, account, kind, ids[1..])
  {
    assert forall id <- ids[1..] :: id in ids;
    var all, others := Paired(p, account, kind, ids), Paired(p, account, kind, ids[1..]);
    assert forall i :: 0 < i < |all| ==> all[i] == others[i - 1];
  }

  // ---- the store

  datatype Operation =
    | Put(k: RecordKey, value: seq<Byte>)
    | Get(k: RecordKey)
    | Delete(k: RecordKey)
    | ListKind(account: Text, kind: Text)
    | ApplyBatch(b: Batch)
    | DeleteAccount(account: Text)
    | Count

  ghost function PlainStep(p: Plain, op: Operation, luck: Luck): Outcome {
    match op
    case Put(k, value) => PlainPut(p, k, value, luck)
    case Get(k) => Outcome(p, PlainGet(p, k, luck))
    case Delete(k) => PlainDelete(p, k, luck)
    case ListKind(account, kind) => Outcome(p, PlainList(p, account, kind, luck))
    case ApplyBatch(b) => PlainBatch(p, b, luck)
    case DeleteAccount(account) => PlainDeleteAccount(p, account, luck)
    case Count => Outcome(p, PlainCount(p, luck))
  }

  /** The replies of a plain map to a sequence of operations, and what is left in it. */
  ghost function PlainRun(p: Plain, ops: seq<(Operation, Luck)>): (Plain, seq<Reply>) {
    if ops == [] then (p, [])
    else
      var n := |ops| - 1;
      var (q, replies) := PlainRun(p, ops[..n]);
      var last := PlainStep(q, ops[n].0, ops[n].1);
      (last.store, replies + [last.reply])
  }

  class EncryptedDatabase {
    const aead: Aead
    const key: SecretKey
    var records: Table
    /** What the table means. */
    ghost var plain: Plain

    ghost predicate Valid()
      reads this
    {
      IsAead(aead) && Represents(aead, key, records, plain)
    }

    constructor (aead: Aead, key: SecretKey)
      requires IsAead(aead)
      ensures Valid() && plain == map[] && this.aead == aead && this.key == key
    {
      this.aead, this.key, records, plain := aead, key, map[], map[];
    }

    method PutRecord(k: RecordKey, value: seq<Byte>, luck: Luck) returns (reply: Reply)
      requires Valid()
      modifies this
      ensures Valid() && Outcome(plain, reply) == PlainPut(old(plain), k, value, luck)
      ensures reply.Err? ==> records == old(records) && plain == old(plain)
    {
      if !IsRecordKey(k) {
        return Err(InvalidInput);
      }
      var envelope := Seal(aead, value, key, Context(k), luck.nonces(0));
      if envelope.Err? {
        return Err(envelope.error);
      }
      if !luck.statement(0) {
        return Err(DatabaseError);
      }
      SealedWriteRepresents(aead, key, records, plain, k, value, luck.nonces(0).value);
      records := records[k := envelope.value];
      plain := plain[k := value];
      return Ok(Stored);
    }

    method GetRecord(k: RecordKey, luck: Luck) returns (reply: Reply)
      requires Valid()
      ensures reply == PlainGet(plain, k, luck)
    {
      if !IsRecordKey(k) {
        return Err(InvalidInput);
      }
      if !luck.statement(0) {
        return Err(DatabaseError);
      }
      if k !in records {
        return Ok(Found(None));
      }
      assert Holds(aead, key, records, k, plain[k]);
      reply := Opened(Open(aead, records[k], key, Context(k)));
    }

    method DeleteRecord(k: RecordKey, luck: Luck) returns (reply: Reply)
      requires Valid()
      modifies this
      ensures Valid() && Outcome(plain, reply) == PlainDelete(old(plain), k, luck)
      ensures reply.Err? ==> records == old(records) && plain == old(plain)
    {
      if !IsRecordKey(k) {
        return Err(InvalidInput);
      }
      if !luck.statement(0) {
        return Err(DatabaseError);
      }
      reply := Ok(Removed(k in records));
      RemovalRepresents(aead, key, records, plain, {k});
      records := records - {k};
      plain := plain - {k};
    }

    /** The rows in the order of their ids, each opened under its own context. */
    method ListRecords(account: Text, kind: Text, luck: Luck) returns (reply: Reply)
      requires Valid()
      ensures reply == PlainList(plain, account, kind, luck)
    {
      if !IsIdentifier(account) || !IsDurableKind(kind) {
        return Err(InvalidInput);
      }
      if !luck.statement(0) {
        return Err(DatabaseError);
      }
      var ids := SortIds(IdsOf(records, account, kind));
      SortedHasTheIds(IdsOf(records, account, kind));
      assert IdsOf(records, account, kind) == IdsOf(plain, account, kind);
      OpenAllPairs(aead, key, records, plain, account, kind, ids);
      reply := OpenRows(aead, key, records, account, kind, ids);
    }

    method ApplySyncBatch(b: Batch, luck: Luck) returns (reply: Reply)
      requires Valid()
      modifies this
      ensures Valid() && Outcome(plain, reply) == PlainBatch(old(plain), b, luck)
      ensures reply.Err? ==> records == old(records) && plain == old(plain)
    {
      if !IsIdentifier(b.account) {
        return Err(InvalidInput);
      }
      var envelopes, problem := SealUpserts(aead, key, b, luck);
      if problem.Some? {
        return Err(problem.value);
      }
      if !DeletesAreValid(b) {
        return Err(InvalidInput);
      }
      var sealedCursor := Seal(aead, b.cursor, key, Context(CursorKey(b)), luck.nonces(|b.upserts|));
      if sealedCursor.Err? {
        return Err(sealedCursor.error);
      }
      var committed, transaction := RunTransaction(aead, key, records, plain, b, envelopes, sealedCursor.value, luck);
      if !committed {
        return Err(DatabaseError);
      }
      records := transaction;
      plain := Committed(plain, b);
      return Ok(Stored);
    }

    method RemoveAccount(account: Text, luck: Luck) returns (reply: Reply)
      requires Valid()
      modifies this
      ensures Valid() && Outcome(plain, reply) == PlainDeleteAccount(old(plain), account, luck)
      ensures reply.Err? ==> records == old(records) && plain == old(plain)
    {
      if !AllSucceed(luck, 5) {
        return Err(DatabaseError);
      }
      var gone := OfAccount(records, account);
      assert gone == OfAccount(plain, account);
      RemovalRepresents(aead, key, records, plain, gone);
      records := records - gone;
      plain := plain - gone;
      return Ok(Counted(|gone|));
    }

    method RecordCount(luck: Luck) returns (reply: Reply)
      requires Valid()
      ensures reply == PlainCount(plain, luck)
    {
      if !luck.statement(0) {
        return Err(DatabaseError);
      }
      assert |records| == |records.Keys| && |plain| == |plain.Keys|;
      return Ok(Counted(|records|));
    }

    method Perform(op: Operation, luck: Luck) returns (reply: Reply)
      requires Valid()
      modifies this
      ensures Valid() && Outcome(plain, reply) == PlainStep(old(plain), op, luck)
      ensures reply.Err? ==> records == old(records) && plain == old(plain)
    {
      match op {
        case Put(k, value) => reply := PutRecord(k, value, luck);
        case Get(k) => reply := GetRecord(k, luck);
        case Delete(k) => reply := DeleteRecord(k, luck);
        case ListKind(account, kind) => reply := ListRecords(account, kind, luck);
        case ApplyBatch(b) => reply := ApplySyncBatch(b, luck);
        case DeleteAccount(account) => reply := RemoveAccount(account, luck);
        case Count => reply := RecordCount(luck);
      }
    }

    /** Every sequence of operations is answered as a plain map answers it. */
    method Run(ops: seq<(Operation, Luck)>) returns (replies: seq<Reply>)
      requires Valid()
      modifies this
      ensures Valid() && (plain, replies) == PlainRun(old(plain), ops)
    {
      replies := [];
      for i := 0 to |ops|
        invariant Valid() && (plain, replies) == PlainRun(old(plain), ops[..i])
      {
        assert ops[..i + 1][..i] == ops[..i];
        var reply := Perform(ops[i].0, ops[i].1);
        replies := replies + [reply];
      }
      assert ops[..|ops|] == ops;
    }
  }

  function Opened(r: Result<seq<Byte>, CoreError>): Reply {
    match r case Ok(value) => Ok(Found(Some(value))) case Err(e) => Err(e)
  }

  method SortIds(ids: set<Text>) returns (sorted: seq<Text>)
    ensures sorted == Sorted(ids)
  {
    sorted := [];
    var left := ids;
    while left != {}
      invariant sorted + Sorted(left) == Sorted(ids)
      decreases |left|
    {
      LeastExists(left);
      var id :| id in left && forall other <- left :: other == id || LexLess(id, other);
      SortedStartsWithLeast(left, id);
      sorted := sorted + [id];
      left := left - {id};
    }
  }

  /** The loop of `list_records` over the selected rows. */
  method OpenRows(c: Aead, key: SecretKey, t: Table, account: Text, kind: Text, ids: seq<Text>) returns (reply: Reply)
    requires forall id <- ids :: RecordKey(account, kind, id) in t
    ensures reply == ListReply(OpenAll(c, key, t, account, kind, ids))
  {
    var records := [];
    assert ids[0..] == ids;
    PrependNothing(OpenAll(c, key, t, account, kind, ids));
    for i := 0 to |ids|
      invariant forall id <- ids[i..] :: id in ids
      invariant OpenAll(c, key, t, account, kind, ids) == Prepend(records, OpenAll(c, key, t, account, kind, ids[i..]))
    {
      assert ids[i..][0] == ids[i] && ids[i..][1..] == ids[i + 1..] && ids[i] in ids;
      var k := RecordKey(account, kind, ids[i]);
      var value := Open(c, t[k], key, Context(k));
      if value.Err? {
        return Err(value.error);
      }
      PrependTwice(records, (ids[i], value.value), OpenAll(c, key, t, account, kind, ids[i + 1..]));
      records := records + [(ids[i], value.value)];
    }
    assert ids[|ids|..] == [] && records + [] == records;
    return Ok(Listed(records));
  }

  lemma PrependNothing(r: Result<seq<(Text, seq<Byte>)>, CoreError>)
    ensures Prepend([], r) == r
  {
    match r {
      case Ok(later) => assert [] + later == later;
      case Err(_) =>
    }
  }

  lemma PrependTwice(records: seq<(Text, seq<Byte>)>, one: (Text, seq<Byte>), r: Result<seq<(Text, seq<Byte>)>, CoreError>)
    ensures Prepend(records, Prepend([one], r)) == Prepend(records + [one], r)
  {
    match r {
      case Ok(later) => assert records + ([one] + later) == records + [one] + later;
      case Err(_) =>
    }
  }

  function ListReply(r: Result<seq<(Text, seq<Byte>)>, CoreError>): Reply {
    match r case Ok(records) => Ok(Listed(records)) case Err(e) => Err(e)
  }

  function Prepend(
      records: seq<(Text, seq<Byte>)>, r: Result<seq<(Text, seq<Byte>)>, CoreError>): Result<seq<(Text, seq<Byte>)>, CoreError> {
    match r case Ok(later) => Ok(records + later) case Err(e) => Err(e)
  }

  /** The sealed payload of upsert i. */
  predicate IsSealedUpsert(c: Aead, key: SecretKey, b: Batch, luck: Luck, i: nat, envelope: seq<Byte>)
    requires i < |b.upserts|
  {
    && luck.nonces(i).Some?
    && envelope == Sealed(c, b.upserts[i].payload, key, Context(WriteKey(b, i)), luck.nonces(i).value)
  }

  method SealUpserts(c: Aead, key: SecretKey, b: Batch, luck: Luck)
    returns (envelopes: seq<seq<Byte>>, problem: Option<CoreError>)
    ensures problem == SealingProblem(b, luck, 0)
    ensures problem.None? ==> |envelopes| == |b.upserts|
    ensures problem.None? ==> forall i :: 0 <= i < |b.upserts| ==> IsSealedUpsert(c, key, b, luck, i, envelopes[i])
  {
    envelopes := [];
    for i := 0 to |b.upserts|
      invariant |envelopes| == i && SealingProblem(b, luck, 0) == SealingProblem(b, luck, i)
      invariant forall j :: 0 <= j < i ==> IsSealedUpsert(c, key, b, luck, j, envelopes[j])
    {
      if !IsDurableKind(b.upserts[i].kind) || !IsIdentifier(b.upserts[i].id) {
        return envelopes, Some(InvalidInput);
      }
      var envelope := Seal(c, b.upserts[i].payload, key, Context(WriteKey(b, i)), luck.nonces(i));
      if envelope.Err? {
        return envelopes, Some(envelope.error);
      }
      envelopes := envelopes + [envelope.value];
    }
    return envelopes, None;
  }

  /** The transaction: a failing statement rolls the copy back. */
  method RunTransaction(
      c: Aead, key: SecretKey, t: Table, ghost p: Plain, b: Batch, envelopes: seq<seq<Byte>>, cursor: seq<Byte>, luck: Luck)
    returns (committed: bool, transaction: Table)
    requires IsAead(c) && Represents(c, key, t, p)
    requires |envelopes| == |b.upserts|
    requires forall i :: 0 <= i < |b.upserts| ==> IsSealedUpsert(c, key, b, luck, i, envelopes[i])
    requires luck.nonces(|b.upserts|).Some?
    requires cursor == Sealed(c, b.cursor, key, Context(CursorKey(b)), luck.nonces(|b.upserts|).value)
    ensures committed == AllSucceed(luck, Statements(b))
    ensures committed ==> Represents(c, key, transaction, Committed(p, b))
  {
    var n := |b.upserts|;
    if !luck.statement(0) {
      return false, t;
    }
    committed, transaction := RunUpserts(c, key, t, p, b, envelopes, luck);
    if !committed {
      return false, t;
    }
    ghost var upserted := Upserted(p, b, n);
    committed, transaction := RunDeletes(c, key, transaction, upserted, b, luck);
    if !committed {
      return false, t;
    }
    var done := 1 + n + |b.deletes|;
    if !luck.statement(done) || !luck.statement(done + 1) || !luck.statement(done + 2) {
      return false, t;
    }
    SealedWriteRepresents(c, key, transaction, Deleted(upserted, b, |b.deletes|), CursorKey(b), b.cursor, luck.nonces(n).value);
    transaction := transaction[CursorKey(b) := cursor];
    return true, transaction;
  }

  method RunUpserts(c: Aead, key: SecretKey, t: Table, ghost p: Plain, b: Batch, envelopes: seq<seq<Byte>>, luck: Luck)
    returns (completed: bool, transaction: Table)
    requires IsAead(c) && Represents(c, key, t, p) && luck.statement(0)
    requires |envelopes| == |b.upserts|
    requires forall i :: 0 <= i < |b.upserts| ==> IsSealedUpsert(c, key, b, luck, i, envelopes[i])
    ensures completed == AllSucceed(luck, 1 + |b.upserts|)
    ensures completed ==> Represents(c, key, transaction, Upserted(p, b, |b.upserts|))
  {
    transaction := t;
    for i := 0 to |b.upserts|
      invariant AllSucceed(luck, 1 + i) && Represents(c, key, transaction, Upserted(p, b, i))
    {
      if !luck.statement(1 + i) {
        return false, t;
      }
      assert IsSealedUpsert(c, key, b, luck, i, envelopes[i]);
      SealedWriteRepresents(c, key, transaction, Upserted(p, b, i), WriteKey(b, i), b.upserts[i].payload, luck.nonces(i).value);
      transaction := transaction[WriteKey(b, i) := envelopes[i]];
    }
    return true, transaction;
  }

  method RunDeletes(c: Aead, key: SecretKey, t: Table, ghost p: Plain, b: Batch, luck: Luck)
    returns (completed: bool, transaction: Table)
    requires Represents(c, key, t, p) && AllSucceed(luck, 1 + |b.upserts|)
    ensures completed == AllSucceed(luck, 1 + |b.upserts| + |b.deletes|)
    ensures completed ==> Represents(c, key, transaction, Deleted(p, b, |b.deletes|))
  {
    transaction := t;
    var n := |b.upserts|;
    for i := 0 to |b.deletes|
      invariant AllSucceed(luck, 1 + n + i) && Represents(c, key, transaction, Deleted(p, b, i))
    {
      if !luck.statement(1 + n + i) {
        return false, t;
      }
      RemovalRepresents(c, key, transaction, Deleted(p, b, i), {DeleteKey(b, i)});
      transaction := transaction - {DeleteKey(b, i)};
    }
    return true, transaction;
  }

  // ---- what the operations mean

  /** The limits on the names of a record. */
  predicate IsNamed(k: RecordKey) {
    && 1 <= |k.account| && |k.account| <= 512 && k.kind in DURABLE_MAIL_KINDS
    && 1 <= |k.id| && |k.id| <= 512
  }

  /** An operation that is answered with an error has changed nothing. */
  lemma ErrorsChangeNothing(p: Plain, op: Operation, luck: Luck)
    ensures PlainStep(p, op, luck).reply.Err? ==> PlainStep(p, op, luck).store == p
  {
  }

  /** Writes and removals are answered when the names, the nonce and the statement allow it. */
  lemma WritesSucceedExactly(p: Plain, k: RecordKey, value: seq<Byte>, luck: Luck)
    ensures PlainPut(p, k, value, luck).reply ==
      if !IsNamed(k) then Err(InvalidInput)
      else if luck.nonces(0).None? then Err(RngUnavailable)
      else if luck.statement(0) then Ok(Stored) else Err(DatabaseError)
    ensures PlainDelete(p, k, luck).reply ==
      if !IsNamed(k) then Err(InvalidInput)
      else if luck.statement(0) then Ok(Removed(k in p)) else Err(DatabaseError)
  {
  }

  /** A read answers with what is there, under valid names. */
  lemma ReadsSucceedExactly(p: Plain, k: RecordKey, luck: Luck)
    ensures PlainGet(p, k, luck) ==
      if !IsNamed(k) then Err(InvalidInput)
      else if !luck.statement(0) then Err(DatabaseError)
      else if k in p then Ok(Found(Some(p[k]))) else Ok(Found(None))
    ensures PlainCount(p, luck) == if luck.statement(0) then Ok(Counted(|p|)) else Err(DatabaseError)
  {
  }

  /** An account is deleted when BEGIN, the three deletes and COMMIT succeed, under any name. */
  lemma DeletionSucceedsExactly(p: Plain, account: Text, luck: Luck)
    ensures PlainDeleteAccount(p, account, luck).reply ==
      if luck.statement(0) && luck.statement(1) && luck.statement(2) && luck.statement(3) && luck.statement(4)
      then Ok(Counted(|OfAccount(p, account)|)) else Err(DatabaseError)
  {
  }

  /** A listing is answered under a valid account and kind when its statement succeeds. */
  lemma ListingSucceedsExactly(p: Plain, account: Text, kind: Text, luck: Luck)
    ensures PlainList(p, account, kind, luck).Ok? <==>
      1 <= |account| <= 512 && kind in DURABLE_MAIL_KINDS && luck.statement(0)
    ensures PlainList(p, account, kind, luck) == Err(InvalidInput) <==>
      !(1 <= |account| <= 512 && kind in DURABLE_MAIL_KINDS)
    ensures PlainList(p, account, kind, luck).Ok? || PlainList(p, account, kind, luck).error in {InvalidInput, DatabaseError}
  {
  }

  /** Once k is put a read of k finds the value, and every other record is found as it was before. */
  lemma ReadsFollowPuts(p: Plain, k: RecordKey, value: seq<Byte>, write: Luck, l: RecordKey, read: Luck)
    requires PlainPut(p, k, value, write).reply.Ok? && PlainGet(p, l, read).Ok?
    ensures var u := PlainPut(p, k, value, write).store;
      && PlainGet(u, l, read) == (if l == k then Ok(Found(Some(value))) else PlainGet(p, l, read))
      && |u| == |p| + if k in p then 0 else 1
  {
    SizeAfterPut(p, k, value);
  }

  /** Once k is deleted a read of k finds nothing, and every other record is found as it was before. */
  lemma ReadsFollowDeletes(p: Plain, k: RecordKey, remove: Luck, l: RecordKey, read: Luck)
    requires PlainDelete(p, k, remove).reply.Ok? && PlainGet(p, l, read).Ok?
    ensures var u := PlainDelete(p, k, remove).store;
      && PlainGet(u, l, read) == (if l == k then Ok(Found(None)) else PlainGet(p, l, read))
      && |u| == |p| - if k in p then 1 else 0
  {
    SizeAfterDelete(p, k);
  }

  lemma SizeAfterPut(p: Plain, k: RecordKey, value: seq<Byte>)
    ensures |p[k := value]| == |p| + if k in p then 0 else 1
  {
    assert p[k := value].Keys == p.Keys + {k};
    assert |p[k := value]| == |p[k := value].Keys| && |p| == |p.Keys|;
  }

  lemma SizeAfterDelete(p: Plain, k: RecordKey)
    ensures |p - {k}| == |p| - if k in p then 1 else 0
  {
    assert (p - {k}).Keys == p.Keys - {k};
    assert |p - {k}| == |(p - {k}).Keys| && |p| == |p.Keys|;
  }

  predicate BatchIsNamed(b: Batch) {
    && 1 <= |b.account| && |b.account| <= 512
    && (forall i :: 0 <= i < |b.upserts| ==> IsNamed(WriteKey(b, i)))
    && (forall i :: 0 <= i < |b.deletes| ==> IsNamed(DeleteKey(b, i)))
  }

  /** One nonce for each upsert, and one for the cursor. */
  predicate HasNonces(b: Batch, luck: Luck) {
    forall i :: 0 <= i <= |b.upserts| ==> luck.nonces(i).Some?
  }

  lemma {:induction false} SealingSucceedsExactly(b: Batch, luck: Luck, i: nat)
    requires i <= |b.upserts| && IsIdentifier(b.account)
    ensures SealingProblem(b, luck, i).None? <==>
      forall j :: i <= j < |b.upserts| ==> IsNamed(WriteKey(b, j)) && luck.nonces(j).Some?
    ensures SealingProblem(b, luck, i) in {None, Some(InvalidInput), Some(RngUnavailable)}
    ensures (forall j :: i <= j < |b.upserts| ==> luck.nonces(j).Some?) ==>
      SealingProblem(b, luck, i) in {None, Some(InvalidInput)}
    ensures (forall j :: i <= j < |b.upserts| ==> IsNamed(WriteKey(b, j))) ==>
      SealingProblem(b, luck, i) in {None, Some(RngUnavailable)}
    decreases |b.upserts| - i
  {
    if i < |b.upserts| {
      SealingSucceedsExactly(b, luck, i + 1);
      assert IsNamed(WriteKey(b, i)) <==> IsDurableKind(b.upserts[i].kind) && IsIdentifier(b.upserts[i].id);
    }
  }

  /**
   A batch is committed exactly when all its names are valid, every nonce can be drawn and every
   statement, the last COMMIT included, succeeds; the error says what was wrong.
   */
  lemma BatchSucceedsExactly(p: Plain, b: Batch, luck: Luck)
    ensures var reply := PlainBatch(p, b, luck).reply;
      && (reply.Ok? <==>
            && BatchIsNamed(b) && HasNonces(b, luck)
            && forall i :: 0 <= i < |b.upserts| + |b.deletes| + 4 ==> luck.statement(i))
      && (reply == Err(DatabaseError) <==>
            && BatchIsNamed(b) && HasNonces(b, luck)
            && !(forall i :: 0 <= i < |b.upserts| + |b.deletes| + 4 ==> luck.statement(i)))
      && (HasNonces(b, luck) && !BatchIsNamed(b) ==> reply == Err(InvalidInput))
      && (BatchIsNamed(b) && !HasNonces(b, luck) ==> reply == Err(RngUnavailable))
  {
    if IsIdentifier(b.account) {
      SealingSucceedsExactly(b, luck, 0);
      NamesOfBatch(b);
      assert HasNonces(b, luck) <==>
        luck.nonces(|b.upserts|).Some? && forall j :: 0 <= j < |b.upserts| ==> luck.nonces(j).Some?;
      assert BatchProblem(b, luck).None? <==> BatchIsNamed(b) && HasNonces(b, luck);
    }
  }

  lemma NamesOfBatch(b: Batch)
    requires IsIdentifier(b.account)
    ensures (forall i :: 0 <= i < |b.deletes| ==> IsNamed(DeleteKey(b, i))) <==> DeletesAreValid(b)
  {
    assert forall i :: 0 <= i < |b.deletes| ==>
      (IsNamed(DeleteKey(b, i)) <==> IsDurableKind(b.deletes[i].kind) && IsIdentifier(b.deletes[i].id));
  }

  predicate Writes(b: Batch, k: RecordKey) {
    exists i :: 0 <= i < |b.upserts| && WriteKey(b, i) == k
  }

  predicate Deletes(b: Batch, k: RecordKey) {
    exists i :: 0 <= i < |b.deletes| && DeleteKey(b, i) == k
  }

  /** i is the last upsert of k. */
  predicate IsLastWrite(b: Batch, k: RecordKey, i: nat) {
    i < |b.upserts| && WriteKey(b, i) == k && forall j :: i < j < |b.upserts| ==> WriteKey(b, j) != k
  }

  lemma {:induction false} NotUpserted(p: Plain, b: Batch, n: nat, k: RecordKey)
    requires n <= |b.upserts| && forall i :: 0 <= i < n ==> WriteKey(b, i) != k
    ensures (k in Upserted(p, b, n) <==> k in p) && (k in p ==> Upserted(p, b, n)[k] == p[k])
  {
    if n > 0 {
      NotUpserted(p, b, n - 1, k);
    }
  }

  lemma {:induction false} UpsertedLast(p: Plain, b: Batch, n: nat, k: RecordKey, i: nat)
    requires i < n <= |b.upserts| && WriteKey(b, i) == k && forall j :: i < j < n ==> WriteKey(b, j) != k
    ensures k in Upserted(p, b, n) && Upserted(p, b, n)[k] == b.upserts[i].payload
  {
    if i < n - 1 {
      UpsertedLast(p, b, n - 1, k, i);
    }
  }

  lemma {:induction false} DeletedAt(p: Plain, b: Batch, n: nat, k: RecordKey)
    requires n <= |b.deletes|
    ensures (exists i :: 0 <= i < n && DeleteKey(b, i) == k) ==> k !in Deleted(p, b, n)
    ensures (forall i :: 0 <= i < n ==> DeleteKey(b, i) != k) ==>
      (k in Deleted(p, b, n) <==> k in p) && (k in p ==> Deleted(p, b, n)[k] == p[k])
  {
    if n > 0 {
      DeletedAt(p, b, n - 1, k);
    }
  }

  ghost predicate WritesLast(b: Batch, k: RecordKey, value: seq<Byte>) {
    exists i: nat :: IsLastWrite(b, k, i) && b.upserts[i].payload == value
  }

  /**
   A committed batch: the cursor survives whatever was deleted; of the other records the deleted
   ones are gone, an upserted one has its last payload, and the rest is as before.
   */
  lemma BatchMeaning(p: Plain, b: Batch, luck: Luck, k: RecordKey)
    requires PlainBatch(p, b, luck).reply.Ok?
    ensures var q := PlainBatch(p, b, luck).store;
      if k == CursorKey(b) then k in q && q[k] == b.cursor
      else if Deletes(b, k) then k !in q
      else if Writes(b, k) then k in q && WritesLast(b, k, q[k])
      else (k in q <==> k in p) && (k in p ==> q[k] == p[k])
  {
    assert PlainBatch(p, b, luck).store == Committed(p, b);
    var upserted := Upserted(p, b, |b.upserts|);
    if k != CursorKey(b) {
      DeletedAt(upserted, b, |b.deletes|, k);
      if Writes(b, k) {
        LastWriteExists(b, k, |b.upserts|);
        var i: nat :| IsLastWrite(b, k, i);
        UpsertedLast(p, b, |b.upserts|, k, i);
      } else {
        NotUpserted(p, b, |b.upserts|, k);
      }
    }
  }

  lemma {:induction false} LastWriteExists(b: Batch, k: RecordKey, n: nat)
    requires n <= |b.upserts| && (exists i :: 0 <= i < n && WriteKey(b, i) == k)
    requires forall j :: n <= j < |b.upserts| ==> WriteKey(b, j) != k
    ensures exists i: nat :: IsLastWrite(b, k, i)
  {
    if WriteKey(b, n - 1) == k {
      assert IsLastWrite(b, k, n - 1);
    } else {
      LastWriteExists(b, k, n - 1);
    }
  }

  /** Deleting an account reports exactly the records removed and touches no other account. */
  lemma DeleteAccountIsExact(p: Plain, account: Text, luck: Luck)
    requires PlainDeleteAccount(p, account, luck).reply.Ok?
    ensures var o := PlainDeleteAccount(p, account, luck);
      && |o.store| + o.reply.value.n == |p|
      && (forall k :: k in o.store <==> k in p && k.account != account)
      && (forall k <- o.store :: o.store[k] == p[k])
  {
  }

  /** A listing is strictly ascending by id and holds exactly the records of the kind. */
  lemma ListingIsSortedAndComplete(p: Plain, account: Text, kind: Text, luck: Luck)
    requires PlainList(p, account, kind, luck).Ok?
    ensures var records := PlainList(p, account, kind, luck).value.records;
      && (forall i, j :: 0 <= i < j < |records| ==> LexLess(records[i].0, records[j].0))
      && (forall id, value :: (id, value) in records <==>
            RecordKey(account, kind, id) in p && p[RecordKey(account, kind, id)] == value)
  {
    var ids := IdsOf(p, account, kind);
    var records := PlainList(p, account, kind, luck).value.records;
    SortedHasTheIds(ids);
    forall i, j | 0 <= i < j < |records|
      ensures LexLess(records[i].0, records[j].0)
    {
      SortedIsSorted(ids, i, j);
    }
    forall id, value | RecordKey(account, kind, id) in p && p[RecordKey(account, kind, id)] == value
      ensures (id, value) in records
    {
      assert id in ids;
      var i :| 0 <= i < |Sorted(ids)| && Sorted(ids)[i] == id;
      assert records[i] == (id, value);
    }
    forall id, value | (id, value) in records
      ensures RecordKey(account, kind, id) in p && p[RecordKey(account, kind, id)] == value
    {
      var i :| 0 <= i < |records| && records[i] == (id, value);
      assert Sorted(ids)[i] == id && id in ids;
    }
  }

  /** Nine short kinds and identifiers of at most 512 bytes: every context can be told apart. */
  lemma RecordKeysFit(k: RecordKey)
    requires IsRecordKey(k)
    ensures AllFit(AssociatedData(k.kind, k.account, k.id))
  {
  }

  /** An envelope moved to the row of another record is rejected when that record is read. */
  lemma MovedEnvelopeIsRejected(c: Aead, key: SecretKey, k: RecordKey, l: RecordKey, value: seq<Byte>, nonce: Nonce)
    requires IsAead(c) && IsRecordKey(k) && IsRecordKey(l) && k != l
    ensures Open(c, Sealed(c, value, key, Context(k), nonce), key, Context(l)) == Err(AuthenticationFailed)
  {
    RecordKeysFit(k);
    RecordKeysFit(l);
    EnvelopeBelongsToOneRecord(c, value, key, nonce,
      AssociatedData(k.kind, k.account, k.id), AssociatedData(l.kind, l.account, l.id));
  }
}
