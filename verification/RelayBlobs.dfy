/**
 Blob storage of the blind relay: PUT, GET and retention over a SQL table of blob rows and an
 object store.

 Every SQL statement and every object-store call is one atomic step. A request is a handler that
 remembers what it has read so far; any number of handlers take their steps in any order, and a
 handler that never steps again is a request that crashed.
 */
module RelayBlobs {
  import opened Outcomes
  import Decimal

  // ---- identifiers and keys

  /** `/^[A-Za-z0-9_-]{8,128}$/` */
  predicate IsId(s: string) {
    && 8 <= |s| <= 128
    && forall c <- s :: 'A' <= c <= 'Z' || 'a' <= c <= 'z' || '0' <= c <= '9' || c == '_' || c == '-'
  }

  datatype BlobId = BlobId(account: string, blob: string)

  /** One revision of one blob. */
  datatype Slot = Slot(id: BlobId, revision: nat)

  function PrintText(n: nat): string {
    Decimal.PrintIsCanonical(n);
    Decimal.DigitChars(Decimal.Print(n))
  }

  function ObjectKey(slot: Slot): string {
    slot.id.account + "/" + slot.id.blob + "/" + PrintText(slot.revision) + ".ciphertext"
  }

  lemma LastSlashSplits(a: string, b: string, c: string, d: string)
    requires a + "/" + b == c + "/" + d && '/' !in b && '/' !in d
    ensures a == c && b == d
  {
    var left, right := a + "/" + b, c + "/" + d;
    assert left[|a|] == '/' && right[|c|] == '/';
    assert forall i :: |a| < i < |left| ==> left[i] == b[i - |a| - 1];
    assert forall i :: |c| < i < |right| ==> right[i] == d[i - |c| - 1];
    assert |a| == |c|;
    assert left[..|a|] == a && right[..|c|] == c;
    assert left[|a| + 1..] == b && right[|c| + 1..] == d;
  }

  lemma PrintTextIsInjective(m: nat, n: nat)
    requires PrintText(m) == PrintText(n)
    ensures m == n
  {
    Decimal.PrintIsCanonical(m);
    Decimal.PrintIsCanonical(n);
    var a, b := Decimal.Print(m), Decimal.Print(n);
    assert |a| == |PrintText(m)| && |b| == |PrintText(n)|;
    forall i | 0 <= i < |a|
      ensures a[i] == b[i]
    {
      assert PrintText(m)[i] == a[i] as char && PrintText(n)[i] == b[i] as char;
    }
    assert a == b;
    Decimal.PrintIsInjective(m, n);
  }

  lemma PrintTextHasNoSlash(n: nat)
    ensures '/' !in PrintText(n)
  {
    Decimal.PrintIsCanonical(n);
  }

  /** Distinct slots have distinct keys, whatever the account ids, when blob ids hold no '/'. */
  lemma ObjectKeyIsInjective(s: Slot, t: Slot)
    requires IsId(s.id.blob) && IsId(t.id.blob) && ObjectKey(s) == ObjectKey(t)
    ensures s == t
  {
    var suffix := ".ciphertext";
    var p := s.id.account + "/" + s.id.blob + "/" + PrintText(s.revision);
    var q := t.id.account + "/" + t.id.blob + "/" + PrintText(t.revision);
    assert p == ObjectKey(s)[..|ObjectKey(s)| - |suffix|];
    assert q == ObjectKey(t)[..|ObjectKey(t)| - |suffix|];
    PrintTextHasNoSlash(s.revision);
    PrintTextHasNoSlash(t.revision);
    LastSlashSplits(s.id.account + "/" + s.id.blob, PrintText(s.revision),
                    t.id.account + "/" + t.id.blob, PrintText(t.revision));
    LastSlashSplits(s.id.account, s.id.blob, t.id.account, t.id.blob);
    PrintTextIsInjective(s.revision, t.revision);
  }

  // ---- requests and the two stores

  datatype Put = Put(
    id: BlobId, contentType: string, kind: string, revision: nat, version: nat,
    declaredHash: string, body: seq<Byte>, device: string, time: int)

  function SlotOf(p: Put): Slot {
    Slot(p.id, p.revision)
  }

  function Key(p: Put): string {
    ObjectKey(SlotOf(p))
  }

  datatype Row = Row(
    objectKey: string, kind: string, hash: string, byteLength: nat, version: nat,
    revision: nat, updatedBy: string, updatedAt: int, expiresAt: Option<int>)

  datatype Object = Object(bytes: seq<Byte>, version: nat)

  datatype Store = Store(rows: map<BlobId, Row>, objects: map<string, Object>)

  /** SHA-256 and the configured size limit. */
  datatype Config = Config(sha256: seq<Byte> -> string, maxBytes: int)

  const MAX_SAFE_INTEGER := 9007199254740991

  /** The checks a PUT passes before it touches the stores. */
  predicate Acceptable(config: Config, p: Put) {
    && IsId(p.id.blob)
    && p.contentType == "application/vnd.galmail.ciphertext"
    && 32 <= |p.body| <= config.maxBytes
    && p.kind in ["settings", "preferences", "wrapped_key", "device_record"]
    && 1 <= p.revision <= MAX_SAFE_INTEGER
    && 1 <= p.version <= MAX_SAFE_INTEGER
    && p.declaredHash == config.sha256(p.body)
  }

  /** The row the INSERT writes. */
  function RowOf(p: Put): Row {
    Row(Key(p), p.kind, p.declaredHash, |p.body|, p.version, p.revision, p.device, p.time, None)
  }

  function ObjectOf(p: Put): Object {
    Object(p.body, p.version)
  }

  function Lookup(store: Store, id: BlobId): Option<Row> {
    if id in store.rows then Some(store.rows[id]) else None
  }

  /** The rows a sweep at `now` deletes. */
  predicate Expired(row: Row, now: int) {
    row.expiresAt.Some? && row.expiresAt.value <= now
  }

  // ---- handlers

  datatype Response = Created | Replaced | Stale | Failed

  datatype Handler =
    | Upload(put: Put)
    | SelectPrior(put: Put)
    | Upsert(put: Put, prior: Option<Row>)
    | Discard(put: Put)
    | DeletePrior(put: Put, superseded: Row)
    | PutDone(put: Put, response: Response)
    | GetRow(id: BlobId)
    | GetObject(id: BlobId, row: Row)
    | GetDone(id: BlobId, found: Option<Row>, content: Option<Object>)
    | SweepSelect(now: int, within: set<BlobId>)
    | SweepObjects(now: int, keys: set<string>)
    | SweepRows(now: int)
    | SweepDone

  datatype Turn = Turn(store: Store, handler: Handler)

  /** UNIQUE on object_key. */
  predicate KeyTaken(store: Store, p: Put) {
    exists id <- store.rows :: id != p.id && store.rows[id].objectKey == Key(p)
  }

  /** INSERT ... ON CONFLICT DO UPDATE ... WHERE revision < excluded.revision */
  function UpsertStep(store: Store, p: Put, prior: Option<Row>): Turn {
    if KeyTaken(store, p) then Turn(store, PutDone(p, Failed))
    else if p.id in store.rows && store.rows[p.id].revision >= p.revision then Turn(store, Discard(p))
    else
      var expiresAt := if p.id in store.rows then store.rows[p.id].expiresAt else None;
      var stored := store.(rows := store.rows[p.id := RowOf(p).(expiresAt := expiresAt)]);
      if prior.Some? && prior.value.objectKey != Key(p) then Turn(stored, DeletePrior(p, prior.value))
      else Turn(stored, PutDone(p, if prior.Some? then Replaced else Created))
  }

  /** The next atomic step of a handler. */
  function Step(store: Store, h: Handler): Turn {
    match h
    case Upload(p) =>
      Turn(store.(objects := store.objects[Key(p) := ObjectOf(p)]), SelectPrior(p))
    case SelectPrior(p) =>
      var prior := Lookup(store, p.id);
      if prior.Some? && prior.value.revision >= p.revision then Turn(store, Discard(p))
      else Turn(store, Upsert(p, prior))
    case Upsert(p, prior) => UpsertStep(store, p, prior)
    case Discard(p) => Turn(store.(objects := store.objects - {Key(p)}), PutDone(p, Stale))
    case DeletePrior(p, prior) =>
      Turn(store.(objects := store.objects - {prior.objectKey}), PutDone(p, Replaced))
    case GetRow(id) =>
      var row := Lookup(store, id);
      Turn(store, if row.Some? then GetObject(id, row.value) else GetDone(id, None, None))
    case GetObject(id, row) =>
      var content := if row.objectKey in store.objects then Some(store.objects[row.objectKey]) else None;
      Turn(store, GetDone(id, Some(row), content))
    case SweepSelect(now, within) =>
      var keys := set id | id in store.rows && id in within && Expired(store.rows[id], now) :: store.rows[id].objectKey;
      Turn(store, SweepObjects(now, keys))
    case SweepObjects(now, keys) => Turn(store.(objects := store.objects - keys), SweepRows(now))
    case SweepRows(now) =>
      Turn(store.(rows := map id | id in store.rows && !Expired(store.rows[id], now) :: store.rows[id]), SweepDone)
    case _ => Turn(store, h)
  }

  // ---- interleaved runs

  /** `issued` and `committed` record the PUTs started and the ones whose upsert wrote a row. */
  datatype State = State(store: Store, handlers: seq<Handler>, issued: map<Slot, Put>, committed: set<Slot>)

  const Initial := State(Store(map[], map[]), [], map[], {})

  datatype Event = StartPut(p: Put) | StartGet(id: BlobId) | StartSweep(now: int, within: set<BlobId>) | Run(i: nat)

  /** Accepted PUTs carry pairwise distinct revisions of a blob. */
  predicate Allowed(config: Config, s: State, e: Event) {
    match e
    case StartPut(p) => Acceptable(config, p) && SlotOf(p) !in s.issued
    case Run(i) => i < |s.handlers|
    case _ => true
  }

  predicate Commits(before: Handler, after: Handler) {
    && before.Upsert?
    && (after.DeletePrior? || (after.PutDone? && (after.response.Created? || after.response.Replaced?)))
  }

  function RunStep(s: State, i: nat): State
    requires i < |s.handlers|
  {
    var turn := Step(s.store, s.handlers[i]);
    State(turn.store, s.handlers[i := turn.handler], s.issued,
          if Commits(s.handlers[i], turn.handler) then s.committed + {SlotOf(turn.handler.put)} else s.committed)
  }

  function Next(config: Config, s: State, e: Event): State
    requires Allowed(config, s, e)
  {
    match e
    case StartPut(p) => s.(handlers := s.handlers + [Upload(p)], issued := s.issued[SlotOf(p) := p])
    case StartGet(id) => s.(handlers := s.handlers + [GetRow(id)])
    case StartSweep(now, within) => s.(handlers := s.handlers + [SweepSelect(now, within)])
    case Run(i) => RunStep(s, i)
  }

  predicate Legal(config: Config, s: State, events: seq<Event>)
    decreases |events|
  {
    events == [] || (Allowed(config, s, events[0]) && Legal(config, Next(config, s, events[0]), events[1..]))
  }

  function After(config: Config, s: State, events: seq<Event>): State
    requires Legal(config, s, events)
    decreases |events|
  {
    if events == [] then s else After(config, Next(config, s, events[0]), events[1..])
  }

  // ---- the invariant

  predicate HasPut(h: Handler) {
    h.Upload? || h.SelectPrior? || h.Upsert? || h.Discard? || h.DeletePrior? || h.PutDone?
  }

  ghost predicate IssuedAreAcceptable(config: Config, s: State) {
    forall slot <- s.issued :: SlotOf(s.issued[slot]) == slot && Acceptable(config, s.issued[slot])
  }

  ghost predicate HandlersAreIssued(s: State) {
    forall i :: 0 <= i < |s.handlers| && HasPut(s.handlers[i]) ==> IsIssued(s, s.handlers[i].put)
  }

  predicate IsIssued(s: State, p: Put) {
    SlotOf(p) in s.issued && s.issued[SlotOf(p)] == p
  }

  ghost predicate OneHandlerPerSlot(s: State) {
    forall i, j :: 0 <= i < j < |s.handlers| && HasPut(s.handlers[i]) && HasPut(s.handlers[j])
      ==> SlotOf(s.handlers[i].put) != SlotOf(s.handlers[j].put)
  }

  /** row is what a committed PUT of this blob wrote. */
  predicate WasCommitted(s: State, id: BlobId, row: Row) {
    var slot := Slot(id, row.revision);
    && slot in s.committed && slot in s.issued
    && row == RowOf(s.issued[slot]) && row.objectKey == ObjectKey(slot)
  }

  ghost predicate RowsAreBacked(s: State) {
    forall id <- s.store.rows :: WasCommitted(s, id, s.store.rows[id]) && s.store.rows[id].objectKey in s.store.objects
  }

  ghost predicate ObjectsAreIssued(s: State) {
    && (forall k <- s.store.objects :: KeyIsIssued(s, k))
    && (forall slot <- s.issued :: ObjectKey(slot) in s.store.objects
          ==> s.store.objects[ObjectKey(slot)] == ObjectOf(s.issued[slot]))
  }

  ghost predicate KeyIsIssued(s: State, k: string) {
    exists slot <- s.issued :: ObjectKey(slot) == k
  }

  /** The stored revision of the blob is at least r. */
  predicate AtLeast(store: Store, id: BlobId, r: nat) {
    id in store.rows && store.rows[id].revision >= r
  }

  /** What a handler knows between two of its steps. */
  predicate Knows(s: State, h: Handler) {
    match h
    case Upload(p) => SlotOf(p) !in s.committed
    case SelectPrior(p) => SlotOf(p) !in s.committed && Key(p) in s.store.objects
    case Upsert(p, prior) =>
      && SlotOf(p) !in s.committed && Key(p) in s.store.objects
      && (prior.Some? ==> WasCommitted(s, p.id, prior.value) && prior.value.revision < p.revision)
    case Discard(p) => SlotOf(p) !in s.committed && AtLeast(s.store, p.id, p.revision)
    case DeletePrior(p, prior) =>
      WasCommitted(s, p.id, prior) && prior.revision < p.revision && AtLeast(s.store, p.id, p.revision)
    case PutDone(p, response) => response != Failed && AtLeast(s.store, p.id, p.revision)
    case GetObject(id, row) => WasCommitted(s, id, row) && AtLeast(s.store, id, row.revision)
    case GetDone(id, found, content) =>
      && (found.Some? ==> WasCommitted(s, id, found.value))
      && (found.Some? && content.Some? ==> content.value == ObjectOf(s.issued[Slot(id, found.value.revision)]))
      && (found.Some? && content.None? ==> AtLeast(s.store, id, found.value.revision + 1))
    case SweepObjects(_, keys) => keys == {}
    case _ => true
  }

  ghost predicate HandlersKnow(s: State) {
    forall i :: 0 <= i < |s.handlers| ==> Knows(s, s.handlers[i])
  }

  ghost predicate CommittedAreIssued(s: State) {
    forall slot <- s.committed :: slot in s.issued
  }

  ghost predicate Inv(config: Config, s: State) {
    && IssuedAreAcceptable(config, s)
    && HandlersAreIssued(s)
    && CommittedAreIssued(s)
    && OneHandlerPerSlot(s)
    && RowsAreBacked(s)
    && ObjectsAreIssued(s)
    && HandlersKnow(s)
  }

  // ---- one step keeps it

  lemma FreshKey(config: Config, s: State, slot: Slot)
    requires IssuedAreAcceptable(config, s) && ObjectsAreIssued(s) && IsId(slot.id.blob) && slot !in s.issued
    ensures ObjectKey(slot) !in s.store.objects
  {
    if ObjectKey(slot) in s.store.objects {
      assert KeyIsIssued(s, ObjectKey(slot));
      var other :| other in s.issued && ObjectKey(other) == ObjectKey(slot);
      ObjectKeyIsInjective(slot, other);
    }
  }

  /** Facts other handlers rely on survive a step that keeps the objects they need. */
  ghost predicate Grows(s: State, t: State) {
    && s.committed <= t.committed
    && (forall slot <- s.issued :: slot in t.issued && t.issued[slot] == s.issued[slot])
    && (forall id <- s.store.rows :: AtLeast(t.store, id, s.store.rows[id].revision))
  }

  lemma KnowledgeSurvives(s: State, t: State, h: Handler)
    requires Grows(s, t) && Knows(s, h)
    requires HasPut(h) && SlotOf(h.put) in t.committed ==> SlotOf(h.put) in s.committed
    requires NeedsObject(h) ==> Key(h.put) in t.store.objects
    ensures Knows(t, h)
  {
  }

  lemma StartKeepsStores(s: State, t: State)
    requires RowsAreBacked(s) && ObjectsAreIssued(s) && Grows(s, t) && t.store == s.store
    requires forall slot <- t.issued :: slot in s.issued || ObjectKey(slot) !in s.store.objects
    ensures RowsAreBacked(t) && ObjectsAreIssued(t)
  {
  }

  lemma NewHandlerKnows(s: State, t: State, h: Handler)
    requires HandlersKnow(s) && t.handlers == s.handlers + [h] && Grows(s, t)
    requires t.store == s.store && t.committed == s.committed && Knows(t, h)
    ensures HandlersKnow(t)
  {
  }

  lemma NewHandlerIsIssued(s: State, t: State, h: Handler)
    requires HandlersAreIssued(s) && OneHandlerPerSlot(s) && t.handlers == s.handlers + [h]
    requires forall slot <- s.issued :: slot in t.issued && t.issued[slot] == s.issued[slot]
    requires HasPut(h) ==> IsIssued(t, h.put) && SlotOf(h.put) !in s.issued
    ensures HandlersAreIssued(t) && OneHandlerPerSlot(t)
  {
  }

  lemma StartKeepsInv(config: Config, s: State, e: Event)
    requires Inv(config, s) && Allowed(config, s, e) && !e.Run?
    ensures Inv(config, Next(config, s, e))
  {
    var t := Next(config, s, e);
    if e.StartPut? {
      StartPutIssues(config, s, e.p);
    }
    StartKeepsStores(s, t);
    NewHandlerKnows(s, t, t.handlers[|s.handlers|]);
    NewHandlerIsIssued(s, t, t.handlers[|s.handlers|]);
  }

  lemma StartPutIssues(config: Config, s: State, p: Put)
    requires Inv(config, s) && Allowed(config, s, StartPut(p))
    ensures var t := Next(config, s, StartPut(p));
      && IssuedAreAcceptable(config, t) && IsIssued(t, p) && Grows(s, t)
      && (forall slot <- t.issued :: slot in s.issued || ObjectKey(slot) !in s.store.objects)
      && Knows(t, Upload(p))
  {
    FreshKey(config, s, SlotOf(p));
    assert SlotOf(p) !in s.committed;
  }

  // One step of handler i.

  /** A PUT that has stored its object and not yet lost or won. */
  predicate NeedsObject(h: Handler) {
    h.SelectPrior? || h.Upsert?
  }

  /** Besides the row and object facts: no other handler loses its own object. */
  ghost predicate KeysKept(s: State, t: State, i: nat) {
    forall j :: 0 <= j < |s.handlers| && j != i && NeedsObject(s.handlers[j])
      ==> Key(s.handlers[j].put) in t.store.objects
  }

  ghost predicate GoodStep(s: State, i: nat)
    requires i < |s.handlers|
  {
    var t := RunStep(s, i);
    Grows(s, t) && RowsAreBacked(t) && ObjectsAreIssued(t) && Knows(t, t.handlers[i]) && KeysKept(s, t, i)
  }

  lemma KeysDiffer(config: Config, s: State, a: Slot, b: Slot)
    requires IssuedAreAcceptable(config, s) && a in s.issued && b in s.issued && a != b
    ensures ObjectKey(a) != ObjectKey(b)
  {
    if ObjectKey(a) == ObjectKey(b) {
      ObjectKeyIsInjective(a, b);
    }
  }

  lemma UploadIsGood(config: Config, s: State, i: nat)
    requires Inv(config, s) && i < |s.handlers| && s.handlers[i].Upload?
    ensures GoodStep(s, i)
  {
    var p := s.handlers[i].put;
    var t := RunStep(s, i);
    assert Knows(s, s.handlers[i]) && IsIssued(s, p);
    forall slot | slot in s.issued && ObjectKey(slot) in t.store.objects
      ensures t.store.objects[ObjectKey(slot)] == ObjectOf(s.issued[slot])
    {
      if slot != SlotOf(p) {
        KeysDiffer(config, s, slot, SlotOf(p));
      }
    }
    forall k | k in t.store.objects
      ensures KeyIsIssued(t, k)
    {
      assert k == ObjectKey(SlotOf(p)) || KeyIsIssued(s, k);
    }
    forall j | 0 <= j < |s.handlers|
      ensures Knows(s, s.handlers[j])
    {
    }
  }

  /** A step that changes neither store. */
  lemma QuietIsGood(s: State, i: nat)
    requires i < |s.handlers| && RowsAreBacked(s) && ObjectsAreIssued(s) && KeysKept(s, s, i)
    requires RunStep(s, i).store == s.store && RunStep(s, i).committed == s.committed
    requires Knows(RunStep(s, i), RunStep(s, i).handlers[i])
    ensures GoodStep(s, i)
  {
    SameObjectsAreIssued(s, RunStep(s, i));
  }

  lemma SelectPriorKnows(s: State, i: nat)
    requires i < |s.handlers| && s.handlers[i].SelectPrior? && Knows(s, s.handlers[i]) && RowsAreBacked(s)
    ensures Knows(RunStep(s, i), RunStep(s, i).handlers[i])
  {
  }

  lemma SelectPriorIsGood(config: Config, s: State, i: nat)
    requires Inv(config, s) && i < |s.handlers| && s.handlers[i].SelectPrior?
    ensures GoodStep(s, i)
  {
    assert Knows(s, s.handlers[i]);
    OwnKeysArePresent(config, s, i);
    SelectPriorKnows(s, i);
    QuietIsGood(s, i);
  }

  /** Removing one object no row and no unfinished PUT needs. */
  lemma RemovalIsGood(s: State, i: nat, key: string)
    requires i < |s.handlers| && RowsAreBacked(s) && ObjectsAreIssued(s)
    requires var t := RunStep(s, i);
      && t.store == s.store.(objects := s.store.objects - {key})
      && t.issued == s.issued && t.committed == s.committed && Knows(t, t.handlers[i])
    requires forall id <- s.store.rows :: s.store.rows[id].objectKey != key
    requires KeysKept(s, s, i)
    requires forall j :: 0 <= j < |s.handlers| && j != i && NeedsObject(s.handlers[j]) ==> Key(s.handlers[j].put) != key
    ensures GoodStep(s, i)
  {
    var t := RunStep(s, i);
    forall k | k in t.store.objects
      ensures KeyIsIssued(t, k)
    {
      assert KeyIsIssued(s, k);
    }
  }

  lemma OwnKeysArePresent(config: Config, s: State, i: nat)
    requires Inv(config, s)
    ensures KeysKept(s, s, i)
  {
  }

  lemma DiscardIsGood(config: Config, s: State, i: nat)
    requires Inv(config, s) && i < |s.handlers| && s.handlers[i].Discard?
    ensures GoodStep(s, i)
  {
    var p := s.handlers[i].put;
    assert Knows(s, s.handlers[i]) && IsIssued(s, p);
    forall id | id in s.store.rows
      ensures s.store.rows[id].objectKey != Key(p)
    {
      KeysDiffer(config, s, Slot(id, s.store.rows[id].revision), SlotOf(p));
    }
    forall j | 0 <= j < |s.handlers| && j != i && NeedsObject(s.handlers[j])
      ensures Key(s.handlers[j].put) != Key(p)
    {
      assert IsIssued(s, s.handlers[j].put);
      KeysDiffer(config, s, SlotOf(s.handlers[j].put), SlotOf(p));
    }
    OwnKeysArePresent(config, s, i);
    RemovalIsGood(s, i, Key(p));
  }

  lemma DeletePriorIsGood(config: Config, s: State, i: nat)
    requires Inv(config, s) && i < |s.handlers| && s.handlers[i].DeletePrior?
    ensures GoodStep(s, i)
  {
    var p, prior := s.handlers[i].put, s.handlers[i].superseded;
    var former := Slot(p.id, prior.revision);
    assert Knows(s, s.handlers[i]);
    assert prior.objectKey == ObjectKey(former);
    forall id | id in s.store.rows
      ensures s.store.rows[id].objectKey != prior.objectKey
    {
      KeysDiffer(config, s, Slot(id, s.store.rows[id].revision), former);
    }
    forall j | 0 <= j < |s.handlers| && j != i && NeedsObject(s.handlers[j])
      ensures Key(s.handlers[j].put) != prior.objectKey
    {
      assert IsIssued(s, s.handlers[j].put) && Knows(s, s.handlers[j]);
      KeysDiffer(config, s, SlotOf(s.handlers[j].put), former);
    }
    OwnKeysArePresent(config, s, i);
    RemovalIsGood(s, i, prior.objectKey);
  }

  /** The UNIQUE constraint on object keys is never violated. */
  lemma KeyIsNeverTaken(config: Config, s: State, p: Put)
    requires IssuedAreAcceptable(config, s) && RowsAreBacked(s) && IsIssued(s, p)
    ensures !KeyTaken(s.store, p)
  {
    forall id | id in s.store.rows && id != p.id
      ensures s.store.rows[id].objectKey != Key(p)
    {
      KeysDiffer(config, s, Slot(id, s.store.rows[id].revision), SlotOf(p));
    }
  }

  /** The upsert of a PUT that is newer than the row. */
  lemma UpsertWrites(s: State, i: nat, p: Put)
    requires i < |s.handlers| && s.handlers[i].Upsert? && s.handlers[i].put == p && Knows(s, s.handlers[i])
    requires RowsAreBacked(s) && IsIssued(s, p) && !KeyTaken(s.store, p) && !AtLeast(s.store, p.id, p.revision)
    requires s.handlers[i].prior.Some? ==> s.handlers[i].prior.value.objectKey != Key(p)
    ensures var t := RunStep(s, i);
      && t.store == s.store.(rows := s.store.rows[p.id := RowOf(p)])
      && t.issued == s.issued && t.committed == s.committed + {SlotOf(p)}
      && Knows(t, t.handlers[i])
  {
    assert p.id in s.store.rows ==> s.store.rows[p.id].expiresAt.None?;
    var t := RunStep(s, i);
    assert t.store.rows[p.id] == RowOf(p);
    assert AtLeast(t.store, p.id, p.revision);
  }

  /** Writing the row of an issued PUT whose object is stored. */
  lemma WrittenRowsAreBacked(s: State, t: State, p: Put)
    requires RowsAreBacked(s) && IsIssued(s, p) && Key(p) in s.store.objects
    requires t.store == s.store.(rows := s.store.rows[p.id := RowOf(p)])
    requires t.issued == s.issued && t.committed == s.committed + {SlotOf(p)}
    ensures RowsAreBacked(t)
  {
  }

  lemma SameObjectsAreIssued(s: State, t: State)
    requires ObjectsAreIssued(s) && t.store.objects == s.store.objects && t.issued == s.issued
    ensures ObjectsAreIssued(t)
  {
  }

  lemma WriteIsGood(s: State, i: nat, p: Put)
    requires i < |s.handlers| && RowsAreBacked(s) && ObjectsAreIssued(s) && KeysKept(s, s, i)
    requires IsIssued(s, p) && Key(p) in s.store.objects && !AtLeast(s.store, p.id, p.revision)
    requires var t := RunStep(s, i);
      && t.store == s.store.(rows := s.store.rows[p.id := RowOf(p)])
      && t.issued == s.issued && t.committed == s.committed + {SlotOf(p)}
      && Knows(t, t.handlers[i])
    ensures GoodStep(s, i)
  {
    WrittenRowsAreBacked(s, RunStep(s, i), p);
    SameObjectsAreIssued(s, RunStep(s, i));
  }

  lemma UpsertIsGood(config: Config, s: State, i: nat)
    requires Inv(config, s) && i < |s.handlers| && s.handlers[i].Upsert?
    ensures GoodStep(s, i)
  {
    var p, prior := s.handlers[i].put, s.handlers[i].prior;
    assert Knows(s, s.handlers[i]) && IsIssued(s, p);
    KeyIsNeverTaken(config, s, p);
    OwnKeysArePresent(config, s, i);
    if AtLeast(s.store, p.id, p.revision) {
      QuietIsGood(s, i);
    } else {
      if prior.Some? {
        KeysDiffer(config, s, Slot(p.id, prior.value.revision), SlotOf(p));
      }
      UpsertWrites(s, i, p);
      WriteIsGood(s, i, p);
    }
  }

  /** No row a PUT wrote ever expires, so a retention sweep finds nothing. */
  lemma SweepFindsNothing(s: State, i: nat)
    requires i < |s.handlers| && RowsAreBacked(s) && Knows(s, s.handlers[i])
    requires s.handlers[i].SweepSelect? || s.handlers[i].SweepObjects? || s.handlers[i].SweepRows? || s.handlers[i].SweepDone?
    ensures RunStep(s, i).store == s.store && Knows(RunStep(s, i), RunStep(s, i).handlers[i])
  {
    assert forall id <- s.store.rows :: s.store.rows[id].expiresAt.None?;
    match s.handlers[i]
    case SweepObjects(_, _) => assert s.store.objects - {} == s.store.objects;
    case SweepRows(_) => assert RunStep(s, i).store.rows == s.store.rows;
    case _ =>
  }

  lemma GetKnows(s: State, i: nat)
    requires i < |s.handlers| && RowsAreBacked(s) && ObjectsAreIssued(s) && Knows(s, s.handlers[i])
    requires s.handlers[i].GetRow? || s.handlers[i].GetObject? || s.handlers[i].GetDone?
    ensures Knows(RunStep(s, i), RunStep(s, i).handlers[i])
  {
    match s.handlers[i]
    case GetObject(id, row) =>
      assert row.objectKey == ObjectKey(Slot(id, row.revision));
      assert WasCommitted(s, id, s.store.rows[id]);
    case _ =>
  }

  lemma ReadIsGood(config: Config, s: State, i: nat)
    requires Inv(config, s) && i < |s.handlers| && !HasPut(s.handlers[i])
    ensures GoodStep(s, i)
  {
    assert Knows(s, s.handlers[i]);
    OwnKeysArePresent(config, s, i);
    if s.handlers[i].GetRow? || s.handlers[i].GetObject? || s.handlers[i].GetDone? {
      GetKnows(s, i);
    } else {
      SweepFindsNothing(s, i);
    }
    QuietIsGood(s, i);
  }

  lemma DoneIsGood(config: Config, s: State, i: nat)
    requires Inv(config, s) && i < |s.handlers| && s.handlers[i].PutDone?
    ensures GoodStep(s, i)
  {
    assert Knows(s, s.handlers[i]);
    OwnKeysArePresent(config, s, i);
    QuietIsGood(s, i);
  }

  lemma RunIsGood(config: Config, s: State, i: nat)
    requires Inv(config, s) && i < |s.handlers|
    ensures GoodStep(s, i)
  {
    match s.handlers[i]
    case Upload(_) => UploadIsGood(config, s, i);
    case SelectPrior(_) => SelectPriorIsGood(config, s, i);
    case Upsert(_, _) => UpsertIsGood(config, s, i);
    case Discard(_) => DiscardIsGood(config, s, i);
    case DeletePrior(_, _) => DeletePriorIsGood(config, s, i);
    case PutDone(_, _) => DoneIsGood(config, s, i);
    case _ => ReadIsGood(config, s, i);
  }

  lemma StepKeepsPut(store: Store, h: Handler)
    ensures var after := Step(store, h).handler;
            HasPut(after) == HasPut(h) && (HasPut(h) ==> after.put == h.put)
  {
  }

  lemma RunKeepsHandlers(s: State, t: State, i: nat, h: Handler)
    requires i < |s.handlers| && t.handlers == s.handlers[i := h] && t.issued == s.issued
    requires HasPut(h) == HasPut(s.handlers[i]) && (HasPut(h) ==> h.put == s.handlers[i].put)
    requires HandlersAreIssued(s) && OneHandlerPerSlot(s)
    ensures HandlersAreIssued(t) && OneHandlerPerSlot(t)
  {
  }

  lemma OthersKeepKnowing(s: State, t: State, i: nat, j: nat)
    requires i < |s.handlers| && j < |s.handlers| && i != j && Grows(s, t) && KeysKept(s, t, i)
    requires OneHandlerPerSlot(s) && Knows(s, s.handlers[j])
    requires t.committed <= s.committed || (HasPut(s.handlers[i]) && t.committed <= s.committed + {SlotOf(s.handlers[i].put)})
    ensures Knows(t, s.handlers[j])
  {
    KnowledgeSurvives(s, t, s.handlers[j]);
  }

  lemma RunKeepsInv(config: Config, s: State, i: nat)
    requires Inv(config, s) && i < |s.handlers|
    ensures Inv(config, RunStep(s, i))
  {
    var t := RunStep(s, i);
    StepKeepsPut(s.store, s.handlers[i]);
    RunKeepsHandlers(s, t, i, t.handlers[i]);
    RunIsGood(config, s, i);
    assert CommittedAreIssued(t) by {
      assert HasPut(s.handlers[i]) ==> IsIssued(s, s.handlers[i].put);
    }
    forall j | 0 <= j < |t.handlers|
      ensures Knows(t, t.handlers[j])
    {
      if j != i {
        assert Knows(s, s.handlers[j]);
        OthersKeepKnowing(s, t, i, j);
      }
    }
  }

  // ---- every run

  lemma NextKeepsInv(config: Config, s: State, e: Event)
    requires Inv(config, s) && Allowed(config, s, e)
    ensures Inv(config, Next(config, s, e))
    ensures forall id <- s.store.rows :: AtLeast(Next(config, s, e).store, id, s.store.rows[id].revision)
  {
    if e.Run? {
      RunKeepsInv(config, s, e.i);
      RunIsGood(config, s, e.i);
    } else {
      StartKeepsInv(config, s, e);
    }
  }

  /** In every interleaving no stored revision ever decreases and no row disappears. */
  lemma {:induction false} RevisionsNeverDecrease(config: Config, s: State, events: seq<Event>)
    requires Inv(config, s) && Legal(config, s, events)
    ensures Inv(config, After(config, s, events))
    ensures forall id <- s.store.rows :: AtLeast(After(config, s, events).store, id, s.store.rows[id].revision)
    decreases |events|
  {
    if events != [] {
      NextKeepsInv(config, s, events[0]);
      RevisionsNeverDecrease(config, Next(config, s, events[0]), events[1..]);
    }
  }

  /** The object is the one the row describes. */
  predicate Describes(config: Config, row: Row, stored: Object) {
    config.sha256(stored.bytes) == row.hash && |stored.bytes| == row.byteLength && stored.version == row.version
  }

  /** In every reachable state each row's object exists and its bytes match the row's hash. */
  lemma EveryRowIsBacked(config: Config, events: seq<Event>, id: BlobId)
    requires Legal(config, Initial, events) && id in After(config, Initial, events).store.rows
    ensures var store := After(config, Initial, events).store;
      && store.rows[id].objectKey == ObjectKey(Slot(id, store.rows[id].revision))
      && store.rows[id].objectKey in store.objects
      && Describes(config, store.rows[id], store.objects[store.rows[id].objectKey])
  {
    RevisionsNeverDecrease(config, Initial, events);
    var s := After(config, Initial, events);
    assert WasCommitted(s, id, s.store.rows[id]);
  }

  /**
   A GET that ran beside any other requests: the bytes it serves have the hash it sends, and it
   misses the object only when a newer revision has replaced the row it read.
   */
  lemma GetServesTheHashItSends(config: Config, events: seq<Event>, i: nat)
    requires Legal(config, Initial, events) && i < |After(config, Initial, events).handlers|
    requires After(config, Initial, events).handlers[i].GetDone?
    ensures var s := After(config, Initial, events);
      var get := s.handlers[i];
      get.found.Some? ==>
        match get.content
        case Some(o) => Describes(config, get.found.value, o)
        case None => AtLeast(s.store, get.id, get.found.value.revision + 1)
  {
    RevisionsNeverDecrease(config, Initial, events);
    var s := After(config, Initial, events);
    assert Knows(s, s.handlers[i]);
  }

  /**
   An answered PUT, accepted or stale, leaves a row at least as new as itself, written by a PUT that
   was sent: once all PUTs to a blob are answered its row holds the newest of them.
   */
  lemma AnsweredPutsLeaveTheNewest(config: Config, events: seq<Event>, i: nat)
    requires Legal(config, Initial, events) && i < |After(config, Initial, events).handlers|
    requires After(config, Initial, events).handlers[i].PutDone?
    ensures var s := After(config, Initial, events);
      var done := s.handlers[i];
      && done.response != Failed
      && AtLeast(s.store, done.put.id, done.put.revision)
      && Slot(done.put.id, s.store.rows[done.put.id].revision) in s.issued
  {
    RevisionsNeverDecrease(config, Initial, events);
    var s := After(config, Initial, events);
    assert Knows(s, s.handlers[i]);
    var id := s.handlers[i].put.id;
    assert WasCommitted(s, id, s.store.rows[id]);
  }

  // ---- PUTs that do not overlap

  function Rank(h: Handler): nat {
    match h
    case Upload(_) => 4
    case SelectPrior(_) => 3
    case Upsert(_, _) => 2
    case Discard(_) => 1
    case DeletePrior(_, _) => 1
    case _ => 0
  }

  /** Running a PUT handler alone to its end. */
  function Finish(store: Store, h: Handler): (r: Turn)
    requires HasPut(h)
    ensures r.handler.PutDone?
    decreases Rank(h)
  {
    if h.PutDone? then Turn(store, h)
    else
      var turn := Step(store, h);
      Finish(turn.store, turn.handler)
  }

  function Uploaded(store: Store, p: Put): Store {
    store.(objects := store.objects[Key(p) := ObjectOf(p)])
  }

  function Dropped(store: Store, key: string): Store {
    store.(objects := store.objects - {key})
  }

  function Written(store: Store, p: Put): Store {
    var expiresAt := if p.id in store.rows then store.rows[p.id].expiresAt else None;
    store.(rows := store.rows[p.id := RowOf(p).(expiresAt := expiresAt)])
  }

  predicate IsStale(store: Store, p: Put) {
    p.id in store.rows && store.rows[p.id].revision >= p.revision
  }

  lemma StaleRun(store: Store, p: Put)
    requires IsStale(store, p)
    ensures Finish(store, Upload(p)) == Turn(Dropped(Uploaded(store, p), Key(p)), PutDone(p, Stale))
  {
    var u := Uploaded(store, p);
    assert Finish(store, Upload(p)) == Finish(u, SelectPrior(p));
    assert Finish(u, SelectPrior(p)) == Finish(u, Discard(p));
    assert Finish(u, Discard(p)) == Finish(Dropped(u, Key(p)), PutDone(p, Stale));
  }

  lemma NewerRunUpserts(store: Store, p: Put)
    requires !IsStale(store, p)
    ensures var u := Uploaded(store, p);
      var turn := UpsertStep(u, p, Lookup(store, p.id));
      Finish(store, Upload(p)) == Finish(turn.store, turn.handler)
  {
    var u := Uploaded(store, p);
    assert Finish(store, Upload(p)) == Finish(u, SelectPrior(p));
    assert Finish(u, SelectPrior(p)) == Finish(u, Upsert(p, Lookup(store, p.id)));
  }

  lemma ClashingRun(store: Store, p: Put)
    requires !IsStale(store, p) && KeyTaken(Uploaded(store, p), p)
    ensures Finish(store, Upload(p)) == Turn(Uploaded(store, p), PutDone(p, Failed))
  {
    NewerRunUpserts(store, p);
  }

  lemma NewerRun(store: Store, p: Put)
    requires !IsStale(store, p) && !KeyTaken(Uploaded(store, p), p)
    ensures var w, prior := Written(Uploaded(store, p), p), Lookup(store, p.id);
      Finish(store, Upload(p)) ==
        if prior.None? then Turn(w, PutDone(p, Created))
        else if prior.value.objectKey == Key(p) then Turn(w, PutDone(p, Replaced))
        else Turn(Dropped(w, prior.value.objectKey), PutDone(p, Replaced))
  {
    NewerRunUpserts(store, p);
    var w, prior := Written(Uploaded(store, p), p), Lookup(store, p.id);
    var turn := UpsertStep(Uploaded(store, p), p, prior);
    assert turn.store == w;
    if turn.handler.DeletePrior? {
      assert Finish(w, turn.handler) == Finish(Dropped(w, prior.value.objectKey), PutDone(p, Replaced));
    }
  }

  datatype Answer = BadRequest | Answered(response: Response)

  function PutAlone(config: Config, store: Store, p: Put): (Store, Answer) {
    if !Acceptable(config, p) then (store, BadRequest)
    else
      var turn := Finish(store, Upload(p));
      (turn.store, Answered(turn.handler.response))
  }

  /** The relay's two stores. */
  class BlobRelay {
    const config: Config
    var rows: map<BlobId, Row>
    var objects: map<string, Object>

    function Contents(): Store
      reads this
    {
      Store(rows, objects)
    }

    constructor (config: Config)
      ensures this.config == config && Contents() == Store(map[], map[])
    {
      this.config, rows, objects := config, map[], map[];
    }

    /** The PUT handler. */
    method PutBlob(p: Put) returns (answer: Answer)
      modifies this
      ensures (Contents(), answer) == PutAlone(config, old(Contents()), p)
    {
      if !Acceptable(config, p) {
        return BadRequest;
      }
      ghost var before := Contents();
      var key := Key(p);
      objects := objects[key := ObjectOf(p)];
      var prior := Lookup(Contents(), p.id);
      if prior.Some? && prior.value.revision >= p.revision {
        objects := objects - {key};
        StaleRun(before, p);
        return Answered(Stale);
      }
      if KeyTaken(Contents(), p) {
        ClashingRun(before, p);
        return Answered(Failed);
      }
      // Nothing ran since the SELECT, so the upsert's WHERE clause holds.
      rows := rows[p.id := RowOf(p).(expiresAt := if p.id in rows then rows[p.id].expiresAt else None)];
      if prior.Some? && prior.value.objectKey != key {
        objects := objects - {prior.value.objectKey};
      }
      NewerRun(before, p);
      return Answered(if prior.Some? then Replaced else Created);
    }
  }

  /** A row as a PUT writes it. */
  predicate IsKeyed(store: Store, id: BlobId)
    requires id in store.rows
  {
    && IsId(id.blob) && store.rows[id].expiresAt.None?
    && store.rows[id].objectKey == ObjectKey(Slot(id, store.rows[id].revision))
  }

  ghost predicate RowsAreKeyed(store: Store) {
    forall id <- store.rows :: IsKeyed(store, id)
  }

  predicate HasObject(config: Config, store: Store, id: BlobId)
    requires id in store.rows
  {
    && store.rows[id].objectKey in store.objects
    && Describes(config, store.rows[id], store.objects[store.rows[id].objectKey])
  }

  ghost predicate RowsHaveObjects(config: Config, store: Store) {
    RowsAreKeyed(store) && forall id <- store.rows :: HasObject(config, store, id)
  }

  /** Exactly one object per row: the one the row describes, under the row's own key. */
  ghost predicate OneObjectPerRow(config: Config, store: Store) {
    RowsHaveObjects(config, store) && forall k <- store.objects :: IsRowKey(store, k)
  }

  ghost predicate IsRowKey(store: Store, k: string) {
    exists id <- store.rows :: store.rows[id].objectKey == k
  }

  predicate ReusesStoredRevision(store: Store, p: Put) {
    p.id in store.rows && store.rows[p.id].revision == p.revision
  }

  lemma OtherRowsHaveOtherKeys(store: Store, slot: Slot, id: BlobId)
    requires RowsAreKeyed(store) && IsId(slot.id.blob) && id in store.rows
    requires id != slot.id || store.rows[id].revision != slot.revision
    ensures store.rows[id].objectKey != ObjectKey(slot)
  {
    if store.rows[id].objectKey == ObjectKey(slot) {
      ObjectKeyIsInjective(slot, Slot(id, store.rows[id].revision));
    }
  }

  /** The key of a revision that is not stored holds no object. */
  lemma UnstoredKeyIsFree(config: Config, store: Store, p: Put)
    requires OneObjectPerRow(config, store) && IsId(p.id.blob) && !ReusesStoredRevision(store, p)
    ensures Key(p) !in store.objects
    ensures forall id <- store.rows :: store.rows[id].objectKey != Key(p)
  {
    forall id | id in store.rows
      ensures store.rows[id].objectKey != Key(p)
    {
      OtherRowsHaveOtherKeys(store, SlotOf(p), id);
    }
    assert Key(p) in store.objects ==> IsRowKey(store, Key(p));
  }

  lemma StalePutChangesNothing(config: Config, store: Store, p: Put)
    requires OneObjectPerRow(config, store) && Acceptable(config, p)
    requires p.id in store.rows && store.rows[p.id].revision > p.revision
    ensures Finish(store, Upload(p)) == Turn(store, PutDone(p, Stale))
  {
    UnstoredKeyIsFree(config, store, p);
    StaleRun(store, p);
    PutThenRemove(store.objects, Key(p), ObjectOf(p));
  }

  lemma PutThenRemove(objects: map<string, Object>, key: string, value: Object)
    requires key !in objects
    ensures objects[key := value] - {key} == objects
  {
  }

  /** The stores after a PUT of a newer revision. */
  function Replacing(store: Store, p: Put): Store {
    var before := if p.id in store.rows then store.objects - {store.rows[p.id].objectKey} else store.objects;
    Store(store.rows[p.id := RowOf(p)], before[Key(p) := ObjectOf(p)])
  }

  lemma NewerPutReplaces(config: Config, store: Store, p: Put)
    requires OneObjectPerRow(config, store) && Acceptable(config, p)
    requires !IsStale(store, p)
    ensures Finish(store, Upload(p))
         == Turn(Replacing(store, p), PutDone(p, if p.id in store.rows then Replaced else Created))
  {
    UnstoredKeyIsFree(config, store, p);
    assert !KeyTaken(Uploaded(store, p), p);
    NewerRun(store, p);
    var w, prior := Written(Uploaded(store, p), p), Lookup(store, p.id);
    assert w.rows == store.rows[p.id := RowOf(p)];
    if prior.Some? {
      assert Dropped(w, prior.value.objectKey).objects == Replacing(store, p).objects;
    }
  }

  /** Every row after the replacement, the new one and the others, has its object. */
  lemma ReplacingBacksRow(config: Config, store: Store, p: Put, id: BlobId)
    requires OneObjectPerRow(config, store) && Acceptable(config, p) && !IsStale(store, p)
    requires id in store.rows || id == p.id
    ensures IsKeyed(Replacing(store, p), id) && HasObject(config, Replacing(store, p), id)
  {
    var t := Replacing(store, p);
    if id != p.id {
      assert IsKeyed(store, id) && HasObject(config, store, id);
      UnstoredKeyIsFree(config, store, p);
      if p.id in store.rows {
        OtherRowsHaveOtherKeys(store, Slot(p.id, store.rows[p.id].revision), id);
      }
      assert t.rows[id] == store.rows[id];
    }
  }

  lemma ReplacingLeavesRowKeys(config: Config, store: Store, p: Put, k: string)
    requires OneObjectPerRow(config, store) && k in Replacing(store, p).objects
    ensures IsRowKey(Replacing(store, p), k)
  {
    var t := Replacing(store, p);
    if k == Key(p) {
      assert t.rows[p.id].objectKey == k;
    } else {
      assert IsRowKey(store, k);
      var id :| id in store.rows && store.rows[id].objectKey == k;
      assert t.rows[id].objectKey == k;
    }
  }

  lemma ReplacingKeepsOneObjectPerRow(config: Config, store: Store, p: Put)
    requires OneObjectPerRow(config, store) && Acceptable(config, p) && !IsStale(store, p)
    ensures OneObjectPerRow(config, Replacing(store, p))
  {
    var t := Replacing(store, p);
    forall id | id in t.rows
      ensures IsKeyed(t, id) && HasObject(config, t, id)
    {
      ReplacingBacksRow(config, store, p, id);
    }
    forall k | k in t.objects
      ensures IsRowKey(t, k)
    {
      ReplacingLeavesRowKeys(config, store, p, k);
    }
  }

  /** A PUT that reuses the stored revision is answered as stale after its key was deleted. */
  lemma ReusedRevisionLosesTheObject(config: Config, store: Store, p: Put)
    requires OneObjectPerRow(config, store) && Acceptable(config, p) && ReusesStoredRevision(store, p)
    ensures var t := Finish(store, Upload(p));
      && t.handler == PutDone(p, Stale) && t.store.rows == store.rows
      && t.store.rows[p.id].objectKey !in t.store.objects
  {
    StaleRun(store, p);
  }

  /**
   PUTs that never overlap keep exactly one object per row, and a PUT breaks that exactly when it
   reuses the revision that is stored.
   */
  lemma SequentialPutIsSafeExactly(config: Config, store: Store, p: Put)
    requires OneObjectPerRow(config, store) && Acceptable(config, p)
    ensures OneObjectPerRow(config, PutAlone(config, store, p).0) <==> !ReusesStoredRevision(store, p)
  {
    if ReusesStoredRevision(store, p) {
      ReusedRevisionLosesTheObject(config, store, p);
    } else if p.id in store.rows && store.rows[p.id].revision > p.revision {
      StalePutChangesNothing(config, store, p);
    } else {
      NewerPutReplaces(config, store, p);
      ReplacingKeepsOneObjectPerRow(config, store, p);
    }
  }

  // ---- runs of PUTs that do not overlap

  const EmptyStore := Store(map[], map[])

  function PutAll(config: Config, puts: seq<Put>): Store {
    if puts == [] then EmptyStore
    else PutAlone(config, PutAll(config, puts[..|puts| - 1]), puts[|puts| - 1]).0
  }

  /** The greatest revision of the blob among the acceptable PUTs. */
  function Newest(config: Config, puts: seq<Put>, id: BlobId): Option<nat> {
    if puts == [] then None
    else
      var p, before := puts[|puts| - 1], Newest(config, puts[..|puts| - 1], id);
      if Acceptable(config, p) && p.id == id && (before.None? || before.value < p.revision) then Some(p.revision)
      else before
  }

  /** A stale PUT leaves the rows, a newer one writes its own. */
  lemma RowsAfterPut(config: Config, store: Store, p: Put)
    requires RowsAreKeyed(store) && Acceptable(config, p)
    ensures PutAlone(config, store, p).0.rows == if IsStale(store, p) then store.rows else store.rows[p.id := RowOf(p)]
    ensures RowsAreKeyed(PutAlone(config, store, p).0)
  {
    if IsStale(store, p) {
      StaleRun(store, p);
    } else {
      forall id | id in store.rows && id != p.id
        ensures store.rows[id].objectKey != Key(p)
      {
        OtherRowsHaveOtherKeys(store, SlotOf(p), id);
      }
      NewerRun(store, p);
      assert p.id in store.rows ==> IsKeyed(store, p.id);
      assert Written(Uploaded(store, p), p).rows == store.rows[p.id := RowOf(p)];
    }
  }

  /** The stored revision of a blob is the newest acceptable one sent, whatever was lost on the way. */
  lemma {:induction false} StoredRevisionIsNewest(config: Config, puts: seq<Put>, id: BlobId)
    ensures RowsAreKeyed(PutAll(config, puts))
    ensures var rows := PutAll(config, puts).rows;
      Newest(config, puts, id) == if id in rows then Some(rows[id].revision) else None
  {
    if puts != [] {
      var n := |puts| - 1;
      StoredRevisionIsNewest(config, puts[..n], id);
      if Acceptable(config, puts[n]) {
        RowsAfterPut(config, PutAll(config, puts[..n]), puts[n]);
      }
    }
  }

  /** PUT i sends again the newest revision its blob had before. */
  predicate RepeatsNewest(config: Config, puts: seq<Put>, i: nat)
    requires i < |puts|
  {
    Acceptable(config, puts[i]) && Newest(config, puts[..i], puts[i].id) == Some(puts[i].revision)
  }

  ghost predicate AlwaysSound(config: Config, puts: seq<Put>) {
    forall i :: 0 <= i <= |puts| ==> OneObjectPerRow(config, PutAll(config, puts[..i]))
  }

  ghost predicate NeverRepeats(config: Config, puts: seq<Put>) {
    forall i :: 0 <= i < |puts| ==> !RepeatsNewest(config, puts, i)
  }

  lemma LastPutIsSafeExactly(config: Config, puts: seq<Put>)
    requires puts != [] && OneObjectPerRow(config, PutAll(config, puts[..|puts| - 1]))
    ensures OneObjectPerRow(config, PutAll(config, puts)) <==> !RepeatsNewest(config, puts, |puts| - 1)
  {
    var n := |puts| - 1;
    StoredRevisionIsNewest(config, puts[..n], puts[n].id);
    if Acceptable(config, puts[n]) {
      SequentialPutIsSafeExactly(config, PutAll(config, puts[..n]), puts[n]);
    }
  }

  lemma PrefixesOfPrefix(config: Config, puts: seq<Put>, n: nat)
    requires n <= |puts|
    ensures AlwaysSound(config, puts[..n]) <==> forall i :: 0 <= i <= n ==> OneObjectPerRow(config, PutAll(config, puts[..i]))
    ensures NeverRepeats(config, puts[..n]) <==> forall i :: 0 <= i < n ==> !RepeatsNewest(config, puts, i)
  {
    var short := puts[..n];
    assert forall i :: 0 <= i <= n ==> short[..i] == puts[..i];
    assert forall i :: 0 <= i < n ==> (RepeatsNewest(config, short, i) <==> RepeatsNewest(config, puts, i));
  }

  /**
   Over every run of PUTs that do not overlap, from an empty store: there is exactly one object per
   row at every moment between two PUTs exactly when no PUT repeats the newest revision of its blob.
   */
  lemma {:induction false} PutRunIsSafeExactly(config: Config, puts: seq<Put>)
    ensures AlwaysSound(config, puts) <==> NeverRepeats(config, puts)
  {
    if puts == [] {
      assert OneObjectPerRow(config, EmptyStore);
    } else {
      var n := |puts| - 1;
      PutRunIsSafeExactly(config, puts[..n]);
      PrefixesOfPrefix(config, puts, n);
      assert puts[..|puts|] == puts;
      if AlwaysSound(config, puts[..n]) {
        assert OneObjectPerRow(config, PutAll(config, puts[..n]));
        LastPutIsSafeExactly(config, puts);
      }
    }
  }

  // ---- PUTs that crash

  /** A PUT that crashes after some of its steps; five steps are all of them. */
  datatype Trial = Trial(put: Put, steps: nat)

  function Steps(store: Store, h: Handler, n: nat): Turn
    decreases n
  {
    if n == 0 then Turn(store, h)
    else
      var turn := Step(store, h);
      Steps(turn.store, turn.handler, n - 1)
  }

  function Try(config: Config, store: Store, trial: Trial): Store {
    if Acceptable(config, trial.put) then Steps(store, Upload(trial.put), trial.steps).store else store
  }

  function TryAll(config: Config, store: Store, trials: seq<Trial>): Store
    decreases |trials|
  {
    if trials == [] then store else TryAll(config, Try(config, store, trials[0]), trials[1..])
  }

  /** No trial sends the revision that is stored when it starts; a crashed one may be sent again. */
  predicate NeverReuses(config: Config, store: Store, trials: seq<Trial>)
    decreases |trials|
  {
    trials != [] ==>
      && !(Acceptable(config, trials[0].put) && ReusesStoredRevision(store, trials[0].put))
      && NeverReuses(config, Try(config, store, trials[0]), trials[1..])
  }

  /** What holds between two steps of a PUT that nothing else interrupts. */
  predicate KnowsAlone(config: Config, store: Store, h: Handler) {
    match h
    case Upload(p) => Acceptable(config, p) && !ReusesStoredRevision(store, p)
    case SelectPrior(p) => Acceptable(config, p) && !ReusesStoredRevision(store, p) && IsUploaded(store, p)
    case Upsert(p, prior) => Acceptable(config, p) && !IsStale(store, p) && IsUploaded(store, p) && prior == Lookup(store, p.id)
    case Discard(p) => Acceptable(config, p) && p.id in store.rows && store.rows[p.id].revision > p.revision
    case DeletePrior(p, prior) =>
      && Acceptable(config, p) && p.id in store.rows && store.rows[p.id].revision == p.revision
      && prior.revision < p.revision && prior.objectKey == ObjectKey(Slot(p.id, prior.revision))
    case PutDone(_, _) => true
    case _ => false
  }

  predicate IsUploaded(store: Store, p: Put) {
    Key(p) in store.objects && store.objects[Key(p)] == ObjectOf(p)
  }

  /** Changing an object that no row needs. */
  lemma OtherObjectsDoNotMatter(config: Config, store: Store, t: Store, key: string)
    requires RowsHaveObjects(config, store) && t.rows == store.rows
    requires forall id <- store.rows :: store.rows[id].objectKey != key
    requires forall k <- store.objects :: k != key ==> k in t.objects && t.objects[k] == store.objects[k]
    ensures RowsHaveObjects(config, t)
  {
    forall id | id in t.rows
      ensures IsKeyed(t, id) && HasObject(config, t, id)
    {
      assert IsKeyed(store, id) && HasObject(config, store, id);
    }
  }

  lemma NoOtherRowHasKey(store: Store, slot: Slot)
    requires RowsAreKeyed(store) && IsId(slot.id.blob)
    requires slot.id in store.rows ==> store.rows[slot.id].revision != slot.revision
    ensures forall id <- store.rows :: store.rows[id].objectKey != ObjectKey(slot)
  {
    forall id | id in store.rows
      ensures store.rows[id].objectKey != ObjectKey(slot)
    {
      OtherRowsHaveOtherKeys(store, slot, id);
    }
  }

  lemma UpsertAlone(config: Config, store: Store, p: Put, prior: Option<Row>)
    requires RowsHaveObjects(config, store) && KnowsAlone(config, store, Upsert(p, prior))
    ensures var turn := UpsertStep(store, p, prior);
      RowsHaveObjects(config, turn.store) && KnowsAlone(config, turn.store, turn.handler)
  {
    NoOtherRowHasKey(store, SlotOf(p));
    assert !KeyTaken(store, p);
    assert p.id in store.rows ==> IsKeyed(store, p.id);
    var t := UpsertStep(store, p, prior).store;
    assert t == store.(rows := store.rows[p.id := RowOf(p)]);
    forall id | id in t.rows
      ensures IsKeyed(t, id) && HasObject(config, t, id)
    {
      if id != p.id {
        assert IsKeyed(store, id) && HasObject(config, store, id);
      }
    }
  }

  lemma StepAlone(config: Config, store: Store, h: Handler)
    requires HasPut(h) && RowsHaveObjects(config, store) && KnowsAlone(config, store, h)
    ensures var turn := Step(store, h);
      HasPut(turn.handler) && RowsHaveObjects(config, turn.store) && KnowsAlone(config, turn.store, turn.handler)
  {
    var t := Step(store, h).store;
    match h
    case Upload(p) =>
      NoOtherRowHasKey(store, SlotOf(p));
      OtherObjectsDoNotMatter(config, store, t, Key(p));
    case Upsert(p, prior) => UpsertAlone(config, store, p, prior);
    case Discard(p) =>
      NoOtherRowHasKey(store, SlotOf(p));
      OtherObjectsDoNotMatter(config, store, t, Key(p));
    case DeletePrior(p, prior) =>
      NoOtherRowHasKey(store, Slot(p.id, prior.revision));
      OtherObjectsDoNotMatter(config, store, t, prior.objectKey);
    case _ =>
  }

  lemma {:induction false} StepsAlone(config: Config, store: Store, h: Handler, n: nat)
    requires HasPut(h) && RowsHaveObjects(config, store) && KnowsAlone(config, store, h)
    ensures RowsHaveObjects(config, Steps(store, h, n).store)
    decreases n
  {
    if n > 0 {
      StepAlone(config, store, h);
      StepsAlone(config, Step(store, h).store, Step(store, h).handler, n - 1);
    }
  }

  /**
   PUTs that do not overlap but crash after any of their steps, and are sent again or overtaken,
   leave every row with the object it describes, as long as none reuses the revision that is stored.
   */
  lemma {:induction false} CrashedPutsKeepRowsBacked(config: Config, store: Store, trials: seq<Trial>)
    requires RowsHaveObjects(config, store) && NeverReuses(config, store, trials)
    ensures RowsHaveObjects(config, TryAll(config, store, trials))
    decreases |trials|
  {
    if trials != [] {
      if Acceptable(config, trials[0].put) {
        StepsAlone(config, store, Upload(trials[0].put), trials[0].steps);
      }
      CrashedPutsKeepRowsBacked(config, Try(config, store, trials[0]), trials[1..]);
    }
  }
}
