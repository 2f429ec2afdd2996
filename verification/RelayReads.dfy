/**
 What the blob relay gives back: GETs beside any other requests, reads after writes, and what a
 stored row says about the PUT that wrote it.
 */
module RelayReads {
  import opened Outcomes
  import opened RelayBlobs

  // ---- a GET finds what was stored when it started

  /** GET n of the blob has not lost sight of revision r. */
  predicate Sees(s: State, n: nat, id: BlobId, r: nat) {
    && n < |s.handlers|
    && match s.handlers[n]
       case GetRow(i) => i == id && AtLeast(s.store, id, r)
       case GetObject(i, row) => i == id && row.revision >= r
       case GetDone(i, found, _) => i == id && found.Some? && found.value.revision >= r
       case _ => false
  }

  lemma NextKeepsSight(config: Config, s: State, e: Event, n: nat, id: BlobId, r: nat)
    requires Inv(config, s) && Allowed(config, s, e) && Sees(s, n, id, r)
    ensures Sees(Next(config, s, e), n, id, r)
  {
    if e.Run? && e.i == n {
      OwnTurnKeepsSight(s, n, id, r);
    } else {
      NextKeepsInv(config, s, e);
      OthersKeepSight(s, Next(config, s, e), n, id, r);
    }
  }

  /** Another event leaves handler n alone, and no stored revision decreases. */
  lemma OthersKeepSight(s: State, u: State, n: nat, id: BlobId, r: nat)
    requires Sees(s, n, id, r) && n < |u.handlers| && u.handlers[n] == s.handlers[n]
    requires forall k <- s.store.rows :: AtLeast(u.store, k, s.store.rows[k].revision)
    ensures Sees(u, n, id, r)
  {
  }

  lemma OwnTurnKeepsSight(s: State, n: nat, id: BlobId, r: nat)
    requires Sees(s, n, id, r)
    ensures Sees(RunStep(s, n), n, id, r)
  {
  }

  lemma {:induction false} RunsKeepSight(config: Config, s: State, events: seq<Event>, n: nat, id: BlobId, r: nat)
    requires Inv(config, s) && Legal(config, s, events) && Sees(s, n, id, r)
    ensures Sees(After(config, s, events), n, id, r)
    decreases |events|
  {
    if events != [] {
      NextKeepsSight(config, s, events[0], n, id, r);
      NextKeepsInv(config, s, events[0]);
      RunsKeepSight(config, Next(config, s, events[0]), events[1..], n, id, r);
    }
  }

  /**
   A GET that starts when a row of the blob is stored never answers "not found": whatever runs beside
   it, once it has ended it has read a row at least as new.
   */
  lemma GetFindsTheBlob(config: Config, before: seq<Event>, id: BlobId, events: seq<Event>)
    requires Legal(config, Initial, before) && id in After(config, Initial, before).store.rows
    requires Legal(config, Next(config, After(config, Initial, before), StartGet(id)), events)
    ensures var s := After(config, Initial, before);
      var u := After(config, Next(config, s, StartGet(id)), events);
      var n := |s.handlers|;
      && n < |u.handlers|
      && (u.handlers[n].GetDone? ==>
            u.handlers[n].found.Some? && u.handlers[n].found.value.revision >= s.store.rows[id].revision)
  {
    var s := After(config, Initial, before);
    RevisionsNeverDecrease(config, Initial, before);
    NextKeepsInv(config, s, StartGet(id));
    RunsKeepSight(config, Next(config, s, StartGet(id)), events, |s.handlers|, id, s.store.rows[id].revision);
  }

  /** A GET that nothing interrupts. */
  function GetAlone(store: Store, id: BlobId): Handler {
    Step(store, Step(store, GetRow(id)).handler).handler
  }

  lemma GetChangesNothing(store: Store, id: BlobId)
    ensures Step(store, GetRow(id)).store == store
    ensures Step(store, Step(store, GetRow(id)).handler).store == store
    ensures GetAlone(store, id).GetDone?
  {
  }

  /** It serves the stored row and the object that the row describes, or finds nothing stored. */
  lemma GetAloneServesTheBlob(config: Config, events: seq<Event>, id: BlobId)
    requires Legal(config, Initial, events)
    ensures var store := After(config, Initial, events).store;
      var get := GetAlone(store, id);
      && get.GetDone?
      && (if id in store.rows
          then get.found == Some(store.rows[id]) && get.content.Some?
               && Describes(config, store.rows[id], get.content.value)
          else get.found.None?)
  {
    var store := After(config, Initial, events).store;
    if id in store.rows {
      EveryRowIsBacked(config, events, id);
    }
  }

  // ---- reading what was put

  /** The limits on a PUT, written out. */
  predicate IsWellFormed(config: Config, p: Put) {
    && 8 <= |p.id.blob| <= 128
    && (forall c <- p.id.blob ::
          'A' <= c <= 'Z' || 'a' <= c <= 'z' || '0' <= c <= '9' || c == '_' || c == '-')
    && p.contentType == "application/vnd.galmail.ciphertext"
    && 32 <= |p.body| && |p.body| <= config.maxBytes
    && p.kind in {"settings", "preferences", "wrapped_key", "device_record"}
    && 1 <= p.revision <= 9007199254740991 && 1 <= p.version <= 9007199254740991
    && p.declaredHash == config.sha256(p.body)
  }

  /** The row says what the PUT sent, and the object is what it sent. */
  predicate Records(store: Store, id: BlobId, p: Put)
    requires id in store.rows
  {
    var row := store.rows[id];
    && p.id == id && p.kind == row.kind && p.declaredHash == row.hash && |p.body| == row.byteLength
    && p.version == row.version && p.revision == row.revision
    && p.device == row.updatedBy && p.time == row.updatedAt
    && row.objectKey in store.objects
    && store.objects[row.objectKey] == Object(p.body, p.version)
  }

  lemma {:induction false} IssuedWereSent(config: Config, s: State, events: seq<Event>, slot: Slot)
    requires Legal(config, s, events) && slot in After(config, s, events).issued
    ensures (slot in s.issued && s.issued[slot] == After(config, s, events).issued[slot])
         || StartPut(After(config, s, events).issued[slot]) in events
    decreases |events|
  {
    if events != [] {
      IssuedWereSent(config, Next(config, s, events[0]), events[1..], slot);
    }
  }

  /**
   Every stored row, in every reachable state, was written by a PUT that was sent and well-formed, and
   it records that PUT: its kind, hash, length, version, revision, device, time and bytes.
   */
  lemma RowsRecordTheirPut(config: Config, events: seq<Event>, id: BlobId)
    requires Legal(config, Initial, events) && id in After(config, Initial, events).store.rows
    ensures exists p: Put ::
      StartPut(p) in events && IsWellFormed(config, p) && Records(After(config, Initial, events).store, id, p)
  {
    RevisionsNeverDecrease(config, Initial, events);
    var s := After(config, Initial, events);
    assert WasCommitted(s, id, s.store.rows[id]);
    var slot := Slot(id, s.store.rows[id].revision);
    var p := s.issued[slot];
    IssuedWereSent(config, Initial, events, slot);
    assert ObjectKey(slot) in s.store.objects;
    assert Acceptable(config, p) && SlotOf(p) == slot;
    WellFormedIsAcceptable(config, p);
    assert Records(s.store, id, p);
  }

  /**
   A well-formed PUT of a revision above the stored one is accepted, and a GET after it serves its
   bytes and says of them what the PUT said; any other request is turned away.
   */
  lemma GetAfterPut(config: Config, store: Store, p: Put)
    requires OneObjectPerRow(config, store) && IsWellFormed(config, p)
    requires p.id in store.rows ==> store.rows[p.id].revision < p.revision
    ensures var (after, answer) := PutAlone(config, store, p);
      var get := GetAlone(after, p.id);
      && answer == Answered(if p.id in store.rows then Replaced else Created)
      && get.GetDone? && get.found.Some? && p.id in after.rows && get.found.value == after.rows[p.id]
      && Records(after, p.id, p) && get.content == Some(Object(p.body, p.version))
  {
    WellFormedIsAcceptable(config, p);
    NewerPutReplaces(config, store, p);
    GetServesReplacement(store, p);
  }

  lemma WellFormedIsAcceptable(config: Config, p: Put)
    ensures IsWellFormed(config, p) <==> Acceptable(config, p)
  {
  }

  lemma GetServesReplacement(store: Store, p: Put)
    ensures var after := Replacing(store, p);
      && p.id in after.rows && Records(after, p.id, p)
      && GetAlone(after, p.id) == GetDone(p.id, Some(after.rows[p.id]), Some(Object(p.body, p.version)))
  {
    var after := Replacing(store, p);
    assert after.rows[p.id] == RowOf(p) && after.objects[Key(p)] == ObjectOf(p);
  }

  lemma MalformedPutIsTurnedAway(config: Config, store: Store, p: Put)
    requires !IsWellFormed(config, p)
    ensures PutAlone(config, store, p) == (store, BadRequest)
  {
    WellFormedIsAcceptable(config, p);
  }

  // ---- retention

  /** A sweep that nothing interrupts deletes exactly the expired rows, and the objects it selected. */
  lemma SweepAlone(store: Store, now: int, within: set<BlobId>)
    ensures var a := Step(store, SweepSelect(now, within));
      var b := Step(a.store, a.handler);
      var c := Step(b.store, b.handler);
      && c.handler.SweepDone?
      && (forall id :: id in c.store.rows <==>
            id in store.rows && (store.rows[id].expiresAt.None? || store.rows[id].expiresAt.value > now))
      && (forall id <- c.store.rows :: c.store.rows[id] == store.rows[id])
      && (forall k :: k in c.store.objects <==> k in store.objects && !IsExpiredKey(store, now, within, k))
      && (forall k <- c.store.objects :: c.store.objects[k] == store.objects[k])
  {
    var a := Step(store, SweepSelect(now, within));
    assert forall k :: k in a.handler.keys <==> IsExpiredKey(store, now, within, k);
  }

  ghost predicate IsExpiredKey(store: Store, now: int, within: set<BlobId>, k: string) {
    exists id ::
      && id in store.rows && id in within && store.rows[id].objectKey == k
      && store.rows[id].expiresAt.Some? && store.rows[id].expiresAt.value <= now
  }
}
