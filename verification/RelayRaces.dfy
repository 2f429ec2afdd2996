/**
 Blob PUTs that overlap: any number of them start at once on empty stores and take their atomic
 steps in any order. The revisions they carry decide what the stores can come to.
 */
module RelayRaces {
  import opened Outcomes
  import opened RelayBlobs

  // ---- schedules

  function Uploads(puts: seq<Put>): seq<Handler> {
    seq(|puts|, i requires 0 <= i < |puts| => Upload(puts[i]))
  }

  datatype Race = Race(store: Store, handlers: seq<Handler>)

  /** Handler i takes its next step. */
  function RaceStep(r: Race, i: nat): Race {
    if i >= |r.handlers| then r
    else
      var turn := Step(r.store, r.handlers[i]);
      Race(turn.store, r.handlers[i := turn.handler])
  }

  function RaceAll(r: Race, schedule: seq<nat>): Race
    decreases schedule
  {
    if schedule == [] then r else RaceAll(RaceStep(r, schedule[0]), schedule[1..])
  }

  function RunRace(puts: seq<Put>, schedule: seq<nat>): Race {
    RaceAll(Race(EmptyStore, Uploads(puts)), schedule)
  }

  /** No PUT is between its first and its last step. */
  ghost predicate IsIdle(r: Race) {
    forall i :: 0 <= i < |r.handlers| ==> r.handlers[i].Upload? || r.handlers[i].PutDone?
  }

  // ---- which races are safe

  /** A PUT that is not acceptable is rejected before its first step. */
  ghost predicate AllAcceptable(config: Config, puts: seq<Put>) {
    forall p <- puts :: Acceptable(config, p)
  }

  ghost predicate DistinctRevisions(puts: seq<Put>) {
    forall i, j :: 0 <= i < j < |puts| ==> SlotOf(puts[i]) != SlotOf(puts[j])
  }

  ghost predicate OneRevisionPerBlob(puts: seq<Put>) {
    forall i, j :: 0 <= i < j < |puts| && puts[i].id == puts[j].id ==> puts[i].revision == puts[j].revision
  }

  ghost predicate DistinctBlobs(puts: seq<Put>) {
    forall i, j :: 0 <= i < j < |puts| ==> puts[i].id != puts[j].id
  }

  /** At every moment of every schedule each row has the object it describes. */
  ghost predicate RowsAlwaysHaveObjects(config: Config, puts: seq<Put>) {
    forall schedule: seq<nat> :: RowsHaveObjects(config, RunRace(puts, schedule).store)
  }

  /** Each object belongs to a row. */
  ghost predicate ObjectsHaveRows(store: Store) {
    forall k <- store.objects :: IsRowKey(store, k)
  }

  /** Whenever no PUT is under way each object belongs to a row. */
  ghost predicate NothingIsLeftBehind(puts: seq<Put>) {
    forall schedule: seq<nat> :: IsIdle(RunRace(puts, schedule)) ==> ObjectsHaveRows(RunRace(puts, schedule).store)
  }

  /** Whenever no PUT is under way there is exactly one object per row. */
  ghost predicate EndsWithOneObjectPerRow(config: Config, puts: seq<Put>) {
    forall schedule: seq<nat> ::
      IsIdle(RunRace(puts, schedule)) ==> OneObjectPerRow(config, RunRace(puts, schedule).store)
  }

  // ---- distinct revisions: a race is a run of the relay

  /** All PUTs started, none of them stepped. */
  function Started(puts: seq<Put>): State {
    if puts == [] then Initial
    else
      var n := |puts| - 1;
      var s := Started(puts[..n]);
      s.(handlers := s.handlers + [Upload(puts[n])], issued := s.issued[SlotOf(puts[n]) := puts[n]])
  }

  lemma StartedOneMore(config: Config, puts: seq<Put>, s: State)
    requires puts != [] && s == Started(puts[..|puts| - 1]) && s.committed == {}
    requires Allowed(config, s, StartPut(puts[|puts| - 1]))
    ensures Started(puts) == Next(config, s, StartPut(puts[|puts| - 1]))
  {
  }

  lemma {:induction false} StartedHandlers(puts: seq<Put>)
    ensures Started(puts).store == EmptyStore && Started(puts).committed == {}
    ensures Started(puts).handlers == Uploads(puts)
    ensures forall slot <- Started(puts).issued :: exists i :: 0 <= i < |puts| && SlotOf(puts[i]) == slot
  {
    if puts != [] {
      var n := |puts| - 1;
      StartedHandlers(puts[..n]);
      assert Uploads(puts) == Uploads(puts[..n]) + [Upload(puts[n])];
      assert forall i :: 0 <= i < n ==> puts[..n][i] == puts[i];
    }
  }

  lemma {:induction false} StartedIsSound(config: Config, puts: seq<Put>)
    requires AllAcceptable(config, puts) && DistinctRevisions(puts)
    ensures Inv(config, Started(puts))
  {
    if puts != [] {
      var n := |puts| - 1;
      var s := Started(puts[..n]);
      StartedIsSound(config, puts[..n]);
      StartedHandlers(puts[..n]);
      assert puts[n] in puts;
      assert forall i :: 0 <= i < n ==> puts[..n][i] == puts[i];
      StartKeepsInv(config, s, StartPut(puts[n]));
      StartedOneMore(config, puts, s);
    }
  }

  lemma BackedRowsHaveObjects(config: Config, s: State)
    requires Inv(config, s)
    ensures RowsHaveObjects(config, s.store)
  {
    forall id | id in s.store.rows
      ensures IsKeyed(s.store, id) && HasObject(config, s.store, id)
    {
      assert WasCommitted(s, id, s.store.rows[id]);
      assert Acceptable(config, s.issued[Slot(id, s.store.rows[id].revision)]);
    }
  }

  lemma {:induction false} RaceIsARun(config: Config, s: State, schedule: seq<nat>)
    requires Inv(config, s)
    ensures RowsHaveObjects(config, RaceAll(Race(s.store, s.handlers), schedule).store)
    decreases schedule
  {
    BackedRowsHaveObjects(config, s);
    if schedule != [] {
      var i := schedule[0];
      if i < |s.handlers| {
        RunKeepsInv(config, s, i);
        RaceIsARun(config, RunStep(s, i), schedule[1..]);
      } else {
        RaceIsARun(config, s, schedule[1..]);
      }
    }
  }

  // ---- two PUTs of one blob

  /** PUTs i and j are at a and b, no other has started. */
  function Duel(puts: seq<Put>, i: nat, j: nat, store: Store, a: Handler, b: Handler): Race
    requires i < |puts| && j < |puts| && i != j
  {
    Race(store, Uploads(puts)[i := a][j := b])
  }

  lemma DuelStarts(puts: seq<Put>, i: nat, j: nat)
    requires i < |puts| && j < |puts| && i != j
    ensures Duel(puts, i, j, EmptyStore, Upload(puts[i]), Upload(puts[j])) == Race(EmptyStore, Uploads(puts))
  {
    assert Uploads(puts)[i := Upload(puts[i])][j := Upload(puts[j])] == Uploads(puts);
  }

  lemma DuelSteps(puts: seq<Put>, i: nat, j: nat, store: Store, a: Handler, b: Handler)
    requires i < |puts| && j < |puts| && i != j
    ensures RaceStep(Duel(puts, i, j, store, a, b), i)
         == Duel(puts, i, j, Step(store, a).store, Step(store, a).handler, b)
    ensures RaceStep(Duel(puts, i, j, store, a, b), j)
         == Duel(puts, i, j, Step(store, b).store, a, Step(store, b).handler)
  {
    var hs := Uploads(puts);
    assert hs[i := a][j := b][i := Step(store, a).handler] == hs[i := Step(store, a).handler][j := b];
  }

  lemma {:induction false} RaceConcat(r: Race, before: seq<nat>, after: seq<nat>)
    ensures RaceAll(r, before + after) == RaceAll(RaceAll(r, before), after)
    decreases before
  {
    if before == [] {
      assert before + after == after;
    } else {
      RaceConcat(RaceStep(r, before[0]), before[1..], after);
      assert (before + after)[1..] == before[1..] + after;
    }
  }

  lemma OneTurn(r: Race, before: seq<nat>, i: nat)
    ensures RaceAll(r, before + [i]) == RaceStep(RaceAll(r, before), i)
  {
    RaceConcat(r, before, [i]);
    assert [i][1..] == [];
  }

  function Both(p: Put, q: Put): map<string, Object> {
    map[Key(p) := ObjectOf(p)][Key(q) := ObjectOf(q)]
  }

  /** Both PUTs have stored their objects and found no row. */
  lemma BothReadNothing(puts: seq<Put>, i: nat, j: nat)
    requires i < |puts| && j < |puts| && i != j
    ensures var p, q := puts[i], puts[j];
      RunRace(puts, [i] + [j] + [i] + [j])
        == Duel(puts, i, j, Store(map[], Both(p, q)), Upsert(p, None), Upsert(q, None))
  {
    var p, q := puts[i], puts[j];
    var r := Race(EmptyStore, Uploads(puts));
    var one, two := EmptyStore.(objects := map[Key(p) := ObjectOf(p)]), Store(map[], Both(p, q));
    DuelStarts(puts, i, j);
    DuelSteps(puts, i, j, EmptyStore, Upload(p), Upload(q));
    DuelSteps(puts, i, j, one, SelectPrior(p), Upload(q));
    DuelSteps(puts, i, j, two, SelectPrior(p), SelectPrior(q));
    DuelSteps(puts, i, j, two, Upsert(p, None), SelectPrior(q));
    OneTurn(r, [], i);
    OneTurn(r, [i], j);
    OneTurn(r, [i] + [j], i);
    OneTurn(r, [i] + [j] + [i], j);
    assert [] + [i] == [i];
  }

  /** Then i inserts its row. */
  lemma FirstInserts(puts: seq<Put>, i: nat, j: nat)
    requires i < |puts| && j < |puts| && i != j
    ensures var p, q := puts[i], puts[j];
      RunRace(puts, [i] + [j] + [i] + [j] + [i])
        == Duel(puts, i, j, Store(map[p.id := RowOf(p)], Both(p, q)), PutDone(p, Created), Upsert(q, None))
  {
    var p, q := puts[i], puts[j];
    var two := Store(map[], Both(p, q));
    BothReadNothing(puts, i, j);
    OneTurn(Race(EmptyStore, Uploads(puts)), [i] + [j] + [i] + [j], i);
    DuelSteps(puts, i, j, two, Upsert(p, None), Upsert(q, None));
    assert !KeyTaken(two, p);
    assert map[][p.id := RowOf(p)] == map[p.id := RowOf(p)];
  }

  /** The second of two PUTs of one revision finds the row, and deletes the object they share. */
  lemma SameRevisionLosesTheObject(config: Config, puts: seq<Put>, i: nat, j: nat)
    requires i < |puts| && j < |puts| && i != j && SlotOf(puts[i]) == SlotOf(puts[j])
    ensures exists schedule: seq<nat> ::
      IsIdle(RunRace(puts, schedule)) && !RowsHaveObjects(config, RunRace(puts, schedule).store)
  {
    var p, q := puts[i], puts[j];
    var r := Race(EmptyStore, Uploads(puts));
    var start := [i] + [j] + [i] + [j] + [i];
    var written := Store(map[p.id := RowOf(p)], Both(p, q));
    FirstInserts(puts, i, j);
    OneTurn(r, start, j);
    DuelSteps(puts, i, j, written, PutDone(p, Created), Upsert(q, None));
    assert Step(written, Upsert(q, None)) == Turn(written, Discard(q));
    OneTurn(r, start + [j], j);
    DuelSteps(puts, i, j, written, PutDone(p, Created), Discard(q));
    var after := RunRace(puts, start + [j] + [j]);
    assert after == Duel(puts, i, j, Dropped(written, Key(q)), PutDone(p, Created), PutDone(q, Stale));
    assert p.id in after.store.rows && !HasObject(config, after.store, p.id);
  }

  /** The newer of two PUTs that read before either inserted replaces the row and deletes nothing. */
  lemma NewerReplaces(puts: seq<Put>, i: nat, j: nat)
    requires i < |puts| && j < |puts| && i != j
    requires puts[i].id == puts[j].id && puts[i].revision < puts[j].revision
    ensures var p, q := puts[i], puts[j];
      RunRace(puts, [i] + [j] + [i] + [j] + [i] + [j])
        == Duel(puts, i, j, Store(map[q.id := RowOf(q)], Both(p, q)), PutDone(p, Created), PutDone(q, Created))
  {
    var p, q := puts[i], puts[j];
    var written := Store(map[p.id := RowOf(p)], Both(p, q));
    FirstInserts(puts, i, j);
    OneTurn(Race(EmptyStore, Uploads(puts)), [i] + [j] + [i] + [j] + [i], j);
    DuelSteps(puts, i, j, written, PutDone(p, Created), Upsert(q, None));
    assert !KeyTaken(written, q);
    assert written.rows[q.id := RowOf(q)] == map[q.id := RowOf(q)];
  }

  lemma OlderObjectIsLeftBehind(config: Config, puts: seq<Put>, i: nat, j: nat)
    requires i < |puts| && j < |puts| && AllAcceptable(config, puts)
    requires puts[i].id == puts[j].id && puts[i].revision < puts[j].revision
    ensures exists schedule: seq<nat> ::
      IsIdle(RunRace(puts, schedule)) && !ObjectsHaveRows(RunRace(puts, schedule).store)
  {
    var p, q := puts[i], puts[j];
    NewerReplaces(puts, i, j);
    var after := RunRace(puts, [i] + [j] + [i] + [j] + [i] + [j]);
    assert IsIdle(after);
    if Key(p) == Key(q) {
      assert p in puts && q in puts;
      ObjectKeyIsInjective(SlotOf(p), SlotOf(q));
    }
    assert Key(p) in after.store.objects && !IsRowKey(after.store, Key(p));
  }

  // ---- one revision per blob: nothing is left behind

  /** The row of a PUT that was sent. */
  ghost predicate RowIsSent(puts: seq<Put>, store: Store, id: BlobId)
    requires id in store.rows
  {
    exists p <- puts :: p.id == id && store.rows[id] == RowOf(p)
  }

  /** A PUT that has passed its upsert has left a row for its blob. */
  predicate HasItsRow(store: Store, h: Handler) {
    match h
    case Upload(_) => true
    case SelectPrior(_) => true
    case Upsert(p, prior) => prior.None?
    case Discard(p) => p.id in store.rows
    case PutDone(p, _) => p.id in store.rows
    case _ => false
  }

  ghost predicate RaceIsSound(puts: seq<Put>, r: Race) {
    && |r.handlers| == |puts|
    && (forall id <- r.store.rows :: RowIsSent(puts, r.store, id))
    && (forall k <- r.store.objects :: StartedFor(puts, r, k))
    && (forall i :: 0 <= i < |puts| ==> HandlerIsSound(puts, r, i))
  }

  ghost predicate HandlerIsSound(puts: seq<Put>, r: Race, i: nat)
    requires i < |puts| && i < |r.handlers|
  {
    HasPut(r.handlers[i]) && r.handlers[i].put == puts[i] && HasItsRow(r.store, r.handlers[i])
  }

  /** The object was stored by a PUT that has started. */
  ghost predicate StartedFor(puts: seq<Put>, r: Race, k: string)
    requires |r.handlers| == |puts|
  {
    exists i :: 0 <= i < |puts| && Key(puts[i]) == k && !r.handlers[i].Upload?
  }

  lemma SentRowHasSameKey(puts: seq<Put>, store: Store, p: Put)
    requires OneRevisionPerBlob(puts) && p in puts && p.id in store.rows && RowIsSent(puts, store, p.id)
    ensures store.rows[p.id].objectKey == Key(p) && store.rows[p.id].revision == p.revision
  {
    var q :| q in puts && q.id == p.id && store.rows[p.id] == RowOf(q);
    var i :| 0 <= i < |puts| && puts[i] == p;
    var j :| 0 <= j < |puts| && puts[j] == q;
    assert i < j || j < i || i == j;
    assert SlotOf(p) == SlotOf(q);
  }

  lemma SentKeyIsFree(config: Config, puts: seq<Put>, store: Store, p: Put)
    requires AllAcceptable(config, puts) && p in puts
    requires forall id <- store.rows :: RowIsSent(puts, store, id)
    ensures !KeyTaken(store, p)
  {
    forall id | id in store.rows && id != p.id
      ensures store.rows[id].objectKey != Key(p)
    {
      var q :| q in puts && q.id == id && store.rows[id] == RowOf(q);
      if Key(q) == Key(p) {
        ObjectKeyIsInjective(SlotOf(q), SlotOf(p));
      }
    }
  }

  /** A step of a sound race keeps the rows, and adds rows and objects only of its own PUT. */
  lemma TurnIsSound(config: Config, puts: seq<Put>, r: Race, i: nat)
    requires AllAcceptable(config, puts) && OneRevisionPerBlob(puts) && RaceIsSound(puts, r) && i < |puts|
    ensures var turn := Step(r.store, r.handlers[i]);
      && HasPut(turn.handler) && turn.handler.put == puts[i] && HasItsRow(turn.store, turn.handler)
      && !turn.handler.Upload?
      && (turn.store.rows == r.store.rows || turn.store.rows == r.store.rows[puts[i].id := RowOf(puts[i])])
      && (forall k <- turn.store.objects :: k in r.store.objects || k == Key(puts[i]))
  {
    var p, turn := puts[i], Step(r.store, r.handlers[i]);
    assert HandlerIsSound(puts, r, i);
    SentKeyIsFree(config, puts, r.store, p);
    if p.id in r.store.rows {
      SentRowHasSameKey(puts, r.store, p);
    }
  }

  lemma RaceStepIsSound(config: Config, puts: seq<Put>, r: Race, i: nat)
    requires AllAcceptable(config, puts) && OneRevisionPerBlob(puts) && RaceIsSound(puts, r) && i < |puts|
    ensures RaceIsSound(puts, RaceStep(r, i))
  {
    var u := RaceStep(r, i);
    TurnIsSound(config, puts, r, i);
    forall id | id in u.store.rows
      ensures RowIsSent(puts, u.store, id)
    {
      assert puts[i] in puts;
      if id in r.store.rows && u.store.rows[id] == r.store.rows[id] {
        assert RowIsSent(puts, r.store, id);
      }
    }
    forall k | k in u.store.objects
      ensures StartedFor(puts, u, k)
    {
      if k in r.store.objects {
        assert StartedFor(puts, r, k);
        var j :| 0 <= j < |puts| && Key(puts[j]) == k && !r.handlers[j].Upload?;
        assert Key(puts[j]) == k && !u.handlers[j].Upload?;
      } else {
        assert Key(puts[i]) == k && !u.handlers[i].Upload?;
      }
    }
    forall j | 0 <= j < |puts|
      ensures HandlerIsSound(puts, u, j)
    {
      assert HandlerIsSound(puts, r, j);
    }
  }

  lemma {:induction false} RacesAreSound(config: Config, puts: seq<Put>, r: Race, schedule: seq<nat>)
    requires AllAcceptable(config, puts) && OneRevisionPerBlob(puts) && RaceIsSound(puts, r)
    ensures RaceIsSound(puts, RaceAll(r, schedule))
    decreases schedule
  {
    if schedule != [] {
      if schedule[0] < |puts| {
        RaceStepIsSound(config, puts, r, schedule[0]);
      }
      RacesAreSound(config, puts, RaceStep(r, schedule[0]), schedule[1..]);
    }
  }

  lemma IdleRaceLeavesNothing(puts: seq<Put>, r: Race)
    requires OneRevisionPerBlob(puts) && RaceIsSound(puts, r) && IsIdle(r)
    ensures ObjectsHaveRows(r.store)
  {
    forall k | k in r.store.objects
      ensures IsRowKey(r.store, k)
    {
      assert StartedFor(puts, r, k);
      var i :| 0 <= i < |puts| && Key(puts[i]) == k && !r.handlers[i].Upload?;
      assert HandlerIsSound(puts, r, i) && puts[i] in puts;
      SentRowHasSameKey(puts, r.store, puts[i]);
    }
  }

  // ---- the exact conditions

  /**
   PUTs that overlap in any way keep the object of every row, at every moment of every schedule,
   exactly when no two of them carry the same revision of a blob.
   */
  lemma RacesKeepObjectsExactly(config: Config, puts: seq<Put>)
    requires AllAcceptable(config, puts)
    ensures RowsAlwaysHaveObjects(config, puts) <==> DistinctRevisions(puts)
  {
    if DistinctRevisions(puts) {
      StartedIsSound(config, puts);
      StartedHandlers(puts);
      forall schedule: seq<nat>
        ensures RowsHaveObjects(config, RunRace(puts, schedule).store)
      {
        RaceIsARun(config, Started(puts), schedule);
      }
    } else {
      var i, j :| 0 <= i < j < |puts| && SlotOf(puts[i]) == SlotOf(puts[j]);
      SameRevisionLosesTheObject(config, puts, i, j);
    }
  }

  /** They leave no object without a row exactly when they carry one revision per blob. */
  lemma RacesLeaveNothingBehindExactly(config: Config, puts: seq<Put>)
    requires AllAcceptable(config, puts)
    ensures NothingIsLeftBehind(puts) <==> OneRevisionPerBlob(puts)
  {
    if OneRevisionPerBlob(puts) {
      forall schedule: seq<nat> | IsIdle(RunRace(puts, schedule))
        ensures ObjectsHaveRows(RunRace(puts, schedule).store)
      {
        RacesAreSound(config, puts, Race(EmptyStore, Uploads(puts)), schedule);
        IdleRaceLeavesNothing(puts, RunRace(puts, schedule));
      }
    } else {
      var i, j :| 0 <= i < j < |puts| && puts[i].id == puts[j].id && puts[i].revision != puts[j].revision;
      if puts[i].revision < puts[j].revision {
        OlderObjectIsLeftBehind(config, puts, i, j);
      } else {
        OlderObjectIsLeftBehind(config, puts, j, i);
      }
    }
  }

  /** Together: overlapping PUTs end with one object per row exactly when each is for its own blob. */
  lemma RacesEndSoundExactly(config: Config, puts: seq<Put>)
    requires AllAcceptable(config, puts)
    ensures EndsWithOneObjectPerRow(config, puts) <==> DistinctBlobs(puts)
  {
    if DistinctBlobs(puts) {
      RacesKeepObjectsExactly(config, puts);
      RacesLeaveNothingBehindExactly(config, puts);
    } else {
      var i, j :| 0 <= i < j < |puts| && puts[i].id == puts[j].id;
      if puts[i].revision == puts[j].revision {
        SameRevisionLosesTheObject(config, puts, i, j);
      } else {
        RacesLeaveNothingBehindExactly(config, puts);
      }
    }
  }
}
