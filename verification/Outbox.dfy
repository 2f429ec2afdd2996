/**
 The outbox of the memory sync engine: coalesced autosaves, delayed rows, undo, retry and the
 threading of provider draft ids.

 Every other operation is one step on the list of rows, but a flush waits for the provider at each
 row it takes, and other operations run while it waits. Flushes do not overlap. `calls` records
 every hand-over to a provider.
 */
module Outbox {
  import opened Outcomes

  // ---- rows

  datatype Kind = Send | SaveDraft | DeleteDraft | Other(name: string)

  datatype Status = Pending | Inflight | Done | Failed | Cancelled

  datatype Draft = Draft(id: string, providerDraftId: Option<string>, content: string)

  datatype Payload = Payload(draft: Option<Draft>, providerDraftId: Option<string>, fields: string)

  datatype Mutation = Mutation(
    account: string, kind: Kind, targetIds: seq<string>, payload: Option<Payload>, availableAt: Option<int>)

  datatype Row = Row(
    id: string, mutation: Mutation, attempts: nat, status: Status, lastError: Option<string>, createdAt: int)

  function Head(ids: seq<string>): Option<string> {
    if ids == [] then None else Some(ids[0])
  }

  /** Account and local draft id. */
  datatype Key = Key(account: string, draft: Option<string>)

  function KeyOf(m: Mutation): Key {
    Key(m.account, Head(m.targetIds))
  }

  /** A save row that can still be coalesced into. */
  predicate IsOpenSave(r: Row) {
    r.mutation.kind.SaveDraft? && (r.status.Pending? || r.status.Failed?)
  }

  /** `draft?.providerDraftId ?? payload?.providerDraftId`; "" stands for every falsy outcome. */
  function KnownId(p: Option<Payload>): string {
    match p
    case None => ""
    case Some(payload) =>
      if payload.draft.Some? && payload.draft.value.providerDraftId.Some? then payload.draft.value.providerDraftId.value
      else if payload.providerDraftId.Some? then payload.providerDraftId.value
      else ""
  }

  /** The provider id inside the draft a provider is given; "" makes it create a draft. */
  function HandedId(p: Option<Payload>): string {
    match p
    case Some(Payload(Some(draft), _, _)) => if draft.providerDraftId.Some? then draft.providerDraftId.value else ""
    case _ => ""
  }

  function RowId(r: Row): string {
    KnownId(r.mutation.payload)
  }

  // ---- enqueue

  predicate SupersededBy(r: Row, draftId: string) {
    draftId != "" && IsOpenSave(r) && Head(r.mutation.targetIds) == Some(draftId)
  }

  function DraftId(p: Option<Payload>): string {
    match p
    case Some(Payload(Some(draft), _, _)) => draft.id
    case _ => ""
  }

  /** Queueing a send cancels the autosaves of its draft. */
  function CancelAutosaves(rows: seq<Row>, draftId: string): (r: seq<Row>)
    ensures |r| == |rows|
  {
    seq(|rows|, i requires 0 <= i < |rows| =>
      if SupersededBy(rows[i], draftId) then rows[i].(status := Cancelled) else rows[i])
  }

  predicate IsSaveOf(r: Row, key: Key) {
    r.mutation.kind.SaveDraft? && KeyOf(r.mutation) == key
  }

  /** The first known provider id among the save rows of a key. */
  function PriorId(rows: seq<Row>, key: Key): (id: string)
    ensures id == "" ==> forall i :: 0 <= i < |rows| && IsSaveOf(rows[i], key) ==> RowId(rows[i]) == ""
    ensures id != "" ==> exists i :: 0 <= i < |rows| && IsSaveOf(rows[i], key) && RowId(rows[i]) == id
  {
    if rows == [] then ""
    else if IsSaveOf(rows[0], key) && RowId(rows[0]) != "" then RowId(rows[0])
    else
      var id := PriorId(rows[1..], key);
      assert forall i :: 0 < i < |rows| ==> rows[i] == rows[1..][i - 1];
      id
  }

  function WithProviderId(p: Option<Payload>, prior: string): Option<Payload> {
    match p
    case Some(Payload(Some(draft), _, fields)) =>
      if prior == "" || HandedId(p) != "" then p
      else Some(Payload(Some(draft.(providerDraftId := Some(prior))), Some(prior), fields))
    case _ => p
  }

  /** Index of the first open save row of a key. */
  function FindOpen(rows: seq<Row>, key: Key): (r: Option<nat>)
    ensures r.Some? ==> r.value < |rows| && IsOpenSave(rows[r.value]) && KeyOf(rows[r.value].mutation) == key
    ensures r.None? ==> forall i :: 0 <= i < |rows| && IsOpenSave(rows[i]) ==> KeyOf(rows[i].mutation) != key
  {
    if rows == [] then None
    else if IsOpenSave(rows[0]) && KeyOf(rows[0].mutation) == key then Some(0)
    else
      assert forall i :: 0 < i < |rows| ==> rows[i] == rows[1..][i - 1];
      match FindOpen(rows[1..], key)
      case None => None
      case Some(i) => Some(i + 1)
  }

  function NewRow(m: Mutation, id: string, now: int): Row {
    Row(id, m, 0, Pending, None, now)
  }

  /** An autosave replaces the payload of a row that is still open; a failed row stays failed. */
  function Coalesced(r: Row, payload: Option<Payload>): Row {
    r.(mutation := r.mutation.(payload := payload), lastError := if r.status.Pending? then None else r.lastError)
  }

  function EnqueueSave(rows: seq<Row>, m: Mutation, id: string, now: int): seq<Row> {
    var payload := WithProviderId(m.payload, PriorId(rows, KeyOf(m)));
    match FindOpen(rows, KeyOf(m))
    case Some(i) => rows[i := Coalesced(rows[i], payload)]
    case None => rows + [NewRow(m.(payload := payload), id, now)]
  }

  function EnqueueRows(rows: seq<Row>, m: Mutation, id: string, now: int): seq<Row> {
    match m.kind
    case Send => CancelAutosaves(rows, DraftId(m.payload)) + [NewRow(m, id, now)]
    case SaveDraft => EnqueueSave(rows, m, id, now)
    case _ => rows + [NewRow(m, id, now)]
  }

  // ---- flush

  /** What the provider answers: the draft id of a save, or an error message. */
  type Reply = Result<string, string>

  datatype Call = Call(row: nat, key: Key, kind: Kind, handed: Option<Payload>, reply: Option<Reply>, time: int)

  predicate Selects(account: Option<string>, r: Row) {
    account.Some? && account.value != "" ==> r.mutation.account == account.value
  }

  /** A row the flush loop does not skip. */
  predicate IsDue(r: Row, account: Option<string>, now: int) {
    && !r.status.Done? && !r.status.Cancelled? && !r.status.Failed?
    && Selects(account, r)
    && (r.mutation.availableAt.Some? ==> r.mutation.availableAt.value <= now)
  }

  function SavedPayload(p: Option<Payload>, id: string): Option<Payload> {
    match p
    case None => Some(Payload(None, Some(id), ""))
    case Some(Payload(draft, _, fields)) =>
      Some(Payload(if draft.Some? then Some(draft.value.(providerDraftId := Some(id))) else None, Some(id), fields))
  }

  /** The row while its provider call is under way. */
  function Taken(r: Row): Row {
    r.(status := Inflight, attempts := r.attempts + 1)
  }

  /** The row after its provider call. */
  function Settled(r: Row, reply: Reply): Row {
    match reply
    case Err(message) => r.(status := Failed, lastError := Some(message))
    case Ok(id) =>
      var payload := if r.mutation.kind.SaveDraft? then SavedPayload(r.mutation.payload, id) else r.mutation.payload;
      r.(mutation := r.mutation.(payload := payload), status := Done, lastError := None)
  }

  function CallOf(rows: seq<Row>, i: nat, reply: Option<Reply>, time: int): Call
    requires i < |rows|
  {
    var m := rows[i].mutation;
    Call(i, KeyOf(m), m.kind, m.payload, reply, time)
  }

  /** A flush that nothing interrupts: the clock and the provider as they answer at each row. */
  datatype Flush = Flush(account: Option<string>, clock: nat -> int, replies: nat -> Reply)

  predicate Takes(f: Flush, rows: seq<Row>, i: nat)
    requires i < |rows|
  {
    IsDue(rows[i], f.account, f.clock(i))
  }

  function FlushRow(f: Flush, rows: seq<Row>, i: nat): Row
    requires i < |rows|
  {
    if Takes(f, rows, i) then Settled(Taken(rows[i]), f.replies(i)) else rows[i]
  }

  function FlushRows(f: Flush, rows: seq<Row>): (r: seq<Row>)
    ensures |r| == |rows|
  {
    seq(|rows|, i requires 0 <= i < |rows| => FlushRow(f, rows, i))
  }

  function CallFor(f: Flush, rows: seq<Row>, i: nat): Call
    requires i < |rows|
  {
    CallOf(rows, i, Some(f.replies(i)), f.clock(i))
  }

  /** The calls a flush makes for the first n rows, in order. */
  function CallsOf(f: Flush, rows: seq<Row>, n: nat): seq<Call>
    requires n <= |rows|
  {
    if n == 0 then []
    else CallsOf(f, rows, n - 1) + if Takes(f, rows, n - 1) then [CallFor(f, rows, n - 1)] else []
  }

  // ---- cancel and retry

  function FindRow(rows: seq<Row>, id: string): (r: Option<nat>)
    ensures r.Some? ==> r.value < |rows| && rows[r.value].id == id
    ensures r.Some? ==> forall i :: 0 <= i < r.value ==> rows[i].id != id
    ensures r.None? ==> forall i :: 0 <= i < |rows| ==> rows[i].id != id
  {
    if rows == [] then None
    else if rows[0].id == id then Some(0)
    else
      assert forall i :: 0 < i < |rows| ==> rows[i] == rows[1..][i - 1];
      match FindRow(rows[1..], id)
      case None => None
      case Some(i) => Some(i + 1)
  }

  predicate Cancels(rows: seq<Row>, id: string) {
    FindRow(rows, id).Some? && rows[FindRow(rows, id).value].status.Pending?
  }

  function CancelRows(rows: seq<Row>, id: string): seq<Row> {
    if Cancels(rows, id) then
      var i := FindRow(rows, id).value;
      rows[i := rows[i].(status := Cancelled)]
    else rows
  }

  predicate Retries(rows: seq<Row>, id: string) {
    FindRow(rows, id).Some? && rows[FindRow(rows, id).value].status.Failed?
  }

  function RetryRows(rows: seq<Row>, id: string): seq<Row> {
    if Retries(rows, id) then
      var i := FindRow(rows, id).value;
      rows[i := rows[i].(status := Pending, lastError := None)]
    else rows
  }

  // ---- the engine

  predicate Succeeded(c: Call) {
    c.reply.Some? && c.reply.value.Ok?
  }

  function CountOk(calls: seq<Call>): nat {
    if calls == [] then 0 else CountOk(calls[..|calls| - 1]) + if Succeeded(calls[|calls| - 1]) then 1 else 0
  }

  lemma CountOkSnoc(calls: seq<Call>, call: Call)
    ensures CountOk(calls + [call]) == CountOk(calls) + if Succeeded(call) then 1 else 0
  {
  }

  class SyncEngine {
    var outbox: seq<Row>
    var calls: seq<Call>

    constructor ()
      ensures outbox == [] && calls == []
    {
      outbox, calls := [], [];
    }

    method Enqueue(m: Mutation, id: string, now: int) returns (row: Row)
      modifies this`outbox
      ensures outbox == EnqueueRows(old(outbox), m, id, now)
      ensures row in outbox
    {
      if m.kind.Send? {
        var draftId := DraftId(m.payload);
        ghost var before := outbox;
        for i := 0 to |outbox|
          invariant |outbox| == |before|
          invariant forall j :: 0 <= j < i ==> outbox[j] == CancelAutosaves(before, draftId)[j]
          invariant forall j :: i <= j < |outbox| ==> outbox[j] == before[j]
        {
          if SupersededBy(outbox[i], draftId) {
            outbox := outbox[i := outbox[i].(status := Cancelled)];
          }
        }
        assert outbox == CancelAutosaves(before, draftId);
      }
      var mutation := m;
      if m.kind.SaveDraft? {
        var payload := WithProviderId(m.payload, PriorId(outbox, KeyOf(m)));
        var existing := FindOpen(outbox, KeyOf(m));
        if existing.Some? {
          row := Coalesced(outbox[existing.value], payload);
          outbox := outbox[existing.value := row];
          assert outbox[existing.value] == row;
          return;
        }
        mutation := m.(payload := payload);
      }
      row := NewRow(mutation, id, now);
      outbox := outbox + [row];
    }

    /** One turn of the flush loop. */
    method FlushOne(f: Flush, i: nat) returns (called: seq<Call>)
      requires i < |outbox|
      modifies this
      ensures called == if Takes(f, old(outbox), i) then [CallFor(f, old(outbox), i)] else []
      ensures calls == old(calls) + called
      ensures outbox == old(outbox)[i := FlushRow(f, old(outbox), i)]
    {
      var row := outbox[i];
      if !IsDue(row, f.account, f.clock(i)) {
        return [];
      }
      row := row.(status := Inflight, attempts := row.attempts + 1);
      outbox := outbox[i := row];
      var reply := f.replies(i);
      called := [Call(i, KeyOf(row.mutation), row.mutation.kind, row.mutation.payload, Some(reply), f.clock(i))];
      calls := calls + called;
      match reply {
        case Ok(id) =>
          if row.mutation.kind.SaveDraft? {
            row := row.(mutation := row.mutation.(payload := SavedPayload(row.mutation.payload, id)));
          }
          row := row.(status := Done, lastError := None);
        case Err(message) =>
          row := row.(status := Failed, lastError := Some(message));
      }
      outbox := outbox[i := row];
    }

    /** `flushOutbox`: the numbers it returns account for every row it took. */
    method FlushOutbox(f: Flush) returns (flushed: nat, failed: nat)
      modifies this
      ensures outbox == FlushRows(f, old(outbox))
      ensures calls == old(calls) + CallsOf(f, old(outbox), |old(outbox)|)
      ensures flushed == CountOk(CallsOf(f, old(outbox), |old(outbox)|))
      ensures flushed + failed == |CallsOf(f, old(outbox), |old(outbox)|)|
    {
      flushed, failed := 0, 0;
      ghost var before, log := outbox, calls;
      for i := 0 to |outbox|
        invariant |outbox| == |before|
        invariant forall j :: 0 <= j < i ==> outbox[j] == FlushRow(f, before, j)
        invariant forall j :: i <= j < |outbox| ==> outbox[j] == before[j]
        invariant calls == log + CallsOf(f, before, i)
        invariant flushed == CountOk(CallsOf(f, before, i))
        invariant flushed + failed == |CallsOf(f, before, i)|
      {
        var called := FlushOne(f, i);
        assert CallsOf(f, before, i + 1) == CallsOf(f, before, i) + called;
        if called == [] {
          assert CallsOf(f, before, i + 1) == CallsOf(f, before, i);
        } else {
          CountOkSnoc(CallsOf(f, before, i), called[0]);
          assert called == [called[0]];
          if Succeeded(called[0]) {
            flushed := flushed + 1;
          } else {
            failed := failed + 1;
          }
        }
      }
      assert outbox == FlushRows(f, before);
    }

    method CancelOutbox(id: string) returns (cancelled: bool)
      modifies this`outbox
      ensures cancelled == Cancels(old(outbox), id) && outbox == CancelRows(old(outbox), id)
    {
      var found := FindRow(outbox, id);
      if found.None? || !outbox[found.value].status.Pending? {
        return false;
      }
      outbox := outbox[found.value := outbox[found.value].(status := Cancelled)];
      return true;
    }

    method RetryOutbox(id: string) returns (retried: bool)
      modifies this`outbox
      ensures retried == Retries(old(outbox), id) && outbox == RetryRows(old(outbox), id)
    {
      var found := FindRow(outbox, id);
      if found.None? || !outbox[found.value].status.Failed? {
        return false;
      }
      outbox := outbox[found.value := outbox[found.value].(status := Pending, lastError := None)];
      return true;
    }
  }

  // ---- runs

  /** `inflight` is the row whose provider call the flush is waiting for. */
  datatype State = State(rows: seq<Row>, calls: seq<Call>, time: int, inflight: Option<nat>)

  function Initial(time: int): State {
    State([], [], time, None)
  }

  /** Take and Settle are the two halves of a turn of the flush loop, around the `await`. */
  datatype Event =
    | Enqueue(m: Mutation, id: string, now: int)
    | Cancel(id: string)
    | Retry(id: string)
    | Take(i: nat, account: Option<string>, now: int)
    | Settle(reply: Reply)

  /** A row that is not due is skipped. */
  predicate CanTake(s: State, i: nat, account: Option<string>, now: int) {
    s.inflight.None? && i < |s.rows| && IsDue(s.rows[i], account, now)
  }

  predicate CanSettle(s: State) {
    s.inflight.Some? && s.inflight.value < |s.rows| && s.calls != []
  }

  function Answered(calls: seq<Call>, reply: Reply): seq<Call>
    requires calls != []
  {
    var n := |calls| - 1;
    calls[n := calls[n].(reply := Some(reply))]
  }

  function Next(s: State, e: Event): State {
    match e
    case Enqueue(m, id, now) => s.(rows := EnqueueRows(s.rows, m, id, now))
    case Cancel(id) => s.(rows := CancelRows(s.rows, id))
    case Retry(id) => s.(rows := RetryRows(s.rows, id))
    case Take(i, account, now) =>
      if !CanTake(s, i, account, now) then s
      else State(s.rows[i := Taken(s.rows[i])], s.calls + [CallOf(s.rows, i, None, now)], now, Some(i))
    case Settle(reply) =>
      if !CanSettle(s) then s
      else
        var i := s.inflight.value;
        State(s.rows[i := Settled(s.rows[i], reply)], Answered(s.calls, reply), s.time, None)
  }

  function After(s: State, events: seq<Event>): State
    decreases |events|
  {
    if events == [] then s else After(Next(s, events[0]), events[1..])
  }

  lemma AfterOne(s: State, e: Event, later: seq<Event>)
    ensures After(s, [e] + later) == After(Next(s, e), later)
  {
    assert ([e] + later)[1..] == later;
  }

  /** A run of any step function. */
  function RunOf<S, E>(next: (S, E) -> S, s: S, events: seq<E>): S
    decreases |events|
  {
    if events == [] then s else RunOf(next, next(s, events[0]), events[1..])
  }

  lemma {:induction false} RunOfConcat<S, E>(next: (S, E) -> S, s: S, a: seq<E>, b: seq<E>)
    ensures RunOf(next, s, a + b) == RunOf(next, RunOf(next, s, a), b)
    decreases |a|
  {
    if a == [] {
      assert a + b == b;
    } else {
      RunOfConcat(next, next(s, a[0]), a[1..], b);
      assert (a + b)[0] == a[0] && (a + b)[1..] == a[1..] + b;
    }
  }

  lemma {:induction false} AfterIsRunOf(next: (State, Event) -> State, s: State, events: seq<Event>)
    requires forall t, e :: next(t, e) == Next(t, e)
    ensures After(s, events) == RunOf(next, s, events)
    decreases |events|
  {
    if events != [] {
      AfterIsRunOf(next, Next(s, events[0]), events[1..]);
    }
  }

  lemma AfterConcat(s: State, a: seq<Event>, b: seq<Event>)
    ensures After(s, a + b) == After(After(s, a), b)
  {
    var next := (t: State, e: Event) => Next(t, e);
    AfterIsRunOf(next, s, a + b);
    AfterIsRunOf(next, s, a);
    AfterIsRunOf(next, After(s, a), b);
    RunOfConcat(next, s, a, b);
  }

  lemma AfterTwo(s: State, a: Event, b: Event)
    ensures After(s, [a, b]) == Next(Next(s, a), b)
  {
    assert [a, b] == [a] + [b] && [b] == [b] + [];
    AfterOne(s, a, [b]);
    AfterOne(Next(s, a), b, []);
  }

  // ---- an uninterrupted flush is a run

  function FlushEvents(f: Flush, n: nat): seq<Event> {
    if n == 0 then []
    else FlushEvents(f, n - 1) + [Take(n - 1, f.account, f.clock(n - 1)), Settle(f.replies(n - 1))]
  }

  /** The rows after the first n turns of the loop. */
  function FlushedPrefix(f: Flush, rows: seq<Row>, n: nat): seq<Row>
    requires n <= |rows|
  {
    seq(|rows|, i requires 0 <= i < |rows| => if i < n then FlushRow(f, rows, i) else rows[i])
  }

  /** s is the state after n turns that began with these rows and calls. */
  predicate HasFlushed(f: Flush, rows: seq<Row>, calls: seq<Call>, s: State, n: nat)
    requires n <= |rows|
  {
    s.inflight.None? && s.rows == FlushedPrefix(f, rows, n) && s.calls == calls + CallsOf(f, rows, n)
  }

  lemma OneTurn(f: Flush, rows: seq<Row>, calls: seq<Call>, s: State, n: nat)
    requires n < |rows| && HasFlushed(f, rows, calls, s, n)
    ensures HasFlushed(f, rows, calls, Next(Next(s, Take(n, f.account, f.clock(n))), Settle(f.replies(n))), n + 1)
  {
    assert s.rows[n] == rows[n];
    if Takes(f, rows, n) {
      var u := Next(s, Take(n, f.account, f.clock(n)));
      assert u.rows[n] == Taken(rows[n]);
      assert Answered(u.calls, f.replies(n)) == s.calls + [CallFor(f, rows, n)];
    }
  }

  /** The flush method does what the events of its loop do, in order. */
  lemma {:induction false} FlushIsARun(f: Flush, s: State, n: nat)
    requires s.inflight.None? && n <= |s.rows|
    ensures HasFlushed(f, s.rows, s.calls, After(s, FlushEvents(f, n)), n)
    ensures FlushedPrefix(f, s.rows, |s.rows|) == FlushRows(f, s.rows)
  {
    if n == 0 {
      assert FlushedPrefix(f, s.rows, 0) == s.rows;
    } else {
      FlushIsARun(f, s, n - 1);
      var take, settle := Take(n - 1, f.account, f.clock(n - 1)), Settle(f.replies(n - 1));
      var t := After(s, FlushEvents(f, n - 1));
      OneTurn(f, s.rows, s.calls, t, n - 1);
      AfterConcat(s, FlushEvents(f, n - 1), [take, settle]);
      AfterTwo(t, take, settle);
    }
  }

  // ---- how rows change

  predicate IsFinal(r: Row) {
    r.status.Done? || r.status.Cancelled?
  }

  /** What no operation changes about a row; a final row does not change at all. */
  predicate Evolves(a: Row, b: Row) {
    && b.id == a.id && b.createdAt == a.createdAt && KeyOf(b.mutation) == KeyOf(a.mutation)
    && b.mutation.kind == a.mutation.kind && b.mutation.availableAt == a.mutation.availableAt
    && (IsFinal(a) ==> b == a)
  }

  /** Operations other than a flush leave a row in flight alone and put none in flight. */
  predicate IsQuiet(a: Row, b: Row) {
    && Evolves(a, b) && b.attempts == a.attempts
    && (a.status.Inflight? ==> b == a) && (b.status.Inflight? ==> a.status.Inflight?)
  }

  ghost predicate RowsAreQuiet(rows: seq<Row>, later: seq<Row>) {
    && |rows| <= |later| && (forall i :: 0 <= i < |rows| ==> IsQuiet(rows[i], later[i]))
    && (forall i :: |rows| <= i < |later| ==> later[i].attempts == 0 && later[i].status.Pending?)
  }

  lemma OperationsAreQuiet(s: State, e: Event)
    requires !e.Take? && !e.Settle?
    ensures RowsAreQuiet(s.rows, Next(s, e).rows)
    ensures Next(s, e) == s.(rows := Next(s, e).rows)
  {
    var u := Next(s, e);
    match e
    case Enqueue(m, id, now) =>
      if m.kind.SaveDraft? && FindOpen(s.rows, KeyOf(m)).Some? {
        var i := FindOpen(s.rows, KeyOf(m)).value;
        assert IsQuiet(s.rows[i], u.rows[i]);
      }
    case _ =>
  }

  /** The row in flight is the one the flush waits for, with the last call, which is not answered. */
  ghost predicate Consistent(s: State) {
    && (forall i :: 0 <= i < |s.rows| ==> (s.rows[i].status.Inflight? <==> s.inflight == Some(i)))
    && (s.inflight.Some? ==> s.inflight.value < |s.rows| && IsWaiting(s, s.inflight.value))
    && (forall k :: 0 <= k < |s.calls| - (if s.inflight.Some? then 1 else 0) ==> s.calls[k].reply.Some?)
  }

  predicate IsWaiting(s: State, i: nat)
    requires i < |s.rows|
  {
    s.calls != [] && s.calls[|s.calls| - 1] == CallOf(s.rows, i, None, s.calls[|s.calls| - 1].time)
  }

  lemma QuietKeepsConsistent(s: State, u: State)
    requires Consistent(s) && RowsAreQuiet(s.rows, u.rows) && u == s.(rows := u.rows)
    ensures Consistent(u)
  {
    forall i | 0 <= i < |u.rows|
      ensures u.rows[i].status.Inflight? <==> u.inflight == Some(i)
    {
      if i < |s.rows| {
        assert IsQuiet(s.rows[i], u.rows[i]);
      }
    }
    if s.inflight.Some? {
      assert IsQuiet(s.rows[s.inflight.value], u.rows[s.inflight.value]);
    }
  }

  lemma NextKeepsConsistent(s: State, e: Event)
    requires Consistent(s)
    ensures Consistent(Next(s, e))
  {
    if !e.Take? && !e.Settle? {
      OperationsAreQuiet(s, e);
      QuietKeepsConsistent(s, Next(s, e));
    }
  }

  lemma NextEvolves(s: State, e: Event, i: nat)
    requires Consistent(s) && i < |s.rows|
    ensures i < |Next(s, e).rows| && Evolves(s.rows[i], Next(s, e).rows[i])
  {
    if !e.Take? && !e.Settle? {
      OperationsAreQuiet(s, e);
      assert IsQuiet(s.rows[i], Next(s, e).rows[i]);
    }
  }

  // ---- the call log

  function CountCalls(calls: seq<Call>, row: nat): nat {
    if calls == [] then 0
    else CountCalls(calls[..|calls| - 1], row) + if calls[|calls| - 1].row == row then 1 else 0
  }

  lemma CountOneMore(calls: seq<Call>, c: Call, row: nat)
    ensures CountCalls(calls + [c], row) == CountCalls(calls, row) + if c.row == row then 1 else 0
  {
    assert (calls + [c])[..|calls|] == calls;
  }

  lemma CountAnswered(calls: seq<Call>, reply: Reply, row: nat)
    requires calls != []
    ensures CountCalls(Answered(calls, reply), row) == CountCalls(calls, row)
  {
    assert Answered(calls, reply)[..|calls| - 1] == calls[..|calls| - 1];
  }

  /** Only taking row i adds a call for it. */
  lemma NextCounts(s: State, e: Event, row: nat)
    requires Consistent(s)
    ensures CountCalls(Next(s, e).calls, row)
         == CountCalls(s.calls, row) + if e.Take? && CanTake(s, e.i, e.account, e.now) && e.i == row then 1 else 0
  {
    if e.Take? && CanTake(s, e.i, e.account, e.now) {
      CountOneMore(s.calls, CallOf(s.rows, e.i, None, e.now), row);
    } else if e.Settle? && CanSettle(s) {
      CountAnswered(s.calls, e.reply, row);
    }
  }

  /** Flushes read a clock that never goes back. */
  predicate IsTimely(s: State, e: Event) {
    e.Take? ==> s.time <= e.now
  }

  predicate TimelyRun(s: State, events: seq<Event>)
    decreases |events|
  {
    events != [] ==> IsTimely(s, events[0]) && TimelyRun(Next(s, events[0]), events[1..])
  }

  /** A recorded call: its row waited long enough. */
  predicate CallIsSound(s: State, c: Call) {
    && c.row < |s.rows|
    && c.key == KeyOf(s.rows[c.row].mutation) && c.kind == s.rows[c.row].mutation.kind
    && (s.rows[c.row].mutation.availableAt.Some? ==> s.rows[c.row].mutation.availableAt.value <= c.time)
    && c.time <= s.time
  }

  ghost predicate LogIsSound(s: State) {
    && Consistent(s)
    && (forall k :: 0 <= k < |s.calls| ==> CallIsSound(s, s.calls[k]))
    && (forall i :: 0 <= i < |s.rows| ==> s.rows[i].attempts == CountCalls(s.calls, i))
    && (forall i :: i >= |s.rows| ==> CountCalls(s.calls, i) == 0)
  }

  lemma CallStaysSound(s: State, e: Event, c: Call)
    requires Consistent(s) && IsTimely(s, e) && CallIsSound(s, c)
    ensures CallIsSound(Next(s, e), c)
  {
    NextEvolves(s, e, c.row);
  }

  lemma NextCallsAreSound(s: State, e: Event, k: nat)
    requires LogIsSound(s) && IsTimely(s, e) && k < |Next(s, e).calls|
    ensures CallIsSound(Next(s, e), Next(s, e).calls[k])
  {
    if k < |s.calls| {
      CallStaysSound(s, e, s.calls[k]);
    } else {
      assert Next(s, e).calls[k] == CallOf(s.rows, e.i, None, e.now);
    }
  }

  lemma NextKeepsLog(s: State, e: Event)
    requires LogIsSound(s) && IsTimely(s, e)
    ensures LogIsSound(Next(s, e))
  {
    var u := Next(s, e);
    NextKeepsConsistent(s, e);
    forall k | 0 <= k < |u.calls|
      ensures CallIsSound(u, u.calls[k])
    {
      NextCallsAreSound(s, e, k);
    }
    if !e.Take? && !e.Settle? {
      OperationsAreQuiet(s, e);
    }
    forall i: nat
      ensures i < |u.rows| ==> u.rows[i].attempts == CountCalls(u.calls, i)
      ensures i >= |u.rows| ==> CountCalls(u.calls, i) == 0
    {
      NextCounts(s, e, i);
      if i < |s.rows| && !e.Take? && !e.Settle? {
        assert IsQuiet(s.rows[i], u.rows[i]);
      }
    }
  }

  /** In every run the calls made for a row equal its attempts, and no row is called early. */
  lemma {:induction false} CallsEqualAttempts(s: State, events: seq<Event>)
    requires LogIsSound(s) && TimelyRun(s, events)
    ensures LogIsSound(After(s, events))
    decreases |events|
  {
    if events != [] {
      NextKeepsLog(s, events[0]);
      CallsEqualAttempts(Next(s, events[0]), events[1..]);
    }
  }

  /** A done or cancelled row never changes again and is never handed over again. */
  lemma {:induction false} FinalRowsStayFinal(s: State, events: seq<Event>, i: nat)
    requires Consistent(s) && i < |s.rows| && IsFinal(s.rows[i])
    ensures var u := After(s, events);
      i < |u.rows| && u.rows[i] == s.rows[i] && CountCalls(u.calls, i) == CountCalls(s.calls, i)
    decreases |events|
  {
    if events != [] {
      NextKeepsConsistent(s, events[0]);
      NextEvolves(s, events[0], i);
      NextCounts(s, events[0], i);
      FinalRowsStayFinal(Next(s, events[0]), events[1..], i);
    }
  }

  lemma {:induction false} NoCallsBefore(s: State, n: nat, i: nat)
    requires i < |s.rows| && s.rows[i].mutation.availableAt.Some? && s.time < s.rows[i].mutation.availableAt.value
    requires n <= |s.calls| && forall k :: 0 <= k < |s.calls| ==> CallIsSound(s, s.calls[k])
    ensures CountCalls(s.calls[..n], i) == 0
  {
    if n > 0 {
      NoCallsBefore(s, n - 1, i);
      assert s.calls[..n][..n - 1] == s.calls[..n - 1];
      assert CallIsSound(s, s.calls[n - 1]);
    }
  }

  /** Undo: a row cancelled before its availableAt never reaches a provider. */
  lemma UndoneRowIsNeverSent(time: int, before: seq<Event>, id: string, later: seq<Event>, i: nat)
    requires TimelyRun(Initial(time), before)
    requires var s := After(Initial(time), before);
      && Cancels(s.rows, id) && FindRow(s.rows, id) == Some(i)
      && s.rows[i].mutation.availableAt.Some? && s.time < s.rows[i].mutation.availableAt.value
    ensures CountCalls(After(Next(After(Initial(time), before), Cancel(id)), later).calls, i) == 0
  {
    CallsEqualAttempts(Initial(time), before);
    var s := After(Initial(time), before);
    NoCallsBefore(s, |s.calls|, i);
    assert s.calls[..|s.calls|] == s.calls;
    NextKeepsConsistent(s, Cancel(id));
    FinalRowsStayFinal(Next(s, Cancel(id)), later, i);
  }

  /** The payload p asks for, up to the provider id that is threaded into it. */
  predicate SameContents(p: Option<Payload>, q: Option<Payload>) {
    match (p, q)
    case (Some(Payload(Some(d), _, f)), Some(Payload(Some(e), _, g))) => d.id == e.id && d.content == e.content && f == g
    case _ => p == q
  }

  /** Row p of u holds the newest contents for m; every other row is as before. */
  ghost predicate SavesInto(rows: seq<Row>, u: seq<Row>, m: Mutation, p: nat) {
    && p < |u| && IsOpenSave(u[p]) && KeyOf(u[p].mutation) == KeyOf(m) && SameContents(m.payload, u[p].mutation.payload)
    && (if p < |rows| then |u| == |rows| && u[p].status == rows[p].status && u[p].id == rows[p].id
        else |u| == |rows| + 1 && u[p].status.Pending?)
    && (forall i :: 0 <= i < |rows| && i != p ==> u[i] == rows[i])
  }

  /** The latest autosave wins, in the open row of its draft or in a new one; a failed row stays failed. */
  lemma AutosaveReplacesContents(s: State, m: Mutation, id: string, now: int)
    requires m.kind.SaveDraft?
    ensures exists p: nat :: SavesInto(s.rows, Next(s, Enqueue(m, id, now)).rows, m, p)
  {
    var found := FindOpen(s.rows, KeyOf(m));
    var p := if found.Some? then found.value else |s.rows|;
    assert SavesInto(s.rows, Next(s, Enqueue(m, id, now)).rows, m, p);
  }

  /** A failed row is not handed over again until it is retried, however often it is autosaved. */
  lemma {:induction false} FailedRowWaitsForRetry(s: State, events: seq<Event>, i: nat)
    requires Consistent(s) && i < |s.rows| && s.rows[i].status.Failed? && forall e <- events :: !e.Retry?
    ensures var u := After(s, events);
      && i < |u.rows| && (u.rows[i].status.Failed? || u.rows[i].status.Cancelled?)
      && CountCalls(u.calls, i) == CountCalls(s.calls, i)
    decreases |events|
  {
    if events != [] {
      var u := Next(s, events[0]);
      assert events[0] in events && forall e <- events[1..] :: e in events;
      NextKeepsConsistent(s, events[0]);
      NextCounts(s, events[0], i);
      if u.rows[i].status.Failed? {
        FailedRowWaitsForRetry(u, events[1..], i);
      } else {
        FinalRowsStayFinal(u, events[1..], i);
      }
    }
  }

  // ---- one provider draft per local draft

  /** The caller of an autosave supplies a draft and no provider id. */
  predicate IsPlainSave(m: Mutation) {
    m.kind.SaveDraft? ==> m.payload.Some? && m.payload.value.draft.Some? && KnownId(m.payload) == "" && HandedId(m.payload) == ""
  }

  /** A save that succeeds returns a draft id, and the id it was given when it was given one. */
  predicate GivesBack(handed: string, returned: string) {
    returned != "" && (handed != "" ==> returned == handed)
  }

  predicate IsHonest(s: State, reply: Reply) {
    CanSettle(s) && s.rows[s.inflight.value].mutation.kind.SaveDraft? && reply.Ok? ==>
      GivesBack(HandedId(s.rows[s.inflight.value].mutation.payload), reply.value)
  }

  /** The flush is waiting for the save that makes the provider's draft for this key. */
  predicate FirstSaveInFlight(s: State, key: Key) {
    && s.inflight.Some? && s.inflight.value < |s.rows|
    && IsSaveOf(s.rows[s.inflight.value], key) && HandedId(s.rows[s.inflight.value].mutation.payload) == ""
  }

  predicate IsCooperative(s: State, e: Event) {
    && (e.Enqueue? ==> IsPlainSave(e.m) && (e.m.kind.SaveDraft? ==> !FirstSaveInFlight(s, KeyOf(e.m))))
    && (e.Settle? ==> IsHonest(s, e.reply))
  }

  predicate CooperativeRun(s: State, events: seq<Event>)
    decreases |events|
  {
    events != [] ==> IsCooperative(s, events[0]) && CooperativeRun(Next(s, events[0]), events[1..])
  }

  /** Two save rows of the same key. */
  predicate SameDraft(rows: seq<Row>, i: nat, j: nat) {
    && i < |rows| && j < |rows|
    && rows[i].mutation.kind.SaveDraft? && rows[j].mutation.kind.SaveDraft?
    && KeyOf(rows[i].mutation) == KeyOf(rows[j].mutation)
  }

  /** A save row that may still be handed over, or is. */
  predicate IsLive(r: Row) {
    r.mutation.kind.SaveDraft? && !IsFinal(r)
  }

  /** A live row hands over the id that any row of its key knows. */
  predicate Knows(rows: seq<Row>, i: nat, j: nat) {
    SameDraft(rows, i, j) && IsLive(rows[i]) && RowId(rows[j]) != "" ==>
      HandedId(rows[i].mutation.payload) == RowId(rows[j])
  }

  /** A live row that hands over no id is the only live one of its key. */
  predicate BlankIsAlone(rows: seq<Row>, i: nat, j: nat) {
    SameDraft(rows, i, j) && IsLive(rows[i]) && IsLive(rows[j]) && HandedId(rows[i].mutation.payload) == "" ==> i == j
  }

  predicate Agree(rows: seq<Row>, i: nat, j: nat) {
    SameDraft(rows, i, j) && RowId(rows[i]) != "" && RowId(rows[j]) != "" ==> RowId(rows[i]) == RowId(rows[j])
  }

  predicate PairIsSettled(rows: seq<Row>, i: nat, j: nat) {
    Knows(rows, i, j) && BlankIsAlone(rows, i, j) && Agree(rows, i, j)
  }

  ghost predicate DraftsAreSettled(rows: seq<Row>) {
    forall i: nat, j: nat :: PairIsSettled(rows, i, j)
  }

  /** Rows change status only, no row comes alive, and appended rows are no saves. */
  ghost predicate OnlyCloses(rows: seq<Row>, u: seq<Row>) {
    && |rows| <= |u|
    && (forall i :: 0 <= i < |rows| ==> u[i].mutation == rows[i].mutation && (IsLive(u[i]) ==> IsLive(rows[i])))
    && (forall i :: |rows| <= i < |u| ==> !u[i].mutation.kind.SaveDraft?)
  }

  lemma ClosingKeepsSettled(rows: seq<Row>, u: seq<Row>)
    requires DraftsAreSettled(rows) && OnlyCloses(rows, u)
    ensures DraftsAreSettled(u)
  {
    forall i: nat, j: nat
      ensures PairIsSettled(u, i, j)
    {
      assert PairIsSettled(rows, i, j);
    }
  }

  lemma PlainSaveIsThreaded(m: Mutation, prior: string)
    requires IsPlainSave(m) && m.kind.SaveDraft?
    ensures KnownId(WithProviderId(m.payload, prior)) == prior
    ensures HandedId(WithProviderId(m.payload, prior)) == prior
  {
  }

  /** u is rows with a live save row of the key at p, new or replaced, that carries the prior id. */
  ghost predicate IsThreaded(rows: seq<Row>, u: seq<Row>, p: nat, key: Key) {
    && |rows| <= |u| <= |rows| + 1 && p < |u| && (|u| > |rows| ==> p == |rows|)
    && (forall i :: 0 <= i < |rows| && i != p ==> u[i] == rows[i])
    && IsSaveOf(u[p], key)
    && HandedId(u[p].mutation.payload) == PriorId(rows, key) && RowId(u[p]) == PriorId(rows, key)
    && (forall i :: 0 <= i < |rows| && i != p && IsSaveOf(rows[i], key) && IsLive(rows[i]) ==> RowId(rows[i]) != "")
  }

  lemma KnownIsPrior(rows: seq<Row>, key: Key, j: nat)
    requires DraftsAreSettled(rows) && j < |rows| && IsSaveOf(rows[j], key) && RowId(rows[j]) != ""
    ensures RowId(rows[j]) == PriorId(rows, key)
  {
    assert PriorId(rows, key) != "";
    var i: nat :| i < |rows| && IsSaveOf(rows[i], key) && RowId(rows[i]) == PriorId(rows, key);
    assert PairIsSettled(rows, i, j);
  }

  /** What a row of the key knows and hands over once the prior id is threaded. */
  lemma ThreadedRow(rows: seq<Row>, u: seq<Row>, p: nat, key: Key, j: nat)
    requires DraftsAreSettled(rows) && IsThreaded(rows, u, p, key) && j < |u| && IsSaveOf(u[j], key)
    ensures RowId(u[j]) == "" || RowId(u[j]) == PriorId(rows, key)
    ensures IsLive(u[j]) ==> HandedId(u[j].mutation.payload) == PriorId(rows, key)
    ensures IsLive(u[j]) && j != p ==> PriorId(rows, key) != ""
  {
    if j != p {
      assert u[j] == rows[j] && PairIsSettled(rows, j, j);
      if RowId(rows[j]) != "" {
        KnownIsPrior(rows, key, j);
      }
    }
  }

  lemma ThreadingKeepsSettled(rows: seq<Row>, u: seq<Row>, p: nat, key: Key)
    requires DraftsAreSettled(rows) && IsThreaded(rows, u, p, key)
    ensures DraftsAreSettled(u)
  {
    forall i: nat, j: nat
      ensures PairIsSettled(u, i, j)
    {
      if SameDraft(u, i, j) {
        if IsSaveOf(u[i], key) {
          ThreadedRow(rows, u, p, key, i);
          ThreadedRow(rows, u, p, key, j);
        } else {
          assert PairIsSettled(rows, i, j);
        }
      }
    }
  }

  lemma HandedIsKnown(p: Option<Payload>)
    ensures HandedId(p) != "" ==> KnownId(p) == HandedId(p)
  {
  }

  /** Beside the row an autosave goes to, every live row of its draft knows an id. */
  lemma OtherLiveRowsKnow(s: State, key: Key, p: nat, i: nat)
    requires DraftsAreSettled(s.rows) && Consistent(s) && !FirstSaveInFlight(s, key)
    requires p == if FindOpen(s.rows, key).Some? then FindOpen(s.rows, key).value else |s.rows|
    requires i < |s.rows| && i != p && IsSaveOf(s.rows[i], key) && IsLive(s.rows[i])
    ensures RowId(s.rows[i]) != ""
  {
    HandedIsKnown(s.rows[i].mutation.payload);
    if FindOpen(s.rows, key).Some? {
      assert PairIsSettled(s.rows, i, p);
    } else {
      assert s.rows[i].status.Inflight?;
    }
  }

  lemma EnqueueSaveKeepsSettled(s: State, m: Mutation, id: string, now: int)
    requires DraftsAreSettled(s.rows) && Consistent(s)
    requires m.kind.SaveDraft? && IsPlainSave(m) && !FirstSaveInFlight(s, KeyOf(m))
    ensures DraftsAreSettled(EnqueueSave(s.rows, m, id, now))
  {
    var key := KeyOf(m);
    var u := EnqueueSave(s.rows, m, id, now);
    PlainSaveIsThreaded(m, PriorId(s.rows, key));
    var p := if FindOpen(s.rows, key).Some? then FindOpen(s.rows, key).value else |s.rows|;
    forall i | 0 <= i < |s.rows| && i != p && IsSaveOf(s.rows[i], key) && IsLive(s.rows[i])
      ensures RowId(s.rows[i]) != ""
    {
      OtherLiveRowsKnow(s, key, p, i);
    }
    ThreadingKeepsSettled(s.rows, u, p, key);
  }

  /** The save row i is closed with the id the provider gave. */
  ghost predicate IsSavedAt(rows: seq<Row>, u: seq<Row>, i: nat) {
    && |u| == |rows| && i < |rows| && (forall k :: 0 <= k < |rows| && k != i ==> u[k] == rows[k])
    && IsLive(rows[i]) && IsFinal(u[i])
    && KeyOf(u[i].mutation) == KeyOf(rows[i].mutation) && u[i].mutation.kind == rows[i].mutation.kind
    && GivesBack(HandedId(rows[i].mutation.payload), RowId(u[i]))
  }

  lemma SavedPairIsSettled(rows: seq<Row>, u: seq<Row>, i: nat, k: nat, l: nat)
    requires DraftsAreSettled(rows) && IsSavedAt(rows, u, i)
    ensures PairIsSettled(u, k, l)
  {
    if SameDraft(u, k, l) {
      assert SameDraft(rows, k, l);
      assert PairIsSettled(rows, k, l) && PairIsSettled(rows, l, k);
      assert PairIsSettled(rows, i, k) && PairIsSettled(rows, i, l) && PairIsSettled(rows, i, i);
      HandedIsKnown(rows[i].mutation.payload);
    }
  }

  lemma SavingKeepsSettled(rows: seq<Row>, u: seq<Row>, i: nat)
    requires DraftsAreSettled(rows) && IsSavedAt(rows, u, i)
    ensures DraftsAreSettled(u)
  {
    forall k: nat, l: nat
      ensures PairIsSettled(u, k, l)
    {
      SavedPairIsSettled(rows, u, i, k, l);
    }
  }

  lemma SettleSaves(s: State, reply: Reply)
    requires Consistent(s) && CanSettle(s) && IsHonest(s, reply)
    requires s.rows[s.inflight.value].mutation.kind.SaveDraft? && reply.Ok?
    ensures IsSavedAt(s.rows, Next(s, Settle(reply)).rows, s.inflight.value)
    ensures RowId(Next(s, Settle(reply)).rows[s.inflight.value]) == reply.value
  {
  }

  lemma NextKeepsSettled(s: State, e: Event)
    requires DraftsAreSettled(s.rows) && Consistent(s) && IsCooperative(s, e)
    ensures DraftsAreSettled(Next(s, e).rows)
  {
    if e.Enqueue? && e.m.kind.SaveDraft? {
      EnqueueSaveKeepsSettled(s, e.m, e.id, e.now);
    } else if e.Settle? && CanSettle(s) && s.rows[s.inflight.value].mutation.kind.SaveDraft? && e.reply.Ok? {
      SettleSaves(s, e.reply);
      SavingKeepsSettled(s.rows, Next(s, e).rows, s.inflight.value);
    } else {
      ClosingKeepsSettled(s.rows, Next(s, e).rows);
    }
  }

  predicate IsSaved(c: Call) {
    c.kind.SaveDraft? && Succeeded(c)
  }

  /** The provider made a new draft. */
  predicate IsCreating(c: Call) {
    IsSaved(c) && HandedId(c.handed) == ""
  }

  /** The row of a successful save is done and keeps the id the provider gave. */
  predicate IsKept(rows: seq<Row>, c: Call) {
    && c.row < |rows| && IsSaveOf(rows[c.row], c.key)
    && rows[c.row].status.Done? && Succeeded(c) && RowId(rows[c.row]) == c.reply.value.value != ""
  }

  ghost predicate CreatedOnce(calls: seq<Call>) {
    forall k, l :: 0 <= k < l < |calls| && IsCreating(calls[k]) && IsCreating(calls[l]) ==> calls[k].key != calls[l].key
  }

  ghost predicate SavesAreKept(s: State) {
    forall k :: 0 <= k < |s.calls| && IsSaved(s.calls[k]) ==> IsKept(s.rows, s.calls[k])
  }

  lemma KeptStaysKept(s: State, e: Event, c: Call)
    requires Consistent(s) && IsSaved(c) && IsKept(s.rows, c)
    ensures IsKept(Next(s, e).rows, c)
  {
    NextEvolves(s, e, c.row);
  }

  /** The answer to the call in flight: kept if it is a save, and if it creates a draft, the first to do so. */
  lemma AnswerIsKept(s: State, reply: Reply)
    requires Consistent(s) && CanSettle(s) && IsHonest(s, reply)
    ensures var c := Answered(s.calls, reply)[|s.calls| - 1];
      && c.row == s.inflight.value && c.handed == s.rows[c.row].mutation.payload
      && (IsSaved(c) ==> IsKept(Next(s, Settle(reply)).rows, c))
  {
    assert IsWaiting(s, s.inflight.value);
  }

  lemma CreationIsFirst(s: State, reply: Reply, k: nat)
    requires Consistent(s) && DraftsAreSettled(s.rows) && SavesAreKept(s) && CanSettle(s)
    requires k < |s.calls| - 1 && IsCreating(s.calls[k]) && IsCreating(Answered(s.calls, reply)[|s.calls| - 1])
    ensures s.calls[k].key != s.calls[|s.calls| - 1].key
  {
    assert IsKept(s.rows, s.calls[k]) && IsWaiting(s, s.inflight.value);
    assert PairIsSettled(s.rows, s.inflight.value, s.calls[k].row);
  }

  lemma NextKeepsSaves(s: State, e: Event)
    requires Consistent(s) && SavesAreKept(s) && IsCooperative(s, e)
    ensures SavesAreKept(Next(s, e))
  {
    var u := Next(s, e);
    forall k | 0 <= k < |u.calls| && IsSaved(u.calls[k])
      ensures IsKept(u.rows, u.calls[k])
    {
      if k < |s.calls| && u.calls[k] == s.calls[k] {
        KeptStaysKept(s, e, s.calls[k]);
      } else if e.Settle? {
        AnswerIsKept(s, e.reply);
      }
    }
  }

  lemma NextKeepsCreatedOnce(s: State, e: Event)
    requires Consistent(s) && DraftsAreSettled(s.rows) && SavesAreKept(s) && CreatedOnce(s.calls)
    ensures CreatedOnce(Next(s, e).calls)
  {
    var u := Next(s, e);
    forall k, l | 0 <= k < l < |u.calls| && IsCreating(u.calls[k]) && IsCreating(u.calls[l])
      ensures u.calls[k].key != u.calls[l].key
    {
      if e.Settle? && CanSettle(s) && l == |s.calls| - 1 {
        CreationIsFirst(s, e.reply, k);
      }
    }
  }

  /** What cooperative runs keep. */
  ghost predicate Inv(s: State) {
    Consistent(s) && DraftsAreSettled(s.rows) && SavesAreKept(s) && CreatedOnce(s.calls)
  }

  lemma {:induction false} RunsKeepInv(s: State, events: seq<Event>)
    requires Inv(s) && CooperativeRun(s, events)
    ensures Inv(After(s, events))
    decreases |events|
  {
    if events != [] {
      NextKeepsConsistent(s, events[0]);
      NextKeepsSettled(s, events[0]);
      NextKeepsSaves(s, events[0]);
      NextKeepsCreatedOnce(s, events[0]);
      RunsKeepInv(Next(s, events[0]), events[1..]);
    }
  }

  /**
   However often a draft is autosaved, fails, is retried, cancelled or sent, also while a flush waits
   for a provider, all its successful saves go to one provider draft, and at most one creates it.
   */
  lemma OneProviderDraft(time: int, events: seq<Event>, k: nat, l: nat)
    requires CooperativeRun(Initial(time), events)
    requires var calls := After(Initial(time), events).calls;
      k < |calls| && l < |calls| && IsSaved(calls[k]) && IsSaved(calls[l]) && calls[k].key == calls[l].key
    ensures var calls := After(Initial(time), events).calls;
      && calls[k].reply == calls[l].reply
      && (IsCreating(calls[k]) && IsCreating(calls[l]) ==> k == l)
  {
    RunsKeepInv(Initial(time), events);
    var s := After(Initial(time), events);
    assert IsKept(s.rows, s.calls[k]) && IsKept(s.rows, s.calls[l]);
    assert PairIsSettled(s.rows, s.calls[k].row, s.calls[l].row);
  }

  // ---- which autosaves are safe

  /** Nothing that can follow makes a second provider draft. */
  ghost predicate StaysOne(s: State) {
    forall events: seq<Event> :: CooperativeRun(s, events) ==> CreatedOnce(After(s, events).calls)
  }

  /** The autosave finds no open row and no id, and gets a row of its own. */
  lemma BlindAutosave(s: State, m: Mutation, id: string, now: int)
    requires Inv(s) && m.kind.SaveDraft? && IsPlainSave(m) && FirstSaveInFlight(s, KeyOf(m))
    ensures var u := Next(s, Enqueue(m, id, now)).rows;
      && |u| == |s.rows| + 1 && u[..|s.rows|] == s.rows
      && IsSaveOf(u[|s.rows|], KeyOf(m)) && u[|s.rows|].status.Pending?
      && HandedId(u[|s.rows|].mutation.payload) == "" && u[|s.rows|].mutation.availableAt == m.availableAt
  {
    var key, i := KeyOf(m), s.inflight.value;
    assert IsWaiting(s, i) && s.rows[i].status.Inflight?;
    forall j | 0 <= j < |s.rows| && IsSaveOf(s.rows[j], key)
      ensures RowId(s.rows[j]) == "" && !IsOpenSave(s.rows[j])
    {
      assert PairIsSettled(s.rows, i, j);
    }
    assert PriorId(s.rows, key) == "" && FindOpen(s.rows, key).None?;
    PlainSaveIsThreaded(m, "");
  }

  /** The first save succeeds, the flush takes the new row n, and its save succeeds too. */
  lemma BothSucceed(u: State, i: nat, n: nat, due: int)
    requires Consistent(u) && u.inflight == Some(i) && i < n < |u.rows| && u.rows[n].status.Pending?
    requires SameDraft(u.rows, i, n) && IsDue(u.rows[n], None, due)
    requires HandedId(u.rows[i].mutation.payload) == "" && HandedId(u.rows[n].mutation.payload) == ""
    ensures var u1 := Next(u, Settle(Ok("one")));
      var u2 := Next(u1, Take(n, None, due));
      var u3 := Next(u2, Settle(Ok("two")));
      && IsCooperative(u, Settle(Ok("one"))) && IsCooperative(u1, Take(n, None, due)) && IsCooperative(u2, Settle(Ok("two")))
      && !CreatedOnce(u3.calls)
  {
    var k := |u.calls| - 1;
    assert IsWaiting(u, i);
    var u1 := Next(u, Settle(Ok("one")));
    assert u1.rows[n] == u.rows[n] && u1.inflight.None? && |u1.calls| == |u.calls|;
    assert u1.calls[k] == u.calls[k].(reply := Some(Ok("one")));
    var u2 := Next(u1, Take(n, None, due));
    assert CanTake(u1, n, None, due) && u2.rows[n] == Taken(u.rows[n]) && u2.calls == u1.calls + [CallOf(u1.rows, n, None, due)];
    var u3 := Next(u2, Settle(Ok("two")));
    assert u3.calls[k] == u1.calls[k] && IsCreating(u3.calls[k]);
    assert u3.calls[k + 1] == CallOf(u1.rows, n, Some(Ok("two")), due) && IsCreating(u3.calls[k + 1]);
    assert u3.calls[k].key == u3.calls[k + 1].key;
  }

  lemma SecondDraft(s: State, m: Mutation, id: string, now: int)
    requires Inv(s) && m.kind.SaveDraft? && IsPlainSave(m) && FirstSaveInFlight(s, KeyOf(m))
    ensures !StaysOne(Next(s, Enqueue(m, id, now)))
  {
    var i, n := s.inflight.value, |s.rows|;
    BlindAutosave(s, m, id, now);
    var u := Next(s, Enqueue(m, id, now));
    NextKeepsConsistent(s, Enqueue(m, id, now));
    var due := if m.availableAt.Some? then m.availableAt.value else 0;
    assert u.rows[i] == s.rows[i];
    BothSucceed(u, i, n, due);
    ThreeSteps(u, Settle(Ok("one")), Take(n, None, due), Settle(Ok("two")));
  }

  lemma ThreeSteps(u: State, a: Event, b: Event, c: Event)
    requires IsCooperative(u, a) && IsCooperative(Next(u, a), b) && IsCooperative(Next(Next(u, a), b), c)
    requires !CreatedOnce(Next(Next(Next(u, a), b), c).calls)
    ensures !StaysOne(u)
  {
    var u1, u2 := Next(u, a), Next(Next(u, a), b);
    var events := [a] + ([b] + ([c] + []));
    CooperativeOne(u2, c, []);
    CooperativeOne(u1, b, [c] + []);
    CooperativeOne(u, a, [b] + ([c] + []));
    AfterOne(u2, c, []);
    AfterOne(u1, b, [c] + []);
    AfterOne(u, a, [b] + ([c] + []));
    assert CooperativeRun(u, events) && !CreatedOnce(After(u, events).calls);
  }

  lemma CooperativeOne(s: State, e: Event, later: seq<Event>)
    requires IsCooperative(s, e) && CooperativeRun(Next(s, e), later)
    ensures CooperativeRun(s, [e] + later)
  {
    assert ([e] + later)[1..] == later;
  }

  /**
   In every reachable state an autosave is safe exactly when the flush is not waiting for the first save of the same draft:
   otherwise nothing can follow that makes a second provider draft, and with such a save in flight
   two successful saves make two.
   */
  lemma AutosaveIsSafeExactly(time: int, before: seq<Event>, m: Mutation, id: string, now: int)
    requires CooperativeRun(Initial(time), before) && m.kind.SaveDraft? && IsPlainSave(m)
    ensures var s := After(Initial(time), before);
      StaysOne(Next(s, Enqueue(m, id, now))) <==> !FirstSaveInFlight(s, KeyOf(m))
  {
    RunsKeepInv(Initial(time), before);
    var s, e := After(Initial(time), before), Enqueue(m, id, now);
    if FirstSaveInFlight(s, KeyOf(m)) {
      SecondDraft(s, m, id, now);
    } else {
      forall events: seq<Event> | CooperativeRun(Next(s, e), events)
        ensures CreatedOnce(After(Next(s, e), events).calls)
      {
        CooperativeOne(s, e, events);
        AfterOne(s, e, events);
        RunsKeepInv(s, [e] + events);
      }
    }
  }
}
