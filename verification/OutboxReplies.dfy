/**
 What the outbox makes of a provider's reply, and of every other request: which rows are handed over,
 what they become, and what a retry, an undo or a queued send does to them.
 */
module OutboxReplies {
  import opened Outcomes
  import opened Outbox

  // ---- status and replies

  /** The last call made for a row. */
  function LastCall(calls: seq<Call>, row: nat): Option<Call> {
    if calls == [] then None
    else if calls[|calls| - 1].row == row then Some(calls[|calls| - 1])
    else LastCall(calls[..|calls| - 1], row)
  }

  /**
   A done row was handed over, and the last reply was a success; a row in flight waits for a reply; a
   failed row has the message of the last reply, which was an error. A row that has not been handed
   over, or whose last call failed, is never done.
   */
  predicate StatusIsEarned(r: Row, last: Option<Call>) {
    match last
    case None => r.status.Pending? || r.status.Cancelled?
    case Some(c) =>
      match c.reply
      case None => r.status.Inflight?
      case Some(Ok(_)) => r.status.Done? && r.lastError.None?
      case Some(Err(message)) =>
        || r.status.Pending? || r.status.Cancelled?
        || (r.status.Failed? && r.lastError == Some(message))
  }

  ghost predicate StatusesAreEarned(s: State) {
    && Consistent(s)
    && (forall k :: 0 <= k < |s.calls| ==> s.calls[k].row < |s.rows|)
    && (forall i :: 0 <= i < |s.rows| ==> StatusIsEarned(s.rows[i], LastCall(s.calls, i)))
  }

  lemma LastOfMore(calls: seq<Call>, c: Call, row: nat)
    ensures LastCall(calls + [c], row) == if c.row == row then Some(c) else LastCall(calls, row)
  {
    assert (calls + [c])[..|calls|] == calls;
  }

  lemma LastOfAnswered(calls: seq<Call>, reply: Reply, row: nat)
    requires calls != []
    ensures LastCall(Answered(calls, reply), row) ==
      if calls[|calls| - 1].row == row then Some(calls[|calls| - 1].(reply := Some(reply)))
      else LastCall(calls, row)
  {
    assert Answered(calls, reply)[..|calls| - 1] == calls[..|calls| - 1];
  }

  lemma {:induction false} NoLastCall(calls: seq<Call>, row: nat)
    requires forall k :: 0 <= k < |calls| ==> calls[k].row != row
    ensures LastCall(calls, row).None?
  {
    if calls != [] {
      NoLastCall(calls[..|calls| - 1], row);
    }
  }

  /** Queueing, undoing and retrying leave an earned status earned. */
  lemma QuietRowStaysEarned(s: State, e: Event, i: nat)
    requires !e.Take? && !e.Settle? && i < |s.rows| && StatusIsEarned(s.rows[i], LastCall(s.calls, i))
    ensures i < |Next(s, e).rows| && StatusIsEarned(Next(s, e).rows[i], LastCall(s.calls, i))
  {
    OperationsAreQuiet(s, e);
  }

  lemma TakenRowsAreEarned(s: State, e: Event, i: nat)
    requires StatusesAreEarned(s) && e.Take? && i < |s.rows|
    ensures StatusIsEarned(Next(s, e).rows[i], LastCall(Next(s, e).calls, i))
  {
    if CanTake(s, e.i, e.account, e.now) {
      LastOfMore(s.calls, CallOf(s.rows, e.i, None, e.now), i);
    }
  }

  lemma SettledRowsAreEarned(s: State, e: Event, i: nat)
    requires StatusesAreEarned(s) && e.Settle? && i < |s.rows|
    ensures StatusIsEarned(Next(s, e).rows[i], LastCall(Next(s, e).calls, i))
  {
    if CanSettle(s) {
      LastOfAnswered(s.calls, e.reply, i);
      assert IsWaiting(s, s.inflight.value);
    }
  }

  lemma NextKeepsEarned(s: State, e: Event)
    requires StatusesAreEarned(s)
    ensures StatusesAreEarned(Next(s, e))
  {
    var u := Next(s, e);
    NextKeepsConsistent(s, e);
    if e.Take? || e.Settle? {
      forall i | 0 <= i < |u.rows|
        ensures StatusIsEarned(u.rows[i], LastCall(u.calls, i))
      {
        if e.Take? {
          TakenRowsAreEarned(s, e, i);
        } else {
          SettledRowsAreEarned(s, e, i);
        }
      }
    } else {
      OperationsAreQuiet(s, e);
      forall i | 0 <= i < |u.rows|
        ensures StatusIsEarned(u.rows[i], LastCall(u.calls, i))
      {
        if i < |s.rows| {
          QuietRowStaysEarned(s, e, i);
        } else {
          NoLastCall(s.calls, i);
        }
      }
    }
  }

  lemma {:induction false} RunsKeepEarned(s: State, events: seq<Event>)
    requires StatusesAreEarned(s)
    ensures StatusesAreEarned(After(s, events))
    decreases |events|
  {
    if events != [] {
      NextKeepsEarned(s, events[0]);
      RunsKeepEarned(Next(s, events[0]), events[1..]);
    }
  }

  /** In every reachable state each row's status is what the last reply for it earned. */
  lemma StatusFollowsTheReply(time: int, events: seq<Event>, i: nat)
    requires i < |After(Initial(time), events).rows|
    ensures var s := After(Initial(time), events);
      var r, last := s.rows[i], LastCall(s.calls, i);
      && (r.status.Done? <==> last.Some? && last.value.reply.Some? && last.value.reply.value.Ok?)
      && (r.status.Inflight? <==> last.Some? && last.value.reply.None?)
      && (r.status.Failed? ==>
            && last.Some? && last.value.reply.Some? && last.value.reply.value.Err?
            && r.lastError == Some(last.value.reply.value.error))
  {
    RunsKeepEarned(Initial(time), events);
    var s := After(Initial(time), events);
    assert StatusIsEarned(s.rows[i], LastCall(s.calls, i));
  }

  // ---- one reply

  /** q is p with the provider's id, in the draft as well if there is one. */
  predicate Remembers(q: Option<Payload>, p: Option<Payload>, id: string) {
    && q.Some? && q.value.providerDraftId == Some(id)
    && (if p.None? then q.value.draft.None? && q.value.fields == ""
        else
          && q.value.fields == p.value.fields && (q.value.draft.Some? <==> p.value.draft.Some?)
          && (p.value.draft.Some? ==>
                && q.value.draft.value.id == p.value.draft.value.id
                && q.value.draft.value.content == p.value.draft.value.content
                && q.value.draft.value.providerDraftId == Some(id)))
  }

  /**
   The reply to the call under way decides its row: a success makes it done, and of a save remembers
   the provider's id; an error makes it failed, with the message and its contents kept for a retry.
   */
  lemma ReplyDecidesTheRow(s: State, i: nat, reply: Reply)
    requires Consistent(s) && s.inflight == Some(i)
    ensures var u := Next(s, Settle(reply));
      && i < |s.rows| == |u.rows| && u.inflight.None?
      && u.rows[i].id == s.rows[i].id && u.rows[i].attempts == s.rows[i].attempts
      && (forall j :: 0 <= j < |s.rows| && j != i ==> u.rows[j] == s.rows[j])
      && (match reply
          case Err(message) =>
            u.rows[i].status.Failed? && u.rows[i].lastError == Some(message) && u.rows[i].mutation == s.rows[i].mutation
          case Ok(id) =>
            && u.rows[i].status.Done? && u.rows[i].lastError.None?
            && (if s.rows[i].mutation.kind.SaveDraft?
                then Remembers(u.rows[i].mutation.payload, s.rows[i].mutation.payload, id)
                     && u.rows[i].mutation == s.rows[i].mutation.(payload := u.rows[i].mutation.payload)
                else u.rows[i].mutation == s.rows[i].mutation))
  {
    assert IsWaiting(s, i);
  }

  /** The row is the first with this id. */
  predicate IsFirst(rows: seq<Row>, id: string, i: nat) {
    i < |rows| && rows[i].id == id && forall j :: 0 <= j < i ==> rows[j].id != id
  }

  lemma FirstIsFound(rows: seq<Row>, id: string, i: nat)
    requires IsFirst(rows, id, i)
    ensures FindRow(rows, id) == Some(i)
  {
    var found := FindRow(rows, id);
    if found.Some? {
      assert found.value < i || i < found.value || found.value == i;
    }
  }

  /** A flush of the account comes to the row after its availableAt. */
  predicate ComesTo(m: Mutation, account: Option<string>, now: int) {
    && (account.None? || account.value == "" || account.value == m.account)
    && (m.availableAt.None? || m.availableAt.value <= now)
  }

  /** A pending row that a flush comes to is handed over once, with what it holds. */
  lemma PendingRowIsHandedOver(s: State, i: nat, account: Option<string>, now: int)
    requires s.inflight.None? && i < |s.rows| && s.rows[i].status.Pending?
    requires ComesTo(s.rows[i].mutation, account, now)
    ensures var u := Next(s, Take(i, account, now));
      && u.calls == s.calls + [Call(i, KeyOf(s.rows[i].mutation), s.rows[i].mutation.kind,
                                    s.rows[i].mutation.payload, None, now)]
      && u.inflight == Some(i) && u.time == now
      && u.rows == s.rows[i := s.rows[i].(status := Inflight, attempts := s.rows[i].attempts + 1)]
  {
  }

  /** A flush passes over every row that is final or failed, of another account, or not due yet. */
  lemma OtherRowsArePassedOver(s: State, i: nat, account: Option<string>, now: int)
    requires i < |s.rows|
    requires s.rows[i].status.Failed? || IsFinal(s.rows[i]) || !ComesTo(s.rows[i].mutation, account, now)
    ensures Next(s, Take(i, account, now)) == s
  {
  }

  /**
   A failed call can be made again: after the error the retry is accepted, and the next flush that
   comes to the row hands over the same contents once more.
   */
  lemma FailedCallCanBeRetried(
      s: State, i: nat, message: string, id: string, account: Option<string>, now: int)
    requires Consistent(s) && s.inflight == Some(i) && IsFirst(s.rows, id, i)
    requires ComesTo(s.rows[i].mutation, account, now)
    ensures var failed := Next(s, Settle(Err(message)));
      var again := Next(Next(failed, Retry(id)), Take(i, account, now));
      && i < |s.rows| && Retries(failed.rows, id)
      && again.calls == failed.calls + [Call(i, KeyOf(s.rows[i].mutation), s.rows[i].mutation.kind,
                                             s.rows[i].mutation.payload, None, now)]
      && CountCalls(again.calls, i) == CountCalls(s.calls, i) + 1
  {
    var failed := Next(s, Settle(Err(message)));
    ReplyDecidesTheRow(s, i, Err(message));
    FirstIsFound(failed.rows, id, i);
    var retried := Next(failed, Retry(id));
    assert retried.rows[i].status.Pending? && retried.rows[i].mutation == s.rows[i].mutation;
    PendingRowIsHandedOver(retried, i, account, now);
    assert IsWaiting(s, i);
    CountAnswered(s.calls, Err(message), i);
    CountOneMore(failed.calls, CallOf(retried.rows, i, None, now), i);
  }

  // ---- undo and retry

  predicate SameButFor(rows: seq<Row>, u: seq<Row>, i: nat) {
    |u| == |rows| && forall j :: 0 <= j < |rows| && j != i ==> u[j] == rows[j]
  }

  /** Undo cancels the first row of the id exactly when that is pending, and changes nothing else. */
  lemma CancelIsExact(rows: seq<Row>, id: string, i: nat)
    requires IsFirst(rows, id, i)
    ensures Cancels(rows, id) <==> rows[i].status.Pending?
    ensures var u := CancelRows(rows, id);
      SameButFor(rows, u, i) && u[i] == if rows[i].status.Pending? then rows[i].(status := Cancelled) else rows[i]
  {
    FirstIsFound(rows, id, i);
  }

  /** Retry makes the first row of the id pending again exactly when that has failed. */
  lemma RetryIsExact(rows: seq<Row>, id: string, i: nat)
    requires IsFirst(rows, id, i)
    ensures Retries(rows, id) <==> rows[i].status.Failed?
    ensures var u := RetryRows(rows, id);
      && SameButFor(rows, u, i)
      && u[i] == if rows[i].status.Failed? then rows[i].(status := Pending, lastError := None) else rows[i]
  {
    FirstIsFound(rows, id, i);
  }

  /** An id that no row has is refused. */
  lemma UnknownIdIsRefused(rows: seq<Row>, id: string)
    requires forall j :: 0 <= j < |rows| ==> rows[j].id != id
    ensures !Cancels(rows, id) && !Retries(rows, id)
    ensures CancelRows(rows, id) == rows && RetryRows(rows, id) == rows
  {
  }

  // ---- queueing

  /** The row is an autosave of the draft that has not been sent. */
  predicate IsUnsentSaveOf(r: Row, draftId: string) {
    && r.mutation.kind == SaveDraft && (r.status == Pending || r.status == Failed)
    && |r.mutation.targetIds| > 0 && r.mutation.targetIds[0] == draftId
  }

  function SentDraft(m: Mutation): string {
    if m.payload.Some? && m.payload.value.draft.Some? then m.payload.value.draft.value.id else ""
  }

  /**
   Queueing a send cancels every unsent autosave of its draft, leaves all other rows as they were, and
   appends the send as a new pending row.
   */
  lemma SendSupersedesAutosaves(s: State, m: Mutation, id: string, now: int)
    requires m.kind.Send?
    ensures var u := Next(s, Enqueue(m, id, now)).rows;
      && |u| == |s.rows| + 1 && u[|s.rows|] == Row(id, m, 0, Pending, None, now)
      && (forall i :: 0 <= i < |s.rows| ==>
            u[i] == if SentDraft(m) != "" && IsUnsentSaveOf(s.rows[i], SentDraft(m))
                    then s.rows[i].(status := Cancelled) else s.rows[i])
  {
  }

  /** Any other mutation is appended, and nothing else changes. */
  lemma OtherMutationsAreAppended(s: State, m: Mutation, id: string, now: int)
    requires !m.kind.Send? && !m.kind.SaveDraft?
    ensures Next(s, Enqueue(m, id, now)) == s.(rows := s.rows + [Row(id, m, 0, Pending, None, now)])
  {
  }

  // ---- a flush that nothing interrupts

  /**
   Every pending row it comes to is handed over once, in the order of the queue, and ends as its reply
   says; the rows it does not come to stay as they were.
   */
  lemma FlushHandsOverEachRow(f: Flush, rows: seq<Row>, i: nat)
    requires i < |rows|
    requires rows[i].status.Pending? && ComesTo(rows[i].mutation, f.account, f.clock(i))
    ensures var u := FlushRows(f, rows)[i];
      && CountCalls(CallsOf(f, rows, |rows|), i) == 1
      && u.attempts == rows[i].attempts + 1
      && (u.status.Done? <==> f.replies(i).Ok?)
      && (f.replies(i).Err? ==> u.status.Failed? && u.lastError == Some(f.replies(i).error) && u.mutation == rows[i].mutation)
  {
    CallsOfRow(f, rows, |rows|, i);
  }

  lemma FlushLeavesOtherRows(f: Flush, rows: seq<Row>, i: nat)
    requires i < |rows|
    requires rows[i].status.Failed? || IsFinal(rows[i]) || !ComesTo(rows[i].mutation, f.account, f.clock(i))
    ensures FlushRows(f, rows)[i] == rows[i] && CountCalls(CallsOf(f, rows, |rows|), i) == 0
  {
    CallsOfRow(f, rows, |rows|, i);
  }

  lemma {:induction false} CallsOfRow(f: Flush, rows: seq<Row>, n: nat, i: nat)
    requires n <= |rows| && i < |rows|
    ensures CountCalls(CallsOf(f, rows, n), i) == if i < n && Takes(f, rows, i) then 1 else 0
  {
    if n > 0 {
      CallsOfRow(f, rows, n - 1, i);
      if Takes(f, rows, n - 1) {
        CountOneMore(CallsOf(f, rows, n - 1), CallFor(f, rows, n - 1), i);
      } else {
        assert CallsOf(f, rows, n) == CallsOf(f, rows, n - 1);
      }
    }
  }
}
