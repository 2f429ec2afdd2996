/**
 Withdrawal of consent in the opt-in processor: DELETE requests, the revocation queue's consumer
 and the retention sweep on linked rows.

 Each SQL statement, batch and provider call is one atomic step; requests and deliveries, repeated
 and concurrent ones included, take their steps in any order.
 */
module Revocation {
  import opened Outcomes

  // ---- the tables

  datatype RevocationState = Queued | Complete | Expired

  /** `token` is None once the ciphertext has been blanked. */
  datatype RevocationRow = RevocationRow(
    state: RevocationState, token: Option<string>, attempts: nat, expiresAt: int, completedAt: Option<int>)

  datatype ReceiptState = ProviderPending | ReceiptComplete | ProviderExpired

  datatype Receipt = Receipt(state: ReceiptState, expiresAt: int)

  /** Consents with a provider token, by account; revocations and receipts by operation id. */
  datatype Tables = Tables(
    consents: map<string, string>, revocations: map<string, RevocationRow>, receipts: map<string, Receipt>)

  const RECEIPT_SECONDS := 30 * 86400

  /** The batch of a DELETE that found a token. */
  function QueueStep(t: Tables, account: string, op: string, token: string, now: int, retention: int): Tables {
    if op in t.revocations || op in t.receipts then t
    else Tables(
      t.consents - {account},
      t.revocations[op := RevocationRow(Queued, Some(token), 0, now + retention, None)],
      t.receipts[op := Receipt(ProviderPending, now + RECEIPT_SECONDS)])
  }

  /** The batch of a DELETE that found none. */
  function EraseStep(t: Tables, account: string, op: string, now: int): Tables {
    if op in t.receipts then t
    else t.(consents := t.consents - {account}, receipts := t.receipts[op := Receipt(ReceiptComplete, now + RECEIPT_SECONDS)])
  }

  function Completed(row: RevocationRow, now: int): RevocationRow {
    row.(state := Complete, token := None, completedAt := Some(now))
  }

  /** The consumer's batch; its UPDATEs do not look at the state. */
  function CompleteStep(t: Tables, op: string, now: int): Tables {
    t.(revocations := if op in t.revocations then t.revocations[op := Completed(t.revocations[op], now)] else t.revocations,
       receipts := if op in t.receipts then t.receipts[op := t.receipts[op].(state := ReceiptComplete)] else t.receipts)
  }

  function AttemptStep(t: Tables, op: string): Tables {
    if op !in t.revocations then t
    else t.(revocations := t.revocations[op := t.revocations[op].(attempts := t.revocations[op].attempts + 1)])
  }

  function ExpiredRow(row: RevocationRow, now: int): RevocationRow {
    if row.state.Queued? && row.expiresAt <= now then row.(state := Expired, token := None) else row
  }

  /** The receipt of an expired revocation says so. */
  function ExpiredReceipt(t: Tables, op: string, now: int): Receipt
    requires op in t.receipts
  {
    if op in t.revocations && ExpiredRow(t.revocations[op], now).state.Expired?
    then t.receipts[op].(state := ProviderExpired)
    else t.receipts[op]
  }

  /** The batch of `enforceRetention`. */
  function SweepStep(t: Tables, now: int): Tables {
    t.(revocations := map op | op in t.revocations :: ExpiredRow(t.revocations[op], now),
       receipts := map op | op in t.receipts && t.receipts[op].expiresAt > now :: ExpiredReceipt(t, op, now))
  }

  // ---- interleaved runs

  datatype ProviderAnswer = Accepted | Refused | Unreachable

  /** A request or delivery between two of its steps; a finished delivery is acknowledged or retried. */
  datatype Task =
    | SelectConsent(account: string, op: string)
    | Erase(account: string, op: string, found: Option<string>, now: int)
    | SelectQueued(op: string)
    | CheckExpiry(op: string, row: RevocationRow)
    | CallProvider(op: string, token: string)
    | MarkComplete(op: string, now: int)
    | CountAttempt(op: string)
    | Finished(acknowledged: bool)

  /** The token of a consent that the batch of a withdrawal deleted. */
  datatype Erasure = Erasure(op: string, token: string)

  /**
   What happened: operation ids drawn, revocations the provider accepted, consents that withdrawals
   deleted, and the token each withdrawal queued for revocation.
   */
  datatype Log = Log(used: set<string>, accepted: set<string>, erasures: seq<Erasure>, requested: map<string, string>)

  datatype State = State(tables: Tables, tasks: seq<Task>, log: Log)

  const NoLog := Log({}, {}, [], map[])

  const Initial := State(Tables(map[], map[], map[]), [], NoLog)

  datatype Event =
    | Consent(account: string, token: string)
    | Delete(account: string, op: string)
    | Deliver(op: string)
    | Sweep(now: int)
    | Run(i: nat, now: int, answer: ProviderAnswer, retention: int)

  /** Operation ids are random UUIDs, so a new one is fresh. */
  predicate Allowed(s: State, e: Event) {
    match e
    case Delete(_, op) => op !in s.log.used
    case Run(i, _, _, _) => i < |s.tasks|
    case _ => true
  }

  function Lookup(t: Tables, account: string): Option<string> {
    if account in t.consents then Some(t.consents[account]) else None
  }

  /** What a withdrawal's batch, from t to u, adds to the log. */
  function Logged(log: Log, t: Tables, u: Tables, account: string, op: string, found: Option<string>): Log {
    log.(erasures := if account in t.consents && account !in u.consents
                     then log.erasures + [Erasure(op, t.consents[account])] else log.erasures,
         requested := if found.Some? && op in u.revocations && op !in t.revocations
                      then log.requested[op := found.value] else log.requested)
  }

  function TaskStep(s: State, task: Task, now: int, answer: ProviderAnswer, retention: int): (State, Task) {
    var t := s.tables;
    match task
    case SelectConsent(account, op) => (s, Erase(account, op, Lookup(t, account), now))
    case Erase(account, op, found, at) =>
      var erased := if found.Some? then QueueStep(t, account, op, found.value, at, retention) else EraseStep(t, account, op, at);
      (s.(tables := erased, log := Logged(s.log, t, erased, account, op, found)), Finished(true))
    case SelectQueued(op) =>
      (s, if op in t.revocations && t.revocations[op].state.Queued? then CheckExpiry(op, t.revocations[op]) else Finished(true))
    case CheckExpiry(op, row) =>
      (s, if row.expiresAt <= now then Finished(true)
          else if row.token.None? then Finished(false)
          else CallProvider(op, row.token.value))
    case CallProvider(op, _) =>
      (match answer
       case Accepted => (s.(log := s.log.(accepted := s.log.accepted + {op})), MarkComplete(op, now))
       case Refused => (s, CountAttempt(op))
       case Unreachable => (s, Finished(false)))
    case MarkComplete(op, at) => (s.(tables := CompleteStep(t, op, at)), Finished(true))
    case CountAttempt(op) => (s.(tables := AttemptStep(t, op)), Finished(false))
    case Finished(_) => (s, task)
  }

  function RunStep(s: State, i: nat, now: int, answer: ProviderAnswer, retention: int): State
    requires i < |s.tasks|
  {
    var (u, task) := TaskStep(s, s.tasks[i], now, answer, retention);
    u.(tasks := s.tasks[i := task])
  }

  function Next(s: State, e: Event): State
    requires Allowed(s, e)
  {
    match e
    case Consent(account, token) => s.(tables := s.tables.(consents := s.tables.consents[account := token]))
    case Delete(account, op) => s.(tasks := s.tasks + [SelectConsent(account, op)], log := s.log.(used := s.log.used + {op}))
    case Deliver(op) => s.(tasks := s.tasks + [SelectQueued(op)])
    case Sweep(now) => s.(tables := SweepStep(s.tables, now))
    case Run(i, now, answer, retention) => RunStep(s, i, now, answer, retention)
  }

  predicate Legal(s: State, events: seq<Event>)
    decreases |events|
  {
    events == [] || (Allowed(s, events[0]) && Legal(Next(s, events[0]), events[1..]))
  }

  function After(s: State, events: seq<Event>): State
    requires Legal(s, events)
    decreases |events|
  {
    if events == [] then s else After(Next(s, events[0]), events[1..])
  }

  // ---- the invariant

  predicate StatesAgree(r: RevocationState, receipt: ReceiptState) {
    match r
    case Queued => receipt.ProviderPending?
    case Complete => receipt.ReceiptComplete?
    case Expired => receipt.ProviderExpired?
  }

  /** What holds of the rows of one operation. */
  predicate OperationIsSound(t: Tables, accepted: set<string>, op: string) {
    && (op in t.revocations ==> (t.revocations[op].token.None? <==> !t.revocations[op].state.Queued?))
    && (op in t.revocations && t.revocations[op].state.Complete? ==> op in accepted)
    && (op in t.revocations && op in t.receipts ==> StatesAgree(t.revocations[op].state, t.receipts[op].state))
  }

  /** The operation ids a DELETE holds are its own until it has written its rows. */
  predicate TaskIsSound(s: State, task: Task) {
    match task
    case SelectConsent(_, op) => IsUnwritten(s, op)
    case Erase(_, op, _, _) => IsUnwritten(s, op)
    case MarkComplete(op, _) => op in s.log.accepted
    case _ => true
  }

  predicate IsUnwritten(s: State, op: string) {
    op in s.log.used && op !in s.tables.revocations && op !in s.tables.receipts
  }

  predicate HoldsOp(task: Task, op: string) {
    (task.SelectConsent? || task.Erase?) && task.op == op
  }

  ghost predicate Inv(s: State) {
    && (forall op :: OperationIsSound(s.tables, s.log.accepted, op))
    && (forall i :: 0 <= i < |s.tasks| ==> TaskIsSound(s, s.tasks[i]))
    && (forall op :: op in s.tables.revocations || op in s.tables.receipts ==> op in s.log.used)
    && (forall i, j, op :: 0 <= i < j < |s.tasks| && HoldsOp(s.tasks[i], op) ==> !HoldsOp(s.tasks[j], op))
  }

  // ---- the steps on the tables keep each operation sound

  lemma SweepKeepsOperation(t: Tables, accepted: set<string>, now: int, op: string)
    requires OperationIsSound(t, accepted, op)
    ensures OperationIsSound(SweepStep(t, now), accepted, op)
  {
  }

  // ---- every run keeps the invariant

  lemma TaskKeepsOperation(s: State, task: Task, now: int, answer: ProviderAnswer, retention: int, op: string)
    requires TaskIsSound(s, task) && OperationIsSound(s.tables, s.log.accepted, op)
    ensures var u := TaskStep(s, task, now, answer, retention).0; OperationIsSound(u.tables, u.log.accepted, op)
  {
  }

  /** The step of a task touches rows of its own operation only, and adds rows only when it erases. */
  lemma TaskTouchesItsOwn(s: State, task: Task, now: int, answer: ProviderAnswer, retention: int, op: string)
    requires !(task.Erase? && task.op == op)
    ensures var u := TaskStep(s, task, now, answer, retention).0.tables;
      (op in u.revocations <==> op in s.tables.revocations) && (op in u.receipts <==> op in s.tables.receipts)
  {
  }

  lemma TaskAfterIsSound(s: State, task: Task, now: int, answer: ProviderAnswer, retention: int)
    requires TaskIsSound(s, task)
    ensures var (u, next) := TaskStep(s, task, now, answer, retention);
      && TaskIsSound(u, next) && (forall op :: HoldsOp(next, op) ==> HoldsOp(task, op))
      && u.log.used == s.log.used && s.log.accepted <= u.log.accepted
  {
  }

  lemma OtherTaskStaysSound(s: State, task: Task, other: Task, now: int, answer: ProviderAnswer, retention: int)
    requires TaskIsSound(s, task) && TaskIsSound(s, other)
    requires forall op :: HoldsOp(task, op) ==> !HoldsOp(other, op)
    ensures TaskIsSound(TaskStep(s, task, now, answer, retention).0, other)
  {
    TaskAfterIsSound(s, task, now, answer, retention);
    if other.SelectConsent? || other.Erase? {
      assert HoldsOp(other, other.op);
      TaskTouchesItsOwn(s, task, now, answer, retention, other.op);
    }
  }

  lemma RunKeepsTasks(s: State, i: nat, now: int, answer: ProviderAnswer, retention: int)
    requires Inv(s) && i < |s.tasks|
    ensures var u := RunStep(s, i, now, answer, retention);
      forall j :: 0 <= j < |u.tasks| ==> TaskIsSound(u, u.tasks[j])
  {
    var u := RunStep(s, i, now, answer, retention);
    TaskAfterIsSound(s, s.tasks[i], now, answer, retention);
    forall j | 0 <= j < |s.tasks| && j != i
      ensures TaskIsSound(u, s.tasks[j])
    {
      assert forall op :: HoldsOp(s.tasks[i], op) ==> !HoldsOp(s.tasks[j], op);
      OtherTaskStaysSound(s, s.tasks[i], s.tasks[j], now, answer, retention);
    }
  }

  lemma RunKeepsInv(s: State, i: nat, now: int, answer: ProviderAnswer, retention: int)
    requires Inv(s) && i < |s.tasks|
    ensures Inv(RunStep(s, i, now, answer, retention))
  {
    var u := RunStep(s, i, now, answer, retention);
    RunKeepsTasks(s, i, now, answer, retention);
    TaskAfterIsSound(s, s.tasks[i], now, answer, retention);
    forall op
      ensures OperationIsSound(u.tables, u.log.accepted, op)
      ensures op in u.tables.revocations || op in u.tables.receipts ==> op in u.log.used
    {
      TaskKeepsOperation(s, s.tasks[i], now, answer, retention, op);
      if !(s.tasks[i].Erase? && s.tasks[i].op == op) {
        TaskTouchesItsOwn(s, s.tasks[i], now, answer, retention, op);
      }
    }
  }

  /** Steps that write no new rows leave every task sound. */
  lemma TasksStaySound(s: State, u: State)
    requires forall i :: 0 <= i < |s.tasks| ==> TaskIsSound(s, s.tasks[i])
    requires s.tasks <= u.tasks && s.log.used <= u.log.used && s.log.accepted <= u.log.accepted
    requires u.tables.revocations.Keys <= s.tables.revocations.Keys && u.tables.receipts.Keys <= s.tables.receipts.Keys
    ensures forall i :: 0 <= i < |s.tasks| ==> TaskIsSound(u, u.tasks[i])
  {
  }

  lemma QuietKeepsInv(s: State, e: Event)
    requires Inv(s) && Allowed(s, e) && !e.Run?
    ensures Inv(Next(s, e))
  {
    var u := Next(s, e);
    TasksStaySound(s, u);
    forall op
      ensures OperationIsSound(u.tables, u.log.accepted, op)
    {
      if e.Sweep? {
        SweepKeepsOperation(s.tables, s.log.accepted, e.now, op);
      } else {
        assert OperationIsSound(s.tables, s.log.accepted, op);
      }
    }
    if e.Delete? {
      forall i | 0 <= i < |s.tasks|
        ensures !HoldsOp(s.tasks[i], e.op)
      {
        assert TaskIsSound(s, s.tasks[i]);
      }
    }
  }

  lemma NextKeepsInv(s: State, e: Event)
    requires Inv(s) && Allowed(s, e)
    ensures Inv(Next(s, e))
  {
    if e.Run? {
      RunKeepsInv(s, e.i, e.now, e.answer, e.retention);
    } else {
      QuietKeepsInv(s, e);
    }
  }

  lemma {:induction false} RunsKeepInv(s: State, events: seq<Event>)
    requires Inv(s) && Legal(s, events)
    ensures Inv(After(s, events))
    decreases |events|
  {
    if events != [] {
      NextKeepsInv(s, events[0]);
      RunsKeepInv(Next(s, events[0]), events[1..]);
    }
  }

  /**
   In every interleaving of DELETEs, deliveries and sweeps: a revocation and its receipt agree, the
   token is blank exactly when the revocation is not queued, and a revocation is complete only if
   the provider accepted it.
   */
  lemma RevocationsAgreeWithReceipts(events: seq<Event>, op: string)
    requires Legal(Initial, events) && op in After(Initial, events).tables.revocations
    ensures var s := After(Initial, events);
      var row := s.tables.revocations[op];
      && (op in s.tables.receipts ==> StatesAgree(row.state, s.tables.receipts[op].state))
      && (row.token.None? <==> !row.state.Queued?)
      && (row.state.Complete? ==> op in s.log.accepted)
  {
    RunsKeepInv(Initial, events);
    assert OperationIsSound(After(Initial, events).tables, After(Initial, events).log.accepted, op);
  }

  // ---- nothing is queued again

  /** Revocation rows stay; one that is not queued is never queued again, a complete one stays so. */
  predicate Progresses(t: Tables, u: Tables, op: string) {
    op in t.revocations ==>
      && op in u.revocations
      && (!t.revocations[op].state.Queued? ==> !u.revocations[op].state.Queued?)
      && (t.revocations[op].state.Complete? ==> u.revocations[op].state.Complete?)
      && u.revocations[op].expiresAt == t.revocations[op].expiresAt
  }

  lemma NextProgresses(s: State, e: Event, op: string)
    requires Allowed(s, e)
    ensures Progresses(s.tables, Next(s, e).tables, op)
  {
    if e.Run? {
      TaskProgresses(s, s.tasks[e.i], e.now, e.answer, e.retention, op);
    }
  }

  lemma TaskProgresses(s: State, task: Task, now: int, answer: ProviderAnswer, retention: int, op: string)
    ensures Progresses(s.tables, TaskStep(s, task, now, answer, retention).0.tables, op)
  {
  }

  lemma {:induction false} NothingIsQueuedAgain(s: State, events: seq<Event>, op: string)
    requires Legal(s, events)
    ensures Progresses(s.tables, After(s, events).tables, op)
    decreases |events|
  {
    if events != [] {
      NextProgresses(s, events[0], op);
      NothingIsQueuedAgain(Next(s, events[0]), events[1..], op);
    }
  }

  /** The first sweep after its deadline erases a queued token for good, however deliveries race. */
  lemma SweepErasesOverdueTokens(before: seq<Event>, now: int, later: seq<Event>, op: string)
    requires Legal(Initial, before) && Legal(Next(After(Initial, before), Sweep(now)), later)
    requires op in After(Initial, before).tables.revocations
    requires After(Initial, before).tables.revocations[op].expiresAt <= now
    ensures var t := After(Next(After(Initial, before), Sweep(now)), later).tables;
      op in t.revocations && !t.revocations[op].state.Queued? && t.revocations[op].token.None?
  {
    RunsKeepInv(Initial, before);
    var s := Next(After(Initial, before), Sweep(now));
    NextKeepsInv(After(Initial, before), Sweep(now));
    NothingIsQueuedAgain(s, later, op);
    RunsKeepInv(s, later);
    assert OperationIsSound(After(s, later).tables, After(s, later).log.accepted, op);
  }

  // ---- every consent that is erased is revoked

  /** The deleted token was queued for revocation, by the withdrawal that deleted it. */
  predicate IsRequested(s: State, e: Erasure) {
    e.op in s.log.requested && s.log.requested[e.op] == e.token && e.op in s.tables.revocations
  }

  ghost predicate ErasuresAreRequested(s: State) {
    forall e <- s.log.erasures :: IsRequested(s, e)
  }

  /** A withdrawal of the account has read, and has read something else than this token. */
  predicate WaitsWithout(task: Task, account: string, token: string) {
    task.Erase? && task.account == account && task.found != Some(token)
  }

  predicate WithdrawalWaits(s: State, account: string, token: string) {
    exists i | 0 <= i < |s.tasks| :: WaitsWithout(s.tasks[i], account, token)
  }

  /** What a withdrawal has read is what its batch will delete. */
  predicate ReadsAgree(s: State, task: Task) {
    task.Erase? && task.account in s.tables.consents ==> task.found == Some(s.tables.consents[task.account])
  }

  ghost predicate ConsentsAreRevocable(s: State) {
    && Inv(s)
    && ErasuresAreRequested(s)
    && (forall op <- s.log.requested :: op in s.tables.revocations)
    && (forall i :: 0 <= i < |s.tasks| ==> ReadsAgree(s, s.tasks[i]))
  }

  /** No consent is granted while a withdrawal of its account waits with another reading. */
  predicate IsCalm(s: State, e: Event) {
    e.Consent? ==> !WithdrawalWaits(s, e.account, e.token)
  }

  predicate CalmRun(s: State, events: seq<Event>)
    decreases |events|
  {
    events != [] ==> Allowed(s, events[0]) && IsCalm(s, events[0]) && CalmRun(Next(s, events[0]), events[1..])
  }

  lemma TaskKeepsErasures(s: State, task: Task, now: int, answer: ProviderAnswer, retention: int)
    requires ErasuresAreRequested(s) && TaskIsSound(s, task) && ReadsAgree(s, task)
    requires forall op <- s.log.requested :: op in s.tables.revocations
    ensures var u := TaskStep(s, task, now, answer, retention).0;
      ErasuresAreRequested(u) && forall op <- u.log.requested :: op in u.tables.revocations
  {
    var u := TaskStep(s, task, now, answer, retention).0;
    forall op | op in s.tables.revocations
      ensures op in u.tables.revocations
    {
      TaskProgresses(s, task, now, answer, retention, op);
    }
    forall e | e in u.log.erasures
      ensures IsRequested(u, e)
    {
      assert e in s.log.erasures ==> IsRequested(s, e);
    }
  }

  /** A step adds no consent, and what a SELECT reads is there. */
  lemma TaskKeepsReads(s: State, task: Task, other: Task, now: int, answer: ProviderAnswer, retention: int)
    requires ReadsAgree(s, task) && ReadsAgree(s, other)
    ensures var (u, next) := TaskStep(s, task, now, answer, retention);
      ReadsAgree(u, other) && ReadsAgree(u, next)
  {
  }

  lemma RunKeepsRevocable(s: State, i: nat, now: int, answer: ProviderAnswer, retention: int)
    requires ConsentsAreRevocable(s) && i < |s.tasks|
    ensures ConsentsAreRevocable(RunStep(s, i, now, answer, retention))
  {
    var u := RunStep(s, i, now, answer, retention);
    assert TaskIsSound(s, s.tasks[i]) && ReadsAgree(s, s.tasks[i]);
    RunKeepsInv(s, i, now, answer, retention);
    TaskKeepsErasures(s, s.tasks[i], now, answer, retention);
    forall e | e in u.log.erasures
      ensures IsRequested(u, e)
    {
      assert IsRequested(TaskStep(s, s.tasks[i], now, answer, retention).0, e);
    }
    forall j | 0 <= j < |u.tasks|
      ensures ReadsAgree(u, u.tasks[j])
    {
      assert ReadsAgree(s, s.tasks[j]);
      TaskKeepsReads(s, s.tasks[i], s.tasks[j], now, answer, retention);
    }
  }

  lemma NextKeepsRevocable(s: State, e: Event)
    requires ConsentsAreRevocable(s) && Allowed(s, e) && IsCalm(s, e)
    ensures ConsentsAreRevocable(Next(s, e))
  {
    if e.Run? {
      RunKeepsRevocable(s, e.i, e.now, e.answer, e.retention);
    } else {
      var u := Next(s, e);
      NextKeepsInv(s, e);
      forall x | x in u.log.erasures
        ensures IsRequested(u, x)
      {
        assert IsRequested(s, x);
      }
      forall j | 0 <= j < |u.tasks|
        ensures ReadsAgree(u, u.tasks[j])
      {
        if j < |s.tasks| {
          assert ReadsAgree(s, s.tasks[j]);
          assert e.Consent? ==> !WaitsWithout(s.tasks[j], e.account, e.token);
        }
      }
    }
  }

  lemma {:induction false} RunsKeepRevocable(s: State, events: seq<Event>)
    requires ConsentsAreRevocable(s) && CalmRun(s, events)
    ensures Legal(s, events) && ConsentsAreRevocable(After(s, events))
    decreases |events|
  {
    if events != [] {
      NextKeepsRevocable(s, events[0]);
      RunsKeepRevocable(Next(s, events[0]), events[1..]);
    }
  }

  /**
   However withdrawals, deliveries and sweeps interleave: a consent that a withdrawal deletes has a
   revocation row of that withdrawal, which was queued with the deleted token.
   */
  lemma ErasedConsentsAreRevoked(events: seq<Event>, e: Erasure)
    requires CalmRun(Initial, events)
    requires Legal(Initial, events) && e in After(Initial, events).log.erasures
    ensures var s := After(Initial, events);
      && e.op in s.tables.revocations
      && e.op in s.log.requested && s.log.requested[e.op] == e.token
  {
    RunsKeepRevocable(Initial, events);
    assert IsRequested(After(Initial, events), e);
  }

  /** Nothing that can follow deletes a consent without revoking its token. */
  ghost predicate StaysRevocable(s: State) {
    forall events: seq<Event> :: CalmRun(s, events) && Legal(s, events) ==> ErasuresAreRequested(After(s, events))
  }

  /** The waiting withdrawal deletes the new consent, and does not queue its token. */
  lemma OvertakenWithdrawal(s: State, account: string, token: string, i: nat)
    requires ConsentsAreRevocable(s) && i < |s.tasks| && WaitsWithout(s.tasks[i], account, token)
    ensures var u := Next(s, Consent(account, token));
      var e := Run(i, 0, Accepted, 0);
      && Allowed(u, e) && IsCalm(u, e)
      && Erasure(s.tasks[i].op, token) in Next(u, e).log.erasures
      && !IsRequested(Next(u, e), Erasure(s.tasks[i].op, token))
  {
    assert TaskIsSound(s, s.tasks[i]);
    var u, op := Next(s, Consent(account, token)), s.tasks[i].op;
    var v := Next(u, Run(i, 0, Accepted, 0));
    assert op !in s.log.requested;
    assert v.log.erasures == s.log.erasures + [Erasure(op, token)];
    assert v.log.erasures[|s.log.erasures|] == Erasure(op, token);
  }

  lemma OneCalmEvent(s: State, e: Event)
    requires Allowed(s, e) && IsCalm(s, e)
    ensures CalmRun(s, [e]) && Legal(s, [e]) && After(s, [e]) == Next(s, e)
  {
    assert [e][1..] == [];
  }

  /**
   In every reachable state granting a consent is safe exactly when no withdrawal of the account is
   between its SELECT and its batch, unless it read the same token.
   */
  lemma ConsentIsSafeExactly(before: seq<Event>, account: string, token: string)
    requires CalmRun(Initial, before) && Legal(Initial, before)
    ensures var s := After(Initial, before);
      StaysRevocable(Next(s, Consent(account, token))) <==> !WithdrawalWaits(s, account, token)
  {
    RunsKeepRevocable(Initial, before);
    var s := After(Initial, before);
    var u := Next(s, Consent(account, token));
    if WithdrawalWaits(s, account, token) {
      var i :| 0 <= i < |s.tasks| && WaitsWithout(s.tasks[i], account, token);
      var e := Run(i, 0, Accepted, 0);
      OvertakenWithdrawal(s, account, token, i);
      OneCalmEvent(u, e);
    } else {
      NextKeepsRevocable(s, Consent(account, token));
      forall events: seq<Event> | CalmRun(u, events) && Legal(u, events)
        ensures ErasuresAreRequested(After(u, events))
      {
        RunsKeepRevocable(u, events);
      }
    }
  }

  // ---- the consumer and the sweep on the tables

  function Settled(receipt: Receipt, expired: bool): Receipt {
    if expired then receipt.(state := ProviderExpired) else receipt
  }

  class Processor {
    var consents: map<string, string>
    var revocations: map<string, RevocationRow>
    var receipts: map<string, Receipt>

    function Contents(): Tables
      reads this
    {
      Tables(consents, revocations, receipts)
    }

    constructor ()
      ensures Contents() == Tables(map[], map[], map[])
    {
      consents, revocations, receipts := map[], map[], map[];
    }

    method DeleteConsent(account: string, op: string, now: int, retention: int) returns (queued: bool)
      requires op !in revocations && op !in receipts
      modifies this
      ensures queued <==> account in old(consents)
      ensures Contents() == Withdraw(old(Contents()), account, op, now, retention)
    {
      if account in consents {
        var token := consents[account];
        consents := consents - {account};
        revocations := revocations[op := RevocationRow(Queued, Some(token), 0, now + retention, None)];
        receipts := receipts[op := Receipt(ProviderPending, now + RECEIPT_SECONDS)];
        return true;
      }
      consents := consents - {account};
      receipts := receipts[op := Receipt(ReceiptComplete, now + RECEIPT_SECONDS)];
      return false;
    }

    /** One message of the queue; the answer says whether it is acknowledged. */
    method ConsumeMessage(op: string, now: int, answer: ProviderAnswer) returns (acknowledged: bool)
      modifies this
      ensures (Contents(), acknowledged) == Consume(old(Contents()), op, now, answer)
    {
      if op !in revocations || !revocations[op].state.Queued? || revocations[op].expiresAt <= now {
        return true;
      }
      if revocations[op].token.None? {
        return false;
      }
      match answer {
        case Accepted =>
          revocations := revocations[op := Completed(revocations[op], now)];
          if op in receipts {
            receipts := receipts[op := receipts[op].(state := ReceiptComplete)];
          }
          return true;
        case Refused =>
          revocations := revocations[op := revocations[op].(attempts := revocations[op].attempts + 1)];
          return false;
        case Unreachable =>
          return false;
      }
    }

    /** `consumeRevocations` */
    method ConsumeRevocations(ops: seq<string>, now: int, answers: nat -> ProviderAnswer) returns (acknowledged: seq<bool>)
      modifies this
      ensures (Contents(), acknowledged) == ConsumeAll(old(Contents()), ops, now, answers, |ops|)
    {
      acknowledged := [];
      for i := 0 to |ops|
        invariant (Contents(), acknowledged) == ConsumeAll(old(Contents()), ops, now, answers, i)
      {
        var ack := ConsumeMessage(ops[i], now, answers(i));
        acknowledged := acknowledged + [ack];
      }
    }

    method ExpireOverdue(now: int)
      modifies this`revocations
      ensures revocations == map op | op in old(revocations) :: ExpiredRow(old(revocations)[op], now)
    {
      revocations := map op | op in revocations :: ExpiredRow(revocations[op], now);
    }

    method MarkExpired()
      modifies this`receipts
      ensures receipts == map op | op in old(receipts) ::
        Settled(old(receipts)[op], op in revocations && revocations[op].state.Expired?)
    {
      receipts := map op | op in receipts :: Settled(receipts[op], op in revocations && revocations[op].state.Expired?);
    }

    method EnforceRetention(now: int)
      modifies this
      ensures Contents() == SweepStep(old(Contents()), now)
    {
      ghost var before := Contents();
      ExpireOverdue(now);
      MarkExpired();
      receipts := map op | op in receipts && receipts[op].expiresAt > now :: receipts[op];
      assert forall op <- receipts :: receipts[op] == ExpiredReceipt(before, op, now);
    }
  }

  /** A withdrawal that nothing interrupts. */
  function Withdraw(t: Tables, account: string, op: string, now: int, retention: int): Tables {
    if account in t.consents then QueueStep(t, account, op, t.consents[account], now, retention)
    else EraseStep(t, account, op, now)
  }

  /** An uninterrupted withdrawal is its event and its own two steps, SELECT and batch. */
  lemma WithdrawIsARun(s: State, account: string, op: string, now: int, answer: ProviderAnswer, retention: int)
    requires op !in s.log.used
    ensures var go := Run(|s.tasks|, now, answer, retention);
      && Legal(s, [Delete(account, op)] + [go, go])
      && After(s, [Delete(account, op)] + [go, go]).tables == Withdraw(s.tables, account, op, now, retention)
  {
    var go := Run(|s.tasks|, now, answer, retention);
    var s1 := Next(s, Delete(account, op));
    var s2 := Next(s1, go);
    assert s2.tables == s.tables && s2.tasks[|s.tasks|] == Erase(account, op, Lookup(s.tables, account), now);
    var s3 := Next(s2, go);
    assert ([Delete(account, op)] + [go, go])[1..] == [go, go] && [go, go][1..] == [go] && [go][1..] == [];
    assert Legal(s2, [go]) && After(s2, [go]) == s3;
    assert Legal(s1, [go, go]) && After(s1, [go, go]) == s3;
  }

  /** A delivery that nothing interrupts. */
  function Consume(t: Tables, op: string, now: int, answer: ProviderAnswer): (Tables, bool) {
    if op !in t.revocations || !t.revocations[op].state.Queued? || t.revocations[op].expiresAt <= now then (t, true)
    else if t.revocations[op].token.None? then (t, false)
    else match answer
      case Accepted => (CompleteStep(t, op, now), true)
      case Refused => (AttemptStep(t, op), false)
      case Unreachable => (t, false)
  }

  function ConsumeAll(t: Tables, ops: seq<string>, now: int, answers: nat -> ProviderAnswer, n: nat): (Tables, seq<bool>)
    requires n <= |ops|
  {
    if n == 0 then (t, [])
    else
      var (u, acks) := ConsumeAll(t, ops, now, answers, n - 1);
      var (v, ack) := Consume(u, ops[n - 1], now, answers(n - 1));
      (v, acks + [ack])
  }

  /** A delivery of op and its own four steps: select, expiry check, provider call, record. */
  function DeliveryEvents(i: nat, op: string, now: int, answer: ProviderAnswer): seq<Event> {
    var go := Run(i, now, answer, 0);
    [Deliver(op)] + [go, go, go, go]
  }

  /**
   An uninterrupted delivery is the delivery event and the steps of its own task, one after the
   other: they leave the same tables and the same acknowledgement.
   */
  lemma ConsumeIsARun(s: State, op: string, now: int, answer: ProviderAnswer)
    ensures var events := DeliveryEvents(|s.tasks|, op, now, answer);
      && Legal(s, events)
      && After(s, events).tables == Consume(s.tables, op, now, answer).0
      && After(s, events).tasks == s.tasks + [Finished(Consume(s.tables, op, now, answer).1)]
  {
    var go := Run(|s.tasks|, now, answer, 0);
    var s1 := Next(s, Deliver(op));
    var s2, t2 := OneStep(s1, s.tasks, SelectQueued(op), go);
    var s3, t3 := OneStep(s2, s.tasks, t2, go);
    var s4, t4 := OneStep(s3, s.tasks, t3, go);
    var s5, t5 := OneStep(s4, s.tasks, t4, go);
    DeliveryIsConsumption(s.tables, op, now, answer);
    FiveEvents(s, Deliver(op), go, s1, s2, s3, s4, s5);
  }

  /** One step of the last task. */
  lemma OneStep(s: State, others: seq<Task>, task: Task, go: Event) returns (u: State, next: Task)
    requires s.tasks == others + [task] && go.Run? && go.i == |others| && go.retention == 0
    ensures u == Next(s, go) && u.tasks == others + [next]
    ensures (u.tables, next) == Effect(s.tables, task, go.now, go.answer)
  {
    u := Next(s, go);
    next := u.tasks[|others|];
    EffectIsTaskStep(s, task, go.now, go.answer, go.retention);
  }

  /** What a delivery's step does, by the tables alone. */
  function Effect(t: Tables, task: Task, now: int, answer: ProviderAnswer): (Tables, Task) {
    var (u, next) := TaskStep(State(t, [], NoLog), task, now, answer, 0);
    (u.tables, next)
  }

  lemma EffectIsTaskStep(s: State, task: Task, now: int, answer: ProviderAnswer, retention: int)
    requires retention == 0
    ensures var (u, next) := TaskStep(s, task, now, answer, retention);
      (u.tables, next) == Effect(s.tables, task, now, answer)
  {
  }

  /** Select, expiry check, provider call and record amount to one consumption. */
  lemma DeliveryIsConsumption(t: Tables, op: string, now: int, answer: ProviderAnswer)
    ensures var (a, second) := Effect(t, SelectQueued(op), now, answer);
      var (b, third) := Effect(a, second, now, answer);
      var (c, fourth) := Effect(b, third, now, answer);
      var (consumed, acknowledged) := Consume(t, op, now, answer);
      Effect(c, fourth, now, answer) == (consumed, Finished(acknowledged))
  {
  }

  lemma FiveEvents(s: State, first: Event, go: Event, s1: State, s2: State, s3: State, s4: State, s5: State)
    requires Allowed(s, first) && s1 == Next(s, first) && Allowed(s1, go) && s2 == Next(s1, go)
    requires Allowed(s2, go) && s3 == Next(s2, go) && Allowed(s3, go) && s4 == Next(s3, go)
    requires Allowed(s4, go) && s5 == Next(s4, go)
    ensures Legal(s, [first] + [go, go, go, go]) && After(s, [first] + [go, go, go, go]) == s5
  {
    assert ([first] + [go, go, go, go])[1..] == [go, go, go, go];
    assert [go, go, go, go][1..] == [go, go, go] && [go, go, go][1..] == [go, go] && [go, go][1..] == [go];
    assert [go][1..] == [];
    assert Legal(s4, [go]) && After(s4, [go]) == s5;
    assert Legal(s3, [go, go]) && After(s3, [go, go]) == s5;
    assert Legal(s2, [go, go, go]) && After(s2, [go, go, go]) == s5;
    assert Legal(s1, [go, go, go, go]) && After(s1, [go, go, go, go]) == s5;
  }
}
