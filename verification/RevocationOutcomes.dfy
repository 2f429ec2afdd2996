/**
 What withdrawals, deliveries and sweeps of the opt-in processor bring about, and what the provider is
 asked to revoke.
 */
module RevocationOutcomes {
  import opened Outcomes
  import opened Revocation

  predicate SameBut<V(==)>(a: map<string, V>, b: map<string, V>, key: string) {
    a.Keys + {key} == b.Keys + {key} && forall k <- a :: k != key ==> k in b && b[k] == a[k]
  }

  /**
   A withdrawal erases the consent of its account and no other. A token that was stored is queued for
   revocation until the end of the retention time, with a pending receipt; otherwise the receipt is
   complete at once. Receipts last 30 days.
   */
  lemma WithdrawalIsExact(t: Tables, account: string, op: string, now: int, retention: int)
    requires op !in t.revocations && op !in t.receipts
    ensures var u := Withdraw(t, account, op, now, retention);
      && account !in u.consents && SameBut(t.consents, u.consents, account)
      && SameBut(t.receipts, u.receipts, op) && SameBut(t.revocations, u.revocations, op)
      && op in u.receipts && u.receipts[op].expiresAt == now + 30 * 24 * 3600
      && (if account in t.consents then
            && u.receipts[op].state == ProviderPending && op in u.revocations
            && u.revocations[op] == RevocationRow(Queued, Some(t.consents[account]), 0, now + retention, None)
          else u.receipts[op].state == ReceiptComplete && op !in u.revocations)
  {
  }

  /** The revocation is queued, has its token, and is not past its deadline. */
  predicate IsDue(t: Tables, op: string, now: int) {
    && op in t.revocations && t.revocations[op].state == Queued
    && t.revocations[op].token.Some? && now < t.revocations[op].expiresAt
  }

  /**
   A delivery of a due revocation that the provider accepts completes it: the token is erased, the time
   kept, the receipt complete, and the message acknowledged. A refusal is counted, and the message comes
   again; so it does when the provider cannot be reached, which is not counted.
   */
  lemma DueDeliveryIsExact(t: Tables, op: string, now: int, answer: ProviderAnswer)
    requires IsDue(t, op, now)
    ensures var (u, acknowledged) := Consume(t, op, now, answer);
      var row := t.revocations[op];
      && u.consents == t.consents && op in u.revocations && SameBut(t.revocations, u.revocations, op)
      && (acknowledged <==> answer == Accepted)
      && (match answer
          case Accepted =>
            && u.revocations[op] == RevocationRow(Complete, None, row.attempts, row.expiresAt, Some(now))
            && u.receipts.Keys == t.receipts.Keys && SameBut(t.receipts, u.receipts, op)
            && (op in t.receipts ==> u.receipts[op] == Receipt(ReceiptComplete, t.receipts[op].expiresAt))
          case Refused =>
            u.revocations[op] == row.(attempts := row.attempts + 1) && u.receipts == t.receipts
          case Unreachable => u == t)
  {
  }

  /** A delivery that finds nothing queued, or finds it past its deadline, is acknowledged and changes nothing. */
  lemma IdleDeliveryIsAcknowledged(t: Tables, op: string, now: int, answer: ProviderAnswer)
    requires op !in t.revocations || t.revocations[op].state != Queued || t.revocations[op].expiresAt <= now
    ensures Consume(t, op, now, answer) == (t, true)
  {
  }

  /**
   A sweep expires exactly the queued revocations past their deadline and erases their tokens, drops
   exactly the receipts past theirs, and marks the receipts of expired revocations.
   */
  lemma SweepIsExact(t: Tables, now: int)
    ensures var u := SweepStep(t, now);
      && u.consents == t.consents && u.revocations.Keys == t.revocations.Keys
      && (forall op <- t.revocations ::
            var row := t.revocations[op];
            u.revocations[op] ==
              if row.state == Queued && row.expiresAt <= now
              then RevocationRow(Expired, None, row.attempts, row.expiresAt, row.completedAt) else row)
      && (forall op :: op in u.receipts <==> op in t.receipts && now < t.receipts[op].expiresAt)
      && (forall op <- u.receipts ::
            u.receipts[op] == Receipt(
              if op in u.revocations && u.revocations[op].state == Expired then ProviderExpired
              else t.receipts[op].state, t.receipts[op].expiresAt))
  {
  }

  // ---- what the provider is asked to revoke

  /** The rows hold the tokens they were queued with. */
  predicate RowIsRequested(s: State, op: string)
    requires op in s.tables.revocations
  {
    s.tables.revocations[op].token.Some? ==>
      op in s.log.requested && s.tables.revocations[op].token == Some(s.log.requested[op])
  }

  predicate TaskIsRequested(s: State, task: Task) {
    match task
    case CheckExpiry(op, row) => row.token.Some? ==> op in s.log.requested && row.token == Some(s.log.requested[op])
    case CallProvider(op, token) => op in s.log.requested && s.log.requested[op] == token
    case _ => true
  }

  ghost predicate TokensAreRequested(s: State) {
    && Inv(s)
    && (forall op <- s.log.requested :: op in s.tables.revocations)
    && (forall op <- s.tables.revocations :: RowIsRequested(s, op))
    && (forall i :: 0 <= i < |s.tasks| ==> TaskIsRequested(s, s.tasks[i]))
  }

  lemma TaskKeepsRows(s: State, task: Task, now: int, answer: ProviderAnswer, retention: int, op: string)
    requires TaskIsSound(s, task) && op in TaskStep(s, task, now, answer, retention).0.tables.revocations
    requires op in s.tables.revocations ==> RowIsRequested(s, op)
    ensures RowIsRequested(TaskStep(s, task, now, answer, retention).0, op)
  {
  }

  /** Tokens that were queued stay on record. */
  lemma RequestsStay(s: State, task: Task, now: int, answer: ProviderAnswer, retention: int)
    requires TaskIsSound(s, task) && forall op <- s.log.requested :: op in s.tables.revocations
    ensures var u := TaskStep(s, task, now, answer, retention).0;
      && (forall op <- s.log.requested :: op in u.log.requested && u.log.requested[op] == s.log.requested[op])
      && (forall op <- u.log.requested :: op in u.tables.revocations)
  {
    var u := TaskStep(s, task, now, answer, retention).0;
    forall op | op in s.tables.revocations
      ensures op in u.tables.revocations
    {
      TaskProgresses(s, task, now, answer, retention, op);
    }
  }

  lemma NextTaskIsRequested(s: State, task: Task, now: int, answer: ProviderAnswer, retention: int)
    requires TaskIsSound(s, task) && TaskIsRequested(s, task)
    requires forall op <- s.tables.revocations :: RowIsRequested(s, op)
    ensures var (u, next) := TaskStep(s, task, now, answer, retention); TaskIsRequested(u, next)
  {
  }

  lemma RunKeepsRequested(s: State, i: nat, now: int, answer: ProviderAnswer, retention: int)
    requires TokensAreRequested(s) && i < |s.tasks|
    ensures TokensAreRequested(RunStep(s, i, now, answer, retention))
  {
    var u := RunStep(s, i, now, answer, retention);
    assert TaskIsSound(s, s.tasks[i]) && TaskIsRequested(s, s.tasks[i]);
    RunKeepsInv(s, i, now, answer, retention);
    RequestsStay(s, s.tasks[i], now, answer, retention);
    NextTaskIsRequested(s, s.tasks[i], now, answer, retention);
    forall op | op in u.tables.revocations
      ensures RowIsRequested(u, op)
    {
      TaskKeepsRows(s, s.tasks[i], now, answer, retention, op);
    }
    forall j | 0 <= j < |u.tasks|
      ensures TaskIsRequested(u, u.tasks[j])
    {
      assert TaskIsRequested(s, s.tasks[j]);
    }
  }

  lemma NextKeepsRequested(s: State, e: Event)
    requires TokensAreRequested(s) && Allowed(s, e)
    ensures TokensAreRequested(Next(s, e))
  {
    if e.Run? {
      RunKeepsRequested(s, e.i, e.now, e.answer, e.retention);
    } else {
      var u := Next(s, e);
      NextKeepsInv(s, e);
      forall op | op in u.tables.revocations
        ensures RowIsRequested(u, op)
      {
        assert RowIsRequested(s, op);
      }
      forall j | 0 <= j < |u.tasks|
        ensures TaskIsRequested(u, u.tasks[j])
      {
        assert j < |s.tasks| ==> TaskIsRequested(s, s.tasks[j]);
      }
    }
  }

  lemma {:induction false} RunsKeepRequested(s: State, events: seq<Event>)
    requires TokensAreRequested(s) && Legal(s, events)
    ensures TokensAreRequested(After(s, events))
    decreases |events|
  {
    if events != [] {
      NextKeepsRequested(s, events[0]);
      RunsKeepRequested(Next(s, events[0]), events[1..]);
    }
  }

  /**
   However requests, deliveries and sweeps interleave: the provider is never asked to revoke any other
   token than the one the withdrawal of that operation found and queued.
   */
  lemma ProviderGetsTheQueuedToken(events: seq<Event>, i: nat)
    requires Legal(Initial, events) && i < |After(Initial, events).tasks|
    requires After(Initial, events).tasks[i].CallProvider?
    ensures var s := After(Initial, events);
      s.tasks[i].op in s.log.requested && s.log.requested[s.tasks[i].op] == s.tasks[i].token
  {
    RunsKeepRequested(Initial, events);
    assert TaskIsRequested(After(Initial, events), After(Initial, events).tasks[i]);
  }
}
