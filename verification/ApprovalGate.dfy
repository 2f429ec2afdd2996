/**
 The in-process approval gate of the MCP server: requests, decisions, expiry and waiters.

 The clock is a parameter of every operation that reads it. A waiter is the number of a promise
 that `waitForDecision` returned; `outcomes` holds the promises that are settled.
 */
module ApprovalGate {
  import opened Outcomes

  datatype Status = Pending | Approved | Denied | Expired

  datatype Decision = Approve | Deny

  function StatusOf(d: Decision): Status {
    match d case Approve => Approved case Deny => Denied
  }

  datatype Request = Request(
    id: string, clientId: string, toolName: string, accountIds: seq<string>, summary: string,
    createdAt: int, expiresAt: int, status: Status, decidedAt: Option<int>)

  datatype Settlement = Decided(decision: Decision) | Unknown | TimedOut

  /** `order` is the insertion order of the map; `subjects` records what each waiter waits for. */
  datatype Gate = Gate(
    requests: map<string, Request>, order: seq<string>,
    waiters: map<string, set<nat>>, outcomes: map<nat, Settlement>, subjects: map<nat, string>)

  const Empty := Gate(map[], [], map[], map[], map[])

  const DEFAULT_TTL_MS := 300000

  datatype Input = Input(clientId: string, toolName: string, accountIds: seq<string>, summary: string, ttlMs: Option<int>)

  // ---- one function per operation

  predicate IsOverdue(r: Request, now: int) {
    r.status.Pending? && r.expiresAt <= now
  }

  function Aged(r: Request, now: int): Request {
    if IsOverdue(r, now) then r.(status := Expired) else r
  }

  /** The loop of `listPending`. */
  function AgeAll(g: Gate, now: int): Gate {
    g.(requests := map id | id in g.requests :: Aged(g.requests[id], now))
  }

  /** `emit`: with a listener, the pending requests are listed, which expires overdue ones. */
  function Emit(g: Gate, listener: Option<int>): Gate {
    match listener case None => g case Some(now) => AgeAll(g, now)
  }

  function PendingIn(requests: map<string, Request>, order: seq<string>): seq<Request> {
    if order == [] then []
    else
      (if order[0] in requests && requests[order[0]].status.Pending? then [requests[order[0]]] else [])
      + PendingIn(requests, order[1..])
  }

  function NewRequest(id: string, input: Input, now: int): Request {
    var ttl := if input.ttlMs.Some? then input.ttlMs.value else DEFAULT_TTL_MS;
    Request(id, input.clientId, input.toolName, input.accountIds, input.summary, now, now + ttl, Pending, None)
  }

  function RequestStep(g: Gate, id: string, input: Input, now: int, listener: Option<int>): Gate {
    Emit(g.(requests := g.requests[id := NewRequest(id, input, now)],
            order := if id in g.requests then g.order else g.order + [id]), listener)
  }

  predicate Decides(g: Gate, id: string, now: int) {
    id in g.requests && g.requests[id].status.Pending? && g.requests[id].expiresAt > now
  }

  function Resolved(outcomes: map<nat, Settlement>, waiters: set<nat>, decision: Decision): map<nat, Settlement> {
    map w | w in outcomes.Keys + waiters :: if w in waiters then Decided(decision) else outcomes[w]
  }

  /** The waiters of a request are settled with the decision. */
  function Settle(g: Gate, id: string, decision: Decision): Gate {
    if id !in g.waiters then g
    else g.(waiters := g.waiters - {id},
            outcomes := Resolved(g.outcomes, g.waiters[id], decision))
  }

  /** `decide` reads the clock twice: to check expiry, and for `decidedAt`. */
  function DecideStep(g: Gate, id: string, decision: Decision, now: int, stamp: int, listener: Option<int>): Gate {
    if id !in g.requests || !g.requests[id].status.Pending? then g
    else if !Decides(g, id, now) then
      Emit(g.(requests := g.requests[id := g.requests[id].(status := Expired)]), listener)
    else
      var decided := g.requests[id].(status := StatusOf(decision), decidedAt := Some(stamp));
      Emit(Settle(g.(requests := g.requests[id := decided]), id, decision), listener)
  }

  function WaitersOf(g: Gate, id: string): set<nat> {
    if id in g.waiters then g.waiters[id] else {}
  }

  /** `waitForDecision` for a new promise w. */
  function WaitStep(g: Gate, id: string, w: nat): Gate {
    var h := g.(subjects := g.subjects[w := id]);
    if id !in g.requests then h.(outcomes := g.outcomes[w := Unknown])
    else match g.requests[id].status
      case Approved => h.(outcomes := g.outcomes[w := Decided(Approve)])
      case Denied => h.(outcomes := g.outcomes[w := Decided(Deny)])
      case _ => h.(waiters := g.waiters[id := WaitersOf(g, id) + {w}])
  }

  predicate IsWaiting(g: Gate, w: nat) {
    w in g.subjects && w !in g.outcomes && w in WaitersOf(g, g.subjects[w])
  }

  /** The timer of a promise that is not settled: a request still pending expires. */
  function TimeoutStep(g: Gate, w: nat, listener: Option<int>): Gate {
    if !IsWaiting(g, w) then g
    else
      var id := g.subjects[w];
      var h := g.(waiters := g.waiters[id := g.waiters[id] - {w}], outcomes := g.outcomes[w := TimedOut]);
      if id in g.requests && g.requests[id].status.Pending?
      then Emit(h.(requests := g.requests[id := g.requests[id].(status := Expired)]), listener)
      else h
  }

  // ---- the loops

  /** The first loop of `listPending`. */
  method ExpireOverdue(requests: map<string, Request>, order: seq<string>, now: int) returns (aged: map<string, Request>)
    requires forall id :: id in order <==> id in requests
    ensures aged == map id | id in requests :: Aged(requests[id], now)
  {
    aged := requests;
    for i := 0 to |order|
      invariant aged.Keys == requests.Keys
      invariant forall id <- order[..i] :: aged[id] == Aged(requests[id], now)
      invariant forall id <- order :: id !in order[..i] ==> aged[id] == requests[id]
    {
      var id := order[i];
      assert order[..i + 1] == order[..i] + [id];
      if IsOverdue(aged[id], now) {
        aged := aged[id := aged[id].(status := Expired)];
      }
    }
    assert order[..|order|] == order;
  }

  /** The filter of `listPending`. */
  method CollectPending(requests: map<string, Request>, order: seq<string>) returns (pending: seq<Request>)
    requires forall id <- order :: id in requests
    ensures pending == PendingIn(requests, order)
  {
    pending := [];
    assert order[0..] == order;
    for i := 0 to |order|
      invariant pending + PendingIn(requests, order[i..]) == PendingIn(requests, order)
    {
      var rest := order[i..];
      assert rest[0] == order[i] && rest[1..] == order[i + 1..] && order[i] in order;
      var r := requests[order[i]];
      if r.status.Pending? {
        assert pending + ([r] + PendingIn(requests, rest[1..])) == (pending + [r]) + PendingIn(requests, rest[1..]);
        pending := pending + [r];
      } else {
        assert PendingIn(requests, rest) == PendingIn(requests, rest[1..]);
      }
    }
    assert pending + [] == pending;
  }

  /** The loop of `decide` over the waiters of a request. */
  method ResolveAll(outcomes: map<nat, Settlement>, waiters: set<nat>, decision: Decision)
    returns (settled: map<nat, Settlement>)
    ensures settled == Resolved(outcomes, waiters, decision)
  {
    settled := outcomes;
    var done: set<nat> := {};
    assert settled == Resolved(outcomes, done, decision);
    while waiters - done != {}
      invariant done <= waiters && settled == Resolved(outcomes, done, decision)
      decreases waiters - done
    {
      var w :| w in waiters - done;
      ResolveOneMore(outcomes, done, w, decision);
      settled := settled[w := Decided(decision)];
      done := done + {w};
    }
    assert done == waiters;
  }

  lemma ResolveOneMore(outcomes: map<nat, Settlement>, done: set<nat>, w: nat, decision: Decision)
    ensures Resolved(outcomes, done, decision)[w := Decided(decision)] == Resolved(outcomes, done + {w}, decision)
  {
  }

  // ---- the gate object

  class InMemoryApprovalGate {
    var requests: map<string, Request>
    var order: seq<string>
    var waiters: map<string, set<nat>>
    var outcomes: map<nat, Settlement>
    var subjects: map<nat, string>

    function State(): Gate
      reads this
    {
      Gate(requests, order, waiters, outcomes, subjects)
    }

    /** The insertion order lists every request once. */
    ghost predicate Valid()
      reads this
    {
      IsOrdered(State())
    }

    constructor ()
      ensures Valid() && State() == Empty
    {
      requests, order, waiters, outcomes, subjects := map[], [], map[], map[], map[];
    }

    method ListPending(now: int) returns (pending: seq<Request>)
      requires Valid()
      modifies this`requests
      ensures Valid() && State() == AgeAll(old(State()), now)
      ensures pending == PendingIn(requests, order)
    {
      requests := ExpireOverdue(requests, order, now);
      pending := CollectPending(requests, order);
    }

    method Notify(listener: Option<int>)
      requires Valid()
      modifies this`requests
      ensures Valid() && State() == Emit(old(State()), listener)
    {
      if listener.Some? {
        var _ := ListPending(listener.value);
      }
    }

    method RequestApproval(id: string, input: Input, now: int, listener: Option<int>) returns (request: Request)
      requires Valid()
      modifies this
      ensures Valid() && State() == RequestStep(old(State()), id, input, now, listener)
      ensures request == NewRequest(id, input, now)
    {
      request := NewRequest(id, input, now);
      if id !in requests {
        AppendKeepsOrdered(State(), id, request);
        order := order + [id];
      }
      requests := requests[id := request];
      Notify(listener);
    }

    method Decide(id: string, decision: Decision, now: int, stamp: int, listener: Option<int>) returns (decided: bool)
      requires Valid()
      modifies this
      ensures Valid() && State() == DecideStep(old(State()), id, decision, now, stamp, listener)
      ensures decided == Decides(old(State()), id, now)
    {
      if id !in requests || !requests[id].status.Pending? {
        return false;
      }
      if requests[id].expiresAt <= now {
        requests := requests[id := requests[id].(status := Expired)];
        Notify(listener);
        return false;
      }
      requests := requests[id := requests[id].(status := StatusOf(decision), decidedAt := Some(stamp))];
      ResolveWaiters(id, decision);
      Notify(listener);
      return true;
    }

    method ResolveWaiters(id: string, decision: Decision)
      modifies this`waiters, this`outcomes
      ensures State() == Settle(old(State()), id, decision)
    {
      if id in waiters {
        outcomes := ResolveAll(outcomes, waiters[id], decision);
        waiters := waiters - {id};
      }
    }

    method WaitForDecision(id: string, w: nat)
      modifies this
      ensures State() == WaitStep(old(State()), id, w)
    {
      subjects := subjects[w := id];
      if id !in requests {
        outcomes := outcomes[w := Unknown];
      } else if requests[id].status.Approved? {
        outcomes := outcomes[w := Decided(Approve)];
      } else if requests[id].status.Denied? {
        outcomes := outcomes[w := Decided(Deny)];
      } else {
        waiters := waiters[id := (if id in waiters then waiters[id] else {}) + {w}];
      }
    }

    method Timeout(w: nat, listener: Option<int>)
      requires Valid()
      modifies this
      ensures Valid() && State() == TimeoutStep(old(State()), w, listener)
    {
      if !IsWaiting(State(), w) {
        return;
      }
      var id := subjects[w];
      waiters := waiters[id := waiters[id] - {w}];
      outcomes := outcomes[w := TimedOut];
      if id in requests && requests[id].status.Pending? {
        requests := requests[id := requests[id].(status := Expired)];
        Notify(listener);
      }
    }
  }

  ghost predicate IsOrdered(g: Gate) {
    && (forall id <- g.order :: id in g.requests)
    && (forall id <- g.requests :: id in g.order)
    && (forall i, j :: 0 <= i < j < |g.order| ==> g.order[i] != g.order[j])
  }

  lemma AppendKeepsOrdered(g: Gate, id: string, r: Request)
    requires IsOrdered(g) && id !in g.requests
    ensures IsOrdered(g.(requests := g.requests[id := r], order := g.order + [id]))
  {
  }

  // ---- runs

  datatype Operation =
    | Ask(id: string, input: Input, now: int)
    | Choose(id: string, decision: Decision, now: int, stamp: int)
    | List(now: int)
    | Wait(id: string, w: nat)
    | Fire(w: nat)

  /** Request ids and promises are fresh. */
  predicate Allowed(g: Gate, op: Operation) {
    match op
    case Ask(id, _, _) => id !in g.requests
    case Wait(_, w) => w !in g.subjects
    case _ => true
  }

  function Apply(g: Gate, op: Operation, listener: Option<int>): Gate {
    match op
    case Ask(id, input, now) => RequestStep(g, id, input, now, listener)
    case Choose(id, decision, now, stamp) => DecideStep(g, id, decision, now, stamp, listener)
    case List(now) => AgeAll(g, now)
    case Wait(id, w) => WaitStep(g, id, w)
    case Fire(w) => TimeoutStep(g, w, listener)
  }

  /** A request keeps what it asks for, and everything once it has left pending. */
  predicate Lasts(a: Request, b: Request) {
    && b.id == a.id && b.clientId == a.clientId && b.toolName == a.toolName && b.accountIds == a.accountIds
    && b.expiresAt == a.expiresAt
    && (!a.status.Pending? ==> b == a)
  }

  ghost predicate AllLast(g: Gate, h: Gate) {
    forall id <- g.requests :: id in h.requests && Lasts(g.requests[id], h.requests[id])
  }

  lemma EmitLasts(g: Gate, h: Gate, listener: Option<int>, id: string)
    requires id in g.requests && id in h.requests && Lasts(g.requests[id], h.requests[id])
    ensures id in Emit(h, listener).requests && Lasts(g.requests[id], Emit(h, listener).requests[id])
  {
  }

  lemma DecideLasts(g: Gate, id: string, decision: Decision, now: int, stamp: int, listener: Option<int>, other: string)
    requires other in g.requests
    ensures var h := DecideStep(g, id, decision, now, stamp, listener);
      other in h.requests && Lasts(g.requests[other], h.requests[other])
  {
    if id in g.requests && g.requests[id].status.Pending? {
      if !Decides(g, id, now) {
        EmitLasts(g, g.(requests := g.requests[id := g.requests[id].(status := Expired)]), listener, other);
      } else {
        var decided := g.requests[id].(status := StatusOf(decision), decidedAt := Some(stamp));
        EmitLasts(g, Settle(g.(requests := g.requests[id := decided]), id, decision), listener, other);
      }
    }
  }

  lemma TimeoutLasts(g: Gate, w: nat, listener: Option<int>, other: string)
    requires other in g.requests
    ensures var h := TimeoutStep(g, w, listener);
      other in h.requests && Lasts(g.requests[other], h.requests[other])
  {
  }

  lemma ApplyLasts(g: Gate, op: Operation, listener: Option<int>, id: string)
    requires Allowed(g, op) && id in g.requests
    ensures id in Apply(g, op, listener).requests && Lasts(g.requests[id], Apply(g, op, listener).requests[id])
  {
    match op
    case Ask(asked, input, now) => assert Apply(g, op, listener) == RequestStep(g, asked, input, now, listener);
    case Choose(i, decision, now, stamp) => DecideLasts(g, i, decision, now, stamp, listener, id);
    case Fire(w) => TimeoutLasts(g, w, listener, id);
    case _ =>
  }

  predicate IsDecided(r: Request) {
    r.status.Approved? || r.status.Denied?
  }

  /** What a settled waiter was told, and what an unsettled one still waits for. */
  predicate WaiterIsSound(g: Gate, w: nat) {
    && (w in g.outcomes ==> w in g.subjects)
    && (w in g.outcomes && g.outcomes[w].Decided? ==>
          g.subjects[w] in g.requests && g.requests[g.subjects[w]].status == StatusOf(g.outcomes[w].decision))
    && (w in g.outcomes && g.outcomes[w].TimedOut? ==>
          g.subjects[w] in g.requests && g.requests[g.subjects[w]].status.Expired?)
    && (w in g.subjects && w !in g.outcomes ==>
          && w in WaitersOf(g, g.subjects[w]) && g.subjects[w] in g.requests
          && !IsDecided(g.requests[g.subjects[w]]))
  }

  predicate QueueIsSound(g: Gate, id: string)
    requires id in g.waiters
  {
    forall w <- g.waiters[id] :: w in g.subjects && g.subjects[w] == id && w !in g.outcomes
  }

  ghost predicate Inv(g: Gate) {
    && (forall w: nat :: WaiterIsSound(g, w))
    && (forall id <- g.waiters :: QueueIsSound(g, id))
    && (forall id <- g.requests :: g.requests[id].id == id)
  }

  lemma EmitKeepsInv(g: Gate, listener: Option<int>)
    requires Inv(g)
    ensures Inv(Emit(g, listener))
  {
    var h := Emit(g, listener);
    forall w: nat
      ensures WaiterIsSound(h, w)
    {
      assert WaiterIsSound(g, w);
    }
    forall id | id in h.waiters
      ensures QueueIsSound(h, id)
    {
      assert QueueIsSound(g, id);
    }
  }

  /** Replacing a request that is pending, or adding one, by one that is not decided. */
  lemma UndecidedKeepsInv(g: Gate, h: Gate, id: string, r: Request)
    requires Inv(g) && r.id == id && !IsDecided(r) && (id in g.requests ==> g.requests[id].status.Pending?)
    requires h.requests == g.requests[id := r]
    requires h.waiters == g.waiters && h.outcomes == g.outcomes && h.subjects == g.subjects
    ensures Inv(h)
  {
    forall w: nat
      ensures WaiterIsSound(h, w)
    {
      assert WaiterIsSound(g, w);
    }
    forall i | i in h.waiters
      ensures QueueIsSound(h, i)
    {
      assert QueueIsSound(g, i);
    }
  }

  /** Deciding a pending request and settling its waiters, in one step. */
  lemma SettleKeepsInv(g: Gate, id: string, decision: Decision, r: Request)
    requires Inv(g) && id in g.requests && g.requests[id].status.Pending?
    requires r.id == id && r.status == StatusOf(decision)
    ensures Inv(Settle(g.(requests := g.requests[id := r]), id, decision))
  {
    var h := Settle(g.(requests := g.requests[id := r]), id, decision);
    assert id in g.waiters ==> QueueIsSound(g, id);
    forall w: nat
      ensures WaiterIsSound(h, w)
    {
      assert WaiterIsSound(g, w);
    }
    forall i | i in h.waiters
      ensures QueueIsSound(h, i)
    {
      assert QueueIsSound(g, i);
    }
  }

  lemma DecideKeepsInv(g: Gate, id: string, decision: Decision, now: int, stamp: int, listener: Option<int>)
    requires Inv(g)
    ensures Inv(DecideStep(g, id, decision, now, stamp, listener))
  {
    if id in g.requests && g.requests[id].status.Pending? {
      if !Decides(g, id, now) {
        var h := g.(requests := g.requests[id := g.requests[id].(status := Expired)]);
        UndecidedKeepsInv(g, h, id, h.requests[id]);
        EmitKeepsInv(h, listener);
      } else {
        var r := g.requests[id].(status := StatusOf(decision), decidedAt := Some(stamp));
        SettleKeepsInv(g, id, decision, r);
        EmitKeepsInv(Settle(g.(requests := g.requests[id := r]), id, decision), listener);
      }
    }
  }

  lemma WaitKeepsInv(g: Gate, id: string, w: nat)
    requires Inv(g) && w !in g.subjects
    ensures Inv(WaitStep(g, id, w))
  {
    var h := WaitStep(g, id, w);
    forall v: nat
      ensures WaiterIsSound(h, v)
    {
      NewWaiterIsSound(g, id, w, v);
    }
    forall i | i in h.waiters
      ensures QueueIsSound(h, i)
    {
      NewQueueIsSound(g, id, w, i);
    }
  }

  lemma NewWaiterIsSound(g: Gate, id: string, w: nat, v: nat)
    requires WaiterIsSound(g, v) && w !in g.subjects
    ensures WaiterIsSound(WaitStep(g, id, w), v)
  {
    if v == w {
      match if id in g.requests then g.requests[id].status else Pending
      case _ =>
    } else {
      OldWaiterIsSame(g, id, w, v);
    }
  }

  lemma OldWaiterIsSame(g: Gate, id: string, w: nat, v: nat)
    requires v != w
    ensures var h := WaitStep(g, id, w);
      && h.requests == g.requests && (v in h.subjects <==> v in g.subjects) && (v in h.outcomes <==> v in g.outcomes)
      && (v in g.subjects ==> h.subjects[v] == g.subjects[v] && WaitersOf(g, g.subjects[v]) <= WaitersOf(h, g.subjects[v]))
      && (v in g.outcomes ==> h.outcomes[v] == g.outcomes[v])
  {
  }

  lemma NewQueueIsSound(g: Gate, id: string, w: nat, i: string)
    requires Inv(g) && w !in g.subjects && i in WaitStep(g, id, w).waiters
    ensures QueueIsSound(WaitStep(g, id, w), i)
  {
    assert WaiterIsSound(g, w);
    if i in g.waiters {
      assert QueueIsSound(g, i);
    }
  }

  /** The gate after a timer has fired, before anybody is told. */
  function TimedOutGate(g: Gate, w: nat): Gate
    requires IsWaiting(g, w)
  {
    var id := g.subjects[w];
    var h := g.(waiters := g.waiters[id := g.waiters[id] - {w}], outcomes := g.outcomes[w := TimedOut]);
    if id in g.requests && g.requests[id].status.Pending?
    then h.(requests := g.requests[id := g.requests[id].(status := Expired)])
    else h
  }

  lemma TimedOutGateIsSound(g: Gate, w: nat)
    requires Inv(g) && IsWaiting(g, w)
    ensures Inv(TimedOutGate(g, w))
  {
    var h := TimedOutGate(g, w);
    assert WaiterIsSound(g, w);
    forall v: nat
      ensures WaiterIsSound(h, v)
    {
      assert WaiterIsSound(g, v);
    }
    forall i | i in h.waiters
      ensures QueueIsSound(h, i)
    {
      assert QueueIsSound(g, i);
    }
  }

  lemma TimeoutKeepsInv(g: Gate, w: nat, listener: Option<int>)
    requires Inv(g)
    ensures Inv(TimeoutStep(g, w, listener))
  {
    if IsWaiting(g, w) {
      TimedOutGateIsSound(g, w);
      EmitKeepsInv(TimedOutGate(g, w), listener);
    }
  }

  lemma ApplyKeepsInv(g: Gate, op: Operation, listener: Option<int>)
    requires Inv(g) && Allowed(g, op)
    ensures Inv(Apply(g, op, listener))
  {
    match op
    case Ask(id, input, now) =>
      var h := g.(requests := g.requests[id := NewRequest(id, input, now)],
                  order := if id in g.requests then g.order else g.order + [id]);
      UndecidedKeepsInv(g, h, id, NewRequest(id, input, now));
      EmitKeepsInv(h, listener);
    case Choose(id, decision, now, stamp) => DecideKeepsInv(g, id, decision, now, stamp, listener);
    case List(now) => EmitKeepsInv(g, Some(now));
    case Wait(id, w) => WaitKeepsInv(g, id, w);
    case Fire(w) => TimeoutKeepsInv(g, w, listener);
  }

  datatype Step = Step(op: Operation, listener: Option<int>)

  predicate Legal(g: Gate, steps: seq<Step>)
    decreases |steps|
  {
    steps == [] || (Allowed(g, steps[0].op) && Legal(Apply(g, steps[0].op, steps[0].listener), steps[1..]))
  }

  function After(g: Gate, steps: seq<Step>): Gate
    decreases |steps|
  {
    if steps == [] then g else After(Apply(g, steps[0].op, steps[0].listener), steps[1..])
  }

  /**
   Under any interleaving of requests, decisions, listings, waits and timeouts, a request never
   changes once it has left pending, and a waiter is told nothing but its request's final status.
   */
  lemma {:induction false} DecidedRequestsAreFinal(g: Gate, steps: seq<Step>)
    requires Inv(g) && Legal(g, steps)
    ensures Inv(After(g, steps)) && AllLast(g, After(g, steps))
    decreases |steps|
  {
    if steps != [] {
      var h := Apply(g, steps[0].op, steps[0].listener);
      ApplyKeepsInv(g, steps[0].op, steps[0].listener);
      DecidedRequestsAreFinal(h, steps[1..]);
      forall id | id in g.requests
        ensures id in After(g, steps).requests && Lasts(g.requests[id], After(g, steps).requests[id])
      {
        ApplyLasts(g, steps[0].op, steps[0].listener, id);
      }
    }
  }

  /** Once a request is decided, every promise that waited for it is settled with that decision. */
  lemma DecidedRequestsLeaveNoWaiter(steps: seq<Step>, w: nat)
    requires Legal(Empty, steps)
    ensures var g := After(Empty, steps);
      w in g.subjects && g.subjects[w] in g.requests && IsDecided(g.requests[g.subjects[w]]) ==>
        && w in g.outcomes
        && (|| g.outcomes[w].Unknown?
            || g.outcomes[w] == Decided(if g.requests[g.subjects[w]].status.Approved? then Approve else Deny))
  {
    DecidedRequestsAreFinal(Empty, steps);
    assert WaiterIsSound(After(Empty, steps), w);
  }

  // ---- what each operation does

  /** r is listed at `now`: pending, and not past its expiry. */
  predicate IsLive(r: Request, now: int) {
    r.status == Pending && now < r.expiresAt
  }

  /** a was requested before b. */
  ghost predicate Precedes(g: Gate, a: Request, b: Request) {
    exists i, j :: 0 <= i < j < |g.order| && g.order[i] == a.id && g.order[j] == b.id
  }

  /** r is one of the pending requests from position n on. */
  predicate IsPendingFrom(requests: map<string, Request>, order: seq<string>, n: nat, r: Request) {
    exists i | n <= i < |order| :: order[i] in requests && requests[order[i]] == r && r.status.Pending?
  }

  lemma {:induction false} CollectedArePending(requests: map<string, Request>, order: seq<string>, n: nat, r: Request)
    requires n <= |order|
    ensures r in PendingIn(requests, order[n..]) <==> IsPendingFrom(requests, order, n, r)
    decreases |order| - n
  {
    if n < |order| {
      assert order[n..][0] == order[n] && order[n..][1..] == order[n + 1..];
      CollectedArePending(requests, order, n + 1, r);
      assert IsPendingFrom(requests, order, n, r) <==>
        IsPendingFrom(requests, order, n + 1, r)
        || (order[n] in requests && requests[order[n]] == r && r.status.Pending?);
    }
  }

  /** The requests stand in the order in which they were made. */
  ghost predicate InOrder(g: Gate, listed: seq<Request>) {
    forall a, b :: 0 <= a < b < |listed| ==> Precedes(g, listed[a], listed[b])
  }

  lemma PrependInOrder(g: Gate, first: Request, later: seq<Request>)
    requires InOrder(g, later) && forall r <- later :: Precedes(g, first, r)
    ensures InOrder(g, [first] + later)
  {
  }

  lemma {:induction false} CollectedAreOrdered(g: Gate, requests: map<string, Request>, n: nat)
    requires n <= |g.order| && forall id <- g.order :: id in requests && requests[id].id == id
    ensures InOrder(g, PendingIn(requests, g.order[n..]))
    decreases |g.order| - n
  {
    if n < |g.order| {
      assert g.order[n..][0] == g.order[n] && g.order[n..][1..] == g.order[n + 1..];
      CollectedAreOrdered(g, requests, n + 1);
      var later := PendingIn(requests, g.order[n + 1..]);
      forall r | r in later
        ensures exists i :: n + 1 <= i < |g.order| && requests[g.order[i]] == r
      {
        CollectedArePending(requests, g.order, n + 1, r);
      }
      FirstPrecedes(g, requests, n, later);
      PrependInOrder(g, requests[g.order[n]], later);
      assert [] + later == later;
    }
  }

  lemma FirstPrecedes(g: Gate, requests: map<string, Request>, n: nat, later: seq<Request>)
    requires n < |g.order| && (forall id <- g.order :: id in requests && requests[id].id == id)
    requires forall r <- later :: exists i :: n + 1 <= i < |g.order| && requests[g.order[i]] == r
    ensures forall r <- later :: Precedes(g, requests[g.order[n]], r)
  {
    forall r | r in later
      ensures Precedes(g, requests[g.order[n]], r)
    {
      var i :| n + 1 <= i < |g.order| && requests[g.order[i]] == r;
      assert g.order[n] in g.order && g.order[i] in g.order;
      assert g.order[n] == requests[g.order[n]].id && g.order[i] == r.id;
    }
  }

  /**
   A listing returns exactly the pending requests that have not expired, in the order in which they
   were made; it expires the overdue ones and changes nothing else.
   */
  lemma ListingIsExact(g: Gate, now: int)
    requires IsOrdered(g) && forall id <- g.requests :: g.requests[id].id == id
    ensures var h := AgeAll(g, now);
      var listed := PendingIn(h.requests, h.order);
      && (forall r :: r in listed <==> exists id <- g.requests :: g.requests[id] == r && IsLive(r, now))
      && InOrder(g, listed)
      && h == g.(requests := h.requests) && h.requests.Keys == g.requests.Keys
      && (forall id <- g.requests :: h.requests[id] ==
            if g.requests[id].status == Pending && g.requests[id].expiresAt <= now
            then g.requests[id].(status := Expired) else g.requests[id])
  {
    var h := AgeAll(g, now);
    CollectedAreOrdered(g, h.requests, 0);
    assert g.order[0..] == g.order;
    var listed := PendingIn(h.requests, h.order);
    forall r | r in listed
      ensures exists id <- g.requests :: g.requests[id] == r && IsLive(r, now)
    {
      CollectedArePending(h.requests, g.order, 0, r);
      var i :| 0 <= i < |g.order| && h.requests[g.order[i]] == r && r.status.Pending?;
      assert g.order[i] in g.order && g.requests[g.order[i]] == r;
    }
    forall id | id in g.requests && IsLive(g.requests[id], now)
      ensures g.requests[id] in listed
    {
      CollectedArePending(h.requests, g.order, 0, g.requests[id]);
      var i :| 0 <= i < |g.order| && g.order[i] == id;
      assert h.requests[g.order[i]] == g.requests[id];
    }
  }

  /** The operation tells the listener: a new request, one that a choice or a timer takes from pending. */
  predicate IsTold(g: Gate, op: Operation) {
    match op
    case Ask(_, _, _) => true
    case Choose(id, _, _, _) => id in g.requests && g.requests[id].status == Pending
    case Fire(w) => IsWaiting(g, w) && g.subjects[w] in g.requests && g.requests[g.subjects[w]].status == Pending
    case _ => false
  }

  /** A listener lists the pending requests whenever it is told, and does nothing else. */
  lemma ListenersList(g: Gate, op: Operation, now: int)
    ensures Apply(g, op, Some(now)) == if IsTold(g, op) then AgeAll(Apply(g, op, None), now) else Apply(g, op, None)
  {
  }

  /** A new request is pending, for the time it asks for or five minutes, and last in the order. */
  lemma RequestIsPending(g: Gate, id: string, input: Input, now: int)
    requires id !in g.requests
    ensures Apply(g, Ask(id, input, now), None) == g.(
      requests := g.requests[id := Request(
        id, input.clientId, input.toolName, input.accountIds, input.summary, now,
        now + (if input.ttlMs.Some? then input.ttlMs.value else 300000), Pending, None)],
      order := g.order + [id])
  {
  }

  /**
   A decision on a pending request that has not expired sets its status and the time, and settles
   exactly the promises that wait for it with the decision; past the expiry it only expires the
   request, and any other request is left alone.
   */
  lemma DecisionIsExact(g: Gate, id: string, decision: Decision, now: int, stamp: int)
    ensures var h := Apply(g, Choose(id, decision, now, stamp), None);
      var r := if id in g.requests then Some(g.requests[id]) else None;
      if r.None? || r.value.status != Pending then h == g && !Decides(g, id, now)
      else if r.value.expiresAt <= now then
        h == g.(requests := g.requests[id := r.value.(status := Expired)]) && !Decides(g, id, now)
      else
        && Decides(g, id, now) && h.order == g.order && h.subjects == g.subjects
        && h.requests == g.requests[id := r.value.(
             status := if decision == Approve then Approved else Denied, decidedAt := Some(stamp))]
        && (forall w <- WaitersOf(g, id) :: w in h.outcomes && h.outcomes[w] == Decided(decision))
        && (forall w :: w !in WaitersOf(g, id) ==>
              (w in h.outcomes <==> w in g.outcomes) && (w in g.outcomes ==> h.outcomes[w] == g.outcomes[w]))
  {
  }

  /** A promise for a decided request is settled at once, for an unknown one rejected, else it waits. */
  lemma WaitIsExact(g: Gate, id: string, w: nat)
    requires Inv(g) && w !in g.subjects
    ensures var h := Apply(g, Wait(id, w), None);
      && h.requests == g.requests && w in h.subjects && h.subjects[w] == id
      && (if id !in g.requests then w in h.outcomes && h.outcomes[w] == Unknown
          else if g.requests[id].status == Approved then w in h.outcomes && h.outcomes[w] == Decided(Approve)
          else if g.requests[id].status == Denied then w in h.outcomes && h.outcomes[w] == Decided(Deny)
          else w !in h.outcomes && IsWaiting(h, w))
  {
    assert WaiterIsSound(g, w);
  }

  /** The timer of a promise that still waits rejects it and expires a request that is still pending. */
  lemma TimeoutIsExact(g: Gate, w: nat)
    requires Inv(g)
    ensures var h := Apply(g, Fire(w), None);
      if w in g.subjects && w !in g.outcomes then
        && w in h.outcomes && h.outcomes[w] == TimedOut && !IsWaiting(h, w)
        && (var id := g.subjects[w];
            h.requests == if id in g.requests && g.requests[id].status == Pending
                          then g.requests[id := g.requests[id].(status := Expired)] else g.requests)
        && (forall v :: v != w ==> (v in h.outcomes <==> v in g.outcomes))
      else h == g
  {
    assert WaiterIsSound(g, w);
  }
}
