/**
 Authorisation of MCP tool calls, and the approvals behind every call that reaches the mail host.

 Calls run interleaved with each other, with decisions, listings and timeouts at the approval gate,
 and with requests that others make there; each `await` is a point where another event can run.
 */
module ToolAuthorization {
  import G = ApprovalGate
  import opened JsText
  import opened Outcomes

  // ---- policy

  datatype Scope =
    | AccountsList | MailSearch | MailRead | MailDraft | MailSend | CalendarRead | CalendarWrite | ContactsRead

  datatype Mode = Allowlisted | Ask | AskWrites

  datatype Tool = ListAccounts | SearchMail | GetMessage | GetMcpPolicy | SaveDraft | SendDraft | SearchCalendar

  datatype Client = Client(id: string, token: string, scopes: seq<Scope>, accountAllowlist: seq<string>, revoked: bool)

  datatype Policy = Policy(enabled: bool, mode: Mode, clients: seq<Client>)

  datatype ToolError =
    | Disabled | MissingToken | UnknownToken | LacksScope | AccountNotAllowed(account: string)
    | InvalidDraft | UserDenied | UnknownApproval | ApprovalTimedOut

  function ToolScope(tool: Tool): Scope {
    match tool
    case ListAccounts => AccountsList
    case SearchMail => MailSearch
    case GetMessage => MailRead
    case GetMcpPolicy => AccountsList
    case SaveDraft => MailDraft
    case SendDraft => MailSend
    case SearchCalendar => CalendarRead
  }

  function ToolName(tool: Tool): string {
    match tool
    case ListAccounts => "list_accounts"
    case SearchMail => "search_mail"
    case GetMessage => "get_message"
    case GetMcpPolicy => "get_mcp_policy"
    case SaveDraft => "save_draft"
    case SendDraft => "send_draft"
    case SearchCalendar => "search_calendar"
  }

  predicate IsWriteScope(scope: Scope) {
    scope.MailDraft? || scope.MailSend? || scope.CalendarWrite?
  }

  predicate RequiresApproval(mode: Mode, scope: Scope) {
    match mode case Allowlisted => false case Ask => true case AskWrites => IsWriteScope(scope)
  }

  /** `token.replace(/^Bearer\s+/i, "").trim()` */
  function Normalized(token: string): string {
    if |token| > 6 && Lower(token[..6]) == "bearer" && IsSpace(token[6]) then Trim(token[6..]) else Trim(token)
  }

  /** The first client with the token that is not revoked. */
  function FindClient(clients: seq<Client>, token: string): (r: Option<Client>)
    ensures r.Some? ==> r.value in clients && r.value.token == token && !r.value.revoked
  {
    if clients == [] then None
    else if clients[0].token == token && !clients[0].revoked then Some(clients[0])
    else FindClient(clients[1..], token)
  }

  function Authenticate(policy: Policy, token: Option<string>): Result<Client, ToolError> {
    if !policy.enabled then Err(Disabled)
    else if token.None? || token.value == "" then Err(MissingToken)
    else match FindClient(policy.clients, Normalized(token.value))
      case None => Err(UnknownToken)
      case Some(client) => Ok(client)
  }

  predicate AccountAllowed(client: Client, account: string) {
    client.accountAllowlist == [] || account in client.accountAllowlist
  }

  /** The first account outside the client's allowlist. */
  function FirstForbidden(client: Client, accounts: seq<string>): (r: Option<string>)
    ensures r.None? <==> forall a <- accounts :: AccountAllowed(client, a)
    ensures r.Some? ==> r.value in accounts && !AccountAllowed(client, r.value)
  {
    if accounts == [] then None
    else if !AccountAllowed(client, accounts[0]) then Some(accounts[0])
    else
      assert forall a <- accounts :: a == accounts[0] || a in accounts[1..];
      FirstForbidden(client, accounts[1..])
  }

  /** What `authorize` checks before it looks at approvals. */
  function Check(policy: Policy, token: Option<string>, tool: Tool, accounts: seq<string>): Result<Client, ToolError> {
    match Authenticate(policy, token)
    case Err(e) => Err(e)
    case Ok(client) =>
      if ToolScope(tool) !in client.scopes then Err(LacksScope)
      else match FirstForbidden(client, accounts)
        case Some(account) => Err(AccountNotAllowed(account))
        case None => Ok(client)
  }

  /** The loop of `authorize` over the accounts. */
  method CheckClient(policy: Policy, token: Option<string>, tool: Tool, accounts: seq<string>)
    returns (r: Result<Client, ToolError>)
    ensures r == Check(policy, token, tool, accounts)
    ensures r.Ok? ==>
      && policy.enabled && r.value in policy.clients && !r.value.revoked && ToolScope(tool) in r.value.scopes
      && forall a <- accounts :: AccountAllowed(r.value, a)
  {
    var auth := Authenticate(policy, token);
    if auth.Err? {
      return auth;
    }
    var client := auth.value;
    if ToolScope(tool) !in client.scopes {
      return Err(LacksScope);
    }
    for i := 0 to |accounts|
      invariant FirstForbidden(client, accounts) == FirstForbidden(client, accounts[i..])
    {
      assert accounts[i..][0] == accounts[i] && accounts[i..][1..] == accounts[i + 1..];
      if !AccountAllowed(client, accounts[i]) {
        return Err(AccountNotAllowed(accounts[i]));
      }
    }
    return Ok(client);
  }

  /** `mustAsk && !ctx.autoApprove` */
  predicate Asks(tool: Tool, mode: Mode, autoApprove: bool) {
    (tool.SendDraft? || (RequiresApproval(mode, ToolScope(tool)) && !autoApprove)) && !autoApprove
  }

  // ---- tool calls

  /** A tool call: its context and the account ids and recipients it names. */
  datatype Invocation = Invocation(
    policy: Policy, token: Option<string>, autoApprove: bool,
    tool: Tool, accounts: seq<string>, recipients: seq<string>, summary: string)

  /** `asDraftInput`, which only the draft tools use. */
  predicate HasValidDraft(inv: Invocation) {
    inv.tool.SendDraft? || inv.tool.SaveDraft? ==>
      |inv.accounts| == 1 && inv.accounts[0] != "" && inv.recipients != []
  }

  datatype Phase =
    | Requested(client: Client, request: string)
    | Waiting(client: Client, request: string, promise: nat)
    | Cleared(client: Client, approval: Option<string>)
    | Acted(client: Client, approval: Option<string>)
    | Rejected(error: ToolError)

  datatype Call = Call(inv: Invocation, phase: Phase)

  /** `executeGetMcpPolicy` answers from the policy alone. */
  predicate UsesHost(tool: Tool) {
    !tool.GetMcpPolicy?
  }

  /** A call that reached the host. */
  datatype HostCall = HostCall(call: nat, tool: Tool, accounts: seq<string>, client: string, approval: Option<string>)

  /** `checked` records the clock reading at which the gate found an approved request unexpired. */
  datatype State = State(gate: G.Gate, calls: seq<Call>, host: seq<HostCall>, checked: map<string, int>)

  const Initial := State(G.Empty, [], [], map[])

  datatype Event =
    | Begin(inv: Invocation, id: string, now: int, listener: Option<int>)
    | Proceed(i: nat, promise: nat)
    | AtGate(op: G.Operation, listener: Option<int>)

  /** Request ids and promises are fresh. */
  predicate Allowed(s: State, e: Event) {
    match e
    case Begin(_, id, _, _) => id !in s.gate.requests
    case Proceed(i, promise) => i < |s.calls| && promise !in s.gate.subjects
    case AtGate(op, _) => G.Allowed(s.gate, op)
  }

  function AskFor(inv: Invocation, client: Client): G.Input {
    G.Input(client.id, ToolName(inv.tool), inv.accounts, inv.summary, None)
  }

  /** Runs up to the first `await`. */
  function BeginCall(s: State, inv: Invocation, id: string, now: int, listener: Option<int>): State {
    var checked := Check(inv.policy, inv.token, inv.tool, inv.accounts);
    if !HasValidDraft(inv) then s.(calls := s.calls + [Call(inv, Rejected(InvalidDraft))])
    else match checked
      case Err(e) => s.(calls := s.calls + [Call(inv, Rejected(e))])
      case Ok(client) =>
        if !NeedsApproval(inv) then s.(calls := s.calls + [Call(inv, Cleared(client, None))])
        else s.(gate := G.RequestStep(s.gate, id, AskFor(inv, client), now, listener),
                calls := s.calls + [Call(inv, Requested(client, id))])
  }

  function PhaseAfter(outcome: G.Settlement, client: Client, request: string): Phase {
    match outcome
    case Decided(decision) => if decision.Approve? then Cleared(client, Some(request)) else Rejected(UserDenied)
    case Unknown => Rejected(UnknownApproval)
    case TimedOut => Rejected(ApprovalTimedOut)
  }

  function SetPhase(s: State, i: nat, phase: Phase): State
    requires i < |s.calls|
  {
    s.(calls := s.calls[i := s.calls[i].(phase := phase)])
  }

  /** The next stretch of a call between two awaits. */
  function ProceedCall(s: State, i: nat, promise: nat): State
    requires i < |s.calls|
  {
    match s.calls[i].phase
    case Requested(client, request) =>
      SetPhase(s, i, Waiting(client, request, promise)).(gate := G.WaitStep(s.gate, request, promise))
    case Waiting(client, request, p) =>
      if p in s.gate.outcomes then SetPhase(s, i, PhaseAfter(s.gate.outcomes[p], client, request)) else s
    case Cleared(client, approval) =>
      SetPhase(s, i, Acted(client, approval)).(
        host := if !UsesHost(s.calls[i].inv.tool) then s.host
                else s.host + [HostCall(i, s.calls[i].inv.tool, s.calls[i].inv.accounts, client.id, approval)])
    case _ => s
  }

  function Approves(s: State, op: G.Operation): bool {
    op.Choose? && op.decision.Approve? && G.Decides(s.gate, op.id, op.now)
  }

  function Next(s: State, e: Event): State
    requires Allowed(s, e)
  {
    match e
    case Begin(inv, id, now, listener) => BeginCall(s, inv, id, now, listener)
    case Proceed(i, promise) => ProceedCall(s, i, promise)
    case AtGate(op, listener) =>
      s.(gate := G.Apply(s.gate, op, listener),
         checked := if Approves(s, op) then s.checked[op.id := op.now] else s.checked)
  }

  predicate Legal(s: State, events: seq<Event>)
    decreases |events|
  {
    events == [] || (Allowed(s, events[0]) && Legal(Next(s, events[0]), events[1..]))
  }

  function After(s: State, events: seq<Event>): State
    requires Legal(s, events)
    decreases |events|
  {
    if events == [] then s else After(Next(s, events[0]), events[1..])
  }

  // ---- the invariant

  function RequestOf(phase: Phase): Option<string> {
    match phase
    case Requested(_, request) => Some(request)
    case Waiting(_, request, _) => Some(request)
    case Cleared(_, approval) => approval
    case Acted(_, approval) => approval
    case Rejected(_) => None
  }

  /** The request of a call asks for what the call does. */
  predicate AsksForCall(gate: G.Gate, call: Call, client: Client, request: string) {
    && request in gate.requests
    && gate.requests[request].clientId == client.id
    && gate.requests[request].toolName == ToolName(call.inv.tool)
    && gate.requests[request].accountIds == call.inv.accounts
  }

  predicate IsApproved(gate: G.Gate, request: string) {
    request in gate.requests && gate.requests[request].status.Approved?
  }

  predicate IsCleared(call: Call, client: Client) {
    Check(call.inv.policy, call.inv.token, call.inv.tool, call.inv.accounts) == Ok(client)
  }

  predicate NeedsApproval(inv: Invocation) {
    Asks(inv.tool, inv.policy.mode, inv.autoApprove)
  }

  predicate PhaseIsSound(gate: G.Gate, call: Call) {
    match call.phase
    case Requested(client, request) =>
      NeedsApproval(call.inv) && IsCleared(call, client) && AsksForCall(gate, call, client, request)
    case Waiting(client, request, promise) =>
      && NeedsApproval(call.inv) && IsCleared(call, client) && AsksForCall(gate, call, client, request)
      && promise in gate.subjects && gate.subjects[promise] == request
    case Cleared(client, approval) => ApprovalIsSound(gate, call, client, approval)
    case Acted(client, approval) => ApprovalIsSound(gate, call, client, approval)
    case Rejected(_) => true
  }

  /** Without an approval when none is needed, with an approved request of its own otherwise. */
  predicate ApprovalIsSound(gate: G.Gate, call: Call, client: Client, approval: Option<string>) {
    && IsCleared(call, client)
    && (NeedsApproval(call.inv) <==> approval.Some?)
    && (approval.Some? ==> AsksForCall(gate, call, client, approval.value) && IsApproved(gate, approval.value))
  }

  ghost predicate OneRequestPerCall(s: State) {
    forall i, j :: 0 <= i < j < |s.calls| && RequestOf(s.calls[i].phase).Some?
      ==> RequestOf(s.calls[i].phase) != RequestOf(s.calls[j].phase)
  }

  /** An approved request was found unexpired when it was approved. */
  ghost predicate ApprovalsAreTimely(s: State) {
    forall id <- s.gate.requests :: IsApproved(s.gate, id) ==> IsTimely(s, id)
  }

  predicate IsTimely(s: State, id: string) {
    id in s.gate.requests && id in s.checked && s.checked[id] < s.gate.requests[id].expiresAt
  }

  /** A recorded host call is what its call did. */
  predicate HostCallIsSound(s: State, h: HostCall) {
    && h.call < |s.calls|
    && s.calls[h.call].phase.Acted?
    && s.calls[h.call].phase.client.id == h.client && s.calls[h.call].phase.approval == h.approval
    && s.calls[h.call].inv.tool == h.tool && s.calls[h.call].inv.accounts == h.accounts
  }

  ghost predicate HostCallsAreSound(s: State) {
    && (forall k :: 0 <= k < |s.host| ==> HostCallIsSound(s, s.host[k]))
    && (forall k, l :: 0 <= k < l < |s.host| ==> s.host[k].call != s.host[l].call)
  }

  ghost predicate PhasesAreSound(s: State) {
    forall i :: 0 <= i < |s.calls| ==> PhaseIsSound(s.gate, s.calls[i])
  }

  ghost predicate Inv(s: State) {
    && G.Inv(s.gate) && PhasesAreSound(s) && OneRequestPerCall(s) && ApprovalsAreTimely(s) && HostCallsAreSound(s)
  }

  // ---- gate operations keep what calls rely on

  ghost predicate GateMoves(g: G.Gate, h: G.Gate) {
    && G.AllLast(g, h)
    && (forall w <- g.subjects :: w in h.subjects && h.subjects[w] == g.subjects[w])
  }

  lemma ApplyMoves(g: G.Gate, op: G.Operation, listener: Option<int>)
    requires G.Allowed(g, op)
    ensures GateMoves(g, G.Apply(g, op, listener))
  {
    forall id | id in g.requests
      ensures id in G.Apply(g, op, listener).requests
      ensures G.Lasts(g.requests[id], G.Apply(g, op, listener).requests[id])
    {
      G.ApplyLasts(g, op, listener, id);
    }
    ApplyKeepsSubjects(g, op, listener);
  }

  lemma ApplyKeepsSubjects(g: G.Gate, op: G.Operation, listener: Option<int>)
    requires G.Allowed(g, op)
    ensures var h := G.Apply(g, op, listener);
      forall w <- g.subjects :: w in h.subjects && h.subjects[w] == g.subjects[w]
  {
  }

  /** A request is approved by no operation but an approval before its expiry. */
  lemma OnlyChoiceApproves(g: G.Gate, op: G.Operation, listener: Option<int>, id: string)
    requires G.Allowed(g, op) && IsApproved(G.Apply(g, op, listener), id)
    ensures IsApproved(g, id) || (op.Choose? && op.id == id && op.decision.Approve? && G.Decides(g, id, op.now))
  {
    match op
    case Choose(asked, decision, now, stamp) => OnlyThatRequestIsDecided(g, asked, decision, now, stamp, listener, id);
    case _ =>
  }

  lemma OnlyThatRequestIsDecided(
      g: G.Gate, asked: string, decision: G.Decision, now: int, stamp: int, listener: Option<int>, id: string)
    requires IsApproved(G.DecideStep(g, asked, decision, now, stamp, listener), id)
    ensures IsApproved(g, id) || (asked == id && decision.Approve? && G.Decides(g, id, now))
  {
  }

  lemma GateKeepsTimely(s: State, op: G.Operation, listener: Option<int>)
    requires Inv(s) && G.Allowed(s.gate, op)
    ensures ApprovalsAreTimely(Next(s, AtGate(op, listener)))
  {
    var t := Next(s, AtGate(op, listener));
    forall id | id in t.gate.requests && IsApproved(t.gate, id)
      ensures IsTimely(t, id)
    {
      OnlyChoiceApproves(s.gate, op, listener, id);
      if id in s.gate.requests {
        G.ApplyLasts(s.gate, op, listener, id);
      }
      if IsApproved(s.gate, id) {
        assert IsTimely(s, id);
      }
    }
  }

  /** What a step on the gate alone leaves in place. */
  lemma GateKeepsInv(s: State, op: G.Operation, listener: Option<int>)
    requires Inv(s) && G.Allowed(s.gate, op)
    ensures Inv(Next(s, AtGate(op, listener)))
  {
    var t := Next(s, AtGate(op, listener));
    G.ApplyKeepsInv(s.gate, op, listener);
    ApplyMoves(s.gate, op, listener);
    GateKeepsTimely(s, op, listener);
    CallsStaySound(s, t.gate);
    assert HostCallsAreSound(t) by {
      forall k | 0 <= k < |s.host|
        ensures HostCallIsSound(t, s.host[k])
      {
        assert HostCallIsSound(s, s.host[k]);
      }
    }
  }

  lemma CallsStaySound(s: State, h: G.Gate)
    requires PhasesAreSound(s) && GateMoves(s.gate, h)
    ensures PhasesAreSound(s.(gate := h))
  {
  }

  // ---- calls

  /** A new call whose request, if any, is new at the gate. */
  lemma NewCallKeepsInv(s: State, call: Call)
    requires Inv(s) && PhaseIsSound(s.gate, call)
    requires RequestOf(call.phase).Some? ==>
      forall i :: 0 <= i < |s.calls| ==> RequestOf(s.calls[i].phase) != RequestOf(call.phase)
    ensures Inv(s.(calls := s.calls + [call]))
  {
  }

  lemma BeginKeepsInv(s: State, inv: Invocation, id: string, now: int, listener: Option<int>)
    requires Inv(s) && id !in s.gate.requests
    ensures Inv(BeginCall(s, inv, id, now, listener))
  {
    var checked := Check(inv.policy, inv.token, inv.tool, inv.accounts);
    if HasValidDraft(inv) && checked.Ok? && NeedsApproval(inv) {
      var ask := G.Ask(id, AskFor(inv, checked.value), now);
      var asked := Next(s, AtGate(ask, listener));
      GateKeepsInv(s, ask, listener);
      forall i | 0 <= i < |s.calls|
        ensures RequestOf(s.calls[i].phase) != Some(id)
      {
        assert PhaseIsSound(s.gate, s.calls[i]);
      }
      NewRequestAsks(s.gate, id, AskFor(inv, checked.value), now, listener);
      NewCallKeepsInv(asked, Call(inv, Requested(checked.value, id)));
    } else if HasValidDraft(inv) && checked.Ok? {
      NewCallKeepsInv(s, Call(inv, Cleared(checked.value, None)));
    } else {
      NewCallKeepsInv(s, BeginCall(s, inv, id, now, listener).calls[|s.calls|]);
    }
  }

  lemma NewRequestAsks(g: G.Gate, id: string, input: G.Input, now: int, listener: Option<int>)
    ensures var h := G.RequestStep(g, id, input, now, listener);
      && id in h.requests && h.requests[id].clientId == input.clientId
      && h.requests[id].toolName == input.toolName && h.requests[id].accountIds == input.accountIds
  {
  }

  /** Call i moves to a phase with the same request, or to none. */
  lemma PhaseChangeKeepsInv(s: State, i: nat, phase: Phase)
    requires Inv(s) && i < |s.calls| && !s.calls[i].phase.Acted? && PhaseIsSound(s.gate, s.calls[i].(phase := phase))
    requires RequestOf(phase).Some? ==> RequestOf(phase) == RequestOf(s.calls[i].phase)
    ensures Inv(SetPhase(s, i, phase))
  {
    var t := SetPhase(s, i, phase);
    forall j | 0 <= j < |t.calls|
      ensures PhaseIsSound(t.gate, t.calls[j])
    {
      assert PhaseIsSound(s.gate, s.calls[j]);
    }
    forall k | 0 <= k < |s.host|
      ensures HostCallIsSound(t, s.host[k])
    {
      assert HostCallIsSound(s, s.host[k]);
    }
    forall id | id in t.gate.requests && IsApproved(t.gate, id)
      ensures IsTimely(t, id)
    {
      assert IsTimely(s, id);
    }
  }

  lemma WaitingKeepsInv(s: State, i: nat, promise: nat)
    requires Inv(s) && i < |s.calls| && s.calls[i].phase.Requested? && promise !in s.gate.subjects
    ensures Inv(ProceedCall(s, i, promise))
  {
    var client, request := s.calls[i].phase.client, s.calls[i].phase.request;
    var wait := G.Wait(request, promise);
    GateKeepsInv(s, wait, None);
    var t := Next(s, AtGate(wait, None));
    assert PhaseIsSound(t.gate, t.calls[i]);
    PhaseChangeKeepsInv(t, i, Waiting(client, request, promise));
    assert ProceedCall(s, i, promise) == SetPhase(t, i, Waiting(client, request, promise));
  }

  lemma ResumeKeepsInv(s: State, i: nat, promise: nat)
    requires Inv(s) && i < |s.calls| && s.calls[i].phase.Waiting?
    ensures Inv(ProceedCall(s, i, promise))
  {
    var client, request, p := s.calls[i].phase.client, s.calls[i].phase.request, s.calls[i].phase.promise;
    if p in s.gate.outcomes {
      assert PhaseIsSound(s.gate, s.calls[i]);
      assert G.WaiterIsSound(s.gate, p);
      PhaseChangeKeepsInv(s, i, PhaseAfter(s.gate.outcomes[p], client, request));
    }
  }

  lemma ActingKeepsInv(s: State, i: nat, promise: nat)
    requires Inv(s) && i < |s.calls| && s.calls[i].phase.Cleared?
    ensures Inv(ProceedCall(s, i, promise))
  {
    var client, approval := s.calls[i].phase.client, s.calls[i].phase.approval;
    assert PhaseIsSound(s.gate, s.calls[i]);
    var t := SetPhase(s, i, Acted(client, approval));
    PhaseChangeKeepsInv(s, i, Acted(client, approval));
    var u := ProceedCall(s, i, promise);
    forall k | 0 <= k < |s.host|
      ensures HostCallIsSound(u, s.host[k]) && s.host[k].call != i
    {
      assert HostCallIsSound(s, s.host[k]) && HostCallIsSound(t, s.host[k]);
    }
    if UsesHost(s.calls[i].inv.tool) {
      assert HostCallIsSound(u, u.host[|s.host|]);
    } else {
      assert u == t;
    }
    forall id | id in u.gate.requests && IsApproved(u.gate, id)
      ensures IsTimely(u, id)
    {
      assert IsTimely(s, id);
    }
  }

  lemma NextKeepsInv(s: State, e: Event)
    requires Inv(s) && Allowed(s, e)
    ensures Inv(Next(s, e))
  {
    match e
    case Begin(inv, id, now, listener) => BeginKeepsInv(s, inv, id, now, listener);
    case AtGate(op, listener) => GateKeepsInv(s, op, listener);
    case Proceed(i, promise) =>
      match s.calls[i].phase
      case Requested(_, _) => WaitingKeepsInv(s, i, promise);
      case Waiting(_, _, _) => ResumeKeepsInv(s, i, promise);
      case Cleared(_, _) => ActingKeepsInv(s, i, promise);
      case _ =>
  }

  lemma {:induction false} RunsKeepInv(s: State, events: seq<Event>)
    requires Inv(s) && Legal(s, events)
    ensures Inv(After(s, events))
    decreases |events|
  {
    if events != [] {
      NextKeepsInv(s, events[0]);
      RunsKeepInv(Next(s, events[0]), events[1..]);
    }
  }

  /** What a host call has behind it. */
  predicate HasApproval(s: State, h: HostCall) {
    && h.approval.Some?
    && IsApproved(s.gate, h.approval.value) && IsTimely(s, h.approval.value)
    && s.gate.requests[h.approval.value].clientId == h.client
    && s.gate.requests[h.approval.value].toolName == ToolName(h.tool)
    && s.gate.requests[h.approval.value].accountIds == h.accounts
  }

  /**
   Under any interleaving, a call that needs approval reaches the host only with an approved request
   of its own: for the same client, tool and accounts, approved before its expiry, and different
   from the request behind any other host call.
   */
  lemma HostCallsAreApproved(events: seq<Event>, k: nat, l: nat)
    requires Legal(Initial, events) && k < |After(Initial, events).host| && l < |After(Initial, events).host|
    ensures var s := After(Initial, events);
      && s.host[k].call < |s.calls|
      && (NeedsApproval(s.calls[s.host[k].call].inv) <==> HasApproval(s, s.host[k]))
      && (k != l && HasApproval(s, s.host[k]) ==> s.host[k].approval != s.host[l].approval)
  {
    RunsKeepInv(Initial, events);
    var s := After(Initial, events);
    var h, other := s.host[k], s.host[l];
    assert HostCallIsSound(s, h) && HostCallIsSound(s, other);
    assert PhaseIsSound(s.gate, s.calls[h.call]);
    if h.approval.Some? {
      assert IsApproved(s.gate, h.approval.value) && IsTimely(s, h.approval.value);
    }
    if k != l {
      assert h.call != other.call;
      assert RequestOf(s.calls[h.call].phase) == h.approval && RequestOf(s.calls[other.call].phase) == other.approval;
    }
  }

  /** With autoApprove off every mail that is sent was approved by the user for itself. */
  lemma EverySendIsApproved(events: seq<Event>, k: nat)
    requires Legal(Initial, events) && k < |After(Initial, events).host|
    requires After(Initial, events).host[k].tool.SendDraft?
    ensures var s := After(Initial, events);
      var h := s.host[k];
      && h.call < |s.calls|
      && (HasApproval(s, h) <==> !s.calls[h.call].inv.autoApprove)
      && (forall l :: 0 <= l < |s.host| && l != k && HasApproval(s, h) ==> s.host[l].approval != h.approval)
  {
    var s := After(Initial, events);
    RunsKeepInv(Initial, events);
    assert HostCallIsSound(s, s.host[k]);
    forall l | 0 <= l < |s.host|
      ensures NeedsApproval(s.calls[s.host[k].call].inv) <==> HasApproval(s, s.host[k])
      ensures l != k && HasApproval(s, s.host[k]) ==> s.host[l].approval != s.host[k].approval
    {
      HostCallsAreApproved(events, k, l);
    }
    HostCallsAreApproved(events, k, k);
  }
}
