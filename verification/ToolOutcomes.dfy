/**
 What the authorisation of MCP tool calls lets through and what it refuses: every call that reaches
 the host comes from a client that may make it, and every call that may be made does reach it.
 */
module ToolOutcomes {
  import G = ApprovalGate
  import opened JsText
  import opened Outcomes
  import opened ToolAuthorization

  // ---- what a call must meet

  /** The token of a header, with or without the word Bearer. */
  predicate Presents(header: string, token: string) {
    if |header| > 6 && Lower(header[..6]) == "bearer" && IsSpace(header[6]) then Trim(header[6..]) == token
    else Trim(header) == token
  }

  /** A client of the policy that is not revoked has the token of the call. */
  predicate IsCaller(inv: Invocation, client: Client) {
    && inv.policy.enabled && inv.token.Some? && inv.token.value != ""
    && client in inv.policy.clients && !client.revoked && Presents(inv.token.value, client.token)
  }

  /** The scope each tool needs. */
  predicate HasScope(tool: Tool, client: Client) {
    match tool
    case ListAccounts => AccountsList in client.scopes
    case GetMcpPolicy => AccountsList in client.scopes
    case SearchMail => MailSearch in client.scopes
    case GetMessage => MailRead in client.scopes
    case SaveDraft => MailDraft in client.scopes
    case SendDraft => MailSend in client.scopes
    case SearchCalendar => CalendarRead in client.scopes
  }

  /** An empty allowlist allows every account. */
  predicate MayUse(client: Client, accounts: seq<string>) {
    client.accountAllowlist == [] || forall a <- accounts :: a in client.accountAllowlist
  }

  /** A draft names one account and at least one recipient. */
  predicate DraftIsComplete(inv: Invocation) {
    inv.tool == SendDraft || inv.tool == SaveDraft ==>
      |inv.accounts| == 1 && inv.accounts[0] != "" && inv.recipients != []
  }

  /** Sends are asked for in every mode, saved drafts unless allowlisted, reads in mode ask. */
  predicate IsAskedFor(inv: Invocation) {
    && !inv.autoApprove
    && (|| inv.tool == SendDraft
        || inv.policy.mode == Ask
        || (inv.policy.mode == AskWrites && inv.tool == SaveDraft))
  }

  predicate IsAuthorized(inv: Invocation, client: Client) {
    IsCaller(inv, client) && HasScope(inv.tool, client) && MayUse(client, inv.accounts) && DraftIsComplete(inv)
  }

  lemma CheckedCallsAreAuthorized(inv: Invocation, client: Client)
    requires IsCleared(Call(inv, Cleared(client, None)), client) && HasValidDraft(inv)
    ensures IsAuthorized(inv, client)
  {
  }

  // ---- only authorised calls reach the host

  /** A call past its checks had a complete draft. */
  ghost predicate DraftsAreComplete(s: State) {
    forall i :: 0 <= i < |s.calls| && !s.calls[i].phase.Rejected? ==> HasValidDraft(s.calls[i].inv)
  }

  lemma NextKeepsDraftsComplete(s: State, e: Event)
    requires Allowed(s, e) && DraftsAreComplete(s)
    ensures DraftsAreComplete(Next(s, e))
  {
  }

  lemma {:induction false} RunsKeepDraftsComplete(s: State, events: seq<Event>)
    requires Legal(s, events) && DraftsAreComplete(s)
    ensures DraftsAreComplete(After(s, events))
    decreases |events|
  {
    if events != [] {
      NextKeepsDraftsComplete(s, events[0]);
      RunsKeepDraftsComplete(Next(s, events[0]), events[1..]);
    }
  }

  /**
   Under any interleaving, a call that reached the host did what it was called for, for a client that
   is known, not revoked, has the scope of the tool and may use every account it names; and it has an
   approval exactly when its tool and the policy's mode ask for one.
   */
  lemma HostCallsAreAuthorized(events: seq<Event>, k: nat)
    requires Legal(Initial, events) && k < |After(Initial, events).host|
    ensures var s := After(Initial, events);
      var h := s.host[k];
      && h.call < |s.calls|
      && (var inv := s.calls[h.call].inv;
          && h.tool == inv.tool && h.accounts == inv.accounts && inv.tool != GetMcpPolicy
          && (exists client: Client :: client.id == h.client && IsAuthorized(inv, client))
          && (h.approval.Some? <==> IsAskedFor(inv)))
  {
    RunsKeepInv(Initial, events);
    RunsKeepDraftsComplete(Initial, events);
    RunsKeepHostTools(Initial, events);
    var s := After(Initial, events);
    var h := s.host[k];
    assert HostCallIsSound(s, h) && s.host[k].tool != GetMcpPolicy;
    SoundHostCallIsAuthorized(s, h);
  }

  lemma SoundHostCallIsAuthorized(s: State, h: HostCall)
    requires Inv(s) && DraftsAreComplete(s) && HostCallIsSound(s, h) && h.tool != GetMcpPolicy
    ensures h.call < |s.calls|
      && (var inv := s.calls[h.call].inv;
          && h.tool == inv.tool && h.accounts == inv.accounts && inv.tool != GetMcpPolicy
          && (exists client: Client :: client.id == h.client && IsAuthorized(inv, client))
          && (h.approval.Some? <==> IsAskedFor(inv)))
  {
    var call := s.calls[h.call];
    assert PhaseIsSound(s.gate, call);
    CheckedCallsAreAuthorized(call.inv, call.phase.client);
  }

  lemma {:induction false} RunsKeepHostTools(s: State, events: seq<Event>)
    requires Legal(s, events) && forall k :: 0 <= k < |s.host| ==> s.host[k].tool != GetMcpPolicy
    ensures forall k :: 0 <= k < |After(s, events).host| ==> After(s, events).host[k].tool != GetMcpPolicy
    decreases |events|
  {
    if events != [] {
      RunsKeepHostTools(Next(s, events[0]), events[1..]);
    }
  }

  // ---- every authorised call reaches the host

  /** No other client that is not revoked has the token. */
  predicate IsOnlyCaller(inv: Invocation, client: Client) {
    IsCaller(inv, client)
    && forall c <- inv.policy.clients :: !c.revoked && Presents(inv.token.value, c.token) ==> c == client
  }

  lemma {:induction false} OnlyCallerIsFound(clients: seq<Client>, header: string, client: Client)
    requires client in clients && !client.revoked && Presents(header, client.token)
    requires forall c <- clients :: !c.revoked && Presents(header, c.token) ==> c == client
    ensures FindClient(clients, Normalized(header)) == Some(client)
  {
    if clients[0] != client {
      OnlyCallerIsFound(clients[1..], header, client);
    }
  }

  lemma AuthorizedCallsAreChecked(inv: Invocation, client: Client)
    requires IsOnlyCaller(inv, client) && IsAuthorized(inv, client)
    ensures Check(inv.policy, inv.token, inv.tool, inv.accounts) == Ok(client) && HasValidDraft(inv)
    ensures NeedsApproval(inv) <==> IsAskedFor(inv)
  {
    OnlyCallerIsFound(inv.policy.clients, inv.token.value, client);
  }

  /** A call that nobody is asked about reaches the host at its next turn. */
  lemma UnaskedCallReachesTheHost(
      s: State, inv: Invocation, client: Client, id: string, now: int, listener: Option<int>, promise: nat)
    requires IsOnlyCaller(inv, client) && IsAuthorized(inv, client) && !IsAskedFor(inv) && inv.tool != GetMcpPolicy
    ensures var begun := BeginCall(s, inv, id, now, listener);
      var u := ProceedCall(begun, |s.calls|, promise);
      && begun.gate == s.gate
      && u.host == s.host + [HostCall(|s.calls|, inv.tool, inv.accounts, client.id, None)]
  {
    AuthorizedCallsAreChecked(inv, client);
  }

  /**
   A call that is asked about waits; approved in time it reaches the host with its request, denied or
   timed out it is turned away.
   */
  lemma AskedCallWaits(
      s: State, inv: Invocation, client: Client, id: string, now: int, promise: nat)
    requires IsOnlyCaller(inv, client) && IsAuthorized(inv, client) && IsAskedFor(inv)
    requires id !in s.gate.requests && promise !in s.gate.subjects && promise !in s.gate.outcomes
    ensures var begun := BeginCall(s, inv, id, now, None);
      var waiting := ProceedCall(begun, |s.calls|, promise);
      && waiting.host == s.host && |waiting.calls| == |s.calls| + 1
      && waiting.calls[|s.calls|] == Call(inv, Waiting(client, id, promise))
      && id in waiting.gate.requests && waiting.gate.requests[id].status == G.Pending
      && waiting.gate.requests[id].expiresAt == now + 300000
      && waiting.gate.requests[id].clientId == client.id && waiting.gate.requests[id].accountIds == inv.accounts
      && promise in G.WaitersOf(waiting.gate, id) && promise !in waiting.gate.outcomes
  {
    AuthorizedCallsAreChecked(inv, client);
  }

  /** The call acts on the settlement of its promise: only an approval lets it through. */
  lemma SettlementDecidesTheCall(s: State, i: nat, client: Client, id: string, p: nat, promise: nat)
    requires i < |s.calls| && s.calls[i].phase == Waiting(client, id, p) && UsesHost(s.calls[i].inv.tool)
    ensures var u := ProceedCall(s, i, promise);
      var v := ProceedCall(u, i, promise);
      if p !in s.gate.outcomes then u == s
      else if s.gate.outcomes[p] == G.Decided(G.Approve) then
        v.host == s.host + [HostCall(i, s.calls[i].inv.tool, s.calls[i].inv.accounts, client.id, Some(id))]
      else
        && v.host == s.host && v == u
        && u.calls[i].phase == Rejected(
             if s.gate.outcomes[p] == G.Decided(G.Deny) then UserDenied
             else if s.gate.outcomes[p] == G.Unknown then UnknownApproval
             else ApprovalTimedOut)
  {
  }

  /** What a call that may not be made is told. */
  lemma RefusalsAreExact(s: State, inv: Invocation, id: string, now: int, listener: Option<int>)
    requires forall client: Client :: !IsAuthorized(inv, client)
    ensures var u := BeginCall(s, inv, id, now, listener);
      && u.gate == s.gate && u.host == s.host && u.calls == s.calls + [u.calls[|s.calls|]]
      && u.calls[|s.calls|].inv == inv && u.calls[|s.calls|].phase.Rejected?
      && (var error := u.calls[|s.calls|].phase.error;
          if !DraftIsComplete(inv) then error == InvalidDraft
          else if !inv.policy.enabled then error == Disabled
          else if inv.token in {None, Some("")} then error == MissingToken
          else if forall client <- inv.policy.clients :: client.revoked || !Presents(inv.token.value, client.token)
            then error == UnknownToken
          else error == LacksScope || (error.AccountNotAllowed? && error.account in inv.accounts))
  {
    if HasValidDraft(inv) && inv.policy.enabled && inv.token.Some? && inv.token.value != "" {
      var found := FindClient(inv.policy.clients, Normalized(inv.token.value));
      if found.Some? {
        assert IsCaller(inv, found.value);
        assert !IsAuthorized(inv, found.value);
      } else {
        NobodyIsFound(inv.policy.clients, inv.token.value);
      }
    }
  }

  lemma {:induction false} NobodyIsFound(clients: seq<Client>, header: string)
    requires FindClient(clients, Normalized(header)).None?
    ensures forall client <- clients :: client.revoked || !Presents(header, client.token)
  {
    if clients != [] {
      NobodyIsFound(clients[1..], header);
    }
  }
}
