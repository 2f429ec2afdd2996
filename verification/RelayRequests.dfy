/**
 What stands behind everything the devices of the relay bring about: every accepted request was
 signed, timely and sent by a device that was found active, every effect was asked for by such a
 request, and what is rightly asked for happens.
 */
module RelayRequests {
  import opened Outcomes
  import opened RelayDevices

  // ---- accepted requests are genuine

  /** Event m is the arrival of the request, at a clock within the skew of its timestamp. */
  ghost predicate WasSent(config: Config, s: State, events: seq<Event>, r: Request, intent: Intent, m: nat) {
    && m < |events| && events[m] == Verify(r, intent)
    && Legal(config, s, events[..m])
    && -config.skew <= After(config, s, events[..m]).clock - r.timestamp <= config.skew
  }

  /** After n events the device is there, and not revoked. */
  ghost predicate WasActive(config: Config, s: State, events: seq<Event>, k: DeviceKey, n: nat) {
    && n <= |events| && Legal(config, s, events[..n])
    && var devices := After(config, s, events[..n]).tables.devices;
       k in devices && devices[k].revokedAt.None?
  }

  ghost predicate IsGenuine(config: Config, s: State, events: seq<Event>, r: Request, intent: Intent) {
    r.signed && exists m: nat, n: nat ::
      m < n && WasSent(config, s, events, r, intent, m) && WasActive(config, s, events, r.owner, n)
  }

  ghost predicate IsSent(config: Config, s: State, events: seq<Event>, r: Request, intent: Intent) {
    exists m: nat :: WasSent(config, s, events, r, intent, m)
  }

  /** What a verification under way has behind it. */
  ghost predicate IsExplained(config: Config, s: State, events: seq<Event>, task: Task) {
    match task
    case Selecting(r, intent, _) => IsSent(config, s, events, r, intent)
    case Inserting(r, intent, _) => IsGenuine(config, s, events, r, intent)
    case _ => true
  }

  ghost predicate AllExplained(config: Config, s: State, events: seq<Event>, u: State) {
    && (forall i :: 0 <= i < |u.tasks| ==> IsExplained(config, s, events, u.tasks[i]))
    && (forall i :: 0 <= i < |u.accepted| ==>
          IsGenuine(config, s, events, u.accepted[i].request, u.accepted[i].intent))
  }

  lemma {:induction false} LegalSplit(config: Config, s: State, a: seq<Event>, b: seq<Event>)
    requires Legal(config, s, a + b)
    ensures Legal(config, s, a) && Legal(config, After(config, s, a), b)
    ensures After(config, s, a + b) == After(config, After(config, s, a), b)
    decreases |a|
  {
    if a == [] {
      assert a + b == b;
    } else {
      assert (a + b)[0] == a[0] && (a + b)[1..] == a[1..] + b;
      LegalSplit(config, Next(config, s, a[0]), a[1..], b);
    }
  }

  lemma SentEarlier(config: Config, s: State, before: seq<Event>, e: Event, r: Request, intent: Intent)
    requires IsSent(config, s, before, r, intent)
    ensures IsSent(config, s, before + [e], r, intent)
  {
    var m: nat :| WasSent(config, s, before, r, intent, m);
    assert (before + [e])[..m] == before[..m];
    assert WasSent(config, s, before + [e], r, intent, m);
  }

  lemma GenuineEarlier(config: Config, s: State, before: seq<Event>, e: Event, r: Request, intent: Intent)
    requires IsGenuine(config, s, before, r, intent)
    ensures IsGenuine(config, s, before + [e], r, intent)
  {
    var m: nat, n: nat :|
      m < n && WasSent(config, s, before, r, intent, m) && WasActive(config, s, before, r.owner, n);
    assert (before + [e])[..m] == before[..m] && (before + [e])[..n] == before[..n];
    assert WasSent(config, s, before + [e], r, intent, m) && WasActive(config, s, before + [e], r.owner, n);
  }

  lemma ExplainedEarlier(config: Config, s: State, before: seq<Event>, e: Event, task: Task)
    requires IsExplained(config, s, before, task)
    ensures IsExplained(config, s, before + [e], task)
  {
    match task
    case Selecting(r, intent, _) => SentEarlier(config, s, before, e, r, intent);
    case Inserting(r, intent, _) => GenuineEarlier(config, s, before, e, r, intent);
    case _ =>
  }

  /** A request that arrives is explained by its own event. */
  lemma ArrivalIsExplained(config: Config, s: State, before: seq<Event>, r: Request, intent: Intent)
    requires Legal(config, s, before)
    requires Next(config, After(config, s, before), Verify(r, intent)) != After(config, s, before)
    ensures IsSent(config, s, before + [Verify(r, intent)], r, intent)
  {
    var events := before + [Verify(r, intent)];
    assert events[..|before|] == before;
    assert WasSent(config, s, events, r, intent, |before|);
  }

  /** The SELECT finds an active device and a valid signature. */
  lemma SelectIsExplained(config: Config, s: State, before: seq<Event>, e: Event, i: nat)
    requires Legal(config, s, before) && i < |After(config, s, before).tasks| && e.Run? && e.i == i
    requires Allowed(config, After(config, s, before), e)
    requires After(config, s, before).tasks[i].Selecting?
    requires IsExplained(config, s, before, After(config, s, before).tasks[i])
    ensures IsExplained(config, s, before + [e], Next(config, After(config, s, before), e).tasks[i])
  {
    var u := After(config, s, before);
    var v := Next(config, u, e);
    if v.tasks[i].Inserting? {
      var r, intent := u.tasks[i].request, u.tasks[i].intent;
      var m: nat :| WasSent(config, s, before, r, intent, m);
      assert before[..|before|] == before;
      assert WasActive(config, s, before, r.owner, |before|);
      assert IsGenuine(config, s, before, r, intent);
      GenuineEarlier(config, s, before, e, r, intent);
    }
  }

  lemma TasksStayExplained(config: Config, s: State, before: seq<Event>, e: Event, i: nat)
    requires Legal(config, s, before) && Allowed(config, After(config, s, before), e)
    requires AllExplained(config, s, before, After(config, s, before))
    requires i < |Next(config, After(config, s, before), e).tasks|
    ensures IsExplained(config, s, before + [e], Next(config, After(config, s, before), e).tasks[i])
  {
    var u := After(config, s, before);
    var v := Next(config, u, e);
    if i < |u.tasks| {
      assert IsExplained(config, s, before, u.tasks[i]);
      ExplainedEarlier(config, s, before, e, u.tasks[i]);
      if e.Run? && e.i == i && u.tasks[i].Selecting? {
        SelectIsExplained(config, s, before, e, i);
      }
    } else if e.Verify? {
      ArrivalIsExplained(config, s, before, e.request, e.intent);
    }
  }

  lemma AcceptedStayGenuine(config: Config, s: State, before: seq<Event>, e: Event, i: nat)
    requires Legal(config, s, before) && Allowed(config, After(config, s, before), e)
    requires AllExplained(config, s, before, After(config, s, before))
    requires i < |Next(config, After(config, s, before), e).accepted|
    ensures var a := Next(config, After(config, s, before), e).accepted[i];
      IsGenuine(config, s, before + [e], a.request, a.intent)
  {
    var u := After(config, s, before);
    AcceptedGrows(config, u, e);
    if i < |u.accepted| {
      GenuineEarlier(config, s, before, e, u.accepted[i].request, u.accepted[i].intent);
    } else {
      assert IsExplained(config, s, before, u.tasks[e.i]);
      GenuineEarlier(config, s, before, e, u.tasks[e.i].request, u.tasks[e.i].intent);
    }
  }

  lemma {:induction false} RunsAreExplained(config: Config, s: State, events: seq<Event>)
    requires Legal(config, s, events) && s.tasks == [] && s.accepted == []
    ensures AllExplained(config, s, events, After(config, s, events))
    decreases |events|
  {
    if events != [] {
      var before, e := events[..|events| - 1], events[|events| - 1];
      assert events == before + [e];
      LegalSplit(config, s, before, [e]);
      RunsAreExplained(config, s, before);
      var u := After(config, s, before);
      OneEvent(config, u, e);
      var v := Next(config, u, e);
      forall i | 0 <= i < |v.tasks|
        ensures IsExplained(config, s, events, v.tasks[i])
      {
        TasksStayExplained(config, s, before, e, i);
      }
      forall i | 0 <= i < |v.accepted|
        ensures IsGenuine(config, s, events, v.accepted[i].request, v.accepted[i].intent)
      {
        AcceptedStayGenuine(config, s, before, e, i);
      }
    }
  }

  /**
   However requests interleave: an accepted request was signed by its device, arrived at a clock within
   the skew of its timestamp, and its device was there and not revoked at a later moment.
   */
  lemma AcceptedRequestsAreGenuine(config: Config, clock: int, events: seq<Event>, i: nat)
    requires Legal(config, Initial(clock), events) && i < |After(config, Initial(clock), events).accepted|
    ensures var a := After(config, Initial(clock), events).accepted[i];
      && a.request.signed
      && exists m: nat, n: nat ::
           && m < n && WasSent(config, Initial(clock), events, a.request, a.intent, m)
           && WasActive(config, Initial(clock), events, a.request.owner, n)
  {
    RunsAreExplained(config, Initial(clock), events);
  }

  /** The converse: a genuine request with a new nonce that nothing interrupts is accepted. */
  lemma GenuineRequestPasses(config: Config, s: State, r: Request, intent: Intent)
    requires config.delay >= 0 && r.signed
    requires -config.skew <= s.clock - r.timestamp <= config.skew
    requires r.owner in s.tables.devices && s.tables.devices[r.owner].revokedAt.None?
    requires NonceKey(r.owner, config.hash(r.nonce)) !in s.tables.nonces
    ensures var go := Run(|s.tasks|, "");
      var events := [Verify(r, intent)] + ([go] + [go]);
      && Legal(config, s, events)
      && After(config, s, events).accepted == s.accepted + [Acceptance(r, intent, false)]
      && After(config, s, events).tables == s.tables.(
           nonces := s.tables.nonces[NonceKey(r.owner, config.hash(r.nonce)) := r.timestamp + config.ttl])
      && After(config, s, events).tasks == s.tasks + [TaskFor(r, intent, s.clock)]
  {
    VerifyIsARun(config, s, r, intent);
  }

  // ---- every effect was asked for

  ghost predicate AskedBy(s: State, k: DeviceKey, intent: Intent) {
    exists a <- s.accepted :: a.request.owner == k && a.intent == intent
  }

  ghost predicate AskedIn(s: State, account: string, intent: Intent) {
    exists a <- s.accepted :: a.request.owner.account == account && a.intent == intent
  }

  /** What a request that acts was accepted for, and the clock it read. */
  ghost predicate TaskIsAsked(s: State, task: Task) {
    match task
    case Inviting(creator, at) => AskedBy(s, creator, CreateInvite) && at <= s.clock
    case Revoking(target, _) => AskedIn(s, target.account, RevokeDevice(target.device))
    case Cleaning(target) => AskedIn(s, target.account, RevokeDevice(target.device))
    case Claiming(claimant, hash, at) => hash in s.issued && s.issued[hash].at <= at <= s.clock
    case Sweeping(at) => at <= s.clock
    case Deleting(account) => AskedIn(s, account, DeleteAccount)
    case _ => true
  }

  ghost predicate InviteIsAsked(s: State, hash: string)
    requires hash in s.tables.invites
  {
    && hash in s.issued && s.tables.invites[hash].creator == s.issued[hash].creator
    && s.tables.invites[hash].expiresAt == s.issued[hash].at + 600
  }

  /** The claim read the clock less than 600 seconds after the request that drew the token. */
  predicate AdmissionIsTimely(s: State, a: Admission) {
    && a.hash in s.issued && s.issued[a.hash].creator.account == a.device.account
    && s.issued[a.hash].at <= a.at < s.issued[a.hash].at + 600
  }

  /** A device that is not a founder was let in by an invite of its approver. */
  ghost predicate WasLetIn(s: State, k: DeviceKey, approver: string) {
    exists a <- s.admissions :: IsWayIn(s, a, k, approver)
  }

  predicate IsWayIn(s: State, a: Admission, k: DeviceKey, approver: string) {
    a.device == k && a.hash in s.issued && s.issued[a.hash].creator == DeviceKey(k.account, approver)
  }

  ghost predicate DeviceIsAsked(s: State, k: DeviceKey)
    requires k in s.tables.devices
  {
    var d := s.tables.devices[k];
    && (d.revokedAt.Some? ==> AskedIn(s, k.account, RevokeDevice(k.device)))
    && (d.approvedBy.Some? ==> WasLetIn(s, k, d.approvedBy.value))
  }

  ghost predicate EffectsAreAsked(s: State) {
    && (forall i :: 0 <= i < |s.tasks| ==> TaskIsAsked(s, s.tasks[i]))
    && (forall h <- s.tables.invites :: InviteIsAsked(s, h))
    && (forall h <- s.issued :: AskedBy(s, s.issued[h].creator, CreateInvite) && s.issued[h].at <= s.clock)
    && (forall i :: 0 <= i < |s.admissions| ==> AdmissionIsTimely(s, s.admissions[i]))
    && (forall k <- s.tables.devices :: DeviceIsAsked(s, k))
  }

  /** Time passes and the log grows. */
  ghost predicate LogGrows(s: State, u: State) {
    && s.clock <= u.clock && s.accepted <= u.accepted && s.admissions <= u.admissions
    && (forall h <- s.issued :: h in u.issued && u.issued[h] == s.issued[h])
  }

  lemma NextLogGrows(config: Config, s: State, e: Event)
    requires Allowed(config, s, e)
    ensures LogGrows(s, Next(config, s, e))
  {
  }

  lemma AskedEarlier(s: State, u: State)
    requires LogGrows(s, u)
    ensures forall k, intent :: AskedBy(s, k, intent) ==> AskedBy(u, k, intent)
    ensures forall account, intent :: AskedIn(s, account, intent) ==> AskedIn(u, account, intent)
  {
    assert forall a <- s.accepted :: a in u.accepted;
  }

  lemma LetInEarlier(s: State, u: State, k: DeviceKey, approver: string)
    requires LogGrows(s, u) && WasLetIn(s, k, approver)
    ensures WasLetIn(u, k, approver)
  {
    assert forall a <- s.admissions :: a in u.admissions;
  }

  lemma TaskAskedEarlier(s: State, u: State, task: Task)
    requires LogGrows(s, u) && TaskIsAsked(s, task)
    ensures TaskIsAsked(u, task)
  {
    AskedEarlier(s, u);
  }

  /** The task that an accepted request goes on with. */
  lemma AcceptedTaskIsAsked(config: Config, s: State, e: Event)
    requires Allowed(config, s, e) && e.Run? && s.tasks[e.i].Inserting?
    ensures TaskIsAsked(Next(config, s, e), Next(config, s, e).tasks[e.i])
  {
    var u := Next(config, s, e);
    AcceptedGrows(config, s, e);
    if |u.accepted| > |s.accepted| {
      assert u.accepted[|s.accepted|] == AcceptanceOf(s, s.tasks[e.i]);
      assert u.accepted[|s.accepted|] in u.accepted;
    }
  }

  lemma CleaningTaskIsAsked(config: Config, s: State, e: Event)
    requires Allowed(config, s, e) && e.Run? && s.tasks[e.i].Revoking? && TaskIsAsked(s, s.tasks[e.i])
    ensures TaskIsAsked(Next(config, s, e), Next(config, s, e).tasks[e.i])
  {
    NextLogGrows(config, s, e);
    AskedEarlier(s, Next(config, s, e));
  }

  /** The task that a step leaves behind. */
  lemma NewTaskIsAsked(config: Config, s: State, e: Event, i: nat)
    requires Allowed(config, s, e) && EffectsAreAsked(s) && i < |Next(config, s, e).tasks|
    requires i >= |s.tasks| || Next(config, s, e).tasks[i] != s.tasks[i]
    ensures TaskIsAsked(Next(config, s, e), Next(config, s, e).tasks[i])
  {
    if e.Run? {
      assert i == e.i && TaskIsAsked(s, s.tasks[i]);
      if s.tasks[i].Inserting? {
        AcceptedTaskIsAsked(config, s, e);
      } else if s.tasks[i].Revoking? {
        CleaningTaskIsAsked(config, s, e);
      }
    } else if e.BeginClaim? {
      assert InviteIsAsked(s, config.hash(e.token));
    }
  }

  lemma TasksStayAsked(config: Config, s: State, e: Event, i: nat)
    requires Allowed(config, s, e) && EffectsAreAsked(s) && i < |Next(config, s, e).tasks|
    ensures TaskIsAsked(Next(config, s, e), Next(config, s, e).tasks[i])
  {
    var u := Next(config, s, e);
    if i < |s.tasks| && u.tasks[i] == s.tasks[i] {
      NextLogGrows(config, s, e);
      TaskAskedEarlier(s, u, s.tasks[i]);
    } else {
      NewTaskIsAsked(config, s, e, i);
    }
  }

  /** The step inserts the invite. */
  predicate InsertsInvite(config: Config, s: State, e: Event, h: string)
    requires Allowed(config, s, e)
  {
    e.Run? && s.tasks[e.i].Inviting? && config.hash(e.token) == h && h !in s.tables.invites
  }

  lemma InvitesChange(config: Config, s: State, e: Event, h: string)
    requires Allowed(config, s, e) && h in Next(config, s, e).tables.invites
    ensures var u := Next(config, s, e);
      if InsertsInvite(config, s, e, h) then
        && u.tables.invites[h] == Invite(s.tasks[e.i].creator, s.tasks[e.i].now + 600, None)
        && h in u.issued && u.issued[h] == Issue(s.tasks[e.i].creator, s.tasks[e.i].now)
      else
        && h in s.tables.invites && u.tables.invites[h].creator == s.tables.invites[h].creator
        && u.tables.invites[h].expiresAt == s.tables.invites[h].expiresAt
  {
  }

  lemma InvitesStayAsked(config: Config, s: State, e: Event, h: string)
    requires Allowed(config, s, e) && EffectsAreAsked(s) && h in Next(config, s, e).tables.invites
    ensures InviteIsAsked(Next(config, s, e), h)
  {
    InvitesChange(config, s, e, h);
    NextLogGrows(config, s, e);
    if !InsertsInvite(config, s, e, h) {
      assert InviteIsAsked(s, h);
    }
  }

  lemma IssuesStayAsked(config: Config, s: State, e: Event, h: string)
    requires Allowed(config, s, e) && EffectsAreAsked(s) && h in Next(config, s, e).issued
    ensures var u := Next(config, s, e); AskedBy(u, u.issued[h].creator, CreateInvite) && u.issued[h].at <= u.clock
  {
    NextLogGrows(config, s, e);
    AskedEarlier(s, Next(config, s, e));
    if e.Run? {
      assert TaskIsAsked(s, s.tasks[e.i]);
    }
  }

  lemma AdmissionsStayTimely(config: Config, s: State, e: Event, i: nat)
    requires Allowed(config, s, e) && EffectsAreAsked(s) && i < |Next(config, s, e).admissions|
    ensures AdmissionIsTimely(Next(config, s, e), Next(config, s, e).admissions[i])
  {
    NextLogGrows(config, s, e);
    if i >= |s.admissions| {
      assert TaskIsAsked(s, s.tasks[e.i]);
      assert InviteIsAsked(s, s.tasks[e.i].hash);
    } else {
      assert AdmissionIsTimely(s, s.admissions[i]);
    }
  }

  /** A device whose row a step inserts or revokes. */
  lemma ChangedDeviceIsAsked(config: Config, s: State, e: Event, k: DeviceKey)
    requires Allowed(config, s, e) && EffectsAreAsked(s) && k in Next(config, s, e).tables.devices
    requires k !in s.tables.devices || Next(config, s, e).tables.devices[k] != s.tables.devices[k]
    ensures DeviceIsAsked(Next(config, s, e), k)
  {
    if e.Run? {
      var task := s.tasks[e.i];
      assert TaskIsAsked(s, task);
      if task.Claiming? {
        AdmittedDeviceIsAsked(config, s, e, k);
      } else {
        assert task.Revoking? && k == task.target && DeviceIsAsked(s, k);
        RevokedDeviceIsAsked(config, s, e, k);
      }
    }
  }

  lemma AdmittedDeviceIsAsked(config: Config, s: State, e: Event, k: DeviceKey)
    requires Allowed(config, s, e) && EffectsAreAsked(s) && e.Run? && s.tasks[e.i].Claiming?
    requires k !in s.tables.devices || Next(config, s, e).tables.devices[k] != s.tables.devices[k]
    requires k in Next(config, s, e).tables.devices
    ensures DeviceIsAsked(Next(config, s, e), k)
  {
    var task, u := s.tasks[e.i], Next(config, s, e);
    assert InviteIsAsked(s, task.hash);
    assert u.admissions[|s.admissions|] == Admission(task.hash, k, task.now);
    assert u.admissions[|s.admissions|] in u.admissions;
    assert IsWayIn(u, u.admissions[|s.admissions|], k, s.tables.invites[task.hash].creator.device);
  }

  lemma RevokedDeviceIsAsked(config: Config, s: State, e: Event, k: DeviceKey)
    requires Allowed(config, s, e) && EffectsAreAsked(s) && e.Run? && s.tasks[e.i].Revoking?
    requires k == s.tasks[e.i].target && k in s.tables.devices && DeviceIsAsked(s, k)
    ensures DeviceIsAsked(Next(config, s, e), k)
  {
    var u := Next(config, s, e);
    NextLogGrows(config, s, e);
    AskedEarlier(s, u);
    assert TaskIsAsked(s, s.tasks[e.i]);
    if s.tables.devices[k].approvedBy.Some? {
      LetInEarlier(s, u, k, s.tables.devices[k].approvedBy.value);
    }
  }

  lemma DevicesStayAsked(config: Config, s: State, e: Event, k: DeviceKey)
    requires Allowed(config, s, e) && EffectsAreAsked(s) && k in Next(config, s, e).tables.devices
    ensures DeviceIsAsked(Next(config, s, e), k)
  {
    var u := Next(config, s, e);
    if k in s.tables.devices && u.tables.devices[k] == s.tables.devices[k] {
      NextLogGrows(config, s, e);
      AskedEarlier(s, u);
      assert DeviceIsAsked(s, k);
      if s.tables.devices[k].approvedBy.Some? {
        LetInEarlier(s, u, k, s.tables.devices[k].approvedBy.value);
      }
    } else {
      ChangedDeviceIsAsked(config, s, e, k);
    }
  }

  lemma NextKeepsAsked(config: Config, s: State, e: Event)
    requires Allowed(config, s, e) && EffectsAreAsked(s)
    ensures EffectsAreAsked(Next(config, s, e))
  {
    var u := Next(config, s, e);
    forall i | 0 <= i < |u.tasks|
      ensures TaskIsAsked(u, u.tasks[i])
    {
      TasksStayAsked(config, s, e, i);
    }
    forall h | h in u.tables.invites
      ensures InviteIsAsked(u, h)
    {
      InvitesStayAsked(config, s, e, h);
    }
    forall h | h in u.issued
      ensures AskedBy(u, u.issued[h].creator, CreateInvite) && u.issued[h].at <= u.clock
    {
      IssuesStayAsked(config, s, e, h);
    }
    forall i | 0 <= i < |u.admissions|
      ensures AdmissionIsTimely(u, u.admissions[i])
    {
      AdmissionsStayTimely(config, s, e, i);
    }
    forall k | k in u.tables.devices
      ensures DeviceIsAsked(u, k)
    {
      DevicesStayAsked(config, s, e, k);
    }
  }

  lemma {:induction false} RunsKeepAsked(config: Config, s: State, events: seq<Event>)
    requires Legal(config, s, events) && EffectsAreAsked(s)
    ensures EffectsAreAsked(After(config, s, events)) && LogGrows(s, After(config, s, events))
    decreases |events|
  {
    if events != [] {
      NextKeepsAsked(config, s, events[0]);
      NextLogGrows(config, s, events[0]);
      RunsKeepAsked(config, Next(config, s, events[0]), events[1..]);
    }
  }

  /**
   In every reachable state: a revoked device was named by an accepted request of its account, and a
   device that is no founder came in by an invite that an accepted request of its approver drew.
   */
  lemma DevicesAreAskedFor(config: Config, clock: int, events: seq<Event>, k: DeviceKey)
    requires Legal(config, Initial(clock), events) && k in After(config, Initial(clock), events).tables.devices
    ensures var s := After(config, Initial(clock), events);
      var d := s.tables.devices[k];
      && (d.revokedAt.Some? ==> AskedIn(s, k.account, RevokeDevice(k.device)))
      && (d.approvedBy.Some? ==>
            && WasLetIn(s, k, d.approvedBy.value)
            && AskedBy(s, DeviceKey(k.account, d.approvedBy.value), CreateInvite))
  {
    RunsKeepAsked(config, Initial(clock), events);
    var s := After(config, Initial(clock), events);
    assert DeviceIsAsked(s, k);
  }

  /**
   Every device that was ever let in: the token of its invite was drawn for an accepted request of its
   own account, less than 600 seconds before the claim by the clocks that the two requests read.
   */
  lemma AdmissionsAreTimely(config: Config, clock: int, events: seq<Event>, i: nat)
    requires Legal(config, Initial(clock), events) && i < |After(config, Initial(clock), events).admissions|
    ensures var s := After(config, Initial(clock), events);
      var a := s.admissions[i];
      && a.hash in s.issued && s.issued[a.hash].creator.account == a.device.account
      && AskedBy(s, s.issued[a.hash].creator, CreateInvite)
      && s.issued[a.hash].at <= a.at < s.issued[a.hash].at + 600
  {
    RunsKeepAsked(config, Initial(clock), events);
    assert AdmissionIsTimely(After(config, Initial(clock), events), After(config, Initial(clock), events).admissions[i]);
  }

  // ---- nothing goes by itself

  /** What is not deleted stays, unless its account's deletion was asked for. */
  ghost predicate Persists(s: State, u: State) {
    && (forall account <- s.tables.accounts :: account in u.tables.accounts || AskedIn(u, account, DeleteAccount))
    && (forall k <- s.tables.devices :: k in u.tables.devices || AskedIn(u, k.account, DeleteAccount))
  }

  lemma NextPersists(config: Config, s: State, e: Event)
    requires Allowed(config, s, e) && EffectsAreAsked(s)
    ensures Persists(s, Next(config, s, e))
  {
    NextLogGrows(config, s, e);
    AskedEarlier(s, Next(config, s, e));
    if e.Run? {
      assert TaskIsAsked(s, s.tasks[e.i]);
    }
  }

  /** No account and no device disappears unless an accepted request of the account asked for its deletion. */
  lemma {:induction false} OnlyDeletionRemoves(config: Config, s: State, events: seq<Event>)
    requires Legal(config, s, events) && EffectsAreAsked(s)
    ensures Persists(s, After(config, s, events))
    decreases |events|
  {
    if events != [] {
      var u := Next(config, s, events[0]);
      NextPersists(config, s, events[0]);
      NextKeepsAsked(config, s, events[0]);
      OnlyDeletionRemoves(config, u, events[1..]);
      RunsKeepAsked(config, u, events[1..]);
      AskedEarlier(u, After(config, s, events));
    }
  }

  // ---- what is asked for happens

  /** Nobody was let in by the invite between s and u. */
  predicate Unclaimed(s: State, u: State, hash: string) {
    forall i :: |s.admissions| <= i < |u.admissions| ==> u.admissions[i].hash != hash
  }

  /** An unused invite of the account that has not expired. */
  predicate IsOpen(s: State, hash: string, account: string) {
    && hash in s.tables.invites && s.tables.invites[hash].usedAt.None?
    && s.tables.invites[hash].creator.account == account
  }

  lemma NextKeepsInviteOpen(config: Config, s: State, e: Event, hash: string, account: string)
    requires Allowed(config, s, e) && EffectsAreAsked(s) && TasksSpare(s, account)
    requires IsOpen(s, hash, account) && Next(config, s, e).clock < s.tables.invites[hash].expiresAt
    requires Unclaimed(s, Next(config, s, e), hash)
    ensures var u := Next(config, s, e); IsOpen(u, hash, account) && u.tables.invites[hash] == s.tables.invites[hash]
  {
    if e.Run? {
      assert TaskIsAsked(s, s.tasks[e.i]) && TaskSpares(s.tasks[e.i], account);
      TaskKeepsInviteOpen(config, s, e.i, e.token, hash, account);
    }
  }

  lemma TaskKeepsInviteOpen(config: Config, s: State, i: nat, token: string, hash: string, account: string)
    requires i < |s.tasks| && TaskSpares(s.tasks[i], account) && IsOpen(s, hash, account)
    requires s.tasks[i].Sweeping? ==> s.tasks[i].now < s.tables.invites[hash].expiresAt
    requires Unclaimed(s, RunTask(config, s, i, token), hash)
    ensures var u := RunTask(config, s, i, token);
      hash in u.tables.invites && u.tables.invites[hash] == s.tables.invites[hash]
  {
    var u := RunTask(config, s, i, token);
    if |u.admissions| > |s.admissions| {
      assert u.admissions[|s.admissions|].hash != hash;
    }
  }

  lemma UnclaimedSplits(s: State, u: State, v: State, hash: string)
    requires LogGrows(s, u) && LogGrows(u, v) && Unclaimed(s, v, hash)
    ensures Unclaimed(s, u, hash) && Unclaimed(u, v, hash)
  {
    assert forall i :: 0 <= i < |u.admissions| ==> u.admissions[i] == v.admissions[i];
  }

  /** An invite can be claimed until it expires, whatever else happens in between. */
  lemma {:induction false} InviteStaysOpen(config: Config, s: State, events: seq<Event>, hash: string, account: string)
    requires Legal(config, s, events) && EffectsAreAsked(s)
    requires TasksSpare(s, account) && AllSpare(events, account)
    requires IsOpen(s, hash, account) && After(config, s, events).clock < s.tables.invites[hash].expiresAt
    requires Unclaimed(s, After(config, s, events), hash)
    ensures IsOpen(After(config, s, events), hash, account)
    decreases |events|
  {
    if events != [] {
      var e := events[0];
      var u := Next(config, s, e);
      assert e in events && AllSpare(events[1..], account);
      NextLogGrows(config, s, e);
      NextKeepsAsked(config, s, e);
      NextSpares(config, s, e, account);
      RunsKeepAsked(config, u, events[1..]);
      UnclaimedSplits(s, u, After(config, s, events), hash);
      NextKeepsInviteOpen(config, s, e, hash, account);
      InviteStaysOpen(config, u, events[1..], hash, account);
    }
  }

  /** A claim of an open invite that nothing interrupts lets the device in, approved by the creator. */
  lemma ClaimLetsIn(config: Config, s: State, k: DeviceKey, token: string)
    requires IsOpen(s, config.hash(token), k.account) && k !in s.tables.devices
    requires s.clock < s.tables.invites[config.hash(token)].expiresAt
    ensures var events := [BeginClaim(k, token)] + [Run(|s.tasks|, "")];
      && Legal(config, s, events)
      && var u := After(config, s, events);
         && k in u.tables.devices && u.tables.devices[k].revokedAt.None?
         && u.tables.devices[k].approvedBy == Some(s.tables.invites[config.hash(token)].creator.device)
         && u.tables.devices[k].approvedAt == s.clock
         && u.tables.devices == s.tables.devices[k := u.tables.devices[k]]
         && (var hash := config.hash(token);
             u.tables.invites == s.tables.invites[hash := s.tables.invites[hash].(usedAt := Some(s.clock))])
         && u.tables.nonces == s.tables.nonces && u.tables.accounts == s.tables.accounts
  {
    var e, go := BeginClaim(k, token), Run(|s.tasks|, "");
    var s1 := Next(config, s, e);
    assert s1.tasks[|s.tasks|] == Claiming(k, config.hash(token), s.clock);
    OneEvent(config, s1, go);
    OneMore(config, s, e, [go]);
  }

  /** The INSERT of an invite for a device that is there opens it for 600 seconds. */
  lemma InviteOpens(config: Config, s: State, i: nat, token: string)
    requires Allowed(config, s, Run(i, token)) && s.tasks[i].Inviting? && s.tasks[i].creator in s.tables.devices
    requires config.hash(token) !in s.tables.invites
    ensures var u := Next(config, s, Run(i, token));
      && IsOpen(u, config.hash(token), s.tasks[i].creator.account)
      && u.tables.invites[config.hash(token)].expiresAt == s.tasks[i].now + 600
  {
  }

  /** Another device of the account is there and not revoked. */
  predicate IsOther(s: State, l: DeviceKey, k: DeviceKey) {
    l != k && l.account == k.account && l in s.tables.devices && s.tables.devices[l].revokedAt.None?
  }

  /**
   A revocation revokes its device if that is active and not the last, changes no other device, and
   then deletes exactly the nonces of the revoked one.
   */
  lemma RevocationTakesEffect(config: Config, s: State, i: nat, l: DeviceKey)
    requires i < |s.tasks| && s.tasks[i].Revoking? && IsOther(s, l, s.tasks[i].target)
    requires s.tasks[i].target in s.tables.devices && s.tables.devices[s.tasks[i].target].revokedAt.None?
    ensures var k := s.tasks[i].target;
      var u := Next(config, s, Run(i, ""));
      var v := Next(config, u, Run(i, ""));
      && u.tables == s.tables.(devices := s.tables.devices[k := s.tables.devices[k].(revokedAt := Some(s.tasks[i].now))])
      && v.tables.devices == u.tables.devices
      && (forall n :: n in v.tables.nonces <==> n in s.tables.nonces && n.owner != k)
      && (forall n <- v.tables.nonces :: v.tables.nonces[n] == s.tables.nonces[n])
  {
    var k := s.tasks[i].target;
    assert {k, l} <= ActiveDevices(s.tables, k.account);
    SubsetIsSmaller({k, l}, ActiveDevices(s.tables, k.account));
  }

  /** The last active device of an account cannot be revoked, nor one that is not active. */
  lemma LastDeviceIsNotRevoked(config: Config, s: State, i: nat)
    requires i < |s.tasks| && s.tasks[i].Revoking?
    requires forall l :: !IsOther(s, l, s.tasks[i].target)
    ensures Next(config, s, Run(i, "")).tables == s.tables
  {
    var k := s.tasks[i].target;
    forall l | l in ActiveDevices(s.tables, k.account)
      ensures l == k
    {
      assert !IsOther(s, l, k);
    }
    SubsetIsSmaller(ActiveDevices(s.tables, k.account), {k});
  }

  /** A deletion leaves nothing of the account and everything of the others. */
  lemma DeletionTakesEffect(config: Config, s: State, i: nat)
    requires i < |s.tasks| && s.tasks[i].Deleting?
    ensures var account, t, u := s.tasks[i].account, s.tables, Next(config, s, Run(i, "")).tables;
      && u.accounts == t.accounts - {account}
      && (forall k :: k in u.devices <==> k in t.devices && k.account != account)
      && (forall k <- u.devices :: u.devices[k] == t.devices[k])
      && (forall h :: h in u.invites <==> h in t.invites && t.invites[h].creator.account != account)
      && (forall h <- u.invites :: u.invites[h] == t.invites[h])
      && (forall n :: n in u.nonces <==> n in t.nonces && n.owner.account != account)
      && (forall n <- u.nonces :: u.nonces[n] == t.nonces[n])
  {
  }

  /** A sweep keeps exactly the nonces that live and the invites that can still be claimed. */
  lemma SweepTakesEffect(config: Config, s: State, i: nat)
    requires i < |s.tasks| && s.tasks[i].Sweeping?
    ensures var now, t, u := s.tasks[i].now, s.tables, Next(config, s, Run(i, "")).tables;
      && u.accounts == t.accounts && u.devices == t.devices
      && (forall n :: n in u.nonces <==> n in t.nonces && now < t.nonces[n])
      && (forall n <- u.nonces :: u.nonces[n] == t.nonces[n])
      && (forall h :: h in u.invites <==>
            h in t.invites && now < t.invites[h].expiresAt && t.invites[h].usedAt.None?)
      && (forall h <- u.invites :: u.invites[h] == t.invites[h])
  {
  }

  /** A bootstrap founds an account that does not exist, with one device, and changes no other. */
  lemma BootstrapFounds(config: Config, s: State, k: DeviceKey)
    ensures var t, u := s.tables, Next(config, s, Bootstrap(k)).tables;
      if k.account in t.accounts || k in t.devices then u == t
      else
        && u.accounts == t.accounts + {k.account} && u.devices == t.devices[k := u.devices[k]]
        && u.devices[k].revokedAt.None? && u.devices[k].approvedBy.None? && u.devices[k].approvedAt == s.clock
        && u.invites == t.invites && u.nonces == t.nonces
  {
  }
}
