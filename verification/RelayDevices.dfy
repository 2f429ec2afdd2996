/**
 Devices of the blind relay: bootstrap, single-use invites, revocation, and replay protection of
 signed requests.

 Each SQL statement or batch is one atomic step. Requests remember what they have read and may be
 interleaved in any way, also while they are being verified; a request that crashes is one that
 takes no further step. `delay` bounds the time between the clock test of a verification and its
 INSERT, so a theorem about a delay is about the runs that meet it.
 */
module RelayDevices {
  import opened Outcomes

  // ---- the tables

  datatype DeviceKey = DeviceKey(account: string, device: string)

  /** `row` numbers the device rows in the order they were inserted. */
  datatype Device = Device(approvedBy: Option<string>, approvedAt: int, revokedAt: Option<int>, row: nat)

  datatype Invite = Invite(creator: DeviceKey, expiresAt: int, usedAt: Option<int>)

  datatype NonceKey = NonceKey(owner: DeviceKey, hash: string)

  datatype Tables = Tables(
    accounts: set<string>,
    devices: map<DeviceKey, Device>,
    invites: map<string, Invite>,
    nonces: map<NonceKey, int>,
    rows: nat)

  const Empty := Tables({}, map[], map[], map[], 0)

  /**
   SHA-256 of tokens and nonces; in seconds, the two windows of replay protection and the longest
   time a verification takes.
   */
  datatype Config = Config(hash: string -> string, skew: int, ttl: int, delay: int)

  const INVITE_TTL_SECONDS := 600
  const REPLAY_TTL_SECONDS := 600
  const MAX_CLOCK_SKEW_SECONDS := 300

  predicate IsActive(t: Tables, k: DeviceKey) {
    k in t.devices && t.devices[k].revokedAt.None?
  }

  predicate IsRevoked(t: Tables, k: DeviceKey) {
    k in t.devices && t.devices[k].revokedAt.Some?
  }

  function ActiveDevices(t: Tables, account: string): set<DeviceKey> {
    set k | k in t.devices && k.account == account && IsActive(t, k)
  }

  // ---- one function per SQL step

  /** INSERT account, INSERT device; the batch fails when the account exists. */
  function BootstrapStep(t: Tables, k: DeviceKey, now: int): Tables {
    if k.account in t.accounts || k in t.devices then t
    else t.(accounts := t.accounts + {k.account},
            devices := t.devices[k := Device(None, now, None, t.rows)], rows := t.rows + 1)
  }

  datatype Request = Request(owner: DeviceKey, nonce: string, timestamp: int, signed: bool)

  datatype Verdict = Unauthorized | Replayed | Accepted

  function NonceOf(config: Config, r: Request): NonceKey {
    NonceKey(r.owner, config.hash(r.nonce))
  }

  predicate InSkew(config: Config, now: int, timestamp: int) {
    -config.skew <= now - timestamp <= config.skew
  }

  /** The SELECT finds an active device, whose key verifies the signature. */
  predicate Approves(t: Tables, r: Request) {
    IsActive(t, r.owner) && r.signed
  }

  /** The primary key and the foreign key let the nonce in; a revoked device still has its row. */
  predicate Inserts(config: Config, t: Tables, r: Request) {
    NonceOf(config, r) !in t.nonces && r.owner in t.devices
  }

  /** INSERT nonce */
  function NonceStep(config: Config, t: Tables, r: Request): Tables {
    if !Inserts(config, t, r) then t
    else t.(nonces := t.nonces[NonceOf(config, r) := r.timestamp + config.ttl])
  }

  /** The verdict of a verification that nothing interrupts. */
  function Judge(config: Config, t: Tables, now: int, r: Request): Verdict {
    if !InSkew(config, now, r.timestamp) || !Approves(t, r) then Unauthorized
    else if !Inserts(config, t, r) then Replayed
    else Accepted
  }

  /** INSERT invite; the primary key and the foreign key can make it fail. */
  function InviteStep(t: Tables, creator: DeviceKey, hash: string, now: int): Tables {
    if hash in t.invites || creator !in t.devices then t
    else t.(invites := t.invites[hash := Invite(creator, now + INVITE_TTL_SECONDS, None)])
  }

  predicate Claimable(t: Tables, account: string, hash: string, now: int) {
    && hash in t.invites
    && t.invites[hash].creator.account == account
    && t.invites[hash].usedAt.None?
    && t.invites[hash].expiresAt > now
  }

  /** The claim's batch inserts a device: its INSERT ... SELECT finds the invite, its key is new. */
  predicate Admits(t: Tables, k: DeviceKey, hash: string, now: int) {
    Claimable(t, k.account, hash, now) && k !in t.devices
  }

  /** INSERT device SELECT ... FROM invite, UPDATE invite; a key conflict rolls both back. */
  function ClaimStep(t: Tables, k: DeviceKey, hash: string, now: int): Tables {
    if !Admits(t, k, hash, now) then t
    else
      var invite := t.invites[hash];
      t.(devices := t.devices[k := Device(Some(invite.creator.device), now, None, t.rows)],
         invites := t.invites[hash := invite.(usedAt := Some(now))],
         rows := t.rows + 1)
  }

  predicate Revokes(t: Tables, k: DeviceKey) {
    IsActive(t, k) && |ActiveDevices(t, k.account)| > 1
  }

  /** UPDATE devices SET revoked_at ... unless it is the last active one. */
  function RevokeStep(t: Tables, k: DeviceKey, now: int): Tables {
    if !Revokes(t, k) then t
    else t.(devices := t.devices[k := t.devices[k].(revokedAt := Some(now))])
  }

  /** DELETE FROM replay_nonces of a revoked device. */
  function CleanStep(t: Tables, k: DeviceKey): Tables {
    t.(nonces := map n | n in t.nonces && n.owner != k :: t.nonces[n])
  }

  /** The deletes of `enforceRetention`. */
  function SweepStep(t: Tables, now: int): Tables {
    t.(nonces := map n | n in t.nonces && t.nonces[n] > now :: t.nonces[n],
       invites := map h | h in t.invites && t.invites[h].expiresAt > now && t.invites[h].usedAt.None? :: t.invites[h])
  }

  /** DELETE FROM accounts; the foreign keys cascade. */
  function DeleteStep(t: Tables, account: string): Tables {
    Tables(t.accounts - {account},
           map k | k in t.devices && k.account != account :: t.devices[k],
           map h | h in t.invites && t.invites[h].creator.account != account :: t.invites[h],
           map n | n in t.nonces && n.owner.account != account :: t.nonces[n],
           t.rows)
  }

  // ---- interleaved runs

  datatype Intent = ReadOnly | CreateInvite | RevokeDevice(target: string) | DeleteAccount

  /** A request between two of its steps. */
  datatype Task =
    | Selecting(request: Request, intent: Intent, checkedAt: int)
    | Inserting(request: Request, intent: Intent, checkedAt: int)
    | Inviting(creator: DeviceKey, now: int)
    | Revoking(target: DeviceKey, now: int)
    | Cleaning(target: DeviceKey)
    | Claiming(claimant: DeviceKey, hash: string, now: int)
    | Sweeping(now: int)
    | Deleting(account: string)
    | Finished

  /** The token of an invite drawn for a request, and the clock that request read. */
  datatype Issue = Issue(creator: DeviceKey, at: int)

  /** A claim that let a device in, and the clock it read. */
  datatype Admission = Admission(hash: string, device: DeviceKey, at: int)

  /** A verified request, what it asks for, and whether its device was revoked by then. */
  datatype Acceptance = Acceptance(request: Request, intent: Intent, revoked: bool)

  /** `accepted`, `issued` and `admissions` record what happened. */
  datatype State = State(
    tables: Tables, clock: int, tasks: seq<Task>,
    accepted: seq<Acceptance>, issued: map<string, Issue>, admissions: seq<Admission>)

  datatype Event =
    | Tick(to: int)
    | Bootstrap(key: DeviceKey)
    | Verify(request: Request, intent: Intent)
    | BeginClaim(claimant: DeviceKey, token: string)
    | BeginSweep
    | Run(i: nat, token: string)

  /**
   The clock does not go back, the 32 random bytes of an invite token are new, and a verification
   meets its delay.
   */
  predicate Allowed(config: Config, s: State, e: Event) {
    match e
    case Tick(to) => to >= s.clock
    case Run(i, token) =>
      && i < |s.tasks|
      && (s.tasks[i].Inviting? ==> config.hash(token) !in s.issued)
      && (s.tasks[i].Inserting? ==> s.clock <= s.tasks[i].checkedAt + config.delay)
    case _ => true
  }

  function TaskFor(r: Request, intent: Intent, now: int): Task {
    match intent
    case ReadOnly => Finished
    case CreateInvite => Inviting(r.owner, now)
    case RevokeDevice(target) => Revoking(DeviceKey(r.owner.account, target), now)
    case DeleteAccount => Deleting(r.owner.account)
  }

  function RunTask(config: Config, s: State, i: nat, token: string): State
    requires i < |s.tasks|
  {
    var t := s.tables;
    match s.tasks[i]
    case Selecting(r, intent, at) =>
      s.(tasks := s.tasks[i := if Approves(t, r) then Inserting(r, intent, at) else Finished])
    case Inserting(r, intent, _) =>
      if !Inserts(config, t, r) then s.(tasks := s.tasks[i := Finished])
      else s.(tables := NonceStep(config, t, r), tasks := s.tasks[i := TaskFor(r, intent, s.clock)],
              accepted := s.accepted + [Acceptance(r, intent, IsRevoked(t, r.owner))])
    case Inviting(creator, now) =>
      s.(tables := InviteStep(t, creator, config.hash(token), now), tasks := s.tasks[i := Finished],
         issued := s.issued[config.hash(token) := Issue(creator, now)])
    case Revoking(target, now) =>
      s.(tables := RevokeStep(t, target, now),
         tasks := s.tasks[i := if Revokes(t, target) then Cleaning(target) else Finished])
    case Cleaning(target) => s.(tables := CleanStep(t, target), tasks := s.tasks[i := Finished])
    case Claiming(claimant, hash, now) =>
      s.(tables := ClaimStep(t, claimant, hash, now), tasks := s.tasks[i := Finished],
         admissions := if Admits(t, claimant, hash, now) then s.admissions + [Admission(hash, claimant, now)]
                       else s.admissions)
    case Sweeping(now) => s.(tables := SweepStep(t, now), tasks := s.tasks[i := Finished])
    case Deleting(account) => s.(tables := DeleteStep(t, account), tasks := s.tasks[i := Finished])
    case Finished => s
  }

  function Next(config: Config, s: State, e: Event): State
    requires Allowed(config, s, e)
  {
    match e
    case Tick(to) => s.(clock := to)
    case Bootstrap(key) => s.(tables := BootstrapStep(s.tables, key, s.clock))
    case Verify(r, intent) =>
      if !InSkew(config, s.clock, r.timestamp) then s
      else s.(tasks := s.tasks + [Selecting(r, intent, s.clock)])
    case BeginClaim(claimant, token) =>
      if !Claimable(s.tables, claimant.account, config.hash(token), s.clock) then s
      else s.(tasks := s.tasks + [Claiming(claimant, config.hash(token), s.clock)])
    case BeginSweep => s.(tasks := s.tasks + [Sweeping(s.clock)])
    case Run(i, token) => RunTask(config, s, i, token)
  }

  predicate Legal(config: Config, s: State, events: seq<Event>)
    decreases |events|
  {
    events == [] || (Allowed(config, s, events[0]) && Legal(config, Next(config, s, events[0]), events[1..]))
  }

  function After(config: Config, s: State, events: seq<Event>): State
    requires Legal(config, s, events)
    decreases |events|
  {
    if events == [] then s else After(config, Next(config, s, events[0]), events[1..])
  }

  function Initial(clock: int): State {
    State(Empty, clock, [], [], map[], [])
  }

  // ---- accounts: an active device, and approval chains

  /** The approver of k is an older device of the same account. */
  predicate ApproverIsOlder(t: Tables, k: DeviceKey)
    requires k in t.devices
  {
    var d := t.devices[k];
    d.approvedBy.Some? ==>
      var approver := DeviceKey(k.account, d.approvedBy.value);
      approver in t.devices && t.devices[approver].row < d.row
  }

  predicate DeviceIsLinked(t: Tables, k: DeviceKey)
    requires k in t.devices
  {
    k.account in t.accounts && t.devices[k].row < t.rows && ApproverIsOlder(t, k)
  }

  ghost predicate DevicesAreLinked(t: Tables) {
    forall k <- t.devices :: DeviceIsLinked(t, k)
  }

  ghost predicate InvitesAreLinked(t: Tables) {
    forall h <- t.invites :: t.invites[h].creator in t.devices
  }

  predicate IsFounder(t: Tables, k: DeviceKey) {
    k in t.devices && t.devices[k].approvedBy.None?
  }

  ghost predicate OneFounder(t: Tables) {
    forall k, l :: IsFounder(t, k) && IsFounder(t, l) && k.account == l.account ==> k == l
  }

  predicate HasActive(t: Tables, account: string) {
    ActiveDevices(t, account) != {}
  }

  ghost predicate AccountsHaveActive(t: Tables) {
    forall a <- t.accounts :: HasActive(t, a)
  }

  ghost predicate Linked(t: Tables) {
    DevicesAreLinked(t) && InvitesAreLinked(t) && OneFounder(t) && AccountsHaveActive(t)
  }

  lemma ActiveWitness(t: Tables, k: DeviceKey)
    requires IsActive(t, k)
    ensures HasActive(t, k.account)
  {
    assert k in ActiveDevices(t, k.account);
  }

  /** A step that deactivates no device of the account. */
  lemma StaysActive(t: Tables, u: Tables, account: string)
    requires HasActive(t, account)
    requires forall k: DeviceKey :: k.account == account && IsActive(t, k) ==> IsActive(u, k)
    ensures HasActive(u, account)
  {
  }

  /** Inserting the device row d under a new key. */
  lemma InsertKeepsDevicesLinked(t: Tables, u: Tables, k: DeviceKey, d: Device)
    requires DevicesAreLinked(t) && k !in t.devices && d.row == t.rows && u.rows == t.rows + 1
    requires u.devices == t.devices[k := d] && t.accounts <= u.accounts && k.account in u.accounts
    requires d.approvedBy.Some? ==> DeviceKey(k.account, d.approvedBy.value) in t.devices
    ensures DevicesAreLinked(u)
  {
  }

  lemma InsertKeepsActive(t: Tables, u: Tables, k: DeviceKey, d: Device)
    requires AccountsHaveActive(t) && k !in t.devices && d.revokedAt.None?
    requires u.devices == t.devices[k := d] && u.accounts <= t.accounts + {k.account}
    ensures AccountsHaveActive(u)
  {
    forall a | a in u.accounts
      ensures HasActive(u, a)
    {
      if a == k.account {
        ActiveWitness(u, k);
      } else {
        StaysActive(t, u, a);
      }
    }
  }

  lemma InsertApprovedKeepsFounder(t: Tables, u: Tables, k: DeviceKey, d: Device)
    requires OneFounder(t) && u.devices == t.devices[k := d] && d.approvedBy.Some?
    ensures OneFounder(u)
  {
  }

  lemma BootstrapKeepsLinked(t: Tables, k: DeviceKey, now: int)
    requires Linked(t)
    ensures Linked(BootstrapStep(t, k, now))
  {
    var u := BootstrapStep(t, k, now);
    if u != t {
      var d := Device(None, now, None, t.rows);
      InsertKeepsDevicesLinked(t, u, k, d);
      InsertKeepsActive(t, u, k, d);
      forall l | IsFounder(u, l) && l.account == k.account
        ensures l == k
      {
        assert l in t.devices ==> DeviceIsLinked(t, l);
      }
      forall l, m | IsFounder(u, l) && IsFounder(u, m) && l.account == m.account
        ensures l == m
      {
        assert l.account != k.account ==> IsFounder(t, l) && IsFounder(t, m);
      }
    }
  }

  lemma InsertApprovedKeepsLinked(t: Tables, u: Tables, k: DeviceKey, d: Device)
    requires Linked(t) && k !in t.devices && k.account in t.accounts
    requires d.row == t.rows && d.revokedAt.None? && d.approvedBy.Some?
    requires DeviceKey(k.account, d.approvedBy.value) in t.devices
    requires u.devices == t.devices[k := d] && u.accounts == t.accounts && u.rows == t.rows + 1
    requires forall h <- u.invites :: h in t.invites && u.invites[h].creator == t.invites[h].creator
    ensures Linked(u)
  {
    InsertKeepsDevicesLinked(t, u, k, d);
    InsertKeepsActive(t, u, k, d);
    InsertApprovedKeepsFounder(t, u, k, d);
  }

  lemma ClaimKeepsLinked(t: Tables, k: DeviceKey, hash: string, now: int)
    requires Linked(t)
    ensures Linked(ClaimStep(t, k, hash, now))
  {
    if Admits(t, k, hash, now) {
      var u := ClaimStep(t, k, hash, now);
      assert DeviceIsLinked(t, t.invites[hash].creator);
      InsertApprovedKeepsLinked(t, u, k, u.devices[k]);
    }
  }

  lemma MoreThanOneMinusOne<T>(s: set<T>, x: T)
    requires |s| > 1
    ensures s - {x} != {}
  {
    if s - {x} == {} {
      assert s <= {x};
      assert |s| <= |{x}| by { SubsetIsSmaller(s, {x}); }
    }
  }

  lemma {:induction false} SubsetIsSmaller<T>(a: set<T>, b: set<T>)
    requires a <= b
    ensures |a| <= |b|
  {
    if a != {} {
      var x :| x in a;
      SubsetIsSmaller(a - {x}, b - {x});
    }
  }

  /** Setting revoked_at changes no key, approver or row number. */
  lemma UpdateKeepsDevicesLinked(t: Tables, u: Tables, k: DeviceKey, now: int)
    requires DevicesAreLinked(t) && OneFounder(t) && k in t.devices
    requires u == t.(devices := t.devices[k := t.devices[k].(revokedAt := Some(now))])
    ensures DevicesAreLinked(u) && OneFounder(u)
  {
    forall l | l in u.devices
      ensures DeviceIsLinked(u, l)
    {
      assert DeviceIsLinked(t, l);
    }
    forall l | IsFounder(u, l)
      ensures IsFounder(t, l)
    {
    }
  }

  /** The guard of the UPDATE leaves another active device. */
  lemma RevokeLeavesActive(t: Tables, k: DeviceKey, now: int)
    requires Revokes(t, k)
    ensures HasActive(RevokeStep(t, k, now), k.account)
  {
    MoreThanOneMinusOne(ActiveDevices(t, k.account), k);
    var l :| l in ActiveDevices(t, k.account) - {k};
    ActiveWitness(RevokeStep(t, k, now), l);
  }

  lemma RevokeKeepsActive(t: Tables, u: Tables, k: DeviceKey, d: Device)
    requires AccountsHaveActive(t) && u.accounts == t.accounts && u.devices == t.devices[k := d]
    requires HasActive(u, k.account)
    ensures AccountsHaveActive(u)
  {
  }

  lemma RevokeKeepsLinked(t: Tables, k: DeviceKey, now: int)
    requires Linked(t)
    ensures Linked(RevokeStep(t, k, now))
  {
    var u := RevokeStep(t, k, now);
    if Revokes(t, k) {
      UpdateKeepsDevicesLinked(t, u, k, now);
      RevokeLeavesActive(t, k, now);
      RevokeKeepsActive(t, u, k, u.devices[k]);
    }
  }

  lemma DeleteKeepsActive(t: Tables, account: string)
    requires AccountsHaveActive(t)
    ensures AccountsHaveActive(DeleteStep(t, account))
  {
    var u := DeleteStep(t, account);
    forall a | a in u.accounts
      ensures HasActive(u, a)
    {
      StaysActive(t, u, a);
    }
  }

  lemma DeleteKeepsDevicesLinked(t: Tables, account: string)
    requires DevicesAreLinked(t) && OneFounder(t)
    ensures DevicesAreLinked(DeleteStep(t, account)) && OneFounder(DeleteStep(t, account))
  {
    var u := DeleteStep(t, account);
    forall l | l in u.devices
      ensures DeviceIsLinked(u, l)
    {
      assert DeviceIsLinked(t, l);
    }
    forall l | IsFounder(u, l)
      ensures IsFounder(t, l)
    {
    }
  }

  lemma DeleteKeepsLinked(t: Tables, account: string)
    requires Linked(t)
    ensures Linked(DeleteStep(t, account))
  {
    DeleteKeepsActive(t, account);
    DeleteKeepsDevicesLinked(t, account);
  }

  /** Steps that touch only invites and nonces. */
  lemma SideTablesKeepLinked(t: Tables, u: Tables)
    requires Linked(t) && u.accounts == t.accounts && u.devices == t.devices && u.rows == t.rows
    requires InvitesAreLinked(u)
    ensures Linked(u)
  {
    forall a | a in t.accounts
      ensures HasActive(u, a)
    {
      StaysActive(t, u, a);
    }
    forall l | l in u.devices
      ensures DeviceIsLinked(u, l)
    {
      assert DeviceIsLinked(t, l);
    }
    forall l | IsFounder(u, l)
      ensures IsFounder(t, l)
    {
    }
  }

  lemma OtherTasksTouchSideTables(config: Config, s: State, i: nat, token: string)
    requires InvitesAreLinked(s.tables) && i < |s.tasks|
    requires !s.tasks[i].Revoking? && !s.tasks[i].Claiming? && !s.tasks[i].Deleting?
    ensures var t, u := s.tables, RunTask(config, s, i, token).tables;
      u.accounts == t.accounts && u.devices == t.devices && u.rows == t.rows && InvitesAreLinked(u)
  {
  }

  lemma RunKeepsLinked(config: Config, s: State, i: nat, token: string)
    requires Linked(s.tables) && i < |s.tasks|
    ensures Linked(RunTask(config, s, i, token).tables)
  {
    var t, u := s.tables, RunTask(config, s, i, token).tables;
    match s.tasks[i]
    case Revoking(target, now) => RevokeKeepsLinked(t, target, now);
    case Claiming(claimant, hash, now) => ClaimKeepsLinked(t, claimant, hash, now);
    case Deleting(account) => DeleteKeepsLinked(t, account);
    case _ =>
      OtherTasksTouchSideTables(config, s, i, token);
      SideTablesKeepLinked(t, u);
  }

  lemma NextKeepsLinked(config: Config, s: State, e: Event)
    requires Linked(s.tables) && Allowed(config, s, e)
    ensures Linked(Next(config, s, e).tables)
  {
    match e
    case Bootstrap(key) => BootstrapKeepsLinked(s.tables, key, s.clock);
    case Run(i, token) => RunKeepsLinked(config, s, i, token);
    case _ =>
  }

  lemma {:induction false} RunsKeepLinked(config: Config, s: State, events: seq<Event>)
    requires Linked(s.tables) && Legal(config, s, events)
    ensures Linked(After(config, s, events).tables)
    decreases |events|
  {
    if events != [] {
      NextKeepsLinked(config, s, events[0]);
      RunsKeepLinked(config, Next(config, s, events[0]), events[1..]);
    }
  }

  /** In every reachable state every account that exists has an active device. */
  lemma SomeDeviceIsActive(config: Config, clock: int, events: seq<Event>, account: string)
    requires Legal(config, Initial(clock), events)
    requires account in After(config, Initial(clock), events).tables.accounts
    ensures exists k: DeviceKey :: k.account == account && IsActive(After(config, Initial(clock), events).tables, k)
  {
    RunsKeepLinked(config, Initial(clock), events);
    var t := After(config, Initial(clock), events).tables;
    var k :| k in ActiveDevices(t, account);
  }

  /** The n-th device up the `approved_by` chain; it stays at a device nobody approved. */
  function Ancestor(t: Tables, k: DeviceKey, n: nat): DeviceKey
    decreases n
  {
    if n == 0 || k !in t.devices || t.devices[k].approvedBy.None? then k
    else Ancestor(t, DeviceKey(k.account, t.devices[k].approvedBy.value), n - 1)
  }

  lemma {:induction false} ChainEnds(t: Tables, k: DeviceKey, n: nat)
    requires Linked(t) && k in t.devices && t.devices[k].row <= n
    ensures IsFounder(t, Ancestor(t, k, n)) && Ancestor(t, k, n).account == k.account
    decreases n
  {
    assert ApproverIsOlder(t, k);
    if t.devices[k].approvedBy.Some? {
      ChainEnds(t, DeviceKey(k.account, t.devices[k].approvedBy.value), n - 1);
    }
  }

  /** From any two devices of an account the chains reach the same device, the bootstrap device. */
  lemma ApprovalChainsReachTheFounder(config: Config, clock: int, events: seq<Event>, k: DeviceKey, l: DeviceKey)
    requires Legal(config, Initial(clock), events) && k.account == l.account
    requires k in After(config, Initial(clock), events).tables.devices
    requires l in After(config, Initial(clock), events).tables.devices
    ensures var t := After(config, Initial(clock), events).tables;
      && IsFounder(t, Ancestor(t, k, t.devices[k].row))
      && Ancestor(t, k, t.devices[k].row) == Ancestor(t, l, t.devices[l].row)
  {
    RunsKeepLinked(config, Initial(clock), events);
    var t := After(config, Initial(clock), events).tables;
    ChainEnds(t, k, t.devices[k].row);
    ChainEnds(t, l, t.devices[l].row);
  }

  // ---- single-use invites

  /** Invites and admissions use recorded tokens, and an admission leaves its invite used. */
  ghost predicate InvitesAreSingleUse(s: State) {
    && (forall h <- s.tables.invites :: h in s.issued)
    && (forall i :: 0 <= i < |s.admissions| ==> IsSpent(s, s.admissions[i].hash))
    && (forall i, j :: 0 <= i < j < |s.admissions| ==> s.admissions[i].hash != s.admissions[j].hash)
  }

  predicate IsSpent(s: State, hash: string) {
    hash in s.issued && (hash in s.tables.invites ==> s.tables.invites[hash].usedAt.Some?)
  }

  lemma InviteKeepsSingleUse(config: Config, s: State, i: nat, token: string)
    requires InvitesAreSingleUse(s) && Allowed(config, s, Run(i, token)) && s.tasks[i].Inviting?
    ensures InvitesAreSingleUse(RunTask(config, s, i, token))
  {
  }

  lemma ClaimKeepsSingleUse(config: Config, s: State, i: nat, token: string)
    requires InvitesAreSingleUse(s) && i < |s.tasks| && s.tasks[i].Claiming?
    ensures InvitesAreSingleUse(RunTask(config, s, i, token))
  {
  }

  /** Steps that only remove invites. */
  lemma RemovalKeepsSingleUse(s: State, u: State)
    requires InvitesAreSingleUse(s) && u.issued == s.issued && u.admissions == s.admissions
    requires forall h <- u.tables.invites :: h in s.tables.invites && u.tables.invites[h] == s.tables.invites[h]
    ensures InvitesAreSingleUse(u)
  {
  }

  lemma NextKeepsSingleUse(config: Config, s: State, e: Event)
    requires InvitesAreSingleUse(s) && Allowed(config, s, e)
    ensures InvitesAreSingleUse(Next(config, s, e))
  {
    if e.Run? && s.tasks[e.i].Inviting? {
      InviteKeepsSingleUse(config, s, e.i, e.token);
    } else if e.Run? && s.tasks[e.i].Claiming? {
      ClaimKeepsSingleUse(config, s, e.i, e.token);
    } else {
      RemovalKeepsSingleUse(s, Next(config, s, e));
    }
  }

  lemma {:induction false} RunsKeepSingleUse(config: Config, s: State, events: seq<Event>)
    requires InvitesAreSingleUse(s) && Legal(config, s, events)
    ensures InvitesAreSingleUse(After(config, s, events))
    decreases |events|
  {
    if events != [] {
      NextKeepsSingleUse(config, s, events[0]);
      RunsKeepSingleUse(config, Next(config, s, events[0]), events[1..]);
    }
  }

  /** No invite ever admits a second device, however claims, sweeps and deletions interleave. */
  lemma InviteAdmitsOneDevice(config: Config, clock: int, events: seq<Event>, i: nat, j: nat)
    requires Legal(config, Initial(clock), events)
    requires i < |After(config, Initial(clock), events).admissions|
    requires j < |After(config, Initial(clock), events).admissions|
    requires After(config, Initial(clock), events).admissions[i].hash == After(config, Initial(clock), events).admissions[j].hash
    ensures i == j
  {
    RunsKeepSingleUse(config, Initial(clock), events);
  }

  // ---- verification

  /** A verification that nothing interrupts gives the verdict of `Judge`. */
  lemma VerifyIsARun(config: Config, s: State, r: Request, intent: Intent)
    requires config.delay >= 0 && InSkew(config, s.clock, r.timestamp)
    ensures var go := Run(|s.tasks|, "");
      var events := [Verify(r, intent)] + ([go] + [go]);
      && Legal(config, s, events)
      && After(config, s, events) ==
           if Judge(config, s.tables, s.clock, r).Accepted?
           then s.(tables := NonceStep(config, s.tables, r), tasks := s.tasks + [TaskFor(r, intent, s.clock)],
                   accepted := s.accepted + [Acceptance(r, intent, false)])
           else s.(tasks := s.tasks + [Finished])
  {
    var go := Run(|s.tasks|, "");
    var s1 := s.(tasks := s.tasks + [Selecting(r, intent, s.clock)]);
    var s2 := SelectIsOneStep(config, s1, s.tasks, r, intent, s.clock);
    InsertIsTheVerdict(config, s, s2, r, intent);
    ThreeEvents(config, s, Verify(r, intent), go, s1, s2);
  }

  lemma InsertIsTheVerdict(config: Config, s: State, s2: State, r: Request, intent: Intent)
    requires config.delay >= 0 && InSkew(config, s.clock, r.timestamp)
    requires s2 == s.(tasks := s.tasks + [if Approves(s.tables, r) then Inserting(r, intent, s.clock) else Finished])
    ensures Allowed(config, s2, Run(|s.tasks|, ""))
    ensures Next(config, s2, Run(|s.tasks|, "")) ==
      if Judge(config, s.tables, s.clock, r).Accepted?
      then s.(tables := NonceStep(config, s.tables, r), tasks := s.tasks + [TaskFor(r, intent, s.clock)],
              accepted := s.accepted + [Acceptance(r, intent, false)])
      else s.(tasks := s.tasks + [Finished])
  {
    if Approves(s.tables, r) {
      assert !IsRevoked(s.tables, r.owner);
      InsertIsOneStep(config, s2, s.tasks, r, intent, s.clock);
    } else {
      assert s2.tasks[|s.tasks|] == Finished;
    }
  }

  lemma ThreeEvents(config: Config, s: State, first: Event, go: Event, s1: State, s2: State)
    requires Allowed(config, s, first) && s1 == Next(config, s, first)
    requires Allowed(config, s1, go) && s2 == Next(config, s1, go) && Allowed(config, s2, go)
    ensures Legal(config, s, [first] + ([go] + [go]))
    ensures After(config, s, [first] + ([go] + [go])) == Next(config, s2, go)
  {
    OneEvent(config, s2, go);
    OneMore(config, s1, go, [go]);
    OneMore(config, s, first, [go] + [go]);
  }

  /** The SELECT of the last task. */
  lemma SelectIsOneStep(config: Config, s: State, others: seq<Task>, r: Request, intent: Intent, at: int)
    returns (u: State)
    requires s.tasks == others + [Selecting(r, intent, at)]
    ensures Allowed(config, s, Run(|others|, "")) && u == Next(config, s, Run(|others|, ""))
    ensures u == s.(tasks := others + [if Approves(s.tables, r) then Inserting(r, intent, at) else Finished])
  {
    u := Next(config, s, Run(|others|, ""));
    assert u.tasks == others + [if Approves(s.tables, r) then Inserting(r, intent, at) else Finished];
  }

  /** The INSERT of the last task. */
  lemma InsertIsOneStep(config: Config, s: State, others: seq<Task>, r: Request, intent: Intent, at: int)
    requires s.tasks == others + [Inserting(r, intent, at)] && s.clock <= at + config.delay
    ensures Allowed(config, s, Run(|others|, ""))
    ensures Next(config, s, Run(|others|, "")) ==
      if Inserts(config, s.tables, r)
      then s.(tables := NonceStep(config, s.tables, r), tasks := others + [TaskFor(r, intent, s.clock)],
              accepted := s.accepted + [Acceptance(r, intent, IsRevoked(s.tables, r.owner))])
      else s.(tasks := others + [Finished])
  {
    var u := Next(config, s, Run(|others|, ""));
    assert u.tasks == others + [if Inserts(config, s.tables, r) then TaskFor(r, intent, s.clock) else Finished];
  }

  // ---- revocation and replay

  /** Deletions of other accounts are allowed. */
  predicate Spares(e: Event, account: string) {
    e.Verify? && e.intent.DeleteAccount? ==> e.request.owner.account != account
  }

  predicate AllSpare(events: seq<Event>, account: string) {
    forall e <- events :: Spares(e, account)
  }

  predicate TaskSpares(task: Task, account: string) {
    match task
    case Selecting(r, intent, _) => intent.DeleteAccount? ==> r.owner.account != account
    case Inserting(r, intent, _) => intent.DeleteAccount? ==> r.owner.account != account
    case Deleting(a) => a != account
    case _ => true
  }

  ghost predicate TasksSpare(s: State, account: string) {
    forall i :: 0 <= i < |s.tasks| ==> TaskSpares(s.tasks[i], account)
  }

  /** The nonce row of r is there, or no verification of r can still end, or its device is revoked. */
  predicate IsBlocked(config: Config, s: State, r: Request) {
    || (NonceOf(config, r) in s.tables.nonces && s.tables.nonces[NonceOf(config, r)] >= r.timestamp + config.ttl)
    || s.clock >= r.timestamp + config.ttl
    || IsRevoked(s.tables, r.owner)
  }

  /**
   Nothing deletes the account; cleanups in it are for revoked devices; sweeps and verifications have
   read the clock in the past, the latter within the skew.
   */
  predicate TaskIsSound(config: Config, s: State, task: Task, account: string) {
    && TaskSpares(task, account)
    && match task
       case Selecting(r, _, at) => InSkew(config, at, r.timestamp)
       case Inserting(r, _, at) => InSkew(config, at, r.timestamp)
       case Cleaning(target) => target.account == account ==> IsRevoked(s.tables, target)
       case Sweeping(now) => now <= s.clock
       case _ => true
  }

  predicate IsOf(a: Acceptance, account: string) {
    a.request.owner.account == account
  }

  ghost predicate TasksAreSound(config: Config, s: State, account: string) {
    forall i :: 0 <= i < |s.tasks| ==> TaskIsSound(config, s, s.tasks[i], account)
  }

  ghost predicate ReplaysAreBlocked(config: Config, s: State, account: string) {
    && TasksAreSound(config, s, account)
    && (forall i :: 0 <= i < |s.accepted| && IsOf(s.accepted[i], account) ==>
          IsBlocked(config, s, s.accepted[i].request))
    && NoReplay(s.accepted, account)
  }

  /**
   Requests of the account with the same device, nonce and timestamp are accepted once, except that a
   verification which overlaps with the revocation of its device can end after it.
   */
  ghost predicate NoReplay(accepted: seq<Acceptance>, account: string) {
    forall i, j :: 0 <= i < j < |accepted| && IsOf(accepted[i], account) && !accepted[j].revoked ==>
      !SameRequest(accepted[i].request, accepted[j].request)
  }

  /** The same device, nonce and timestamp. */
  predicate SameRequest(a: Request, b: Request) {
    a.owner == b.owner && a.nonce == b.nonce && a.timestamp == b.timestamp
  }

  /** Time passes; in the account nothing is unrevoked, and live nonces of unrevoked devices stay. */
  ghost predicate Advances(s: State, u: State, account: string) {
    && s.clock <= u.clock
    && (forall k: DeviceKey :: k.account == account && IsRevoked(s.tables, k) ==> IsRevoked(u.tables, k))
    && (forall n <- s.tables.nonces :: n.owner.account == account ==> NonceStays(s, u, n))
  }

  predicate NonceStays(s: State, u: State, n: NonceKey)
    requires n in s.tables.nonces
  {
    || (n in u.tables.nonces && u.tables.nonces[n] >= s.tables.nonces[n])
    || u.clock >= s.tables.nonces[n]
    || IsRevoked(u.tables, n.owner)
  }

  lemma BlockedStaysBlocked(config: Config, s: State, u: State, r: Request)
    requires Advances(s, u, r.owner.account) && IsBlocked(config, s, r)
    ensures IsBlocked(config, u, r)
  {
    if NonceOf(config, r) in s.tables.nonces {
      assert NonceStays(s, u, NonceOf(config, r));
    }
  }

  lemma NextAdvances(config: Config, s: State, e: Event, account: string)
    requires Allowed(config, s, e) && Spares(e, account) && TasksAreSound(config, s, account)
    ensures Advances(s, Next(config, s, e), account)
  {
    var u := Next(config, s, e);
    if e.Run? {
      assert TaskIsSound(config, s, s.tasks[e.i], account);
    }
    forall n | n in s.tables.nonces && n.owner.account == account
      ensures NonceStays(s, u, n)
    {
    }
  }

  lemma NewTasksAreSound(config: Config, s: State, e: Event, account: string, i: nat)
    requires Allowed(config, s, e) && Spares(e, account) && i < |Next(config, s, e).tasks|
    requires i < |s.tasks| ==> TaskIsSound(config, s, s.tasks[i], account)
    ensures (i < |s.tasks| && Next(config, s, e).tasks[i] == s.tasks[i])
         || TaskIsSound(config, Next(config, s, e), Next(config, s, e).tasks[i], account)
  {
  }

  lemma NextKeepsTasksSound(config: Config, s: State, e: Event, account: string)
    requires Allowed(config, s, e) && Spares(e, account) && TasksAreSound(config, s, account)
    ensures TasksAreSound(config, Next(config, s, e), account)
  {
    var u := Next(config, s, e);
    NextAdvances(config, s, e, account);
    forall i | 0 <= i < |u.tasks|
      ensures TaskIsSound(config, u, u.tasks[i], account)
    {
      assert i < |s.tasks| ==> TaskIsSound(config, s, s.tasks[i], account);
      NewTasksAreSound(config, s, e, account, i);
    }
  }

  /** A blocked request is not accepted again while its device is active, if windows and delay fit. */
  lemma BlockedIsRejected(config: Config, s: State, earlier: Request, r: Request, checkedAt: int)
    requires config.skew + config.delay < config.ttl && IsBlocked(config, s, earlier) && SameRequest(earlier, r)
    requires InSkew(config, checkedAt, r.timestamp) && s.clock <= checkedAt + config.delay
    ensures Inserts(config, s.tables, r) ==> IsRevoked(s.tables, r.owner)
  {
  }

  function AcceptanceOf(s: State, task: Task): Acceptance
    requires task.Inserting?
  {
    Acceptance(task.request, task.intent, IsRevoked(s.tables, task.request.owner))
  }

  /** Only the INSERT of a verification extends the list, and its request is blocked from then on. */
  lemma AcceptedGrows(config: Config, s: State, e: Event)
    requires Allowed(config, s, e)
    ensures var u := Next(config, s, e);
      || u.accepted == s.accepted
      || (e.Run? && s.tasks[e.i].Inserting? && Inserts(config, s.tables, s.tasks[e.i].request)
          && u.accepted == s.accepted + [AcceptanceOf(s, s.tasks[e.i])]
          && IsBlocked(config, u, s.tasks[e.i].request))
  {
  }

  lemma NextKeepsReplaysBlocked(config: Config, s: State, e: Event, account: string)
    requires config.skew + config.delay < config.ttl
    requires Allowed(config, s, e) && Spares(e, account) && ReplaysAreBlocked(config, s, account)
    ensures ReplaysAreBlocked(config, Next(config, s, e), account)
  {
    var u := Next(config, s, e);
    NextKeepsTasksSound(config, s, e, account);
    NextAdvances(config, s, e, account);
    AcceptedGrows(config, s, e);
    forall i | 0 <= i < |s.accepted| && IsOf(s.accepted[i], account)
      ensures IsBlocked(config, u, s.accepted[i].request)
      ensures |u.accepted| > |s.accepted| && !u.accepted[|s.accepted|].revoked ==>
        !SameRequest(s.accepted[i].request, u.accepted[|s.accepted|].request)
    {
      BlockedStaysBlocked(config, s, u, s.accepted[i].request);
      if |u.accepted| > |s.accepted| && SameRequest(s.accepted[i].request, s.tasks[e.i].request) {
        assert TaskIsSound(config, s, s.tasks[e.i], account);
        BlockedIsRejected(config, s, s.accepted[i].request, s.tasks[e.i].request, s.tasks[e.i].checkedAt);
      }
    }
  }

  lemma {:induction false} RunsKeepReplaysBlocked(config: Config, s: State, events: seq<Event>, account: string)
    requires config.skew + config.delay < config.ttl
    requires ReplaysAreBlocked(config, s, account) && Legal(config, s, events) && AllSpare(events, account)
    ensures ReplaysAreBlocked(config, After(config, s, events), account)
    decreases |events|
  {
    if events != [] {
      assert events[0] in events && AllSpare(events[1..], account);
      NextKeepsReplaysBlocked(config, s, events[0], account);
      RunsKeepReplaysBlocked(config, Next(config, s, events[0]), events[1..], account);
    }
  }

  predicate DeletesWithin(e: Event, deletable: set<string>) {
    e.Verify? && e.intent.DeleteAccount? ==> e.request.owner.account in deletable
  }

  /** Only the given accounts are deleted. */
  predicate DeletesOnly(events: seq<Event>, deletable: set<string>) {
    forall e <- events :: DeletesWithin(e, deletable)
  }

  /** In no run that deletes some of the given accounts is a request of the account accepted twice. */
  ghost predicate NeverReplays(config: Config, account: string, deletable: set<string>) {
    forall clock: int, events: seq<Event> :: Legal(config, Initial(clock), events) && DeletesOnly(events, deletable) ==>
      NoReplay(After(config, Initial(clock), events).accepted, account)
  }

  // ---- concrete runs

  lemma OneMore(config: Config, s: State, e: Event, events: seq<Event>)
    requires Allowed(config, s, e) && Legal(config, Next(config, s, e), events)
    ensures Legal(config, s, [e] + events)
    ensures After(config, s, [e] + events) == After(config, Next(config, s, e), events)
  {
  }

  lemma OneEvent(config: Config, s: State, e: Event)
    requires Allowed(config, s, e)
    ensures Legal(config, s, [e]) && After(config, s, [e]) == Next(config, s, e)
  {
  }

  lemma {:induction false} LegalConcat(config: Config, s: State, a: seq<Event>, b: seq<Event>)
    requires Legal(config, s, a) && Legal(config, After(config, s, a), b)
    ensures Legal(config, s, a + b) && After(config, s, a + b) == After(config, After(config, s, a), b)
    decreases |a|
  {
    if a == [] {
      assert a + b == b;
    } else {
      LegalConcat(config, Next(config, s, a[0]), a[1..], b);
      assert (a + b)[1..] == a[1..] + b;
    }
  }

  /** s is reached at time 0 without deleting other accounts than the given ones. */
  ghost predicate Reached(config: Config, s: State, deletable: set<string>) {
    exists events: seq<Event> ::
      Legal(config, Initial(0), events) && DeletesOnly(events, deletable) && After(config, Initial(0), events) == s
  }

  lemma InitialIsReached(config: Config, deletable: set<string>)
    ensures Reached(config, Initial(0), deletable)
  {
    assert Legal(config, Initial(0), []) && DeletesOnly([], deletable) && After(config, Initial(0), []) == Initial(0);
  }

  lemma LaterIsReached(config: Config, s: State, events: seq<Event>, deletable: set<string>)
    requires Reached(config, s, deletable) && Legal(config, s, events) && DeletesOnly(events, deletable)
    ensures Reached(config, After(config, s, events), deletable)
  {
    var before: seq<Event> :|
      Legal(config, Initial(0), before) && DeletesOnly(before, deletable) && After(config, Initial(0), before) == s;
    LegalConcat(config, Initial(0), before, events);
    assert DeletesOnly(before + events, deletable);
  }

  lemma NextIsReached(config: Config, s: State, e: Event, deletable: set<string>)
    requires Reached(config, s, deletable) && Allowed(config, s, e) && DeletesWithin(e, deletable)
    ensures Reached(config, Next(config, s, e), deletable)
  {
    OneEvent(config, s, e);
    LaterIsReached(config, s, [e], deletable);
  }

  lemma VerifiedIsReached(config: Config, s: State, r: Request, intent: Intent, deletable: set<string>)
    requires Reached(config, s, deletable) && config.delay >= 0 && Judge(config, s.tables, s.clock, r).Accepted?
    requires intent.DeleteAccount? ==> r.owner.account in deletable
    ensures Reached(config,
      s.(tables := NonceStep(config, s.tables, r), tasks := s.tasks + [TaskFor(r, intent, s.clock)],
         accepted := s.accepted + [Acceptance(r, intent, false)]), deletable)
  {
    var go := Run(|s.tasks|, "");
    VerifyIsARun(config, s, r, intent);
    LaterIsReached(config, s, [Verify(r, intent)] + ([go] + [go]), deletable);
  }

  /** The requests that are accepted twice, while the device is active, refute replay protection. */
  lemma ReplayRefutes(config: Config, s: State, r: Request, a: Intent, b: Intent, deletable: set<string>)
    requires Reached(config, s, deletable) && s.accepted == [Acceptance(r, a, false), Acceptance(r, b, false)]
    ensures !NeverReplays(config, r.owner.account, deletable)
  {
    var events: seq<Event> :|
      Legal(config, Initial(0), events) && DeletesOnly(events, deletable) && After(config, Initial(0), events) == s;
    assert IsOf(s.accepted[0], r.owner.account) && SameRequest(s.accepted[0].request, s.accepted[1].request);
    assert !NoReplay(s.accepted, r.owner.account);
  }
  /** The founder of a new account, after its first request. */
  function SignedIn(config: Config, r: Request, intent: Intent): State {
    var k := r.owner;
    State(Tables({k.account}, map[k := Device(None, 0, None, 0)], map[], map[NonceOf(config, r) := config.ttl], 1),
          0, [TaskFor(r, intent, 0)], [Acceptance(r, intent, false)], map[], [])
  }

  predicate IsFirst(config: Config, r: Request) {
    config.skew >= 0 && config.delay >= 0 && r.timestamp == 0 && r.signed
  }

  lemma SignedInIsReached(config: Config, r: Request, intent: Intent, deletable: set<string>)
    requires IsFirst(config, r) && (intent.DeleteAccount? ==> r.owner.account in deletable)
    ensures Reached(config, SignedIn(config, r, intent), deletable)
  {
    var s := Next(config, Initial(0), Bootstrap(r.owner));
    InitialIsReached(config, deletable);
    NextIsReached(config, Initial(0), Bootstrap(r.owner), deletable);
    VerifiedIsReached(config, s, r, intent, deletable);
    assert s.tables == Tables({r.owner.account}, map[r.owner := Device(None, 0, None, 0)], map[], map[], 1);
    assert NonceStep(config, s.tables, r) == SignedIn(config, r, intent).tables;
  }

  /** The second verification of r waits for its INSERT. */
  function WaitsAgain(config: Config, r: Request): State {
    SignedIn(config, r, ReadOnly).(clock := config.skew, tasks := [Finished, Inserting(r, ReadOnly, config.skew)])
  }

  lemma WaitsAgainIsReached(config: Config, r: Request, deletable: set<string>)
    requires IsFirst(config, r)
    ensures Reached(config, WaitsAgain(config, r), deletable)
  {
    var s := SignedIn(config, r, ReadOnly);
    SignedInIsReached(config, r, ReadOnly, deletable);
    NextIsReached(config, s, Tick(config.skew), deletable);
    var s1 := s.(clock := config.skew);
    NextIsReached(config, s1, Verify(r, ReadOnly), deletable);
    var s2 := Next(config, s1, Verify(r, ReadOnly));
    var s3 := SelectIsOneStep(config, s2, [Finished], r, ReadOnly, config.skew);
    NextIsReached(config, s2, Run(1, ""), deletable);
    assert s3 == WaitsAgain(config, r);
  }

  /** With windows and delay that reach the nonce lifetime a purge lets a waiting request in again. */
  lemma PurgeAllowsReplay(config: Config, r: Request, deletable: set<string>)
    requires IsFirst(config, r) && config.skew + config.delay >= config.ttl
    ensures !NeverReplays(config, r.owner.account, deletable)
  {
    var later := if config.ttl < config.skew then config.skew else config.ttl;
    var s := WaitsAgain(config, r);
    WaitsAgainIsReached(config, r, deletable);
    NextIsReached(config, s, Tick(later), deletable);
    var s1 := s.(clock := later);
    NextIsReached(config, s1, BeginSweep, deletable);
    var s2 := s1.(tasks := s.tasks + [Sweeping(later)]);
    NextIsReached(config, s2, Run(2, ""), deletable);
    var s3 := Next(config, s2, Run(2, ""));
    assert s3.tables.nonces == map[] && s3.tasks[1] == Inserting(r, ReadOnly, config.skew);
    NextIsReached(config, s3, Run(1, ""), deletable);
    ReplayRefutes(config, Next(config, s3, Run(1, "")), r, ReadOnly, ReadOnly, deletable);
  }

  /**
   Deleting an account forgets its nonces: after a new bootstrap of the same device an old request
   passes again, even the one that asked for the deletion.
   */
  lemma DeletionAllowsReplay(config: Config, r: Request, deletable: set<string>)
    requires IsFirst(config, r) && r.owner.account in deletable
    ensures !NeverReplays(config, r.owner.account, deletable)
  {
    var k := r.owner;
    var s := SignedIn(config, r, DeleteAccount);
    SignedInIsReached(config, r, DeleteAccount, deletable);
    NextIsReached(config, s, Run(0, ""), deletable);
    var s1 := Next(config, s, Run(0, ""));
    assert s1.tables == Tables({}, map[], map[], map[], 1);
    NextIsReached(config, s1, Bootstrap(k), deletable);
    var s2 := Next(config, s1, Bootstrap(k));
    VerifiedIsReached(config, s2, r, DeleteAccount, deletable);
    var accepted := s2.accepted + [Acceptance(r, DeleteAccount, false)];
    ReplayRefutes(config, s2.(tables := NonceStep(config, s2.tables, r),
                              tasks := s2.tasks + [TaskFor(r, DeleteAccount, 0)], accepted := accepted),
                  r, DeleteAccount, DeleteAccount, deletable);
  }

  /**
   Over all runs that may delete the accounts in `deletable`, no request of an account is accepted
   again while its device is active, across any mix of requests, sweeps and revocations, exactly when
   the allowed clock skew and the delay of a verification together stay below the lifetime of a nonce
   and the account itself is not among the deletable ones.
   */
  lemma ReplayProtectionIsExact(config: Config, account: string, deletable: set<string>)
    requires config.skew >= 0 && config.delay >= 0
    ensures NeverReplays(config, account, deletable) <==>
      config.skew + config.delay < config.ttl && account !in deletable
  {
    var r := Request(DeviceKey(account, "device"), "nonce", 0, true);
    if config.skew + config.delay >= config.ttl {
      PurgeAllowsReplay(config, r, deletable);
    } else if account in deletable {
      DeletionAllowsReplay(config, r, deletable);
    } else {
      forall clock: int, events: seq<Event> | Legal(config, Initial(clock), events) && DeletesOnly(events, deletable)
        ensures NoReplay(After(config, Initial(clock), events).accepted, account)
      {
        assert forall e <- events :: DeletesWithin(e, deletable);
        assert AllSpare(events, account);
        RunsKeepReplaysBlocked(config, Initial(clock), events, account);
      }
    }
  }

  /** The relay's constants leave a verification less than 300 seconds from its clock test to its INSERT. */
  lemma RelayNeverReplays(hash: string -> string, delay: nat, account: string, deletable: set<string>)
    requires account !in deletable
    ensures NeverReplays(Config(hash, MAX_CLOCK_SKEW_SECONDS, REPLAY_TTL_SECONDS, delay), account, deletable)
         <==> delay < 300
  {
    ReplayProtectionIsExact(Config(hash, MAX_CLOCK_SKEW_SECONDS, REPLAY_TTL_SECONDS, delay), account, deletable);
  }

  // ---- verifications that overlap with a revocation

  /** The verification of a request of k has found k active, and can still meet its delay. */
  predicate CanStillPass(config: Config, s: State, i: nat, k: DeviceKey) {
    && i < |s.tasks| && s.tasks[i].Inserting? && s.tasks[i].request.owner == k
    && s.clock <= s.tasks[i].checkedAt + config.delay
  }

  /** Every request of k accepted from s on was then waiting for its INSERT. */
  ghost predicate OnlyWaitingPass(config: Config, s: State, later: seq<Acceptance>, k: DeviceKey) {
    forall a <- later :: a.request.owner == k ==> IsWaiting(config, s, a, k)
  }

  ghost predicate IsWaiting(config: Config, s: State, a: Acceptance, k: DeviceKey) {
    exists i: nat :: CanStillPass(config, s, i, k) && s.tasks[i].request == a.request
  }

  lemma RevokedStaysRevoked(config: Config, s: State, e: Event, k: DeviceKey)
    requires Allowed(config, s, e) && Spares(e, k.account) && TasksSpare(s, k.account) && IsRevoked(s.tables, k)
    ensures IsRevoked(Next(config, s, e).tables, k)
  {
    if e.Run? {
      assert TaskSpares(s.tasks[e.i], k.account);
    }
  }

  lemma NextSpares(config: Config, s: State, e: Event, account: string)
    requires Allowed(config, s, e) && Spares(e, account) && TasksSpare(s, account)
    ensures TasksSpare(Next(config, s, e), account)
  {
    var u := Next(config, s, e);
    forall i | 0 <= i < |u.tasks|
      ensures TaskSpares(u.tasks[i], account)
    {
      assert i < |s.tasks| ==> TaskSpares(s.tasks[i], account);
    }
  }

  /** A SELECT that runs after the revocation finds no active device. */
  lemma WaitingWasWaiting(config: Config, s: State, e: Event, i: nat, k: DeviceKey)
    requires Allowed(config, s, e) && IsRevoked(s.tables, k) && CanStillPass(config, Next(config, s, e), i, k)
    ensures CanStillPass(config, s, i, k) && s.tasks[i].request == Next(config, s, e).tasks[i].request
  {
  }

  /**
   A revoked device stays revoked, and of its requests at most those are still accepted whose
   verification had found it active before, and only within the delay of a verification.
   */
  lemma {:induction false} RevokedDeviceIsOut(config: Config, s: State, events: seq<Event>, k: DeviceKey)
    requires Legal(config, s, events) && AllSpare(events, k.account) && TasksSpare(s, k.account)
    requires IsRevoked(s.tables, k)
    ensures IsRevoked(After(config, s, events).tables, k)
    ensures s.accepted <= After(config, s, events).accepted
    ensures OnlyWaitingPass(config, s, After(config, s, events).accepted[|s.accepted|..], k)
    decreases |events|
  {
    if events != [] {
      var e := events[0];
      assert e in events && AllSpare(events[1..], k.account);
      var u := Next(config, s, e);
      RevokedStaysRevoked(config, s, e, k);
      NextSpares(config, s, e, k.account);
      AcceptedGrows(config, s, e);
      RevokedDeviceIsOut(config, u, events[1..], k);
      LaterPassesWereWaiting(config, s, e, After(config, s, events).accepted, k);
    }
  }

  lemma LaterPassesWereWaiting(config: Config, s: State, e: Event, all: seq<Acceptance>, k: DeviceKey)
    requires Allowed(config, s, e) && IsRevoked(s.tables, k)
    requires s.accepted <= Next(config, s, e).accepted <= all
    requires OnlyWaitingPass(config, Next(config, s, e), all[|Next(config, s, e).accepted|..], k)
    ensures OnlyWaitingPass(config, s, all[|s.accepted|..], k)
  {
    var u := Next(config, s, e);
    AcceptedGrows(config, s, e);
    forall a | a in all[|s.accepted|..] && a.request.owner == k
      ensures IsWaiting(config, s, a, k)
    {
      var n :| |s.accepted| <= n < |all| && all[n] == a;
      if n < |u.accepted| {
        assert a == u.accepted[n];
        assert CanStillPass(config, s, e.i, k);
      } else {
        assert a == all[|u.accepted|..][n - |u.accepted|];
        assert IsWaiting(config, u, a, k);
        var i: nat :| CanStillPass(config, u, i, k) && u.tasks[i].request == a.request;
        WaitingWasWaiting(config, s, e, i, k);
      }
    }
  }

  /** No request of k is accepted any more, whatever follows. */
  ghost predicate StaysOut(config: Config, s: State, k: DeviceKey) {
    forall events: seq<Event> :: Legal(config, s, events) && AllSpare(events, k.account) ==>
      NoneOf(k, After(config, s, events).accepted, |s.accepted|)
  }

  ghost predicate NoneOf(k: DeviceKey, accepted: seq<Acceptance>, n: nat) {
    forall i :: n <= i < |accepted| ==> accepted[i].request.owner != k
  }

  /**
   Once the nonces of a revoked device are deleted, no request of it is accepted any more exactly when
   none is waiting for its INSERT.
   */
  lemma RevocationIsFinalExactly(config: Config, s: State, k: DeviceKey)
    requires IsRevoked(s.tables, k) && TasksSpare(s, k.account)
    requires forall n <- s.tables.nonces :: n.owner != k
    ensures StaysOut(config, s, k) <==> forall i: nat :: !CanStillPass(config, s, i, k)
  {
    if i: nat :| CanStillPass(config, s, i, k) {
      var e := Run(i, "");
      OneEvent(config, s, e);
      assert AllSpare([e], k.account);
      var accepted := After(config, s, [e]).accepted;
      assert accepted[|s.accepted|].request.owner == k;
    } else {
      forall events: seq<Event> | Legal(config, s, events) && AllSpare(events, k.account)
        ensures NoneOf(k, After(config, s, events).accepted, |s.accepted|)
      {
        RevokedDeviceIsOut(config, s, events, k);
        var all := After(config, s, events).accepted;
        forall i | |s.accepted| <= i < |all|
          ensures all[i].request.owner != k
        {
          assert all[i] == all[|s.accepted|..][i - |s.accepted|];
          assert all[i].request.owner == k ==> IsWaiting(config, s, all[i], k);
        }
      }
    }
  }

  /** r has created an invite, l has joined with it, and a copy of r waits for its INSERT. */
  function Joined(config: Config, r: Request, l: DeviceKey, token: string): State {
    var k, h := r.owner, config.hash(token);
    State(Tables({k.account}, map[k := Device(None, 0, None, 0), l := Device(Some(k.device), 0, None, 1)],
                 map[h := Invite(k, INVITE_TTL_SECONDS, Some(0))], map[NonceOf(config, r) := config.ttl], 2),
          0, [Finished, Inserting(r, ReadOnly, 0), Finished], [Acceptance(r, CreateInvite, false)],
          map[h := Issue(k, 0)], [Admission(h, l, 0)])
  }

  /** A founder whose request and its copy both wait for their INSERT. */
  function BothWait(r: Request): State {
    State(Tables({r.owner.account}, map[r.owner := Device(None, 0, None, 0)], map[], map[], 1),
          0, [Inserting(r, CreateInvite, 0), Inserting(r, ReadOnly, 0)], [], map[], [])
  }

  lemma BothWaitIsReached(config: Config, r: Request)
    requires IsFirst(config, r)
    ensures Reached(config, BothWait(r), {})
  {
    var s := Initial(0);
    InitialIsReached(config, {});
    NextIsReached(config, s, Bootstrap(r.owner), {});
    s := Next(config, s, Bootstrap(r.owner));
    assert s.tables == Tables({r.owner.account}, map[r.owner := Device(None, 0, None, 0)], map[], map[], 1);
    NextIsReached(config, s, Verify(r, CreateInvite), {});
    s := s.(tasks := [Selecting(r, CreateInvite, 0)]);
    NextIsReached(config, s, Run(0, ""), {});
    s := s.(tasks := [Inserting(r, CreateInvite, 0)]);
    NextIsReached(config, s, Verify(r, ReadOnly), {});
    s := s.(tasks := [Inserting(r, CreateInvite, 0), Selecting(r, ReadOnly, 0)]);
    NextIsReached(config, s, Run(1, ""), {});
    assert Next(config, s, Run(1, "")) == BothWait(r);
  }

  lemma CopyWaits(config: Config, r: Request) returns (s: State)
    requires IsFirst(config, r)
    ensures s == SignedIn(config, r, CreateInvite).(tasks := [Inviting(r.owner, 0), Inserting(r, ReadOnly, 0)])
    ensures Reached(config, s, {})
  {
    BothWaitIsReached(config, r);
    NextIsReached(config, BothWait(r), Run(0, ""), {});
    s := Next(config, BothWait(r), Run(0, ""));
    assert s.tables == SignedIn(config, r, CreateInvite).tables;
  }

  lemma JoinedIsReached(config: Config, r: Request, l: DeviceKey, token: string)
    requires IsFirst(config, r) && l.account == r.owner.account && l != r.owner
    ensures Reached(config, Joined(config, r, l, token), {})
  {
    var k, h := r.owner, config.hash(token);
    var s := CopyWaits(config, r);
    NextIsReached(config, s, Run(0, token), {});
    s := Next(config, s, Run(0, token));
    assert s.tables.invites == map[h := Invite(k, INVITE_TTL_SECONDS, None)];
    assert s.tasks == [Finished, Inserting(r, ReadOnly, 0)];
    NextIsReached(config, s, BeginClaim(l, token), {});
    s := s.(tasks := [Finished, Inserting(r, ReadOnly, 0), Claiming(l, h, 0)]);
    NextIsReached(config, s, Run(2, ""), {});
    assert Next(config, s, Run(2, "")) == Joined(config, r, l, token);
  }

  /** l revokes k, and the cleanup deletes the nonces of k. */
  lemma CleanedIsReached(config: Config, r: Request, l: DeviceKey, token: string, q: Request) returns (s: State)
    requires IsFirst(config, r) && l.account == r.owner.account && l != r.owner
    requires q.owner == l && q.timestamp == 0 && q.signed
    ensures Reached(config, s, {}) && s.clock == 0
    ensures IsRevoked(s.tables, r.owner) && NonceOf(config, r) !in s.tables.nonces
    ensures |s.tasks| == 4 && s.tasks[1] == Inserting(r, ReadOnly, 0)
    ensures s.accepted == [Acceptance(r, CreateInvite, false), Acceptance(q, RevokeDevice(r.owner.device), false)]
  {
    var k := r.owner;
    s := Joined(config, r, l, token);
    JoinedIsReached(config, r, l, token);
    VerifiedIsReached(config, s, q, RevokeDevice(k.device), {});
    s := s.(tables := NonceStep(config, s.tables, q), tasks := s.tasks + [Revoking(k, 0)],
            accepted := s.accepted + [Acceptance(q, RevokeDevice(k.device), false)]);
    assert ActiveDevices(s.tables, k.account) == {k, l};
    NextIsReached(config, s, Run(3, ""), {});
    s := Next(config, s, Run(3, ""));
    assert s.tasks[3] == Cleaning(k);
    NextIsReached(config, s, Run(3, ""), {});
    s := Next(config, s, Run(3, ""));
  }

  /**
   The exception in `NoReplay` is real: a copy of a request whose verification overlaps with the revocation of its
   device is accepted after the cleanup of the nonces, whatever the windows and the delay.
   */
  lemma RevocationLetsACopyPass(config: Config, r: Request, l: DeviceKey, token: string)
    requires IsFirst(config, r) && l.account == r.owner.account && l != r.owner
    ensures exists events: seq<Event> ::
      && Legal(config, Initial(0), events) && AllSpare(events, l.account)
      && After(config, Initial(0), events).accepted
           == [Acceptance(r, CreateInvite, false),
               Acceptance(Request(l, "nonce", 0, true), RevokeDevice(r.owner.device), false),
               Acceptance(r, ReadOnly, true)]
  {
    var s := CleanedIsReached(config, r, l, token, Request(l, "nonce", 0, true));
    NextIsReached(config, s, Run(1, ""), {});
    var u := Next(config, s, Run(1, ""));
    var events: seq<Event> :|
      Legal(config, Initial(0), events) && DeletesOnly(events, {}) && After(config, Initial(0), events) == u;
    assert forall e <- events :: DeletesWithin(e, {});
    assert AllSpare(events, l.account);
  }

  // ---- the handlers

  /** The relay: its tables, the requests under way and what has happened, updated in place. */
  class DeviceRelay {
    const config: Config
    var accounts: set<string>
    var devices: map<DeviceKey, Device>
    var invites: map<string, Invite>
    var nonces: map<NonceKey, int>
    var rows: nat
    var clock: int
    var tasks: seq<Task>
    var accepted: seq<Acceptance>
    var issued: map<string, Issue>
    var admissions: seq<Admission>

    function Contents(): Tables
      reads this
    {
      Tables(accounts, devices, invites, nonces, rows)
    }

    function Now(): State
      reads this
    {
      State(Contents(), clock, tasks, accepted, issued, admissions)
    }

    constructor (config: Config, clock: int)
      ensures this.config == config && Now() == Initial(clock)
    {
      this.config, this.clock := config, clock;
      accounts, devices, invites, nonces, rows := {}, map[], map[], map[], 0;
      tasks, accepted, issued, admissions := [], [], map[], [];
    }

    method InsertAccount(k: DeviceKey)
      modifies this`accounts, this`devices, this`rows
      ensures Contents() == BootstrapStep(old(Contents()), k, clock)
    {
      if k.account in accounts || k in devices {
        return;
      }
      accounts := accounts + {k.account};
      devices := devices[k := Device(None, clock, None, rows)];
      rows := rows + 1;
    }

    /** The SELECT of the device, and the signature under its key. */
    method SelectDevice(r: Request) returns (approved: bool)
      ensures approved == Approves(Contents(), r)
    {
      if r.owner !in devices || devices[r.owner].revokedAt.Some? {
        return false;
      }
      return r.signed;
    }

    method InsertNonce(r: Request) returns (inserted: bool)
      modifies this`nonces
      ensures inserted == Inserts(config, old(Contents()), r)
      ensures Contents() == NonceStep(config, old(Contents()), r)
    {
      var nonce := NonceOf(config, r);
      if nonce in nonces || r.owner !in devices {
        return false;
      }
      nonces := nonces[nonce := r.timestamp + config.ttl];
      return true;
    }

    /** `verifyDeviceRequest`, with nothing between its statements. */
    method VerifyDeviceRequest(r: Request) returns (verdict: Verdict)
      modifies this`nonces
      ensures verdict == Judge(config, old(Contents()), clock, r)
      ensures Contents() == if verdict.Accepted? then NonceStep(config, old(Contents()), r) else old(Contents())
    {
      if !InSkew(config, clock, r.timestamp) {
        return Unauthorized;
      }
      var approved := SelectDevice(r);
      if !approved {
        return Unauthorized;
      }
      var inserted := InsertNonce(r);
      return if inserted then Accepted else Replayed;
    }

    method InsertInvite(creator: DeviceKey, hash: string, now: int)
      modifies this`invites
      ensures Contents() == InviteStep(old(Contents()), creator, hash, now)
    {
      if hash in invites || creator !in devices {
        return;
      }
      invites := invites[hash := Invite(creator, now + INVITE_TTL_SECONDS, None)];
    }

    /** The batch of the claim handler. */
    method InsertClaimant(k: DeviceKey, hash: string, now: int) returns (admitted: bool)
      modifies this`devices, this`invites, this`rows
      ensures admitted == Admits(old(Contents()), k, hash, now)
      ensures Contents() == ClaimStep(old(Contents()), k, hash, now)
    {
      if !Claimable(Contents(), k.account, hash, now) || k in devices {
        return false;
      }
      var invite := invites[hash];
      devices := devices[k := Device(Some(invite.creator.device), now, None, rows)];
      invites := invites[hash := invite.(usedAt := Some(now))];
      rows := rows + 1;
      return true;
    }

    method SetRevoked(k: DeviceKey, now: int) returns (revoked: bool)
      modifies this`devices
      ensures revoked == Revokes(old(Contents()), k)
      ensures Contents() == RevokeStep(old(Contents()), k, now)
    {
      if !Revokes(Contents(), k) {
        return false;
      }
      devices := devices[k := devices[k].(revokedAt := Some(now))];
      return true;
    }

    method DeleteNonces(k: DeviceKey)
      modifies this`nonces
      ensures Contents() == CleanStep(old(Contents()), k)
    {
      nonces := map n | n in nonces && n.owner != k :: nonces[n];
    }

    method Purge(now: int)
      modifies this`nonces, this`invites
      ensures Contents() == SweepStep(old(Contents()), now)
    {
      nonces := map n | n in nonces && nonces[n] > now :: nonces[n];
      invites := map h | h in invites && invites[h].expiresAt > now && invites[h].usedAt.None? :: invites[h];
    }

    method RemoveAccount(account: string)
      modifies this`accounts, this`devices, this`invites, this`nonces
      ensures Contents() == DeleteStep(old(Contents()), account)
    {
      accounts := accounts - {account};
      devices := map k | k in devices && k.account != account :: devices[k];
      invites := map h | h in invites && invites[h].creator.account != account :: invites[h];
      nonces := map n | n in nonces && n.owner.account != account :: nonces[n];
    }

    /** The INSERT, and the start of what an accepted request asks for. */
    method EndVerification(i: nat, r: Request, intent: Intent)
      requires i < |tasks| && tasks[i].Inserting? && tasks[i].request == r && tasks[i].intent == intent
      modifies this`nonces, this`accepted, this`tasks
      ensures Now() == RunTask(config, old(Now()), i, "")
    {
      var inserted := InsertNonce(r);
      if inserted {
        accepted := accepted + [Acceptance(r, intent, IsRevoked(Contents(), r.owner))];
      }
      tasks := tasks[i := if inserted then TaskFor(r, intent, clock) else Finished];
    }

    /** The next step of a request under way. */
    method Proceed(i: nat, token: string)
      requires i < |tasks|
      modifies this
      ensures Now() == RunTask(config, old(Now()), i, token)
    {
      match tasks[i] {
        case Selecting(r, intent, at) =>
          var approved := SelectDevice(r);
          tasks := tasks[i := if approved then Inserting(r, intent, at) else Finished];
        case Inserting(r, intent, _) =>
          EndVerification(i, r, intent);
        case Inviting(creator, now) =>
          InsertInvite(creator, config.hash(token), now);
          tasks := tasks[i := Finished];
          issued := issued[config.hash(token) := Issue(creator, now)];
        case Revoking(target, now) =>
          var revoked := SetRevoked(target, now);
          tasks := tasks[i := if revoked then Cleaning(target) else Finished];
        case Cleaning(target) =>
          DeleteNonces(target);
          tasks := tasks[i := Finished];
        case Claiming(claimant, hash, now) =>
          var admitted := InsertClaimant(claimant, hash, now);
          tasks := tasks[i := Finished];
          if admitted {
            admissions := admissions + [Admission(hash, claimant, now)];
          }
        case Sweeping(now) =>
          Purge(now);
          tasks := tasks[i := Finished];
        case Deleting(account) =>
          RemoveAccount(account);
          tasks := tasks[i := Finished];
        case Finished =>
      }
    }

    method Perform(e: Event)
      requires Allowed(config, Now(), e)
      modifies this
      ensures Now() == Next(config, old(Now()), e)
    {
      match e {
        case Tick(to) => clock := to;
        case Bootstrap(key) => InsertAccount(key);
        case Verify(r, intent) =>
          if InSkew(config, clock, r.timestamp) {
            tasks := tasks + [Selecting(r, intent, clock)];
          }
        case BeginClaim(claimant, token) =>
          if Claimable(Contents(), claimant.account, config.hash(token), clock) {
            tasks := tasks + [Claiming(claimant, config.hash(token), clock)];
          }
        case BeginSweep => tasks := tasks + [Sweeping(clock)];
        case Run(i, token) => Proceed(i, token);
      }
    }

    /**
     The handlers, interleaved by any legal sequence of events from a new relay, replay no request of
     an account that is not deleted, admit one device per invite, and leave every account a device.
     */
    method Serve(events: seq<Event>)
      requires Now() == Initial(clock) && Legal(config, Now(), events)
      modifies this
      ensures Now() == After(config, old(Now()), events)
      ensures forall account ::
        config.skew + config.delay < config.ttl && AllSpare(events, account) ==> NoReplay(accepted, account)
      ensures forall i, j :: 0 <= i < j < |admissions| ==> admissions[i].hash != admissions[j].hash
      ensures forall account <- accounts :: HasActive(Contents(), account)
    {
      ghost var before := Now();
      for i := 0 to |events|
        invariant Legal(config, Now(), events[i..])
        invariant After(config, Now(), events[i..]) == After(config, before, events)
      {
        assert events[i..][0] == events[i] && events[i..][1..] == events[i + 1..];
        Perform(events[i]);
      }
      RunsKeepSingleUse(config, before, events);
      RunsKeepLinked(config, before, events);
      forall account | config.skew + config.delay < config.ttl && AllSpare(events, account)
        ensures NoReplay(accepted, account)
      {
        RunsKeepReplaysBlocked(config, before, events, account);
      }
    }
  }
}
