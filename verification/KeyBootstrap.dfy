/**
 Bootstrap of the vault key on a device, and the reset of local data, as sequences of steps any of
 which can fail or be cut off by a crash.

 A crash leaves the same files behind as a step that reports failure, so one notion of an
 interrupted step covers both. Sealing is symbolic: an envelope names the key it is sealed under
 and the key inside it.
 */
module KeyBootstrap {
  import opened Outcomes

  type Key = nat

  datatype Name = Database | Wal | Shm | Wrapped | Temporary

  /** Data pages encrypted under a vault key, a sealed vault key, or a torn write. */
  datatype Content = Data(key: Key) | Envelope(wrapping: Key, vault: Key) | Torn

  /** What survives a crash: the files of the data directory and the device key store. */
  datatype Disk = Disk(files: map<Name, Content>, keychain: Option<Key>)

  const Fresh := Disk(map[], None)

  predicate IsData(n: Name) {
    n.Database? || n.Wal? || n.Shm?
  }

  // ---- steps and their fates

  datatype Step = StoreDeviceKey | WriteTemporary | Rename | Create(n: Name) | Remove(n: Name)

  /** Completed, or interrupted before, during or after its effect. */
  datatype Fate = Completed | NoEffect | PartEffect | FullEffect

  /** How one call goes: its steps' fates, whether the directory, the key store and the wrapped-key
      file can be used, and the random keys. */
  datatype Fortune = Fortune(
    fate: Step -> Fate, hasDirectory: bool, loads: bool, readsWrapped: bool, deviceKey: Key, vaultKey: Key)

  /** Nothing fails and nothing crashes. */
  ghost predicate IsHealthy(luck: Fortune) {
    luck.hasDirectory && luck.loads && luck.readsWrapped && forall s: Step :: luck.fate(s).Completed?
  }

  predicate TakesEffect(fate: Fate) {
    fate.Completed? || fate.FullEffect?
  }

  datatype Problem =
    | NoDirectory
    | KeychainUnavailable
    | WrappingKeyMissing
    | UnreadableWrappedKey
    | AuthenticationFailed
    | MissingWrappedKey
    | Interrupted
    | DatabaseRefused

  datatype Attempt = Attempt(disk: Disk, result: Result<Key, Problem>)

  function StoreStep(d: Disk, key: Key, fate: Fate): Disk {
    if TakesEffect(fate) then d.(keychain := Some(key)) else d
  }

  function WriteStep(d: Disk, envelope: Content, fate: Fate): Disk {
    match fate
    case NoEffect => d
    case PartEffect => d.(files := d.files[Temporary := Torn])
    case _ => d.(files := d.files[Temporary := envelope])
  }

  function RenameStep(d: Disk, fate: Fate): Disk
    requires Temporary in d.files
  {
    if TakesEffect(fate) then d.(files := (d.files - {Temporary})[Wrapped := d.files[Temporary]]) else d
  }

  /** Creates a file of the database unless it is there. */
  function CreateStep(d: Disk, n: Name, key: Key, fate: Fate): Disk {
    if n in d.files || !TakesEffect(fate) then d else d.(files := d.files[n := Data(key)])
  }

  function RemoveStep(d: Disk, n: Name, fate: Fate): Disk {
    if TakesEffect(fate) then d.(files := d.files - {n}) else d
  }

  /** An existing file of the database was written under another key. */
  predicate Refuses(d: Disk, key: Key) {
    exists n <- d.files :: IsData(n) && d.files[n] != Data(key)
  }

  function CreateFrom(d: Disk, names: seq<Name>, key: Key, fate: Step -> Fate): Attempt
    decreases |names|
  {
    if names == [] then Attempt(d, Ok(key))
    else
      var next := CreateStep(d, names[0], key, fate(Create(names[0])));
      if fate(Create(names[0])).Completed? then CreateFrom(next, names[1..], key, fate)
      else Attempt(next, Err(Interrupted))
  }

  /** `EncryptedDatabase::open` under a vault key. */
  function OpenDatabase(d: Disk, key: Key, fate: Step -> Fate): Attempt {
    if Refuses(d, key) then Attempt(d, Err(DatabaseRefused))
    else CreateFrom(d, [Database, Wal, Shm], key, fate)
  }

  /** Seals a new vault key, installs it with `write_private_atomic`, and opens the database. */
  function Install(d: Disk, deviceKey: Key, luck: Fortune): Attempt {
    var written := WriteStep(d, Envelope(deviceKey, luck.vaultKey), luck.fate(WriteTemporary));
    if !luck.fate(WriteTemporary).Completed? then Attempt(written, Err(Interrupted))
    else
      var renamed := RenameStep(written, luck.fate(Rename));
      if !luck.fate(Rename).Completed? then Attempt(renamed, Err(Interrupted))
      else OpenDatabase(renamed, luck.vaultKey, luck.fate)
  }

  /** The vault key inside the wrapped-key file. */
  function Unwrap(d: Disk, luck: Fortune): Result<Key, Problem>
    requires Wrapped in d.files
  {
    if !luck.loads then Err(KeychainUnavailable)
    else if d.keychain.None? then Err(WrappingKeyMissing)
    else if !luck.readsWrapped then Err(UnreadableWrappedKey)
    else match d.files[Wrapped]
      case Envelope(wrapping, vault) => if wrapping == d.keychain.value then Ok(vault) else Err(AuthenticationFailed)
      case _ => Err(AuthenticationFailed)
  }

  /** `open_or_create` */
  function OpenOrCreate(d: Disk, luck: Fortune): Attempt {
    if !luck.hasDirectory then Attempt(d, Err(NoDirectory))
    else if Wrapped in d.files then
      match Unwrap(d, luck)
      case Err(problem) => Attempt(d, Err(problem))
      case Ok(vault) => OpenDatabase(d, vault, luck.fate)
    else if Database in d.files then Attempt(d, Err(MissingWrappedKey))
    else if !luck.loads then Attempt(d, Err(KeychainUnavailable))
    else if d.keychain.Some? then Install(d, d.keychain.value, luck)
    else
      var stored := StoreStep(d, luck.deviceKey, luck.fate(StoreDeviceKey));
      if luck.fate(StoreDeviceKey).Completed? then Install(stored, luck.deviceKey, luck)
      else Attempt(stored, Err(Interrupted))
  }

  /** The order in which a reset removes the files. */
  const DATABASE_FILES := [Database, Wal, Shm, Wrapped]

  /** The loop of `reset_local_database`; a missing file is passed over, a failure ends it. */
  function Reset(d: Disk, names: seq<Name>, fate: Step -> Fate): Disk
    decreases |names|
  {
    if names == [] then d
    else if names[0] !in d.files then Reset(d, names[1..], fate)
    else
      var next := RemoveStep(d, names[0], fate(Remove(names[0])));
      if fate(Remove(names[0])).Completed? then Reset(next, names[1..], fate) else next
  }

  /** A device, its files and its key store updated in place. */
  class Device {
    var files: map<Name, Content>
    var keychain: Option<Key>

    function State(): Disk
      reads this
    {
      Disk(files, keychain)
    }

    constructor ()
      ensures State() == Fresh
    {
      files, keychain := map[], None;
    }

    method CreateDatabase(key: Key, fate: Step -> Fate) returns (result: Result<Key, Problem>)
      modifies this`files
      ensures Attempt(State(), result) == OpenDatabase(old(State()), key, fate)
    {
      if Refuses(State(), key) {
        return Err(DatabaseRefused);
      }
      var names := [Database, Wal, Shm];
      for i := 0 to 3
        invariant keychain == old(keychain)
        invariant CreateFrom(State(), names[i..], key, fate) == CreateFrom(old(State()), names, key, fate)
      {
        var n := names[i];
        if n !in files && TakesEffect(fate(Create(n))) {
          files := files[n := Data(key)];
        }
        assert names[i..][1..] == names[i + 1..];
        if !fate(Create(n)).Completed? {
          return Err(Interrupted);
        }
      }
      return Ok(key);
    }

    method WritePrivateAtomic(envelope: Content, fate: Step -> Fate) returns (installed: bool)
      modifies this`files
      ensures installed == (fate(WriteTemporary).Completed? && fate(Rename).Completed?)
      ensures var written := WriteStep(old(State()), envelope, fate(WriteTemporary));
        State() == if fate(WriteTemporary).Completed? then RenameStep(written, fate(Rename)) else written
    {
      match fate(WriteTemporary) {
        case NoEffect => return false;
        case PartEffect =>
          files := files[Temporary := Torn];
          return false;
        case FullEffect =>
          files := files[Temporary := envelope];
          return false;
        case Completed => files := files[Temporary := envelope];
      }
      if TakesEffect(fate(Rename)) {
        files := (files - {Temporary})[Wrapped := envelope];
      }
      return fate(Rename).Completed?;
    }

    method Open(luck: Fortune) returns (result: Result<Key, Problem>)
      modifies this
      ensures Attempt(State(), result) == OpenOrCreate(old(State()), luck)
    {
      if !luck.hasDirectory {
        return Err(NoDirectory);
      }
      var vault: Key;
      if Wrapped in files {
        match Unwrap(State(), luck) {
          case Err(problem) => return Err(problem);
          case Ok(key) => vault := key;
        }
      } else {
        if Database in files {
          return Err(MissingWrappedKey);
        }
        if !luck.loads {
          return Err(KeychainUnavailable);
        }
        var deviceKey := luck.deviceKey;
        if keychain.Some? {
          deviceKey := keychain.value;
        } else {
          if TakesEffect(luck.fate(StoreDeviceKey)) {
            keychain := Some(deviceKey);
          }
          if !luck.fate(StoreDeviceKey).Completed? {
            return Err(Interrupted);
          }
        }
        vault := luck.vaultKey;
        var installed := WritePrivateAtomic(Envelope(deviceKey, vault), luck.fate);
        if !installed {
          return Err(Interrupted);
        }
      }
      result := CreateDatabase(vault, luck.fate);
    }

    method ResetLocalDatabase(names: seq<Name>, fate: Step -> Fate)
      modifies this`files
      ensures State() == Reset(old(State()), names, fate)
    {
      for i := 0 to |names|
        invariant keychain == old(keychain)
        invariant Reset(State(), names[i..], fate) == Reset(old(State()), names, fate)
      {
        var n := names[i];
        assert names[i..][1..] == names[i + 1..];
        if n in files {
          if TakesEffect(fate(Remove(n))) {
            files := files - {n};
          }
          if !fate(Remove(n)).Completed? {
            return;
          }
        }
      }
    }
  }

  // ---- the invariant

  /** The wrapped-key file opens under the device's key. */
  predicate WrappedIsGood(d: Disk) {
    Wrapped in d.files ==> d.files[Wrapped].Envelope? && d.keychain == Some(d.files[Wrapped].wrapping)
  }

  /** A file of the database has the key that the wrapped-key file holds. */
  predicate DataIsGood(d: Disk, n: Name) {
    IsData(n) && n in d.files ==>
      Wrapped in d.files && d.files[Wrapped].Envelope? && d.files[n] == Data(d.files[Wrapped].vault)
  }

  predicate Sound(d: Disk) {
    WrappedIsGood(d) && DataIsGood(d, Database) && DataIsGood(d, Wal) && DataIsGood(d, Shm)
  }

  predicate HoldsData(d: Disk) {
    Database in d.files || Wal in d.files || Shm in d.files
  }

  lemma {:induction false} CreatingKeepsSound(d: Disk, names: seq<Name>, key: Key, fate: Step -> Fate)
    requires Sound(d) && Wrapped in d.files && d.files[Wrapped].vault == key
    requires forall n <- names :: IsData(n)
    ensures var made := CreateFrom(d, names, key, fate).disk;
      && Sound(made) && Wrapped in made.files && made.files[Wrapped] == d.files[Wrapped]
      && made.keychain == d.keychain && d.files.Keys <= made.files.Keys
    ensures (forall n <- names :: fate(Create(n)).Completed?) ==>
      && CreateFrom(d, names, key, fate).result == Ok(key)
      && forall n <- names :: n in CreateFrom(d, names, key, fate).disk.files
    decreases |names|
  {
    if names != [] {
      assert names[0] in names;
      var next := CreateStep(d, names[0], key, fate(Create(names[0])));
      assert forall n <- names[1..] :: n in names;
      CreatingKeepsSound(next, names[1..], key, fate);
      assert forall n <- names :: n == names[0] || n in names[1..];
    }
  }

  lemma OpeningKeepsSound(d: Disk, key: Key, fate: Step -> Fate)
    requires Sound(d) && Wrapped in d.files && d.files[Wrapped].vault == key
    ensures var done := OpenDatabase(d, key, fate).disk;
      && Sound(done) && Wrapped in done.files && done.files[Wrapped] == d.files[Wrapped]
      && done.keychain == d.keychain
    ensures (forall s: Step :: fate(s).Completed?) ==> OpenDatabase(d, key, fate).result == Ok(key)
  {
    CreatingKeepsSound(d, [Database, Wal, Shm], key, fate);
  }

  lemma InstallingKeepsSound(d: Disk, deviceKey: Key, luck: Fortune)
    requires Sound(d) && Wrapped !in d.files && d.keychain == Some(deviceKey)
    ensures Sound(Install(d, deviceKey, luck).disk)
    ensures (forall s: Step :: luck.fate(s).Completed?) ==> Install(d, deviceKey, luck).result == Ok(luck.vaultKey)
  {
    if luck.fate(WriteTemporary).Completed? && luck.fate(Rename).Completed? {
      var written := WriteStep(d, Envelope(deviceKey, luck.vaultKey), luck.fate(WriteTemporary));
      OpeningKeepsSound(RenameStep(written, luck.fate(Rename)), luck.vaultKey, luck.fate);
    }
  }

  lemma OpenKeepsSound(d: Disk, luck: Fortune)
    requires Sound(d)
    ensures Sound(OpenOrCreate(d, luck).disk)
  {
    if Wrapped in d.files {
      if Unwrap(d, luck).Ok? {
        OpeningKeepsSound(d, d.files[Wrapped].vault, luck.fate);
      }
    } else if d.keychain.Some? {
      InstallingKeepsSound(d, d.keychain.value, luck);
    } else {
      var stored := StoreStep(d, luck.deviceKey, luck.fate(StoreDeviceKey));
      if luck.fate(StoreDeviceKey).Completed? {
        InstallingKeepsSound(stored, luck.deviceKey, luck);
      }
    }
  }

  /** No call ever writes a wrapped-key file over live data: no key is regenerated. */
  lemma KeyIsNeverRegenerated(d: Disk, luck: Fortune)
    requires Sound(d) && Wrapped in OpenOrCreate(d, luck).disk.files
    requires Wrapped in d.files ==> OpenOrCreate(d, luck).disk.files[Wrapped] != d.files[Wrapped]
    ensures !HoldsData(d)
  {
  }

  /** With a working key store and no failure, opening succeeds, under the key of existing data. */
  lemma OpenSucceeds(d: Disk, luck: Fortune)
    requires Sound(d) && IsHealthy(luck)
    ensures OpenOrCreate(d, luck).result.Ok?
    ensures forall n <- d.files :: IsData(n) ==> d.files[n] == Data(OpenOrCreate(d, luck).result.value)
  {
  }

  // ---- resets

  /** A reset order names the four files once each and the wrapped key after all data files. */
  predicate IsOrder(names: seq<Name>) {
    && |names| == 4 && Database in names && Wal in names && Shm in names && Wrapped in names
    && Temporary !in names
    && forall i, j :: 0 <= i < j < |names| ==> names[i] != names[j]
  }

  predicate WrappedIsLast(names: seq<Name>) {
    |names| == 4 && names[3] == Wrapped
  }

  /** Data is gone from everything but the names still to come, which end with the wrapped key. */
  predicate CanContinue(d: Disk, names: seq<Name>) {
    && names != [] && names[|names| - 1] == Wrapped
    && (forall i :: 0 <= i < |names| - 1 ==> IsData(names[i]))
    && (forall n <- d.files :: IsData(n) ==> n in names)
  }

  lemma {:induction false} ResetKeepsSound(d: Disk, names: seq<Name>, fate: Step -> Fate)
    requires Sound(d) && CanContinue(d, names)
    ensures Sound(Reset(d, names, fate))
    ensures (forall s: Step :: fate(s).Completed?) ==>
      !HoldsData(Reset(d, names, fate)) && Wrapped !in Reset(d, names, fate).files
    decreases |names|
  {
    if |names| == 1 {
      assert names[1..] == [];
    } else {
      assert names[1..][|names| - 2] == Wrapped;
      if names[0] !in d.files {
        assert forall n <- d.files :: IsData(n) ==> n in names[1..];
        ResetKeepsSound(d, names[1..], fate);
      } else if fate(Remove(names[0])).Completed? {
        var next := RemoveStep(d, names[0], Completed);
        assert forall n <- next.files :: IsData(n) ==> n in names[1..];
        ResetKeepsSound(next, names[1..], fate);
      }
    }
  }

  lemma SafeOrderCanContinue(d: Disk, names: seq<Name>)
    requires IsOrder(names) && WrappedIsLast(names)
    ensures CanContinue(d, names)
  {
  }

  // ---- runs

  datatype Operation = Opens(luck: Fortune) | Resets(fate: Step -> Fate) | Closes(checkpointed: set<Name>)

  /** A clean close removes write-ahead files. */
  function Apply(order: seq<Name>, d: Disk, op: Operation): Disk {
    match op
    case Opens(luck) => OpenOrCreate(d, luck).disk
    case Resets(fate) => Reset(d, order, fate)
    case Closes(checkpointed) => d.(files := d.files - (checkpointed * {Wal, Shm}))
  }

  function After(order: seq<Name>, d: Disk, ops: seq<Operation>): Disk
    decreases |ops|
  {
    if ops == [] then d else After(order, Apply(order, d, ops[0]), ops[1..])
  }

  lemma {:induction false} RunsKeepSound(order: seq<Name>, d: Disk, ops: seq<Operation>)
    requires IsOrder(order) && WrappedIsLast(order) && Sound(d)
    ensures Sound(After(order, d, ops))
    decreases |ops|
  {
    if ops != [] {
      match ops[0] {
        case Opens(luck) => OpenKeepsSound(d, luck);
        case Resets(fate) =>
          SafeOrderCanContinue(d, order);
          ResetKeepsSound(d, order, fate);
        case Closes(_) =>
      }
      RunsKeepSound(order, Apply(order, d, ops[0]), ops[1..]);
    }
  }

  /**
   After any run of opens and resets, each complete or cut off between any two steps: an existing
   database file has exactly the key the wrapped-key file holds, and the next open with a working
   key store succeeds under that key.
   */
  lemma DeviceIsNeverLocked(ops: seq<Operation>, luck: Fortune)
    requires IsHealthy(luck)
    ensures var d := After(DATABASE_FILES, Fresh, ops);
      && Sound(d)
      && OpenOrCreate(d, luck).result.Ok?
      && forall n <- d.files :: IsData(n) ==> d.files[n] == Data(OpenOrCreate(d, luck).result.value)
  {
    RunsKeepSound(DATABASE_FILES, Fresh, ops);
    OpenSucceeds(After(DATABASE_FILES, Fresh, ops), luck);
  }

  /** A complete reset leaves no data and no key, and the next open creates both anew. */
  lemma ResetThenOpenStartsAnew(ops: seq<Operation>, fate: Step -> Fate, luck: Fortune)
    requires forall s: Step :: fate(s).Completed?
    requires IsHealthy(luck)
    ensures var d := Reset(After(DATABASE_FILES, Fresh, ops), DATABASE_FILES, fate);
      !HoldsData(d) && Wrapped !in d.files && OpenOrCreate(d, luck).result == Ok(luck.vaultKey)
  {
    var before := After(DATABASE_FILES, Fresh, ops);
    RunsKeepSound(DATABASE_FILES, Fresh, ops);
    SafeOrderCanContinue(before, DATABASE_FILES);
    ResetKeepsSound(before, DATABASE_FILES, fate);
    var d := Reset(before, DATABASE_FILES, fate);
    if d.keychain.Some? {
      InstallingKeepsSound(d, d.keychain.value, luck);
    } else {
      InstallingKeepsSound(StoreStep(d, luck.deviceKey, Completed), luck.deviceKey, luck);
    }
  }

  // ---- which reset orders are safe

  ghost predicate OrderIsSafe(order: seq<Name>) {
    forall ops: seq<Operation> :: Sound(After(order, Fresh, ops))
  }

  /** The fates of a reset that is cut off before it removes `stop`. */
  function CutBefore(stop: Name): Step -> Fate {
    (s: Step) => if s == Remove(stop) then NoEffect else Completed
  }

  lemma {:induction false} CutResetStrandsData(d: Disk, names: seq<Name>, w: nat)
    requires w + 1 < |names| && names[w] == Wrapped && names[w + 1] in d.files
    requires forall i, j :: 0 <= i < j < |names| ==> names[i] != names[j]
    ensures var cut := Reset(d, names, CutBefore(names[w + 1])); names[w + 1] in cut.files && Wrapped !in cut.files
    decreases w
  {
    var fate, rest := CutBefore(names[w + 1]), names[1..];
    var next := if names[0] in d.files then RemoveStep(d, names[0], fate(Remove(names[0]))) else d;
    assert names[0] != names[w + 1];
    if w == 0 {
      assert rest[0] == names[1];
      assert Reset(d, names, fate) == Reset(next, rest, fate) == next;
    } else {
      assert rest[w - 1] == names[w] && rest[w] == names[w + 1];
      assert forall i, j :: 0 <= i < j < |rest| ==> rest[i] == names[i + 1] && rest[j] == names[j + 1];
      CutResetStrandsData(next, rest, w - 1);
    }
  }

  /** Everything works: a first open creates all the files. */
  lemma FirstOpenCreatesAll(luck: Fortune)
    requires IsHealthy(luck)
    ensures var d := OpenOrCreate(Fresh, luck).disk;
      Database in d.files && Wal in d.files && Shm in d.files && Wrapped in d.files
  {
  }

  /** An open, and a reset cut off after the wrapped key while a data file is left. */
  lemma WrongOrderStrandsData(order: seq<Name>, w: nat)
    requires IsOrder(order) && w < 3 && order[w] == Wrapped
    ensures !OrderIsSafe(order)
  {
    var stop := order[w + 1];
    assert stop in order && IsData(stop);
    var luck := Fortune((s: Step) => Completed, true, true, true, 0, 1);
    var d := OpenOrCreate(Fresh, luck).disk;
    FirstOpenCreatesAll(luck);
    CutResetStrandsData(d, order, w);
    var reset := [Resets(CutBefore(stop))];
    var ops := [Opens(luck)] + reset;
    assert ops[1..] == reset && reset[1..] == [];
    assert After(order, d, reset) == Reset(d, order, CutBefore(stop));
    assert After(order, Fresh, ops) == After(order, d, reset);
    assert !Sound(After(order, Fresh, ops));
  }

  /**
   Of all orders in which a reset could remove the four files, exactly those are safe against
   crashes that remove the wrapped key last.
   */
  lemma SafeOrdersExactly(order: seq<Name>)
    requires IsOrder(order)
    ensures OrderIsSafe(order) <==> WrappedIsLast(order)
  {
    if WrappedIsLast(order) {
      forall ops: seq<Operation>
        ensures Sound(After(order, Fresh, ops))
      {
        RunsKeepSound(order, Fresh, ops);
      }
    } else {
      var w: nat :| w < 3 && order[w] == Wrapped;
      WrongOrderStrandsData(order, w);
    }
  }

  // ---- what an open answers

  /** A file of the database is there and does not have this key. */
  predicate HasOtherData(d: Disk, key: Key) {
    || (Database in d.files && d.files[Database] != Data(key))
    || (Wal in d.files && d.files[Wal] != Data(key))
    || (Shm in d.files && d.files[Shm] != Data(key))
  }

  /**
   On any disk, sound or not: an open that cannot get at the right key says why and changes nothing.
   With a wrapped key it needs the device key, the file, and data under no other key; without one it
   needs a disk without a database.
   */
  lemma RefusedOpenChangesNothing(d: Disk, luck: Fortune)
    ensures var attempt := OpenOrCreate(d, luck);
      if !luck.hasDirectory then attempt == Attempt(d, Err(NoDirectory))
      else if Wrapped in d.files then
        if !luck.loads then attempt == Attempt(d, Err(KeychainUnavailable))
        else if d.keychain.None? then attempt == Attempt(d, Err(WrappingKeyMissing))
        else if !luck.readsWrapped then attempt == Attempt(d, Err(UnreadableWrappedKey))
        else if !d.files[Wrapped].Envelope? || d.files[Wrapped].wrapping != d.keychain.value then
          attempt == Attempt(d, Err(AuthenticationFailed))
        else if HasOtherData(d, d.files[Wrapped].vault) then attempt == Attempt(d, Err(DatabaseRefused))
        else attempt.result in {Ok(d.files[Wrapped].vault), Err(Interrupted)}
      else if Database in d.files then attempt == Attempt(d, Err(MissingWrappedKey))
      else if !luck.loads then attempt == Attempt(d, Err(KeychainUnavailable))
      else attempt.result in {Ok(luck.vaultKey), Err(Interrupted), Err(DatabaseRefused)}
  {
    if Wrapped in d.files && d.files[Wrapped].Envelope? {
      var key := d.files[Wrapped].vault;
      assert Refuses(d, key) <==> HasOtherData(d, key);
      CreateFromAnswers(d, [Database, Wal, Shm], key, luck.fate);
    }
    InstallAnswers(d, if d.keychain.Some? then d.keychain.value else luck.deviceKey, luck);
    InstallAnswers(StoreStep(d, luck.deviceKey, luck.fate(StoreDeviceKey)), luck.deviceKey, luck);
  }

  lemma {:induction false} CreateFromAnswers(d: Disk, names: seq<Name>, key: Key, fate: Step -> Fate)
    ensures CreateFrom(d, names, key, fate).result in {Ok(key), Err(Interrupted)}
    ensures CreateFrom(d, names, key, fate).disk.keychain == d.keychain
    decreases |names|
  {
    if names != [] {
      CreateFromAnswers(CreateStep(d, names[0], key, fate(Create(names[0]))), names[1..], key, fate);
    }
  }

  lemma InstallAnswers(d: Disk, deviceKey: Key, luck: Fortune)
    ensures Install(d, deviceKey, luck).result in {Ok(luck.vaultKey), Err(Interrupted), Err(DatabaseRefused)}
    ensures Install(d, deviceKey, luck).disk.keychain == d.keychain
  {
    var written := WriteStep(d, Envelope(deviceKey, luck.vaultKey), luck.fate(WriteTemporary));
    if luck.fate(WriteTemporary).Completed? {
      CreateFromAnswers(RenameStep(written, luck.fate(Rename)), [Database, Wal, Shm], luck.vaultKey, luck.fate);
    }
  }

  /** A device key that is stored is used, and never replaced: neither an open nor a reset touches it. */
  lemma DeviceKeyStays(d: Disk, luck: Fortune, names: seq<Name>, fate: Step -> Fate)
    requires d.keychain.Some?
    ensures OpenOrCreate(d, luck).disk.keychain == d.keychain
    ensures Reset(d, names, fate).keychain == d.keychain
    ensures var after := OpenOrCreate(d, luck).disk;
      Wrapped in after.files && (Wrapped !in d.files || after.files[Wrapped] != d.files[Wrapped]) ==>
        after.files[Wrapped] == Envelope(d.keychain.value, luck.vaultKey)
  {
    if Wrapped in d.files && d.files[Wrapped].Envelope? {
      CreateFromAnswers(d, [Database, Wal, Shm], d.files[Wrapped].vault, luck.fate);
      CreateFromKeepsWrapped(d, [Database, Wal, Shm], d.files[Wrapped].vault, luck.fate);
    }
    InstallAnswers(d, d.keychain.value, luck);
    InstallWritesItsKey(d, d.keychain.value, luck);
    ResetKeepsKeychain(d, names, fate);
  }

  lemma {:induction false} CreateFromKeepsWrapped(d: Disk, names: seq<Name>, key: Key, fate: Step -> Fate)
    requires Wrapped !in names && Temporary !in names
    ensures var u := CreateFrom(d, names, key, fate).disk;
      && (Wrapped in u.files <==> Wrapped in d.files)
      && (Wrapped in d.files ==> u.files[Wrapped] == d.files[Wrapped])
    decreases |names|
  {
    if names != [] {
      assert names[0] in names && forall n <- names[1..] :: n in names;
      CreateFromKeepsWrapped(CreateStep(d, names[0], key, fate(Create(names[0]))), names[1..], key, fate);
    }
  }

  lemma InstallWritesItsKey(d: Disk, deviceKey: Key, luck: Fortune)
    ensures var u := Install(d, deviceKey, luck).disk;
      Wrapped in u.files && (Wrapped !in d.files || u.files[Wrapped] != d.files[Wrapped]) ==>
        u.files[Wrapped] == Envelope(deviceKey, luck.vaultKey)
  {
    var written := WriteStep(d, Envelope(deviceKey, luck.vaultKey), luck.fate(WriteTemporary));
    if luck.fate(WriteTemporary).Completed? {
      CreateFromKeepsWrapped(RenameStep(written, luck.fate(Rename)), [Database, Wal, Shm], luck.vaultKey, luck.fate);
    }
  }

  lemma {:induction false} ResetKeepsKeychain(d: Disk, names: seq<Name>, fate: Step -> Fate)
    ensures Reset(d, names, fate).keychain == d.keychain
    decreases |names|
  {
    if names != [] {
      ResetKeepsKeychain(d, names[1..], fate);
      ResetKeepsKeychain(RemoveStep(d, names[0], fate(Remove(names[0]))), names[1..], fate);
    }
  }

  /** The files after the write and the rename of an installation. */
  function Installed(d: Disk, envelope: Content, write: Fate, rename: Fate): Disk {
    var written := WriteStep(d, envelope, write);
    if write.Completed? then RenameStep(written, rename) else written
  }

  /**
   Wherever an installation stops, the wrapped key is the old one or the whole new one, and the
   temporary file says how far it came: gone after the rename, whole before it, torn in the middle of
   the write; every other file is as before.
   */
  lemma InstallationIsAtomic(d: Disk, envelope: Content, write: Fate, rename: Fate)
    ensures var u := Installed(d, envelope, write, rename).files;
      && (forall n :: n != Wrapped && n != Temporary ==>
            (n in u <==> n in d.files) && (n in d.files ==> u[n] == d.files[n]))
      && (if write == Completed && rename in {Completed, FullEffect} then
            Wrapped in u && u[Wrapped] == envelope && Temporary !in u
          else
            && (Wrapped in u <==> Wrapped in d.files) && (Wrapped in d.files ==> u[Wrapped] == d.files[Wrapped])
            && (if write == NoEffect then
                  (Temporary in u <==> Temporary in d.files)
                  && (Temporary in d.files ==> u[Temporary] == d.files[Temporary])
                else Temporary in u && u[Temporary] == if write == PartEffect then Torn else envelope))
  {
  }
}
