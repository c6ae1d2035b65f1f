/**
 The commit protocol between one browser and one Device as a transition system. A world is
 the Device, the one request that may be on the serial line, the browser's durable records,
 and how far the browser process has come. Every durable write, every request, every Device
 reaction and every crash is a step of its own.
 */
module CommitProtocol {
  import opened Vocabulary
  import opened BrowserState
  import opened Reconciliation

  /** A VMK delivered for an installation, waiting for its envelope. */
  datatype PendingInstall = PendingInstall(vaultId: VaultId, registration: Registration)

  /**
   `stored` and `registration` are what survives a power loss. `shown` is the Vault metadata
   in RAM, which is what `hello` reports.
   */
  datatype Device = Device(
    id: DeviceId,
    stored: Option<Vault>,
    registration: Option<Registration>,
    shown: Option<ShownVault>,
    runtime: RuntimeState,
    resetAllowed: bool,
    install: Option<PendingInstall>,
    writesFormat2: bool)

  datatype Request =
    | Deliver(vaultId: VaultId, registration: Registration)
    | Install(vault: Vault)
    | Update(expected: nat, vault: Vault)
    | Rekey(expected: nat, vault: Vault)
    | ResetCommit

  datatype Stage = Staged | Delivering | Delivered | Sent

  datatype Process =
    | Down
    | Deciding(hello: Hello)
    | Resetting(hello: Hello, state: State)
    | Committing(pending: Pending, stage: Stage)

  datatype World = World(device: Device, inflight: Option<Request>, local: Local, process: Process)

  function ShowStored(d: Device): Option<ShownVault> {
    if d.stored.Some? then Some(Show(d.stored.value)) else None
  }

  /** What the Device answers to `hello`; nothing while it is in an unclassified error. */
  function HelloOf(d: Device): Option<Hello> {
    if (d.runtime == Failed || d.runtime == ReprovisionRequired) && !d.resetAllowed then None
    else Some(Hello(d.id, d.runtime, d.shown, d.registration, d.writesFormat2))
  }

  // ----- the Device -----

  predicate Reboots(d: Device, e: Device) {
    e == d.(shown := ShowStored(d), runtime := if d.stored.Some? then Locked else Unprovisioned,
            resetAllowed := false, install := None)
  }

  /** A boot that cannot read the Vault partition. */
  predicate BootsUnreadable(d: Device, e: Device) {
    e == d.(shown := None, runtime := Failed, resetAllowed := e.resetAllowed, install := None)
  }

  /** Locking, unlocking, expiry of a pending VMK, or a runtime fault. */
  predicate Settles(d: Device, e: Device) {
    && e == d.(runtime := e.runtime, resetAllowed := e.resetAllowed, install := e.install)
    && (e.install == d.install || e.install == None)
    && (|| (e.runtime == d.runtime && e.resetAllowed == d.resetAllowed)
        || (d.runtime in {Locked, Unlocked} && e.runtime in {Locked, Unlocked} && e.resetAllowed == d.resetAllowed)
        || (d.runtime == ReprovisionRequired && e.runtime == Unprovisioned && e.resetAllowed == d.resetAllowed)
        || (d.runtime in {Locked, Unlocked} && e.runtime == Failed))
  }

  /** A boot that finds the data of the legacy schema, which counts as no Vault. */
  predicate BootsLegacy(d: Device, e: Device) {
    && d.stored.None?
    && e == d.(shown := None, runtime := ReprovisionRequired, resetAllowed := true, install := None)
  }

  predicate Drifts(d: Device, e: Device) {
    Reboots(d, e) || BootsUnreadable(d, e) || BootsLegacy(d, e) || Settles(d, e)
  }

  predicate Holding(d: Device, v: Vault) {
    d.stored == Some(v) && d.shown == Some(Show(v))
  }

  predicate Advances(from: Vault, expected: nat, to: Vault) {
    && expected == from.generation && expected < MAX_U64 && to.generation == expected + 1
    && to.id == from.id && !(from.format == FORMAT_2 && to.format == LEGACY_FORMAT)
  }

  function WithVault(d: Device, v: Vault): Device {
    d.(stored := Some(v), shown := Some(Show(v)))
  }

  predicate DeliverServed(d: Device, q: Request, e: Device)
    requires q.Deliver?
  {
    && d.stored.None? && d.registration.None? && d.runtime in {Unprovisioned, ReprovisionRequired}
    && e == d.(install := Some(PendingInstall(q.vaultId, q.registration)))
  }

  predicate InstallServed(d: Device, q: Request, e: Device)
    requires q.Install?
  {
    && d.install.Some? && d.install.value.vaultId == q.vault.id
    && (|| e == WithVault(d, q.vault).(registration := Some(d.install.value.registration), runtime := Unlocked,
                                       resetAllowed := false, install := None)
        // rolled back
        || e == d.(shown := None, runtime := Unprovisioned, resetAllowed := false, install := None)
        // neither registered nor provably rolled back
        || (&& e == d.(stored := e.stored, shown := e.shown, runtime := Failed, resetAllowed := false, install := None)
            && (e.stored == Some(q.vault) || e.stored == None)))
  }

  predicate Replaces(d: Device, expected: nat, v: Vault, e: Device) {
    && d.stored.Some? && Holding(d, d.stored.value) && Advances(d.stored.value, expected, v)
    && e.runtime in {Locked, Unlocked}
    && e == WithVault(d, v).(runtime := e.runtime, resetAllowed := false)
  }

  predicate UpdateServed(d: Device, q: Request, e: Device)
    requires q.Update?
  {
    d.runtime == Unlocked && Replaces(d, q.expected, q.vault, e)
  }

  /**
   The new envelope is persistent but could not be read back: the runtime faults, keeps the
   old metadata in RAM, and allows a recovery reset, so `hello` still answers.
   */
  predicate UpdateUnread(d: Device, q: Request, e: Device)
    requires q.Update?
  {
    && d.runtime == Unlocked
    && d.stored.Some? && Holding(d, d.stored.value) && Advances(d.stored.value, q.expected, q.vault)
    && e == d.(stored := Some(q.vault), runtime := Failed, resetAllowed := true)
  }

  /** The same fault during a re-key leaves the recovery reset disallowed: no `hello`. */
  predicate RekeyServed(d: Device, q: Request, e: Device)
    requires q.Rekey?
  {
    || Replaces(d, q.expected, q.vault, e)
    || (&& d.stored.Some? && Holding(d, d.stored.value) && Advances(d.stored.value, q.expected, q.vault)
        && e == d.(stored := Some(q.vault), runtime := Failed, resetAllowed := false))
  }

  predicate ResetServed(d: Device, e: Device) {
    && d.runtime == Unlocked && d.stored.Some?
    && var erased := d.(stored := None, shown := None, runtime := Unprovisioned, resetAllowed := false, install := None);
    && (|| e == erased.(registration := None)
        // the Vault is erased, the registration is not
        || e == erased
        // the erase failed, possibly after it took effect
        || (&& e == d.(stored := e.stored, runtime := Failed, resetAllowed := false, install := None)
            && (e.stored == d.stored || e.stored == None)))
  }

  /**
   A confirmed recovery reset of a broken Device, registration first: not a request of this
   protocol, and so not a step of its runs. A damaged id is replaced with it.
   */
  predicate Wiped(d: Device, e: Device) {
    var cleared := d.(id := e.id, registration := None, resetAllowed := false);
    || e == cleared.(stored := None, shown := None, runtime := Unprovisioned)
    || (e == cleared.(stored := e.stored, runtime := Failed) && (e.stored == d.stored || e.stored == None))
  }

  predicate Serves(d: Device, q: Request, e: Device) {
    match q
    case Deliver(_, _) => DeliverServed(d, q, e)
    case Install(_) => InstallServed(d, q, e)
    case Update(_, _) => UpdateServed(d, q, e)
    case Rekey(_, _) => RekeyServed(d, q, e)
    case ResetCommit => ResetServed(d, e)
  }

  // ----- steps of the world -----

  ghost predicate DriftStep(w: World, x: World) {
    Drifts(w.device, x.device) && x == w.(device := x.device)
  }

  /** The request on the line is lost, refused or served; its reply tells the browser nothing. */
  ghost predicate ServeStep(w: World, x: World) {
    && w.inflight.Some?
    && (x.device == w.device || Drifts(w.device, x.device) || Serves(w.device, w.inflight.value, x.device))
    && x == w.(device := x.device, inflight := None)
  }

  ghost predicate UnreadStep(w: World, x: World) {
    && w.inflight.Some? && w.inflight.value.Update?
    && UpdateUnread(w.device, w.inflight.value, x.device)
    && x == w.(device := x.device, inflight := None)
  }

  /** The line is first-in first-out, so a `hello` reply means nothing is left on it. */
  ghost predicate LookStep(w: World, x: World) {
    && w.inflight.None? && HelloOf(w.device).Some?
    && x == w.(process := Deciding(HelloOf(w.device).value))
  }

  ghost predicate WriteStep(w: World, x: World) {
    && w.process.Deciding?
    && Decide(w.process.hello, w.local).Perform?
    && x == w.(local := Apply(w.local, Decide(w.process.hello, w.local).write))
  }

  /** Canonical writes need the active stored binding and an unlocked Device. */
  predicate ActiveWriter(h: Hello, l: Local, v: VaultId) {
    && h.vault.Some? && h.vault.value.id == v && v in l.store
    && l.store[v].status == Active && h.state == Unlocked && BindingMatches(l.store[v], h)
  }

  predicate MayStage(h: Hello, l: Local, p: Pending) {
    var c := p.candidate;
    var v := c.vault.id;
    && v !in l.journal
    && match p.kind
       case VaultUpdate =>
         && ActiveWriter(h, l, v)
         && p.expectedGeneration == l.store[v].vault.generation < MAX_U64
         && c == l.store[v].(vault := c.vault)
         && c.vault.generation == p.expectedGeneration + 1
       case VmkRekey =>
         && ActiveWriter(h, l, v)
         && p.expectedGeneration == l.store[v].vault.generation < MAX_U64
         && c == l.store[v].(vault := c.vault, recoveryWrap := c.recoveryWrap, wrappedVmk := c.wrappedVmk)
         && c.vault.generation == p.expectedGeneration + 1
       case InitialProvisioning =>
         && h.vault.None? && h.registration.None?
         && v !in l.store && p.expectedGeneration == 0 && c.vault.generation == 1
         && c.registration.epoch == 1 && c.status == Active && c.deviceId == Some(h.deviceId)
       case RecoveryProvisioning =>
         && ShowsClean(h) && v in l.store && l.store[v].status == ReplacementPending
         && 0 < p.expectedGeneration == l.store[v].vault.generation && c.vault == l.store[v].vault
         && c.registration.epoch == 1 && c.status == Active && c.deviceId == Some(h.deviceId)
       case DeviceReset => false
  }

  ghost predicate StageStep(w: World, x: World) {
    && w.process.Deciding? && Decide(w.process.hello, w.local) == Finished
    && x.process.Committing? && x.process.stage == Staged
    && var p := x.process.pending;
    && MayStage(w.process.hello, w.local, p)
    && x == w.(local := w.local.(journal := w.local.journal[p.candidate.vault.id := p]), process := x.process)
  }

  /** Factory Reset stages its intent first and its journal entry second. */
  ghost predicate StageIntentStep(w: World, x: World) {
    && w.process.Deciding? && Decide(w.process.hello, w.local) == Finished
    && var h := w.process.hello;
    && h.vault.Some? && h.deviceId !in w.local.intents
    && var v := h.vault.value.id;
    && ActiveWriter(h, w.local, v)
    && var s := w.local.store[v];
    && x == w.(local := w.local.(intents := w.local.intents[h.deviceId := ResetIntent(h.deviceId, s)]),
               process := Resetting(h, s))
  }

  function ResetIntent(d: DeviceId, s: State): Intent {
    Intent(d, [Affected(s.vault.id, s.vault.generation)])
  }

  ghost predicate UnstageIntentStep(w: World, x: World) {
    && w.process.Resetting?
    && x == w.(local := w.local.(intents := w.local.intents - {w.process.hello.deviceId}),
               process := Deciding(w.process.hello))
  }

  ghost predicate StageResetStep(w: World, x: World) {
    && w.process.Resetting?
    && var s := w.process.state;
    && var p := Pending(DeviceReset, s.vault.generation, s);
    && s.vault.id !in w.local.journal
    && x == w.(local := w.local.(journal := w.local.journal[s.vault.id := p]), process := Committing(p, Staged))
  }

  function CommitRequest(p: Pending): Request {
    match p.kind
    case VaultUpdate => Update(p.expectedGeneration, p.candidate.vault)
    case VmkRekey => Rekey(p.expectedGeneration, p.candidate.vault)
    case DeviceReset => ResetCommit
    case InitialProvisioning => Install(p.candidate.vault)
    case RecoveryProvisioning => Install(p.candidate.vault)
  }

  predicate Installs(p: Pending) {
    p.kind == InitialProvisioning || p.kind == RecoveryProvisioning
  }

  function Delivery(p: Pending): PendingInstall {
    PendingInstall(p.candidate.vault.id, p.candidate.registration)
  }

  /** An installation first delivers its VMK; its envelope follows the acknowledged delivery. */
  ghost predicate SendStep(w: World, x: World) {
    && w.process.Committing? && w.inflight.None?
    && var p := w.process.pending;
    && match w.process.stage
       case Staged =>
         if Installs(p)
         then x == w.(inflight := Some(Deliver(p.candidate.vault.id, p.candidate.registration)),
                      process := Committing(p, Delivering))
         else x == w.(inflight := Some(CommitRequest(p)), process := Committing(p, Sent))
       case Delivered => x == w.(inflight := Some(CommitRequest(p)), process := Committing(p, Sent))
       case _ => false
  }

  ghost predicate AcknowledgeStep(w: World, x: World) {
    && w.process.Committing? && w.process.stage == Delivering && w.inflight.None?
    && w.device.install == Some(Delivery(w.process.pending))
    && x == w.(process := Committing(w.process.pending, Delivered))
  }

  ghost predicate CrashStep(w: World, x: World) {
    x == w.(process := Down)
  }

  ghost predicate Next(w: World, x: World) {
    || DriftStep(w, x) || ServeStep(w, x) || LookStep(w, x) || WriteStep(w, x)
    || StageStep(w, x) || StageIntentStep(w, x) || UnstageIntentStep(w, x) || StageResetStep(w, x)
    || SendStep(w, x) || AcknowledgeStep(w, x) || CrashStep(w, x)
  }
}
