/**
 The Device's one encrypted Vault: two slots in flash with a pointer to the active one, and the
 runtime that shows it, unlocks it and replaces it generation by generation.
 */
module VaultRuntime {
  import opened Vocabulary

  type Vmk = nat

  const SCHEMA: nat := 2
  const MAX_CIPHERTEXT: nat := 64 * 1024
  const MILLISECONDS_PER_DAY: nat := 86_400_000

  /**
   Decryption is symbolic: an envelope opens under `sealedBy` alone, and `readable` says whether
   what comes out decodes in the envelope's own format.
   */
  datatype Envelope = Envelope(
    format: nat, schema: nat, vaultId: Id16, generation: u64,
    ciphertextBytes: nat, body: nat,
    sealedBy: Vmk, readable: bool, autoLockDays: Option<nat>)

  predicate SupportedFormat(format: nat) {
    format == 1 || format == 2
  }

  predicate WellFramed(e: Envelope) {
    SupportedFormat(e.format) && e.schema == SCHEMA && e.generation != 0 && 0 < e.ciphertextBytes <= MAX_CIPHERTEXT
  }

  datatype Status =
    | Ok | NoSchema | StillLocked | InvalidState | InvalidArgument | NotFound | ReprovisionNeeded
    | UnsupportedSchema | UnsupportedVaultFormat | GenerationMismatch | AuthenticationFailed | Corrupt | Io
    | PowerLost

  predicate ExplicitResetRecovery(s: Status) {
    s == Corrupt || s == UnsupportedSchema || s == ReprovisionNeeded
  }

  datatype Flash =
    | Erased
    | OtherSchema(version: nat)
    | Slots(first: Option<Envelope>, second: Option<Envelope>, active: Option<bool>)

  /** The Vault the flash holds: the slot the active mark names. */
  function ActiveVault(f: Flash): Option<Envelope> {
    if !f.Slots? || f.active.None? then None else if f.active.value then f.second else f.first
  }

  predicate NextOf(current: Envelope, expected: u64, e: Envelope) {
    && current.generation == expected && expected != MAX_U64
    && e.generation == expected + 1 && e.vaultId == current.vaultId
  }

  class NvsPersistence {
    var flash: Flash

    /** An active slot always holds an envelope that was written whole. */
    ghost predicate Valid()
      reads this
    {
      flash.Slots? && flash.active.Some? ==> ActiveVault(flash).Some? && WellFramed(ActiveVault(flash).value)
    }

    constructor (f: Flash)
      requires f.Slots? && f.active.Some? ==> ActiveVault(f).Some? && WellFramed(ActiveVault(f).value)
      ensures Valid() && flash == f
    {
      flash := f;
    }

    method Load() returns (status: Status, vault: Option<Envelope>)
      requires Valid()
      ensures status == Ok ==> flash.Slots? && vault == ActiveVault(flash)
      ensures status == NoSchema ==> flash.Erased?
      ensures status != Ok ==> vault == None
      ensures status == ReprovisionNeeded ==> flash == OtherSchema(1)
      ensures status in {UnsupportedSchema, Corrupt} ==> flash.OtherSchema?
    {
      vault := None;
      var failed: bool := *;
      if failed { return Io, None; }
      match flash
      case Erased => status := NoSchema;
      case OtherSchema(version) =>
        status := if version == 1 then ReprovisionNeeded else if version > SCHEMA then UnsupportedSchema else Corrupt;
      case Slots(_, _, _) =>
        status := Ok;
        vault := ActiveVault(flash);
    }

    /** A failed erasure may have stopped anywhere. */
    method EraseAll() returns (status: Status)
      requires Valid()
      modifies this
      ensures Valid()
      ensures status == Ok ==> flash == Erased
      ensures status != Ok ==> flash in {old(flash), Erased, OtherSchema(0)} && status == Io
    {
      var failed: bool := *;
      if failed {
        var reached: nat := *;
        if reached == 1 { flash := Erased; } else if reached == 2 { flash := OtherSchema(0); }
        return Io;
      }
      flash := Erased;
      status := Ok;
    }

    method FormatSchema2() returns (status: Status)
      requires Valid()
      modifies this
      ensures Valid()
      ensures status == Ok ==> flash == Slots(None, None, None)
      ensures status != Ok ==> flash in {old(flash), Erased, OtherSchema(0)} && status == Io
    {
      status := EraseAll();
      if status != Ok { return; }
      var failed: bool := *;
      if failed { return Io; }
      flash := Slots(None, None, None);
    }

    /**
     Writes the inactive slot, reads it back, then turns the pointer. `power` is how many of the
     two durable writes the supply lasts for: only the last one changes the active Vault.
     */
    method ReplaceEnvelope(expected: u64, e: Envelope, power: nat) returns (status: Status)
      requires Valid()
      modifies this
      ensures Valid()
      ensures ActiveVault(flash) == if status == Ok then Some(e) else old(ActiveVault(flash))
      ensures status == Ok ==> flash.Slots? && WellFramed(e) && power >= 2
      ensures status == Ok ==> if expected == 0 then old(ActiveVault(flash)).None?
                               else old(ActiveVault(flash)).Some? && NextOf(old(ActiveVault(flash)).value, expected, e)
      ensures old(flash).Slots? <==> flash.Slots?
      ensures power >= 2 ==> status != PowerLost
    {
      if !WellFramed(e) { return InvalidArgument; }
      var failed: bool := *;
      if failed { return Io; }
      if !flash.Slots? { return UnsupportedSchema; }
      var current := ActiveVault(flash);
      if expected == 0 {
        if current.Some? { return GenerationMismatch; }
      } else if current.None? || !NextOf(current.value, expected, e) {
        return GenerationMismatch;
      }
      if power == 0 { return PowerLost; }
      var inactive := current.Some? && !flash.active.value;
      failed := *;
      if failed { return Io; }
      flash := if inactive then flash.(second := Some(e)) else flash.(first := Some(e));
      if power == 1 { return PowerLost; }
      failed := *;
      if failed { return Io; }
      failed := *;
      if failed { return Io; }
      flash := flash.(active := Some(inactive));
      status := Ok;
    }
  }

  datatype State = Unprovisioned | Reprovision | Locked | Unlocked | Failed

  datatype Metadata = Metadata(state: State, resetAllowed: bool, vault: Option<Envelope>)

  function Validated(e: Envelope, vmk: Vmk): Status {
    if !WellFramed(e) then if SupportedFormat(e.format) then InvalidArgument else UnsupportedVaultFormat
    else if e.sealedBy != vmk then AuthenticationFailed
    else if !e.readable then Corrupt else Ok
  }

  predicate Opens(e: Envelope, vmk: Vmk) {
    WellFramed(e) && e.sealedBy == vmk && e.readable
  }

  class Runtime {
    const persistence: NvsPersistence
    var schemaReady: bool
    var envelope: Option<Envelope>
    var recoveryResetAllowed: bool
    var state: State
    var vmk: Option<Vmk>
    var autoLockDays: Option<nat>
    var unlockedSince: u64
    var unlockSessionActive: bool

    function Shown(): Metadata
      reads this
    {
      Metadata(state, recoveryResetAllowed, envelope)
    }

    ghost function Persistent(): Option<Envelope>
      reads this, persistence
    {
      ActiveVault(persistence.flash)
    }

    /**
     In every state but an error what the runtime shows is what flash holds, a resident key
     opens it, and the destructive recovery surface is closed.
     */
    ghost predicate Valid()
      reads this, persistence
    {
      && persistence.Valid()
      && (state != Failed ==> envelope == Persistent())
      && (state == Unprovisioned || state == Reprovision ==> envelope.None?)
      && (state == Locked || state == Unlocked ==> envelope.Some? && WellFramed(envelope.value) && !recoveryResetAllowed)
      && (vmk.Some? <==> state == Unlocked)
      && (state == Unlocked ==> Opens(envelope.value, vmk.value) && unlockSessionActive)
      && (unlockSessionActive ==> state == Locked || state == Unlocked)
    }

    constructor (p: NvsPersistence)
      requires p.Valid()
      ensures Valid() && persistence == p && vmk.None? && state != Unlocked && !unlockSessionActive
    {
      persistence := p;
      schemaReady, envelope, recoveryResetAllowed, state := false, None, false, Failed;
      vmk, autoLockDays, unlockedSince, unlockSessionActive := None, None, 0, false;
      new;
      Initialize();
    }

    method ClearUnlockSession()
      modifies this`vmk, this`autoLockDays, this`unlockedSince, this`unlockSessionActive
      ensures vmk.None? && autoLockDays.None? && unlockedSince == 0 && !unlockSessionActive
    {
      vmk, autoLockDays, unlockedSince, unlockSessionActive := None, None, 0, false;
    }

    /** Boot: what is shown comes from flash, or the runtime is in an error. */
    method Initialize()
      requires persistence.Valid()
      modifies this
      ensures Valid() && vmk.None? && !unlockSessionActive && state != Unlocked
      ensures state == Failed ==> envelope.None?
      ensures state == Reprovision ==> persistence.flash == OtherSchema(1) && recoveryResetAllowed
      ensures state in {Unprovisioned, Locked} ==> !recoveryResetAllowed
    {
      ClearUnlockSession();
      schemaReady, envelope, recoveryResetAllowed, state := false, None, false, Unprovisioned;
      var status, vault := persistence.Load();
      if status == NoSchema { return; }
      if status == ReprovisionNeeded {
        state, recoveryResetAllowed := Reprovision, true;
        return;
      }
      if status != Ok {
        state, recoveryResetAllowed := Failed, ExplicitResetRecovery(status);
        return;
      }
      schemaReady := true;
      if vault.None? { return; }
      envelope, state := vault, Locked;
    }

    method ReloadAfterPersistence() returns (status: Status)
      requires persistence.Valid()
      modifies this
      ensures Valid() && vmk.None? && !unlockSessionActive
      ensures status == Ok ==> schemaReady && persistence.flash.Slots? && state == (if envelope.None? then Unprovisioned else Locked)
      ensures status != Ok ==> state == Failed && envelope == old(envelope)
    {
      var vault;
      status, vault := persistence.Load();
      ClearUnlockSession();
      if status != Ok {
        state, recoveryResetAllowed := Failed, ExplicitResetRecovery(status);
        return;
      }
      recoveryResetAllowed, schemaReady, envelope := false, true, vault;
      state := if vault.None? then Unprovisioned else Locked;
    }

    method FormatForSchema2() returns (status: Status)
      requires Valid()
      modifies this, persistence
      ensures Valid() && !unlockSessionActive
      ensures status == Ok ==> state == Unprovisioned && schemaReady && persistence.flash == Slots(None, None, None)
      ensures status != Ok ==> state == Failed && envelope == old(envelope)
      ensures Persistent().None? || Persistent() == old(Persistent())
    {
      ClearUnlockSession();
      status := persistence.FormatSchema2();
      if status != Ok {
        state, recoveryResetAllowed := Failed, ExplicitResetRecovery(status);
        return;
      }
      status := ReloadAfterPersistence();
    }

    /** First installation, allowed only where there is nothing to overwrite. */
    method InstallEncryptedVault(e: Envelope, key: Vmk) returns (status: Status)
      requires Valid()
      modifies this, persistence
      ensures Valid()
      ensures status == Ok ==> old(state) == Unprovisioned && state == Locked && envelope == Some(e)
                               && Persistent() == Some(e) && Opens(e, key)
      ensures status != Ok ==>
                || (Persistent() == old(Persistent()) && state == old(state) && envelope == old(envelope)
                    && recoveryResetAllowed == old(recoveryResetAllowed) && unlockSessionActive == old(unlockSessionActive))
                || (Persistent() == Some(e) && Opens(e, key) && state == Failed && old(state) == Unprovisioned)
    {
      if !schemaReady { return InvalidState; }
      if state != Unprovisioned || envelope.Some? { return InvalidState; }
      status := Validated(e, key);
      if status != Ok { return; }
      status := persistence.ReplaceEnvelope(0, e, 2);
      if status != Ok { return; }
      status := ReloadAfterPersistence();
      if status != Ok || envelope != Some(e) {
        state, recoveryResetAllowed := Failed, status == Ok || ExplicitResetRecovery(status);
        ClearUnlockSession();
        return if status == Ok then Corrupt else status;
      }
    }

    method Unlock(key: Vmk, now: u64) returns (status: Status)
      requires Valid()
      modifies this
      ensures Valid() && envelope == old(envelope)
      ensures status == Ok <==> old(state) == Locked && Opens(old(envelope).value, key)
      ensures status == Ok ==> state == Unlocked && vmk == Some(key) && unlockedSince == now
                               && autoLockDays == envelope.value.autoLockDays
      ensures status != Ok ==> state == old(state) && vmk == old(vmk) && recoveryResetAllowed == old(recoveryResetAllowed)
                               && unlockSessionActive == old(unlockSessionActive) && unlockedSince == old(unlockedSince)
    {
      if state != Locked { return InvalidState; }
      status := Validated(envelope.value, key);
      if status != Ok { return; }
      ClearUnlockSession();
      vmk := Some(key);
      autoLockDays, unlockedSince, unlockSessionActive := envelope.value.autoLockDays, now, true;
      state, recoveryResetAllowed := Unlocked, false;
    }

    /** `Lock` and the recovery boundary: the key goes; an error stays an error. */
    method Lock() returns (status: Status)
      requires Valid()
      modifies this
      ensures Valid() && vmk.None? && !unlockSessionActive && envelope == old(envelope)
      ensures status == Ok <==> old(state) != Failed
      ensures state == if old(state) == Failed then Failed else if envelope.Some? then Locked else Unprovisioned
      ensures recoveryResetAllowed == old(recoveryResetAllowed)
    {
      ClearUnlockSession();
      if state == Failed { return InvalidState; }
      state := if envelope.Some? then Locked else Unprovisioned;
      status := Ok;
    }

    /** The key is destroyed, but the age of the unlocked session is kept. */
    method EnterVmkRekeyBoundary() returns (status: Status)
      requires Valid()
      modifies this
      ensures Valid() && envelope == old(envelope) && recoveryResetAllowed == old(recoveryResetAllowed)
      ensures status == Ok <==> old(state) == Unlocked
      ensures status == Ok ==> state == Locked && unlockSessionActive && unlockedSince == old(unlockedSince)
      ensures status != Ok ==> state == old(state) && vmk == old(vmk) && unlockSessionActive == old(unlockSessionActive)
    {
      if state != Unlocked || !unlockSessionActive { return InvalidState; }
      vmk, state := None, Locked;
      status := Ok;
    }

    method FatalSecurityError()
      requires persistence.Valid()
      modifies this
      ensures Valid() && state == Failed && recoveryResetAllowed && envelope == old(envelope)
    {
      ClearUnlockSession();
      state, recoveryResetAllowed := Failed, true;
    }

    /**
     The next generation of the same Vault under the resident key. Written but not read back, it
     is in flash while RAM, and so `hello`, keep showing the generation before it.
     */
    method UpdateEncryptedVault(expected: u64, e: Envelope, now: u64) returns (status: Status, lockDue: bool)
      requires Valid()
      modifies this, persistence
      ensures Valid()
      ensures status == Ok ==> Advanced(old(Shown()), old(vmk), expected, e) && state == Unlocked && vmk == old(vmk)
                               && unlockedSince == old(unlockedSince) && autoLockDays == e.autoLockDays
      ensures lockDue <==> status == Ok && AutomaticLockDue(now)
      ensures old(state) != Unlocked ==> status == StillLocked
      ensures old(state) == Unlocked && !NextOf(old(envelope).value, expected, e) ==> status == GenerationMismatch
      ensures status != Ok ==>
                || (Persistent() == old(Persistent()) && Shown() == old(Shown()) && vmk == old(vmk)
                    && unlockedSince == old(unlockedSince) && autoLockDays == old(autoLockDays)
                    && unlockSessionActive == old(unlockSessionActive))
                || (old(state) == Unlocked && Persistent() == Some(e) && NextOf(old(envelope).value, expected, e)
                    && !(old(envelope).value.format == 2 && e.format == 1)
                    && Opens(e, old(vmk).value) && Shown() == Metadata(Failed, true, old(envelope)))
    {
      lockDue := false;
      if state != Unlocked || vmk.None? || envelope.None? { return StillLocked, false; }
      if !NextOf(envelope.value, expected, e) { return GenerationMismatch, false; }
      if !SupportedFormat(e.format) { return UnsupportedVaultFormat, false; }
      if envelope.value.format == 2 && e.format == 1 { return InvalidArgument, false; }
      status := Validated(e, vmk.value);
      if status != Ok { return; }
      status := persistence.ReplaceEnvelope(expected, e, 2);
      if status != Ok { return; }
      var vault;
      status, vault := persistence.Load();
      if status != Ok || vault != Some(e) {
        FatalSecurityError();
        return (if status == Ok then Corrupt else status), false;
      }
      envelope, schemaReady, recoveryResetAllowed, state := vault, true, false, Unlocked;
      autoLockDays := e.autoLockDays;
      lockDue := AutomaticLockDue(now);
    }

    ghost predicate Advanced(was: Metadata, key: Option<Vmk>, expected: u64, e: Envelope)
      reads this, persistence
    {
      && was.state == Unlocked && was.vault.Some? && NextOf(was.vault.value, expected, e)
      && !(was.vault.value.format == 2 && e.format == 1)
      && key.Some? && Opens(e, key.value)
      && envelope == Some(e) && Persistent() == Some(e)
    }

    /** The same under a new key, after the boundary destroyed the old one. */
    method RekeyEncryptedVault(expected: u64, e: Envelope, key: Vmk) returns (status: Status)
      requires Valid()
      modifies this, persistence
      ensures Valid()
      ensures status == Ok ==>
                && old(state) == Locked && old(unlockSessionActive) && NextOf(old(envelope).value, expected, e)
                && !(old(envelope).value.format == 2 && e.format == 1)
                && Opens(e, key) && envelope == Some(e) && Persistent() == Some(e)
                && state == Unlocked && vmk == Some(key) && autoLockDays == e.autoLockDays
                && unlockedSince == old(unlockedSince)
      ensures status != Ok ==>
                || (Persistent() == old(Persistent()) && Shown() == old(Shown()) && vmk == old(vmk)
                    && unlockSessionActive == old(unlockSessionActive) && unlockedSince == old(unlockedSince))
                || (old(state) == Locked && old(unlockSessionActive) && Persistent() == Some(e)
                    && NextOf(old(envelope).value, expected, e) && Opens(e, key)
                    && !(old(envelope).value.format == 2 && e.format == 1)
                    && Shown() == Metadata(Failed, false, old(envelope)))
    {
      if state != Locked || vmk.Some? || envelope.None? || !unlockSessionActive { return InvalidState; }
      if !NextOf(envelope.value, expected, e) { return GenerationMismatch; }
      if !SupportedFormat(e.format) { return UnsupportedVaultFormat; }
      if envelope.value.format == 2 && e.format == 1 { return InvalidArgument; }
      status := Validated(e, key);
      if status != Ok { return; }
      status := persistence.ReplaceEnvelope(expected, e, 2);
      if status != Ok { return; }
      var vault;
      status, vault := persistence.Load();
      if status != Ok || vault != Some(e) {
        state := Failed;
        ClearUnlockSession();
        return if status == Ok then Corrupt else status;
      }
      envelope, schemaReady := vault, true;
      vmk, autoLockDays := Some(key), e.autoLockDays;
      state, recoveryResetAllowed := Unlocked, false;
    }

    method FactoryReset() returns (status: Status)
      requires Valid()
      modifies this, persistence
      ensures Valid() && vmk.None? && !unlockSessionActive
      ensures status == Ok ==> state == Unprovisioned && Persistent().None? && envelope.None? && !recoveryResetAllowed
      ensures status != Ok ==> state == Failed && !recoveryResetAllowed && envelope == old(envelope)
      ensures Persistent().None? || Persistent() == old(Persistent())
    {
      ClearUnlockSession();
      status := persistence.EraseAll();
      if status != Ok {
        state, recoveryResetAllowed := Failed, false;
        return;
      }
      schemaReady, recoveryResetAllowed, envelope, state := false, false, None, Unprovisioned;
    }

    predicate AutomaticLockDue(now: u64)
      reads this
    {
      && state == Unlocked && vmk.Some? && unlockSessionActive && autoLockDays.Some? && now >= unlockedSince
      && now - unlockedSince >= autoLockDays.value * MILLISECONDS_PER_DAY
    }
  }
}
