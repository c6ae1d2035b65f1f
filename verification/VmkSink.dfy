/**
 Where a delivered Vault key goes: into the runtime at once, or, for an installation or a
 re-key, into a short-lived pending slot until the matching envelope arrives.
 */
module VmkSink {
  import opened Vocabulary
  import opened Presence
  import opened SessionBinding
  import V = VaultRuntime
  import B = BrowserState
  import C = CommitProtocol
  import F = BrowserReplacement
  import opened DeviceView
  import R = RegistrationStore

  const PENDING_VMK_TTL_MS: u64 := 30_000

  type Vmk = V.Vmk

  function HexDigit(n: nat): char
    requires n < 16
  {
    "0123456789abcdef"[n]
  }

  /** The stable id as 32 hexadecimal digits. */
  function HexText(n: nat, digits: nat): (text: string)
    ensures |text| == digits
  {
    if digits == 0 then "" else HexText(n / 16, digits - 1) + [HexDigit(n % 16)]
  }

  /** What a session may be bound to; none while RAM's Vault and registration disagree. */
  function BindingSnapshot(m: V.Metadata, ready: bool, r: R.Snapshot): Option<DeviceSnapshot> {
    if !ready || m.vault.Some? != r.registration.Some? then None
    else if m.vault.Some? && m.vault.value.vaultId != r.registration.value.vaultId then None
    else Some(DeviceSnapshot(
                HexText(r.deviceId, 32),
                m.vault.Some?,
                if m.vault.Some? then m.vault.value.vaultId else 0,
                if m.vault.Some? then m.vault.value.generation else 0,
                r.registration.Some?,
                if r.registration.Some? then r.registration.value.id else 0,
                if r.registration.Some? then r.registration.value.epoch else 0,
                if r.registration.Some? then r.registration.value.key else 0))
  }

  /** The registration a context asks for. */
  function Proposed(c: BeginContext): R.Registration {
    R.Registration(c.vaultId, c.registrationId, c.registrationEpoch, c.proposedKey)
  }

  predicate Scratch(operation: SessionOperation, m: V.Metadata) {
    operation == InitialProvisioning || (operation == Recovery && m.vault.None?)
  }

  predicate EnvelopeMatches(e: V.Envelope, c: BeginContext, generation: u64) {
    && V.SupportedFormat(e.format) && e.schema == V.SCHEMA && e.vaultId == c.vaultId
    && e.generation == generation && e.ciphertextBytes > 0
  }

  class CanonicalVmkSink {
    const runtime: V.Runtime
    const registration: R.Store
    var pendingVmk: Vmk
    var pendingContext: Option<BeginContext>
    var pending: bool
    var deadlineArmed: bool
    var pendingExpiresAt: u64

    /** Neither flash nor RAM has a Vault or a registration, and installation is open. */
    ghost predicate NothingKept()
      reads this, runtime, runtime.persistence, registration
    {
      && runtime.state in {V.Unprovisioned, V.Reprovision}
      && runtime.Persistent().None? && runtime.envelope.None?
      && registration.ready && registration.Stored().None? && registration.snapshot.registration.None?
    }

    /** RAM forgets a registration only while it shows a Vault, which blocks every new session. */
    ghost predicate DeviceValid()
      reads runtime, runtime.persistence, registration
    {
      runtime.Valid() && registration.Valid() && (registration.forgotten ==> runtime.envelope.Some?)
    }

    /** A key waiting for a first installation implies there is nothing an erase could destroy. */
    ghost predicate Valid()
      reads this, runtime, runtime.persistence, registration
    {
      && DeviceValid()
      && (pending ==> pendingContext.Some?)
      && (!pending ==> pendingContext.None? && pendingVmk == 0 && !deadlineArmed && pendingExpiresAt == 0)
      && (pending && pendingContext.value.operation in {InitialProvisioning, Recovery} ==> NothingKept())
      && (pending ==> pendingContext.value.operation in {InitialProvisioning, Recovery, VmkRekey})
    }

    function Snapshot(): Option<DeviceSnapshot>
      reads runtime, registration
    {
      BindingSnapshot(runtime.Shown(), registration.ready, registration.snapshot)
    }

    /** What flash holds. */
    ghost function Kept(): (Option<V.Envelope>, Option<seq<byte>>)
      reads runtime, runtime.persistence, registration
    {
      (runtime.Persistent(), registration.record)
    }

    /** The device as the commit protocol sees it. */
    ghost function Seen(): C.Device
      reads this, runtime, runtime.persistence, registration
    {
      C.Device(
        IdOf(registration.deviceIdRecord),
        VaultIn(runtime.Persistent()),
        RegistrationIn(registration.Stored()),
        ShownIn(runtime.envelope),
        StateOf(runtime.state),
        runtime.recoveryResetAllowed,
        InstallOf(pending, pendingContext),
        true)
    }

    twostate predicate Moved(cause: Cause)
      reads this, runtime, runtime.persistence, registration
    {
      Reaches(old(Seen()), Seen(), cause)
    }

    ghost predicate SameDevice(was: V.Metadata, kept: (Option<V.Envelope>, Option<seq<byte>>), key: Option<Vmk>)
      reads runtime, runtime.persistence, registration
    {
      runtime.Shown() == was && Kept() == kept && runtime.vmk == key
    }

    /** Nothing but a waiting key has gone. */
    twostate lemma OnlyCancelled(cause: Cause)
      requires Seen() == old(Seen()) || Seen() == old(Seen()).(install := None)
      ensures Moved(cause)
    {
      hide Reaches;
      if Seen() == old(Seen()) {
        Stays(Seen(), cause);
      } else {
        assert C.Settles(old(Seen()), Seen());
        StepReaches(old(Seen()), Seen(), cause);
      }
    }

    /** One step of the device's own, or the one it was asked for, or none. */
    twostate lemma Stepped(cause: Cause)
      requires Seen() == old(Seen()) || DeviceStep(old(Seen()), Seen(), cause)
      ensures Moved(cause)
    {
      hide Reaches, DeviceStep;
      if Seen() == old(Seen()) {
        Stays(Seen(), cause);
      } else {
        StepReaches(old(Seen()), Seen(), cause);
      }
    }

    constructor (run: V.Runtime, reg: R.Store)
      requires run.Valid() && reg.Valid() && !reg.forgotten
      ensures Valid() && !pending && runtime == run && registration == reg
    {
      runtime, registration := run, reg;
      pendingVmk, pendingContext, pending, deadlineArmed, pendingExpiresAt := 0, None, false, false, 0;
    }

    method CancelPending()
      requires DeviceValid()
      modifies this
      ensures Valid() && !pending && Seen() == old(Seen()).(install := None)
    {
      pendingVmk, pendingContext, pending, deadlineArmed, pendingExpiresAt := 0, None, false, false, 0;
    }

    /** The boundary a new session crosses: what it will replace is locked away first. */
    method PrepareAttempt(operation: SessionOperation) returns (prepared: bool)
      requires Valid()
      modifies this, runtime
      ensures Valid() && !pending && Kept() == old(Kept()) && runtime.envelope == old(runtime.envelope)
      ensures prepared && Scratch(operation, runtime.Shown()) ==> runtime.state in {V.Unprovisioned, V.Reprovision}
      ensures prepared && operation == TrustedBrowserUnlock ==> runtime.state == V.Locked
      ensures prepared && operation in {BrowserReplacement, VmkRekey} ==> runtime.state == V.Locked
      ensures runtime.vmk.None? || runtime.vmk == old(runtime.vmk)
      ensures C.Drifts(old(Seen()), Seen())
    {
      CancelPending();
      match operation
      case InitialProvisioning =>
        prepared := runtime.envelope.None? && (runtime.state == V.Unprovisioned || runtime.state == V.Reprovision);
      case TrustedBrowserUnlock =>
        prepared := runtime.envelope.Some? && runtime.state == V.Locked;
      case Recovery =>
        if runtime.envelope.None? {
          return runtime.state == V.Unprovisioned || runtime.state == V.Reprovision;
        }
        var status := runtime.Lock();
        prepared := status == V.Ok;
      case BrowserReplacement =>
        if runtime.envelope.None? { return false; }
        var status := runtime.Lock();
        prepared := status == V.Ok;
      case VmkRekey =>
        if runtime.envelope.None? || runtime.state != V.Unlocked { return false; }
        var status := runtime.EnterVmkRekeyBoundary();
        prepared := status == V.Ok;
    }

    /** Takes the key a completed attempt delivered, the binding having just been checked again. */
    method InstallVmk(c: BeginContext, vmk: Vmk, now: u64) returns (installed: bool)
      requires Valid()
      requires Snapshot().Some? && BeginMatches(c, Snapshot().value)
      requires c.operation == InitialProvisioning ==> runtime.state in {V.Unprovisioned, V.Reprovision}
      modifies this, runtime, registration
      ensures Valid() && !deadlineArmed && runtime.Persistent() == old(runtime.Persistent())
      ensures pending ==> installed && pendingVmk == vmk && pendingContext == Some(c)
                          && registration.Kept()
                          && runtime.Shown() == old(runtime.Shown()) && runtime.vmk == old(runtime.vmk)
      ensures Scratch(c.operation, old(runtime.Shown())) ==> unchanged(runtime) && unchanged(registration)
      ensures pending <==> installed && (c.operation == VmkRekey || Scratch(c.operation, old(runtime.Shown())))
      ensures runtime.vmk.Some? && runtime.vmk != old(runtime.vmk) ==>
                installed && runtime.vmk == Some(vmk) && V.Opens(old(runtime.Persistent()).value, vmk)
      ensures registration.Kept() || (installed && ReplacementMatches(c, old(Snapshot().value)) && registration.Appended()
                                         && registration.history == old(registration.history) + [Proposed(c)])
      ensures c.operation == BrowserReplacement ==>
                && runtime.envelope == old(runtime.envelope) && runtime.recoveryResetAllowed == old(runtime.recoveryResetAllowed)
                && runtime.state == (if installed then V.Unlocked else old(runtime.state))
                && registration.snapshot.deviceId == old(registration.snapshot.deviceId)
                && if installed then registration.Stored() == Some(Proposed(c)) else registration.Kept()
      ensures DeviceStep(old(Seen()), Seen(), Delivered(c))
    {
      CancelPending();
      match c.operation
      case TrustedBrowserUnlock =>
        var status := runtime.Unlock(vmk, now);
        installed := status == V.Ok;
      case Recovery =>
        if runtime.envelope.None? {
          if runtime.state != V.Unprovisioned && runtime.state != V.Reprovision { return false; }
          if c.expectedGeneration == 0 || c.registrationEpoch != 1 || c.currentKey != 0 { return false; }
          KeepPending(c, vmk);
          assert Delivers(c, old(Seen()), Seen());
          return true;
        }
        installed := UnlockAndReplace(c, vmk, now);
        assert installed ==> F.ReplaceServed(old(Seen()), Replacing(c), Seen());
      case BrowserReplacement =>
        installed := UnlockAndReplace(c, vmk, now);
        assert installed ==> F.ReplaceServed(old(Seen()), Replacing(c), Seen());
      case InitialProvisioning =>
        KeepPending(c, vmk);
        assert Delivers(c, old(Seen()), Seen());
        installed := true;
      case VmkRekey =>
        KeepPending(c, vmk);
        installed := true;
    }

    method KeepPending(c: BeginContext, vmk: Vmk)
      requires DeviceValid() && (c.operation in {InitialProvisioning, Recovery} ==> NothingKept())
      requires c.operation in {InitialProvisioning, Recovery, VmkRekey}
      modifies this
      ensures Valid() && pending && pendingVmk == vmk && pendingContext == Some(c) && !deadlineArmed
      ensures Seen() == old(Seen()).(install := InstallOf(true, Some(c)))
    {
      pendingVmk, pendingContext, pending, deadlineArmed, pendingExpiresAt := vmk, Some(c), true, false, 0;
    }

    /** The unlocked Vault stays unlocked only if the new registration was recorded. */
    method UnlockAndReplace(c: BeginContext, vmk: Vmk, now: u64) returns (installed: bool)
      requires Valid() && !pending && runtime.envelope.Some?
      modifies runtime, registration
      ensures Valid() && Kept().0 == old(Kept()).0 && runtime.envelope == old(runtime.envelope)
      ensures installed ==> runtime.state == V.Unlocked && runtime.vmk == Some(vmk) && V.Opens(runtime.envelope.value, vmk)
                            && registration.Appended()
                                         && registration.history == old(registration.history) + [Proposed(c)]
      ensures !installed ==> registration.Kept()
      ensures !installed ==> runtime.vmk.None? || runtime.vmk == old(runtime.vmk)
      ensures runtime.state == (if installed then V.Unlocked else old(runtime.state))
      ensures runtime.recoveryResetAllowed == old(runtime.recoveryResetAllowed)
      ensures registration.snapshot.deviceId == old(registration.snapshot.deviceId)
      ensures installed ==> registration.Stored() == Some(Proposed(c))
      ensures registration.deviceIdRecord == old(registration.deviceIdRecord)
      ensures installed ==> old(registration.Stored()).Some? && old(registration.Stored()) == Some(old(registration.history)[|old(registration.history)| - 1])
                            && c.registrationEpoch == old(registration.Stored()).value.epoch + 1
    {
      if c.registrationEpoch == 0 { return false; }
      var unlocked := runtime.Unlock(vmk, now);
      if unlocked != V.Ok { return false; }
      var status := registration.Replace(c.vaultId, c.registrationEpoch - 1, c.registrationId, c.registrationEpoch, c.proposedKey);
      if status != R.Ok {
        var locked := runtime.Lock();
        return false;
      }
      installed := true;
    }

    method ArmPendingDeadline(now: u64)
      requires Valid()
      modifies this
      ensures Valid() && pending == old(pending) && pendingVmk == old(pendingVmk) && pendingContext == old(pendingContext)
      ensures pending ==> deadlineArmed && pendingExpiresAt == DeadlineFrom(now, PENDING_VMK_TTL_MS)
      ensures Seen() == old(Seen())
    {
      if !pending { return; }
      deadlineArmed := true;
      pendingExpiresAt := DeadlineFrom(now, PENDING_VMK_TTL_MS);
    }

    method ExpirePending(now: u64) returns (expired: bool)
      requires Valid()
      modifies this
      ensures Valid() && (expired <==> old(pending) && old(deadlineArmed) && old(pendingExpiresAt) <= now)
      ensures expired ==> !pending
      ensures !expired ==> unchanged(this)
      ensures Seen() == old(Seen()) || Seen() == old(Seen()).(install := None)
    {
      if !pending || !deadlineArmed || now < pendingExpiresAt { return false; }
      CancelPending();
      expired := true;
    }

    method PendingValid(operation: SessionOperation, now: u64) returns (valid: bool)
      requires Valid()
      modifies this
      ensures Valid()
      ensures valid ==> unchanged(this) && pending && deadlineArmed && now < pendingExpiresAt
                        && pendingContext.value.operation == operation
      ensures !valid ==> pending ==> unchanged(this)
      ensures Seen() == old(Seen()) || Seen() == old(Seen()).(install := None)
    {
      var expired := ExpirePending(now);
      valid := pending && deadlineArmed && pendingContext.value.operation == operation;
    }

    /**
     First installation, of a new Vault or of a recovered one: format, write, unlock, register;
     any failure erases again. The rollback can only meet what this very call wrote.
     */
    method InstallVault(e: V.Envelope, now: u64) returns (installed: bool)
      requires Valid() && pending && pendingContext.value.operation in {InitialProvisioning, Recovery}
      modifies this, runtime, runtime.persistence, registration
      ensures Valid() && !pending
      ensures installed ==>
                && runtime.Persistent() == Some(e) && V.Opens(e, old(pendingVmk))
                && runtime.state == V.Unlocked && runtime.vmk == Some(old(pendingVmk))
                && registration.Appended()
                && registration.history == [R.Registration(e.vaultId, old(pendingContext).value.registrationId, 1, old(pendingContext).value.proposedKey)]
                && e.vaultId == old(pendingContext).value.vaultId
                && e.generation == (if old(pendingContext).value.operation == InitialProvisioning then 1
                                    else old(pendingContext).value.expectedGeneration)
                && old(deadlineArmed) && now < old(pendingExpiresAt)
      ensures old(runtime.Persistent()).None? && old(registration.Stored()).None?
      ensures !installed ==> registration.Stored().None? && registration.Kept() && runtime.vmk.None?
      ensures !installed && !SameDevice(old(runtime.Shown()), old(Kept()), old(runtime.vmk)) ==>
                && e.vaultId == old(pendingContext).value.vaultId && !runtime.recoveryResetAllowed
                && (|| runtime.Shown() == V.Metadata(V.Unprovisioned, false, None)
                    || runtime.state == V.Failed)
      ensures !installed ==> registration.snapshot == old(registration.snapshot)
      ensures registration.ready && !registration.forgotten
      ensures installed ==> registration.Stored() == Some(registration.history[0])
                            && registration.snapshot == R.Snapshot(old(registration.snapshot).deviceId, registration.Stored())
      ensures !installed ==> runtime.Persistent().None?
                             || (runtime.Persistent() == Some(e) && V.Opens(e, old(pendingVmk))
                                 && runtime.state == V.Failed && !runtime.recoveryResetAllowed)
      ensures registration.deviceIdRecord == old(registration.deviceIdRecord)
    {
      var c, vmk := pendingContext.value, pendingVmk;
      var generation := if c.operation == InitialProvisioning then 1 else c.expectedGeneration;
      var acceptable := PendingValid(c.operation, now);
      if !acceptable || !ContextAllowsInstall(c) || !EnvelopeMatches(e, c, generation) {
        CancelPending();
        return false;
      }
      CancelPending();
      var status := runtime.FormatForSchema2();
      if status == V.Ok { status := runtime.InstallEncryptedVault(e, vmk); }
      if status == V.Ok { status := runtime.Unlock(vmk, now); }
      if status != V.Ok {
        status := runtime.FactoryReset();
        return false;
      }
      var registered := registration.InstallInitial(c.vaultId, c.registrationId, 1, c.proposedKey);
      if registered != R.Ok {
        status := runtime.FactoryReset();
        return false;
      }
      installed := true;
    }

    /** An update goes to the runtime as it is; a waiting key is none of its business. */
    method UpdateVault(expected: u64, e: V.Envelope, now: u64) returns (status: V.Status, lockDue: bool)
      requires Valid()
      modifies runtime, runtime.persistence
      ensures Valid() && Moved(Asked(C.Update(expected, VaultOf(e))))
      ensures lockDue ==> status == V.Ok && runtime.state == V.Unlocked
      ensures status == V.Ok ==> runtime.Persistent() == Some(e) && old(runtime.state) == V.Unlocked
      ensures runtime.Persistent() == old(runtime.Persistent())
              || (runtime.Persistent() == Some(e) && old(runtime.vmk).Some? && V.Opens(e, old(runtime.vmk).value)
                  && V.NextOf(old(runtime.Persistent()).value, expected, e))
      ensures runtime.vmk == old(runtime.vmk) || runtime.vmk == None
      ensures old(runtime.state) != V.Unlocked ==> runtime.state == old(runtime.state) && status == V.StillLocked
    {
      hide R.Decode, R.Chain, Reaches;
      status, lockDue := runtime.UpdateEncryptedVault(expected, e, now);
      assert status == V.Ok ==> C.UpdateServed(old(Seen()), C.Update(expected, VaultOf(e)), Seen());
      assert status != V.Ok ==> Seen() == old(Seen()) || C.UpdateUnread(old(Seen()), C.Update(expected, VaultOf(e)), Seen());
      Stepped(Asked(C.Update(expected, VaultOf(e))));
    }

    method InstallRekeyedVault(expected: u64, e: V.Envelope, now: u64) returns (installed: bool)
      requires Valid()
      modifies this, runtime, runtime.persistence
      ensures Valid() && !pending && Kept().1 == old(Kept()).1
      ensures installed ==>
                && old(pending) && old(deadlineArmed) && now < old(pendingExpiresAt)
                && old(pendingContext).value.operation == VmkRekey
                && old(runtime.state) == V.Locked && old(runtime.unlockSessionActive)
                && V.NextOf(old(runtime.Persistent()).value, expected, e)
                && !(old(runtime.envelope).value.format == 2 && e.format == 1)
                && runtime.Persistent() == Some(e) && V.Opens(e, old(pendingVmk)) && runtime.vmk == Some(old(pendingVmk))
                && runtime.unlockedSince == old(runtime.unlockedSince) && runtime.state == V.Unlocked
      ensures !installed ==>
                || SameDevice(old(runtime.Shown()), old(Kept()), old(runtime.vmk))
                || (old(pending) && old(runtime.state) == V.Locked && runtime.Persistent() == Some(e) && runtime.vmk.None?
                    && V.NextOf(old(runtime.Persistent()).value, expected, e) && V.Opens(e, old(pendingVmk))
                    && !(old(runtime.envelope).value.format == 2 && e.format == 1)
                    && runtime.Shown() == V.Metadata(V.Failed, false, old(runtime.envelope)))
    {
      var acceptable := PendingValid(VmkRekey, now);
      if !acceptable {
        CancelPending();
        return false;
      }
      var c, vmk := pendingContext.value, pendingVmk;
      CancelPending();
      if expected != c.expectedGeneration || expected == MAX_U64 || !EnvelopeMatches(e, c, expected + 1) { return false; }
      var status := runtime.RekeyEncryptedVault(expected, e, vmk);
      installed := status == V.Ok;
    }
  }

  predicate ContextAllowsInstall(c: BeginContext) {
    && c.registrationId != 0
    && match c.operation
       case InitialProvisioning => c.expectedGeneration == 0 && c.registrationEpoch == 0
       case Recovery => c.expectedGeneration != 0 && c.registrationEpoch == 1 && c.currentKey == 0
       case _ => false
  }
}
