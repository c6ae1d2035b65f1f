/** What a session is bound to, and when that still describes the Device. */
module SessionBinding {
  import opened Vocabulary
  import opened Presence

  /** Ids and keys are byte strings that are only compared; zero is the all-zero one. */
  datatype BeginContext = BeginContext(
    operation: SessionOperation,
    deviceId: string,
    vaultId: Id16,
    expectedGeneration: u64,
    registrationId: Id16,
    registrationEpoch: u32,
    currentKey: Key65,
    proposedKey: Key65)

  datatype DeviceSnapshot = DeviceSnapshot(
    deviceId: string,
    vaultPresent: bool,
    vaultId: Id16,
    generation: u64,
    registrationPresent: bool,
    registrationId: Id16,
    registrationEpoch: u32,
    key: Key65)

  predicate ExistingVaultMatches(c: BeginContext, s: DeviceSnapshot) {
    s.vaultPresent && c.vaultId == s.vaultId && c.expectedGeneration == s.generation
  }

  predicate ExistingRegistrationMatches(c: BeginContext, s: DeviceSnapshot) {
    s.registrationPresent && c.registrationId == s.registrationId && c.registrationEpoch == s.registrationEpoch
  }

  predicate ReplacementRegistrationIsNext(c: BeginContext, s: DeviceSnapshot) {
    && s.registrationPresent && s.registrationEpoch != MAX_U32
    && c.registrationId != 0 && c.registrationId != s.registrationId
    && c.registrationEpoch == s.registrationEpoch + 1
  }

  predicate CurrentKeyIsDeviceOwned(c: BeginContext, s: DeviceSnapshot, optional: bool) {
    s.registrationPresent && s.key != 0 && if c.currentKey == 0 then optional else c.currentKey == s.key
  }

  predicate CleanSnapshot(s: DeviceSnapshot) {
    && !s.vaultPresent && s.generation == 0 && s.vaultId == 0
    && !s.registrationPresent && s.registrationEpoch == 0 && s.registrationId == 0 && s.key == 0
  }

  predicate CleanDeviceRecoveryMatches(c: BeginContext, s: DeviceSnapshot) {
    && CleanSnapshot(s) && c.vaultId != 0 && c.expectedGeneration > 0 && c.registrationEpoch == 1
    && c.registrationId != 0 && c.currentKey == 0 && c.proposedKey != 0
  }

  predicate ReplacementMatches(c: BeginContext, s: DeviceSnapshot) {
    && ExistingVaultMatches(c, s) && ReplacementRegistrationIsNext(c, s) && CurrentKeyIsDeviceOwned(c, s, true)
    && c.proposedKey != 0 && c.proposedKey != s.key
  }

  predicate BeginMatches(c: BeginContext, s: DeviceSnapshot) {
    && s.deviceId != "" && c.deviceId == s.deviceId
    && match c.operation
       case InitialProvisioning =>
         && CleanSnapshot(s) && c.expectedGeneration == 0 && c.registrationEpoch == 0
         && c.registrationId != 0 && c.currentKey == 0 && c.proposedKey != 0
       case TrustedBrowserUnlock | VmkRekey =>
         && ExistingVaultMatches(c, s) && ExistingRegistrationMatches(c, s)
         && CurrentKeyIsDeviceOwned(c, s, false) && c.proposedKey == 0
       case Recovery => CleanDeviceRecoveryMatches(c, s) || ReplacementMatches(c, s)
       case BrowserReplacement => ReplacementMatches(c, s)
  }

  predicate UsesRegistration(operation: SessionOperation) {
    operation == TrustedBrowserUnlock || operation == VmkRekey
  }

  /** A session that ends by installing a Vault on a Device that holds nothing. */
  predicate InstallsFromScratch(c: BeginContext, s: DeviceSnapshot) {
    c.operation == InitialProvisioning || (c.operation == Recovery && !s.vaultPresent)
  }

  lemma InstallationNeedsCleanDevice(c: BeginContext, s: DeviceSnapshot)
    requires BeginMatches(c, s) && InstallsFromScratch(c, s)
    ensures CleanSnapshot(s)
  {
  }

  /** A Device admits exactly one unlock binding, and one at all just when it is provisioned. */
  lemma UnlockBindingIsUnique(c: BeginContext, d: BeginContext, s: DeviceSnapshot)
    requires UsesRegistration(c.operation) && c.operation == d.operation && BeginMatches(c, s)
    ensures BeginMatches(d, s) <==> d == c
  {
  }

  lemma UnlockBindingExistsIff(operation: SessionOperation, s: DeviceSnapshot)
    requires UsesRegistration(operation)
    ensures (exists c: BeginContext :: c.operation == operation && BeginMatches(c, s)) <==>
            s.deviceId != "" && s.vaultPresent && s.registrationPresent && s.key != 0
  {
    var c := BeginContext(operation, s.deviceId, s.vaultId, s.generation, s.registrationId, s.registrationEpoch, s.key, 0);
    assert s.deviceId != "" && s.vaultPresent && s.registrationPresent && s.key != 0 ==> BeginMatches(c, s);
  }

  /** A successful replacement makes itself, and whatever matched before it, stop matching. */
  lemma ReplacementSupersedes(r: BeginContext, c: BeginContext, s: DeviceSnapshot, t: DeviceSnapshot)
    requires BeginMatches(r, s) && ReplacementMatches(r, s) && BeginMatches(c, s)
    requires t == s.(registrationId := r.registrationId, registrationEpoch := r.registrationEpoch, key := r.proposedKey)
    ensures !BeginMatches(c, t)
    ensures forall d: BeginContext :: UsesRegistration(d.operation) && BeginMatches(d, t) ==>
              d.registrationId == r.registrationId && d.registrationEpoch == r.registrationEpoch
              && d.currentKey == r.proposedKey
  {
  }

  /** The firmware's constant-time comparison: differences are collected, never acted on early. */
  method SameBytes(left: seq<bv8>, right: seq<bv8>) returns (same: bool)
    requires |left| == |right|
    ensures same <==> left == right
  {
    var difference: bv8 := 0;
    var index := 0;
    while index < |left|
      invariant 0 <= index <= |left|
      invariant difference == 0 <==> left[..index] == right[..index]
    {
      DifferenceAccumulates(difference, left[index], right[index]);
      assert left[..index + 1] == left[..index] + [left[index]];
      assert right[..index + 1] == right[..index] + [right[index]];
      difference := difference | (left[index] ^ right[index]);
      index := index + 1;
    }
    assert left[..index] == left && right[..index] == right;
    return difference == 0;
  }

  lemma DifferenceAccumulates(d: bv8, a: bv8, b: bv8)
    ensures d | (a ^ b) == 0 <==> d == 0 && a == b
  {
  }
}
