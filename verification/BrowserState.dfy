/**
 The records the browser keeps about a Vault, what a Device says about itself in `hello`,
 and the predicate that binds the two. Byte strings that are only compared (ids, keys,
 ciphertexts) are natural numbers: their big-endian value.
 */
module BrowserState {
  import opened Vocabulary

  type VaultId = nat
  type DeviceId = nat

  const LEGACY_FORMAT: nat := 1
  const FORMAT_2: nat := 2

  /** An encrypted Vault envelope; `body` stands for nonce, ciphertext and tag together. */
  datatype Vault = Vault(id: VaultId, generation: nat, format: nat, body: nat)

  datatype Registration = Registration(id: nat, epoch: nat, key: nat)

  datatype TrustStatus = Active | ReplacementPending

  datatype State = State(
    vault: Vault,
    recoveryWrap: nat,
    registration: Registration,
    status: TrustStatus,
    wrappedVmk: nat,
    deviceId: Option<DeviceId>)

  datatype TransactionKind =
    InitialProvisioning | RecoveryProvisioning | VaultUpdate | VmkRekey | DeviceReset

  datatype Pending = Pending(kind: TransactionKind, expectedGeneration: nat, candidate: State)

  datatype Affected = Affected(vaultId: VaultId, generation: nat)

  datatype Intent = Intent(deviceId: DeviceId, affected: seq<Affected>)

  /** Everything the browser keeps across a crash. */
  datatype Local = Local(
    store: map<VaultId, State>,
    journal: map<VaultId, Pending>,
    intents: map<DeviceId, Intent>)

  datatype RuntimeState = Unprovisioned | ReprovisionRequired | Locked | Unlocked | Failed

  datatype ShownVault = ShownVault(id: VaultId, generation: nat, format: nat)

  datatype Hello = Hello(
    deviceId: DeviceId,
    state: RuntimeState,
    vault: Option<ShownVault>,
    registration: Option<Registration>,
    writesFormat2: bool)

  function Show(v: Vault): ShownVault {
    ShownVault(v.id, v.generation, v.format)
  }

  /** The Device holds nothing that a browser copy could still be needed for. */
  predicate ShowsClean(h: Hello) {
    h.vault.None? && h.registration.None? && h.state == Unprovisioned
  }

  predicate ShowsProvisioned(h: Hello) {
    h.vault.Some? && h.registration.Some?
  }

  predicate BindingMatches(s: State, h: Hello) {
    && h.vault.Some? && h.registration.Some?
    && s.deviceId == Some(h.deviceId)
    && Show(s.vault) == h.vault.value
    && s.registration == h.registration.value
  }

  /** What a put over a stored copy of generation `expected` really stores. */
  function Merge(current: State, incoming: State, expected: nat): State {
    if incoming.vault.generation == expected + 1
       && current.vault.id == incoming.vault.id
       && current.wrappedVmk == incoming.wrappedVmk
    then current.(vault := incoming.vault)
    else incoming
  }

  /** The Vault format the next mutation writes, or None when it must be refused. */
  function NextFormat(s: State, h: Hello, requireFormat2: bool): Option<nat> {
    if s.vault.format == FORMAT_2 then
      if h.writesFormat2 then Some(FORMAT_2) else None
    else if s.vault.format != LEGACY_FORMAT then None
    else if h.writesFormat2 then Some(FORMAT_2)
    else if requireFormat2 then None
    else Some(LEGACY_FORMAT)
  }
}
