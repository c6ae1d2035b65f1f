/**
 What the firmware makes of each request is what the commit protocol's Device, or the Device of
 the many-browser model, may make of that very request.
 */
module DeviceRefinement {
  import opened Vocabulary
  import opened Presence
  import opened SessionBinding
  import opened VmkSink
  import opened DeviceView
  import opened CanonicalProtocol
  import B = BrowserState
  import C = CommitProtocol
  import F = BrowserReplacement
  import R = RegistrationStore
  import V = VaultRuntime

  ghost predicate RefinesRequest(d: C.Device, q: C.Request, x: C.Device) {
    x == d || C.Drifts(d, x) || C.Serves(d, q, x) || (q.Update? && C.UpdateUnread(d, q, x))
  }

  method ServeUpdate(s: CanonicalVmkSink, expected: u64, e: V.Envelope, now: u64)
    requires s.Valid()
    modifies s.runtime, s.runtime.persistence
    ensures s.Valid() && RefinesRequest(old(s.Seen()), C.Update(expected, VaultOf(e)), s.Seen())
  {
    hide R.Decode, R.Chain;
    var status, lockDue := s.runtime.UpdateEncryptedVault(expected, e, now);
  }

  method ServeRekey(s: CanonicalVmkSink, expected: u64, e: V.Envelope, now: u64)
    requires s.Valid()
    modifies s, s.runtime, s.runtime.persistence
    ensures s.Valid() && RefinesRequest(old(s.Seen()), C.Rekey(expected, VaultOf(e)), s.Seen())
  {
    hide R.Decode, R.Chain;
    var installed := s.InstallRekeyedVault(expected, e, now);
  }

  /** The key delivered for a first installation; the registration it asks for comes with it. */
  method ServeDelivery(s: CanonicalVmkSink, c: BeginContext, vmk: Vmk, now: u64)
    requires s.Valid() && s.Snapshot().Some? && BeginMatches(c, s.Snapshot().value)
    requires Scratch(c.operation, s.runtime.Shown()) && s.runtime.state in {V.Unprovisioned, V.Reprovision}
    modifies s, s.runtime, s.registration
    ensures s.Valid()
    ensures RefinesRequest(old(s.Seen()), C.Deliver(c.vaultId, B.Registration(c.registrationId, 1, c.proposedKey)), s.Seen())
  {
    hide R.Chain;
    var installed := s.InstallVmk(c, vmk, now);
  }

  method ServeInstall(s: CanonicalVmkSink, e: V.Envelope, now: u64)
    requires s.Valid() && s.pending && s.pendingContext.value.operation != VmkRekey
    modifies s, s.runtime, s.runtime.persistence, s.registration
    ensures s.Valid() && RefinesRequest(old(s.Seen()), C.Install(VaultOf(e)), s.Seen())
  {
    hide R.Decode, R.Chain;
    var installed := s.InstallVault(e, now);
  }

  /** The erase behind a confirmed factory reset, registration second. */
  method ServeReset(s: CanonicalVmkSink)
    requires s.Valid() && !s.pending && s.runtime.state == V.Unlocked && s.Snapshot().Some?
    modifies s.runtime, s.runtime.persistence, s.registration
    ensures s.Valid() && RefinesRequest(old(s.Seen()), C.ResetCommit, s.Seen())
  {
    hide R.Chain;
    var erased := s.runtime.FactoryReset();
    if erased != V.Ok { return; }
    var cleared := s.registration.ClearRegistration();
  }

  /** The key a replacing browser delivered: the Vault opens and the registration moves on, or neither does. */
  method ServeReplacement(s: CanonicalVmkSink, c: BeginContext, vmk: Vmk, now: u64)
    requires s.Valid() && s.Snapshot().Some? && BeginMatches(c, s.Snapshot().value) && c.operation == BrowserReplacement
    modifies s, s.runtime, s.registration
    ensures s.Valid()
    ensures || s.Seen() == old(s.Seen()) || C.Drifts(old(s.Seen()), s.Seen())
            || (forall st: B.State :: Asks(c, st) ==> F.ReplaceServed(old(s.Seen()), st, s.Seen()))
  {
    hide R.Chain, R.Decode;
    s.CancelPending();
    var installed := s.InstallVmk(c, vmk, now);
  }

  predicate Asks(c: BeginContext, st: B.State) {
    && st.vault.id == c.vaultId && st.vault.generation == c.expectedGeneration
    && st.registration == B.Registration(c.registrationId, c.registrationEpoch, c.proposedKey)
  }

  method Lock(s: CanonicalVmkSink)
    requires s.Valid()
    modifies s, s.runtime
    ensures s.Valid() && (s.Seen() == old(s.Seen()) || C.Drifts(old(s.Seen()), s.Seen()))
  {
    hide R.Decode, R.Chain;
    s.CancelPending();
    var status := s.runtime.Lock();
  }

  /** What the handler answers to `hello`; nothing while no answer may be given. */
  function Answer(h: CanonicalProtocolHandler): Option<B.Hello>
    reads h, h.session.sink, h.session.sink.runtime, h.session.sink.registration
  {
    var s := h.session.sink;
    if h.Decision() == Unavailable then None
    else Some(B.Hello(s.registration.snapshot.deviceId, StateOf(s.runtime.state), ShownIn(s.runtime.envelope),
                      RegistrationIn(s.registration.snapshot.registration), true))
  }

  /** RAM's registration is flash's, as it is unless a reread failed or the record wore out. */
  ghost predicate Synced(s: CanonicalVmkSink)
    reads s, s.runtime, s.runtime.persistence, s.registration
  {
    && s.Valid() && s.registration.ready && s.registration.snapshot.registration == s.registration.Stored()
    && s.registration.snapshot.deviceId == IdOf(s.registration.deviceIdRecord)
  }

  /** The `hello` the browser's protocol is about is the one the firmware answers. */
  lemma HelloIsTheProtocols(h: CanonicalProtocolHandler)
    requires Synced(h.session.sink)
    ensures Answer(h) == C.HelloOf(h.session.sink.Seen())
  {
  }
}
