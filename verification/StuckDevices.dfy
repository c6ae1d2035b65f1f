/** Devices that reconciliation cannot settle with, and installations that cannot be served. */
module StuckDevices {
  import opened Vocabulary
  import opened BrowserState
  import opened Reconciliation
  import opened CommitProtocol
  import opened CommitInvariant
  import opened CommitTheorems

  /**
   A browser that sees neither Vault nor registration may journal a first installation, but the
   Device can take its key only in two of the states in which that is seen.
   */
  lemma FirstInstallationServableIff(d: Device, h: Hello, q: Request)
    requires DeviceOk(d) && HelloOf(d) == Some(h) && h.vault.None? && h.registration.None? && q.Deliver?
    ensures (exists e :: DeliverServed(d, q, e)) <==> h.state in {Unprovisioned, ReprovisionRequired}
  {
    if h.state in {Unprovisioned, ReprovisionRequired} {
      assert DeliverServed(d, q, d.(install := Some(PendingInstall(q.vaultId, q.registration))));
    }
  }

  /** For a journaled first installation: whether the Device the browser just saw can take it. */
  lemma JournaledInstallationServableIff(w: World, x: World)
    requires Inv(w) && StageStep(w, x) && x.process.pending.kind == InitialProvisioning
    requires HelloOf(w.device) == Some(w.process.hello)
    ensures var p := x.process.pending;
            (exists e :: DeliverServed(x.device, Deliver(p.candidate.vault.id, p.candidate.registration), e))
            <==> w.process.hello.state in {Unprovisioned, ReprovisionRequired}
  {
    var p := x.process.pending;
    FirstInstallationServableIff(w.device, w.process.hello, Deliver(p.candidate.vault.id, p.candidate.registration));
  }

  const CLEAN: Device := Device(4, None, None, None, Unprovisioned, false, None, true)
  const NEW_VAULT: Vault := Vault(5, 1, 2, 100)
  const NEW_REGISTRATION: Registration := Registration(7, 1, 9)
  const CANDIDATE: State := State(NEW_VAULT, 1, NEW_REGISTRATION, Active, 3, Some(4))
  const FIRST: Pending := Pending(InitialProvisioning, 0, CANDIDATE)
  const NOTHING: Local := Local(map[], map[], map[])

  /** A Device whose flash could not be read shows nothing, and a candidate is journaled for it. */
  lemma CandidateTheDeviceRefuses() returns (run: seq<World>)
    ensures Run(run)
    ensures var w := run[|run| - 1];
            && w.process == Committing(FIRST, Staged) && w.local.journal == map[5 := FIRST]
            && HelloOf(w.device).Some? && HelloOf(w.device).value.state == Failed
            && !exists e :: DeliverServed(w.device, Deliver(5, NEW_REGISTRATION), e)
  {
    var w0 := World(CLEAN, None, NOTHING, Down);
    var unread := CLEAN.(runtime := Failed, resetAllowed := true);
    assert BootsUnreadable(CLEAN, unread);
    var w1 := w0.(device := unread);
    assert DriftStep(w0, w1);
    var h := HelloOf(unread).value;
    var w2 := w1.(process := Deciding(h));
    assert LookStep(w1, w2);
    assert Decide(h, NOTHING) == Finished;
    var w3 := w2.(local := NOTHING.(journal := NOTHING.journal[5 := FIRST]), process := Committing(FIRST, Staged));
    assert StageStep(w2, w3);
    run := [w0, w1, w2, w3];
  }

  /** The first installation up to the point where its envelope is on the line. */
  lemma InstallationUnderWay() returns (run: seq<World>)
    ensures Run(run)
    ensures run[|run| - 1] == World(CLEAN.(install := Some(PendingInstall(5, NEW_REGISTRATION))), Some(Install(NEW_VAULT)),
                                    NOTHING.(journal := map[5 := FIRST]), Committing(FIRST, Sent))
  {
    var w0 := World(CLEAN, None, NOTHING, Down);
    var h := HelloOf(CLEAN).value;
    var w1 := w0.(process := Deciding(h));
    assert LookStep(w0, w1);
    assert Droppable(h, NOTHING) == {};
    assert Decide(h, NOTHING) == Finished;
    var w2 := w1.(local := NOTHING.(journal := NOTHING.journal[5 := FIRST]), process := Committing(FIRST, Staged));
    assert StageStep(w1, w2);
    var w3 := w2.(inflight := Some(Deliver(5, NEW_REGISTRATION)), process := Committing(FIRST, Delivering));
    assert SendStep(w2, w3);
    var w4 := w3.(device := CLEAN.(install := Some(PendingInstall(5, NEW_REGISTRATION))), inflight := None);
    assert DeliverServed(w3.device, w3.inflight.value, w4.device);
    assert ServeStep(w3, w4);
    var w5 := w4.(process := Committing(FIRST, Delivered));
    assert AcknowledgeStep(w4, w5);
    var w6 := w5.(inflight := Some(Install(NEW_VAULT)), process := Committing(FIRST, Sent));
    assert SendStep(w5, w6);
    run := [w0, w1, w2, w3, w4, w5, w6];
  }

  /**
   An installation that fails to register and fails to roll back leaves a Vault without a
   registration: every reconciliation with that Device stops in a conflict.
   */
  lemma VaultWithoutRegistrationIsReachable() returns (run: seq<World>)
    ensures Run(run)
    ensures var w := run[|run| - 1];
            && w.process.Deciding? && w.device.stored.Some? && w.device.registration.None?
            && !MaySettle(w.process.hello, w.local)
            && Settle(w.process.hello, w.local) == Settled(w.local, Blocked(GenerationConflict))
  {
    run := InstallationUnderWay();
    var w := run[|run| - 1];
    var halfway := w.device.(stored := Some(NEW_VAULT), shown := Some(Show(NEW_VAULT)), runtime := Failed, install := None);
    var w1 := w.(device := halfway, inflight := None);
    assert InstallServed(w.device, w.inflight.value, halfway);
    assert ServeStep(w, w1);
    var booted := halfway.(runtime := Locked);
    assert Reboots(halfway, booted);
    var w2 := w1.(device := booted);
    assert DriftStep(w1, w2);
    var h := HelloOf(booted).value;
    var w3 := w2.(process := Deciding(h));
    assert LookStep(w2, w3);
    assert Decide(h, w3.local) == Blocked(GenerationConflict);
    run := run + [w1, w2, w3];
  }

  /**
   A factory reset that erases the Vault and fails to clear the registration leaves the reverse:
   the open reset can be neither finished nor withdrawn.
   */
  lemma RegistrationWithoutVaultIsReachable() returns (run: seq<World>)
    ensures Run(run)
    ensures var w := run[|run| - 1];
            && w.process.Deciding? && w.device.stored.None? && w.device.registration.Some?
            && !MaySettle(w.process.hello, w.local)
            && Settle(w.process.hello, w.local) == Settled(w.local, Blocked(ResetUnproven))
  {
    var d := Device(4, Some(NEW_VAULT), Some(NEW_REGISTRATION), Some(Show(NEW_VAULT)), Unlocked, false, None, true);
    var l := Local(map[5 := CANDIDATE], map[], map[]);
    var w0 := World(d, None, l, Down);
    var h := HelloOf(d).value;
    var w1 := w0.(process := Deciding(h));
    assert LookStep(w0, w1);
    assert Decide(h, l) == Finished;
    var w2 := w1.(local := l.(intents := l.intents[4 := ResetIntent(4, CANDIDATE)]), process := Resetting(h, CANDIDATE));
    assert StageIntentStep(w1, w2);
    var p := Pending(DeviceReset, 1, CANDIDATE);
    var w3 := w2.(local := w2.local.(journal := w2.local.journal[5 := p]), process := Committing(p, Staged));
    assert StageResetStep(w2, w3);
    var w4 := w3.(inflight := Some(ResetCommit), process := Committing(p, Sent));
    assert SendStep(w3, w4);
    var erased := d.(stored := None, shown := None, runtime := Unprovisioned);
    assert ResetServed(d, erased);
    var w5 := w4.(device := erased, inflight := None);
    assert ServeStep(w4, w5);
    var g := HelloOf(erased).value;
    var w6 := w5.(process := Deciding(g));
    assert LookStep(w5, w6);
    assert Decide(g, w6.local) == Blocked(ResetUnproven);
    run := [w0, w1, w2, w3, w4, w5, w6];
  }
}
