/** What the invariant of the commit protocol means for every run. */
module CommitTheorems {
  import opened Vocabulary
  import opened BrowserState
  import opened Reconciliation
  import opened CommitProtocol
  import opened CommitInvariant

  ghost predicate SyncedRecords(l: Local, d: Device) {
    && Provisioned(d) && d.id !in l.intents
    && d.stored.value.id in l.store && Holds(l.store[d.stored.value.id], d)
    && d.stored.value.id !in l.journal
  }

  /** A run starts with a clean Device, or with one the browser is in step with. */
  ghost predicate Start(w: World) {
    && w.process.Down? && w.inflight.None? && WellKeyed(w.local) && DeviceOk(w.device)
    && w.device.install.None?
    && (forall v :: v in w.local.journal ==> w.local.journal[v].candidate.deviceId != Some(w.device.id))
    && w.device.id !in w.local.intents
    && ((w.device.stored.None? && w.device.registration.None?) || SyncedRecords(w.local, w.device))
  }

  ghost predicate Run(run: seq<World>) {
    && run != [] && Start(run[0])
    && forall i :: 0 < i < |run| ==> Next(run[i - 1], run[i])
  }

  lemma StartHasInv(w: World)
    requires Start(w)
    ensures Inv(w)
  {
  }

  lemma StepKeepsInv(w: World, x: World)
    requires Inv(w) && Next(w, x)
    ensures Inv(x)
  {
    if DriftStep(w, x) { DriftKeepsInv(w, x); }
    else if ServeStep(w, x) { ServeKeepsInv(w, x); }
    else if LookStep(w, x) { LookKeepsInv(w, x); }
    else if WriteStep(w, x) { WriteKeepsInv(w, x); }
    else if StageStep(w, x) { StageKeepsInv(w, x); }
    else if StageIntentStep(w, x) { StageIntentKeepsInv(w, x); }
    else if UnstageIntentStep(w, x) { UnstageIntentKeepsInv(w, x); }
    else if StageResetStep(w, x) { StageResetKeepsInv(w, x); }
    else if SendStep(w, x) { SendKeepsInv(w, x); }
    else if AcknowledgeStep(w, x) { AcknowledgeKeepsInv(w, x); }
    else { CrashKeepsInv(w, x); }
  }

  lemma {:induction false} EveryReachedWorldHasInv(run: seq<World>, i: nat)
    requires Run(run) && i < |run|
    ensures Inv(run[i])
  {
    if i == 0 {
      StartHasInv(run[0]);
    } else {
      EveryReachedWorldHasInv(run, i - 1);
      StepKeepsInv(run[i - 1], run[i]);
    }
  }

  /**
   In every run, whatever requests and replies are lost and wherever the browser crashes, a
   provisioned Device holds exactly the stored browser state or exactly the one journaled
   candidate for its Vault.
   */
  lemma DeviceVaultIsStoredOrJournaled(run: seq<World>, i: nat)
    requires Run(run) && i < |run| && Provisioned(run[i].device)
    ensures var w := run[i];
            var v := w.device.stored.value.id;
            || (v in w.local.store && Holds(w.local.store[v], w.device))
            || (v in w.local.journal && Holds(w.local.journal[v].candidate, w.device))
  {
    EveryReachedWorldHasInv(run, i);
    var w := run[i];
    var v := w.device.stored.value.id;
    if v in w.local.journal {
      assert JournaledFor(v, w.local, w.device);
    }
  }

  // ----- reconciliation -----

  /** What one decision without a write says, given the invariant. */
  lemma VerdictAtRest(w: World)
    requires Inv(w) && w.process.Deciding?
    requires !Decide(w.process.hello, w.local).Perform?
    ensures var h := w.process.hello;
            && (Decide(h, w.local) == Finished <==> MaySettle(h, w.local))
            && (Decide(h, w.local) == Finished && ShowsProvisioned(h) ==> SyncedRecords(w.local, w.device))
            && (Decide(h, w.local) == Finished && ShowsClean(h) ==> Droppable(h, w.local) == {})
            && (Decide(h, w.local) == Finished ==> w.device.id !in w.local.intents)
  {
    var h, l := w.process.hello, w.local;
    if h.deviceId in l.intents {
      var affected := l.intents[h.deviceId].affected;
      assert CleanupNext(affected[1..], l) == None;
    } else if h.vault.Some? {
      assert v1: h.vault.value.id == w.device.stored.value.id;
      if h.vault.value.id in l.journal {
        assert EntryOk(h.vault.value.id, l.journal[h.vault.value.id], l, w.device);
      }
    }
  }

  /** The Device state one `hello` lets reconciliation settle. */
  predicate MaySettle(h: Hello, l: Local) {
    ShowsClean(h) || ShowsProvisioned(h) || (h.vault.None? && h.deviceId !in l.intents)
  }

  lemma MaySettleIsStable(h: Hello, l: Local, d: Device)
    requires IntentOk(l, d) && Agrees(h, d)
    requires Decide(h, l).Perform?
    ensures MaySettle(h, Apply(l, Decide(h, l).write)) == MaySettle(h, l)
  {
    if h.deviceId in l.intents { IntentWrite(h, l, d); }
  }

  /** The world one decided write further on: still in the invariant, with less left to do. */
  lemma AfterDecision(w: World) returns (x: World)
    requires Inv(w) && w.process.Deciding? && Decide(w.process.hello, w.local).Perform?
    ensures x == w.(local := Apply(w.local, Decide(w.process.hello, w.local).write)) && Inv(x)
    ensures || |x.local.intents| + |x.local.journal| < |w.local.intents| + |w.local.journal|
            || (&& |x.local.intents| + |x.local.journal| == |w.local.intents| + |w.local.journal|
                && PutsLeft(w.process.hello, x.local) < PutsLeft(w.process.hello, w.local))
  {
    x := w.(local := Apply(w.local, Decide(w.process.hello, w.local).write));
    assert WriteStep(w, x);
    WriteKeepsInv(w, x);
    DecisionsShrink(w.process.hello, w.local);
  }

  /**
   From every reachable world, reconciliation with the last `hello` comes to an end without a
   conflict exactly when the Device shows a complete binding, a clean state, or no Vault while
   no reset is open; then the store equals the Device and its journal entries are gone.
   */
  lemma {:induction false} ReconciliationSettles(w: World)
    requires Inv(w) && w.process.Deciding?
    ensures var h := w.process.hello;
            var r := Settle(h, w.local);
            && (r.end == Finished <==> MaySettle(h, w.local))
            && (r.end == Finished && ShowsProvisioned(h) ==> SyncedRecords(r.local, w.device))
            && (r.end == Finished && ShowsClean(h) ==> Droppable(h, r.local) == {})
            && (r.end == Finished ==> w.device.id !in r.local.intents)
            && Inv(w.(local := r.local))
    decreases |w.local.intents| + |w.local.journal|, PutsLeft(w.process.hello, w.local)
  {
    var h := w.process.hello;
    var d := Decide(h, w.local);
    if d.Perform? {
      var x := AfterDecision(w);
      MaySettleIsStable(h, w.local, w.device);
      ReconciliationSettles(x);
    } else {
      VerdictAtRest(w);
    }
  }

  lemma OnlyReconciliationDeletesCopies(w: World, x: World, v: VaultId)
    requires Next(w, x) && v in w.local.store && v !in x.local.store
    ensures WriteStep(w, x) && ShowsClean(w.process.hello)
  {
    DeletesExist(w.process.hello, w.local);
  }

  /** No browser copy is deleted while the Device holds a Vault or a registration. */
  lemma CopiesDieOnlyWithTheDeviceBinding(run: seq<World>, i: nat, v: VaultId)
    requires Run(run) && 0 < i < |run|
    requires v in run[i - 1].local.store && v !in run[i].local.store
    ensures var w := run[i - 1];
            && w.process.Deciding? && ShowsClean(w.process.hello)
            && w.device.stored.None? && w.device.registration.None?
  {
    EveryReachedWorldHasInv(run, i - 1);
    OnlyReconciliationDeletesCopies(run[i - 1], run[i], v);
  }

  /**
   An open Factory Reset, after crashes at any point: a clean Device lets the cleanup finish, a
   complete Device gets its untouched binding back, and anything else changes no record.
   */
  lemma OpenResetFinishesOrRestores(w: World, k: nat)
    requires Inv(w) && w.process.Deciding? && w.device.id in w.local.intents
    ensures var h := w.process.hello;
            var a := w.local.intents[w.device.id].affected[0];
            var r := Settle(h, AfterWrites(h, w.local, k));
            if ShowsClean(h) then
              && r.end == Finished && a.vaultId !in r.local.store && a.vaultId !in r.local.journal
              && w.device.id !in r.local.intents
            else if ShowsProvisioned(h) then
              && r.end == Finished && r.local.store == w.local.store && SyncedRecords(r.local, w.device)
            else r == Settled(w.local, Blocked(ResetUnproven))
  {
    var h, l := w.process.hello, w.local;
    CrashedReconciliationResumes(h, l, k);
    ReconciliationSettles(w);
    if ShowsClean(h) {
      CleanSettleEmpties(w, l.intents[w.device.id].affected[0].vaultId);
    } else if ShowsProvisioned(h) {
      IntentWrite(h, l, w.device);
      ProvisionedSettleKeepsStore(w);
    }
  }

  lemma {:induction false} CleanSettleEmpties(w: World, v: VaultId)
    requires Inv(w) && w.process.Deciding? && ShowsClean(w.process.hello)
    requires CleanedOrAffected(w, v)
    ensures var r := Settle(w.process.hello, w.local);
            v !in r.local.store && v !in r.local.journal
    decreases |w.local.intents| + |w.local.journal|, PutsLeft(w.process.hello, w.local)
  {
    if Decide(w.process.hello, w.local).Perform? {
      var x := AfterDecision(w);
      CleanedOrAffectedStays(w, x, v);
      CleanSettleEmpties(x, v);
    } else {
      VerdictAtRest(w);
    }
  }

  /** Either the open reset still owes this Vault its cleanup, or nothing of it is left. */
  ghost predicate CleanedOrAffected(w: World, v: VaultId)
    requires Inv(w)
  {
    if w.device.id in w.local.intents then v == w.local.intents[w.device.id].affected[0].vaultId
    else v !in w.local.store && v !in w.local.journal
  }

  lemma CleanedOrAffectedStays(w: World, x: World, v: VaultId)
    requires Inv(w) && Inv(x) && w.process.Deciding? && ShowsClean(w.process.hello) && CleanedOrAffected(w, v)
    requires Decide(w.process.hello, w.local).Perform?
    requires x == w.(local := Apply(w.local, Decide(w.process.hello, w.local).write))
    ensures CleanedOrAffected(x, v)
  {
    if w.device.id in w.local.intents {
      IntentWrite(w.process.hello, w.local, w.device);
    } else {
      WriteKeepsKeys(w.process.hello, w.local, v);
    }
  }

  /** Restoring after a reset that did not happen writes nothing to the store. */
  lemma {:induction false} ProvisionedSettleKeepsStore(w: World)
    requires Inv(w) && w.process.Deciding? && ShowsProvisioned(w.process.hello)
    requires var v := w.device.stored.value.id;
             && v in w.local.store && Holds(w.local.store[v], w.device)
             && (v in w.local.journal ==> w.local.journal[v].kind == DeviceReset)
    ensures Settle(w.process.hello, w.local).local.store == w.local.store
    decreases |w.local.intents| + |w.local.journal|, PutsLeft(w.process.hello, w.local)
  {
    var h := w.process.hello;
    var d := Decide(h, w.local);
    if d.Perform? {
      if w.device.id in w.local.intents { IntentWrite(h, w.local, w.device); }
      var x := AfterDecision(w);
      ProvisionedSettleKeepsStore(x);
    }
  }

  // ----- the update that cannot be read back -----

  /**
   A `vault.update` whose envelope became persistent but could not be read back defeats the
   protocol: `hello` still shows the old generation, so reconciliation throws the candidate
   away, and after the next boot the Device holds a Vault the browser has no record of.
   */
  lemma UnreadUpdateOrphansTheDevice(w: World, x: World, rebooted: Device)
    requires Inv(w) && UnreadStep(w, x) && Reboots(x.device, rebooted)
    ensures HelloOf(x.device).Some? && HelloOf(rebooted).Some?
    ensures var v := w.device.stored.value.id;
            var r := Settle(HelloOf(x.device).value, x.local);
            && r.end == Finished && v !in r.local.journal && v in r.local.store
            && r.local.store[v].vault.generation + 1 == rebooted.stored.value.generation
            && !BindingMatches(r.local.store[v], HelloOf(rebooted).value)
  {
    var v, p := Explained(w);
    var y := w.(inflight := None, process := Deciding(HelloOf(x.device).value));
    var h := y.process.hello;
    assert Decide(h, x.local) == Perform(JournalDelete(v));
    assert Decide(h, Apply(x.local, JournalDelete(v))) == Finished;
  }

  lemma ServedUpdateSettles(w: World, x: World)
    requires Inv(w) && w.inflight.Some? && w.inflight.value.Update? && ServeStep(w, x)
    requires HelloOf(x.device).Some? && ShowsProvisioned(HelloOf(x.device).value)
    ensures Owns(w.device, x.device.stored.value.id) && x.device.shown == ShowStored(x.device)
    ensures var r := Settle(HelloOf(x.device).value, x.local);
            r.end == Finished && SyncedRecords(r.local, x.device)
  {
    var v, p := Explained(w);
    ServeKeepsInv(w, x);
    var y := x.(process := Deciding(HelloOf(x.device).value));
    LookKeepsInv(x, y);
    ReconciliationSettles(y);
  }

  /**
   After any outcome of a `vault.update` that `hello` reports, the settled store equals the
   Device exactly when `hello` shows the stored generation, that is, when the read-back worked.
   */
  lemma UpdateSettlesTrulyIffReadBack(w: World, x: World)
    requires Inv(w) && w.inflight.Some? && w.inflight.value.Update?
    requires ServeStep(w, x) || UnreadStep(w, x)
    requires HelloOf(x.device).Some? && ShowsProvisioned(HelloOf(x.device).value)
    ensures Provisioned(w.device)
    ensures var v := w.device.stored.value.id;
            var r := Settle(HelloOf(x.device).value, x.local);
            && r.end == Finished && v !in r.local.journal && v in r.local.store
            && (Holds(r.local.store[v], x.device) <==> x.device.shown == ShowStored(x.device))
            && (x.device.shown == ShowStored(x.device) <==> !UnreadStep(w, x))
  {
    var v, p := Explained(w);
    if UnreadStep(w, x) {
      UnreadUpdateOrphansTheDevice(w, x, x.device.(shown := ShowStored(x.device), runtime := Locked,
                                                   resetAllowed := false, install := None));
    } else {
      ServedUpdateSettles(w, x);
    }
  }

  /** The failure is reachable: a Device in step with the browser, one update, one bad read. */
  lemma UnreadUpdateIsReachable() returns (run: seq<World>, x: World)
    ensures Run(run) && UnreadStep(run[|run| - 1], x)
  {
    var reg := Registration(7, 1, 9);
    var before, after := Vault(5, 1, 2, 100), Vault(5, 2, 2, 200);
    var s := State(before, 1, reg, Active, 3, Some(4));
    var d := Device(4, Some(before), Some(reg), Some(Show(before)), Unlocked, false, None, true);
    var l := Local(map[5 := s], map[], map[]);
    var w0 := World(d, None, l, Down);
    var h := HelloOf(d).value;
    var w1 := w0.(process := Deciding(h));
    assert LookStep(w0, w1);
    var p := Pending(VaultUpdate, 1, s.(vault := after));
    var w2 := w1.(local := l.(journal := map[5 := p]), process := Committing(p, Staged));
    assert Decide(h, l) == Finished;
    assert StageStep(w1, w2);
    var w3 := w2.(inflight := Some(Update(1, after)), process := Committing(p, Sent));
    assert SendStep(w2, w3);
    run := [w0, w1, w2, w3];
    x := w3.(device := d.(stored := Some(after), runtime := Failed, resetAllowed := true), inflight := None);
    assert Start(w0);
  }
}
