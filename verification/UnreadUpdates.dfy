/**
 Runs in which updates may also become persistent without being read back. Everything holds up to
 the one reconciliation write that is decided on the stale `hello` such an update leaves behind.
 */
module UnreadUpdates {
  import opened Vocabulary
  import opened BrowserState
  import opened Reconciliation
  import opened CommitProtocol
  import opened CommitInvariant
  import opened CommitTheorems

  ghost predicate AnyStep(w: World, x: World) {
    Next(w, x) || UnreadStep(w, x)
  }

  ghost predicate AnyRun(run: seq<World>) {
    && run != [] && Start(run[0])
    && forall i :: 0 < i < |run| ==> AnyStep(run[i - 1], run[i])
  }

  /** The browser acts on a `hello` that shows another Vault than the Device has. */
  predicate ActsOnStale(w: World) {
    && w.process.Deciding? && w.process.hello.vault.Some?
    && w.process.hello.vault != ShowStored(w.device)
  }

  ghost predicate MisledWrite(w: World, x: World) {
    WriteStep(w, x) && ActsOnStale(w)
  }

  /** A provisioned Device holds the stored state or the journaled candidate. */
  ghost predicate Accounted(w: World) {
    Provisioned(w.device) ==>
      var v := w.device.stored.value.id;
      || (v in w.local.store && Holds(w.local.store[v], w.device))
      || (v in w.local.journal && Holds(w.local.journal[v].candidate, w.device))
  }

  function Rebooted(d: Device): Device {
    d.(shown := ShowStored(d), runtime := if d.stored.Some? then Locked else Unprovisioned, resetAllowed := false, install := None)
  }

  /** The world as it would be after a power cycle of the Device and a restart of the browser. */
  function Sobered(w: World): World {
    w.(device := Rebooted(w.device), process := Down)
  }

  /** The fault: the old metadata in RAM, the candidate in flash. */
  ghost predicate Faulted(d: Device, s: State) {
    && d.runtime == Failed && d.resetAllowed && d.install.None?
    && d.shown == Some(Show(s.vault))
  }

  /** The candidate of this journaled update is in flash, whatever is shown. */
  ghost predicate UnreadIn(w: World, v: VaultId) {
    && JournaledFor(v, w.local, w.device)
    && var p := w.local.journal[v];
    && p.kind == VaultUpdate && p.candidate.vault.id == v && BaseInStore(v, p, w.local, w.device)
    && Holds(p.candidate, w.device) && w.local.store[v].vault.id == v
    && p.candidate.vault.generation == p.expectedGeneration + 1
    && w.device.id !in w.local.intents && w.inflight.None? && w.device.install.None?
    && Inv(Sobered(w))
    && (DeviceOk(w.device) || Faulted(w.device, w.local.store[v]))
    && match w.process
       case Down => true
       case Committing(q, stage) => q == p && stage == Sent
       case Deciding(h) =>
         && h.deviceId == w.device.id && h.registration == w.device.registration
         && h.vault == Some(Show(w.local.store[v].vault)) && h.state == Failed
       case Resetting(_, _) => false
  }

  ghost predicate Unread(w: World) {
    exists v :: UnreadIn(w, v)
  }

  /**
   The candidate is in flash, and the browser has forgotten it: it keeps the Vault before, for
   which the Device is a stranger's as soon as it shows what it has.
   */
  ghost predicate OrphanedIn(w: World, v: VaultId) {
    && WellKeyed(w.local) && v in w.local.store && v !in w.local.journal && w.device.id !in w.local.intents
    && (forall u :: JournaledFor(u, w.local, w.device) ==> w.local.journal[u].kind !in {VaultUpdate, VmkRekey})
    && Provisioned(w.device) && w.device.stored.value.id == v
    && w.device.stored.value.generation == w.local.store[v].vault.generation + 1
    && w.device.registration == Some(w.local.store[v].registration)
    && w.local.store[v].deviceId == Some(w.device.id)
    && w.inflight.None? && w.device.install.None?
    && (DeviceOk(w.device) || Faulted(w.device, w.local.store[v]))
    && match w.process
       case Down => true
       case Deciding(h) =>
         && h.deviceId == w.device.id && h.registration == w.device.registration
         && (h.vault.None? || h.vault == ShowStored(w.device)
             || (h.vault == Some(Show(w.local.store[v].vault)) && h.state == Failed))
       case _ => false
  }

  ghost predicate Orphaned(w: World) {
    exists v :: OrphanedIn(w, v)
  }

  /** Every world that any run can come to. */
  ghost predicate Reached(w: World) {
    Inv(w) || Unread(w) || Orphaned(w)
  }

  /** While an unread update is in flash, what a stale `hello` decides is to drop the candidate. */
  lemma StaleHelloDropsTheCandidate(w: World, v: VaultId)
    requires UnreadIn(w, v) && w.process.Deciding?
    ensures Decide(w.process.hello, w.local) == Perform(JournalDelete(v))
    ensures ActsOnStale(w)
  {
  }

  lemma UnreadIsAccounted(w: World)
    requires Unread(w)
    ensures Accounted(w)
  {
    var v :| UnreadIn(w, v);
  }

  lemma InvIsAccounted(w: World)
    requires Inv(w)
    ensures Accounted(w)
  {
    if Provisioned(w.device) && w.device.stored.value.id in w.local.journal {
      assert JournaledFor(w.device.stored.value.id, w.local, w.device);
    }
  }

  lemma UnreadBegins(w: World, x: World)
    requires Inv(w) && UnreadStep(w, x)
    ensures Unread(x)
  {
    var v, p := Explained(w);
    ReadWouldKeepInv(w, x, v, p);
    assert UnreadIn(x, v);
  }

  /** Had it been read back, the invariant would hold. */
  lemma ReadWouldKeepInv(w: World, x: World, v: VaultId, p: Pending)
    requires Inv(w) && UnreadStep(w, x)
    requires JournaledFor(v, w.local, w.device) && w.local.journal[v] == p && p.candidate.vault.id == v
    requires Untouched(v, p, w.local, w.device) && Explains(p, w.inflight.value, w.device)
    ensures Inv(Sobered(x))
  {
    var q := w.inflight.value;
    var served := w.(device := WithVault(w.device, q.vault).(runtime := Locked, resetAllowed := false), inflight := None);
    assert UpdateServed(w.device, q, served.device);
    ReplaceKeepsInv(w, served);
    CrashKeepsInv(served, served.(process := Down));
    assert Reboots(served.device, Rebooted(x.device));
    var sober := served.(process := Down, device := Rebooted(x.device));
    assert DriftStep(served.(process := Down), sober);
    DriftKeepsInv(served.(process := Down), sober);
    assert sober == Sobered(x);
  }

  lemma UnreadContinues(w: World, x: World, v: VaultId)
    requires UnreadIn(w, v) && AnyStep(w, x) && !MisledWrite(w, x)
    ensures Inv(x) || UnreadIn(x, v)
  {
    if w.process.Deciding? { StaleHelloDropsTheCandidate(w, v); }
    if DriftStep(w, x) {
      DriftLeavesUnread(w, x, v);
    } else if LookStep(w, x) {
      LookAtUnread(w, x, v);
    } else if CrashStep(w, x) {
      assert Sobered(x) == Sobered(w);
      assert UnreadIn(x, v);
    }
  }

  lemma DriftLeavesUnread(w: World, x: World, v: VaultId)
    requires UnreadIn(w, v) && DriftStep(w, x)
    ensures UnreadIn(x, v)
  {
    assert Sobered(x) == Sobered(w);
  }

  lemma LookAtUnread(w: World, x: World, v: VaultId)
    requires UnreadIn(w, v) && LookStep(w, x)
    ensures Inv(x) || UnreadIn(x, v)
  {
    if DeviceOk(w.device) {
      var sober := Sobered(w);
      RecordsSeeBindingOnly(w.local, sober.device, w.device);
    } else {
      assert Sobered(x) == Sobered(w);
    }
  }

  lemma AnyStepKeeps(w: World, x: World)
    requires Inv(w) || Unread(w)
    requires AnyStep(w, x) && !MisledWrite(w, x)
    ensures Inv(x) || Unread(x)
  {
    if Unread(w) {
      var v :| UnreadIn(w, v);
      UnreadContinues(w, x, v);
    } else if Next(w, x) {
      StepKeepsInv(w, x);
    } else {
      UnreadBegins(w, x);
    }
  }

  ghost predicate MisledBefore(run: seq<World>, k: nat)
    requires k <= |run|
  {
    exists i :: 0 < i < k && MisledWrite(run[i - 1], run[i])
  }

  lemma NotMisledEarlier(run: seq<World>, j: nat, k: nat)
    requires j <= k <= |run| && !MisledBefore(run, k)
    ensures !MisledBefore(run, j)
  {
  }

  lemma {:induction false} KeptUntilMisled(run: seq<World>, k: nat)
    requires AnyRun(run) && k < |run| && !MisledBefore(run, k + 1)
    ensures Inv(run[k]) || Unread(run[k])
  {
    hide Inv, Unread, AnyStep, Start, MisledWrite;
    if k == 0 {
      StartHasInv(run[0]);
    } else {
      NotMisledEarlier(run, k, k + 1);
      KeptUntilMisled(run, k - 1);
      assert !MisledWrite(run[k - 1], run[k]);
      AnyStepKeeps(run[k - 1], run[k]);
    }
  }

  lemma OnlyThisUpdate(w: World, v: VaultId)
    requires UnreadIn(w, v)
    ensures forall u :: JournaledFor(u, w.local, w.device) && u != v ==> w.local.journal[u].kind !in {VaultUpdate, VmkRekey}
  {
    forall u | JournaledFor(u, w.local, w.device) && u != v ensures w.local.journal[u].kind !in {VaultUpdate, VmkRekey} {
      assert JournaledFor(u, w.local, Sobered(w).device);
      assert EntryOk(u, w.local.journal[u], w.local, Sobered(w).device);
    }
  }

  /** The misled write leaves the Device with a Vault no browser record holds. */
  lemma MisledWriteOrphans(w: World, x: World)
    requires Inv(w) || Unread(w)
    requires MisledWrite(w, x)
    ensures Orphaned(x)
  {
    if v :| UnreadIn(w, v) {
      StaleHelloDropsTheCandidate(w, v);
      OnlyThisUpdate(w, v);
      assert OrphanedIn(x, v);
    }
  }

  lemma OrphansAreUnaccounted(w: World)
    requires Orphaned(w)
    ensures Provisioned(w.device) && !Accounted(w)
  {
  }

  lemma OrphanHasNothingToWrite(w: World, v: VaultId)
    requires OrphanedIn(w, v) && w.process.Deciding?
    ensures Decide(w.process.hello, w.local) == Finished
    ensures !(v in w.local.store && ActiveWriter(w.process.hello, w.local, v))
  {
  }

  /** Nothing the browser or the Device does by itself brings an orphaned Device back. */
  lemma OrphanStays(w: World, x: World, v: VaultId)
    requires OrphanedIn(w, v) && AnyStep(w, x)
    ensures OrphanedIn(x, v)
  {
    if w.process.Deciding? { OrphanHasNothingToWrite(w, v); }
  }

  lemma AnyStepReaches(w: World, x: World)
    requires Reached(w) && AnyStep(w, x)
    ensures Reached(x)
  {
    hide Inv, Unread, AnyStep, MisledWrite;
    if v :| OrphanedIn(w, v) {
      OrphanStays(w, x, v);
    } else if MisledWrite(w, x) {
      MisledWriteOrphans(w, x);
    } else {
      AnyStepKeeps(w, x);
    }
  }

  lemma {:induction false} EveryWorldIsReached(run: seq<World>, k: nat)
    requires AnyRun(run) && k < |run|
    ensures Reached(run[k])
  {
    hide Reached, AnyStep;
    if k == 0 {
      StartHasInv(run[0]);
      assert Reached(run[0]) by { InvIsReached(run[0]); }
    } else {
      EveryWorldIsReached(run, k - 1);
      AnyStepReaches(run[k - 1], run[k]);
    }
  }

  lemma InvIsReached(w: World)
    requires Inv(w)
    ensures Reached(w)
  {
  }

  /** Once orphaned, a Device stays so in every run. */
  lemma {:induction false} OrphanedForGood(run: seq<World>, j: nat, k: nat)
    requires AnyRun(run) && j <= k < |run| && Orphaned(run[j])
    ensures Orphaned(run[k])
    decreases k - j
  {
    if j < k {
      OrphanedForGood(run, j, k - 1);
      var v :| OrphanedIn(run[k - 1], v);
      assert AnyStep(run[k - 1], run[k]);
      OrphanStays(run[k - 1], run[k], v);
    }
  }

  /**
   In every run, unread updates included, a provisioned Device is accounted for at every moment
   up to the first write decided on a stale `hello`, and not right after it.
   */
  lemma AccountedUntilMisled(run: seq<World>, k: nat)
    requires AnyRun(run) && k < |run| && !MisledBefore(run, k)
    ensures Accounted(run[k]) <==> !MisledBefore(run, k + 1)
  {
    hide AnyStep, Inv, Unread, Accounted;
    if !MisledBefore(run, k + 1) {
      KeptUntilMisled(run, k);
      if Inv(run[k]) { InvIsAccounted(run[k]); } else { UnreadIsAccounted(run[k]); }
    } else {
      var i :| 0 < i < k + 1 && MisledWrite(run[i - 1], run[i]);
      KeptUntilMisled(run, k - 1);
      MisledWriteOrphans(run[k - 1], run[k]);
      OrphansAreUnaccounted(run[k]);
    }
  }

  /** At every moment of every run, the Device is accounted for or orphaned. */
  lemma AccountedUnlessOrphaned(run: seq<World>, k: nat)
    requires AnyRun(run) && k < |run|
    ensures Accounted(run[k]) <==> !Orphaned(run[k])
  {
    hide AnyRun, Inv, Unread, Orphaned, Accounted;
    EveryWorldIsReached(run, k);
    if Orphaned(run[k]) { OrphansAreUnaccounted(run[k]); }
    else if Unread(run[k]) { UnreadIsAccounted(run[k]); }
    else { InvIsAccounted(run[k]); }
  }

  /** What reconciliation comes to for an unread update: the candidate is dropped, the old copy stays. */
  lemma UnreadSettles(w: World, v: VaultId)
    requires UnreadIn(w, v) && w.process.Deciding?
    ensures Settle(w.process.hello, w.local) == Settled(Apply(w.local, JournalDelete(v)), Finished)
    ensures OrphanedIn(w.(local := Apply(w.local, JournalDelete(v))), v)
  {
    var h, l := w.process.hello, w.local;
    StaleHelloDropsTheCandidate(w, v);
    var x := w.(local := Apply(l, JournalDelete(v)));
    assert MisledWrite(w, x);
    OnlyThisUpdate(w, v);
    assert OrphanedIn(x, v);
    OrphanHasNothingToWrite(x, v);
    assert Settle(h, x.local) == Settled(x.local, Finished);
  }

  /**
   From every world of every run, reconciliation with the last `hello` comes to an end without a
   conflict exactly under the same condition on `hello`; with a complete one it then leaves the
   records in step exactly if the Device was accounted for and `hello` shows what it has.
   */
  lemma ReconciliationSettlesAnywhere(w: World)
    requires Reached(w) && w.process.Deciding?
    ensures var h := w.process.hello;
            var r := Settle(h, w.local);
            && (r.end == Finished <==> MaySettle(h, w.local))
            && (r.end == Finished && ShowsProvisioned(h) ==>
                  (SyncedRecords(r.local, w.device) <==> Accounted(w) && h.vault == ShowStored(w.device)))
            && (r.end == Finished && ShowsClean(h) ==> Droppable(h, r.local) == {})
            && (r.end == Finished ==> w.device.id !in r.local.intents)
            && Reached(w.(local := r.local))
  {
    hide Inv;
    if v :| OrphanedIn(w, v) {
      OrphanHasNothingToWrite(w, v);
      OrphansAreUnaccounted(w);
    } else if v :| UnreadIn(w, v) {
      UnreadSettles(w, v);
      StaleHelloDropsTheCandidate(w, v);
    } else {
      ReconciliationSettles(w);
      InvIsAccounted(w);
      InvAgrees(w);
    }
  }

  lemma InvAgrees(w: World)
    requires Inv(w) && w.process.Deciding?
    ensures Agrees(w.process.hello, w.device)
  {
  }

  // ----- where an unread update can be ruled out -----

  lemma ReachedBasics(w: World)
    requires Reached(w)
    ensures WellKeyed(w.local)
    ensures w.process.Deciding? || w.process.Resetting? ==> w.inflight.None?
    ensures w.process.Deciding? ==> w.process.hello.deviceId == w.device.id && w.process.hello.registration == w.device.registration
    ensures w.process.Resetting? ==> Inv(w) && w.process.state.vault.id !in w.local.journal
  {
  }

  /** An open reset, a `hello` without a registration, or another kind of request. */
  lemma SoberWithoutUpdate(w: World)
    requires Reached(w)
    requires || w.device.id in w.local.intents || SyncedRecords(w.local, w.device)
             || (w.process.Deciding? && w.process.hello.registration.None?)
             || (w.process.Committing? && w.process.pending.kind != VaultUpdate)
    ensures Inv(w)
  {
  }

  /** Whoever may write, or sees the candidate on the Device, sees what the Device has. */
  lemma SoberWriter(w: World, v: VaultId)
    requires Reached(w) && w.process.Deciding? && w.process.hello.vault.Some? && w.process.hello.vault.value.id == v
    requires || ActiveWriter(w.process.hello, w.local, v)
             || (v in w.local.journal && BindingMatches(w.local.journal[v].candidate, w.process.hello))
    ensures Inv(w)
  {
  }

  /** While a transaction is staged, an unread update can only be this very one. */
  lemma StagedIsSoberOrUnread(w: World, p: Pending)
    requires Reached(w)
    requires w.process.Committing? && w.process.pending == p
    ensures Inv(w) || (UnreadIn(w, p.candidate.vault.id) && w.local.journal[p.candidate.vault.id] == p)
  {
  }

  /** Reconciled from an unread update, whatever the Device did meanwhile, is orphaned. */
  lemma UnreadEndsOrphaned(w: World, x: World, v: VaultId)
    requires UnreadIn(w, v) && w.process.Deciding? && Reached(x) && x.process == w.process
    requires x.local == Apply(w.local, JournalDelete(v)) && x.device.id == w.device.id
    requires x.device.stored == w.device.stored && x.device.registration == w.device.registration
    ensures Orphaned(x)
    ensures v in x.local.store && x.local.store[v] == w.local.store[v] && v !in x.local.journal
    ensures x.device.stored == Some(w.local.journal[v].candidate.vault)
    ensures x.device.registration == Some(w.local.journal[v].candidate.registration)
    ensures w.process.hello.vault == Some(Show(w.local.store[v].vault)) && w.process.hello.state == Failed
    ensures w.process.hello.vault != ShowStored(x.device)
    ensures w.local.store[v].deviceId == Some(w.device.id) && w.local.store[v].vault.id == v
  {
    if Inv(x) { InvIsAccounted(x); }
    if Unread(x) { UnreadIsAccounted(x); }
  }

  /** The request on the line is the staged one's. */
  lemma OwnRequest(w: World, p: Pending)
    requires Inv(w) && w.process.Committing? && w.process.pending == p && Installs(p)
    ensures w.inflight.None? || !w.inflight.value.Update?
  {
  }

  /** And still is once the browser has looked again. */
  lemma UnreadIsOwn(w: World, p: Pending)
    requires Reached(w) && p.kind in {VaultUpdate, VmkRekey}
    requires var v := p.candidate.vault.id; JournaledFor(v, w.local, w.device) && w.local.journal[v] == p
    ensures Inv(w) || (p.kind == VaultUpdate && UnreadIn(w, p.candidate.vault.id))
  {
    if u :| UnreadIn(w, u) { OnlyThisUpdate(w, u); }
  }

  /** Unread updates never cost a browser copy: those go only when the Device really is clean. */
  lemma CopiesSurviveUnreadUpdates(run: seq<World>, k: nat, v: VaultId)
    requires AnyRun(run) && 0 < k < |run| && !MisledBefore(run, k)
    requires v in run[k - 1].local.store && v !in run[k].local.store
    ensures run[k - 1].device.stored.None? && run[k - 1].device.registration.None?
  {
    hide MisledBefore;
    KeptUntilMisled(run, k - 1);
    DeletedOnlyWhenClean(run[k - 1], run[k], v);
  }

  lemma DeletedOnlyWhenClean(w: World, x: World, v: VaultId)
    requires Inv(w) || Unread(w)
    requires AnyStep(w, x) && v in w.local.store && v !in x.local.store
    ensures w.device.stored.None? && w.device.registration.None?
  {
    assert Next(w, x);
    OnlyReconciliationDeletesCopies(w, x, v);
    if u :| UnreadIn(w, u) { StaleHelloDropsTheCandidate(w, u); }
  }

  /** Without unread updates there is no such write: `hello` never misleads. */
  lemma OnlyUnreadUpdatesMislead(run: seq<World>, k: nat)
    requires Run(run) && k < |run|
    ensures !ActsOnStale(run[k])
  {
    EveryReachedWorldHasInv(run, k);
  }
}
