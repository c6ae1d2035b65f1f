/** The invariant that every step of the commit protocol keeps. */
module CommitInvariant {
  import opened Vocabulary
  import opened BrowserState
  import opened Reconciliation
  import opened CommitProtocol

  /** The Device holds exactly what `s` describes, and `s` is the browser's active binding of it. */
  ghost predicate Holds(s: State, d: Device) {
    && d.stored == Some(s.vault) && d.registration == Some(s.registration)
    && s.deviceId == Some(d.id) && s.status == Active
  }

  ghost predicate Provisioned(d: Device) {
    d.stored.Some? && d.registration.Some?
  }

  ghost predicate Owns(d: Device, v: VaultId) {
    d.stored.Some? && d.stored.value.id == v
  }

  /** `hello` never shows a Vault that is not the stored one, nor an emptiness that is not real. */
  ghost predicate Truthful(d: Device) {
    HelloOf(d).Some? ==>
      && (d.shown.Some? ==> d.shown == ShowStored(d))
      && (d.runtime == Unprovisioned ==> d.stored.None?)
  }

  ghost predicate DeviceOk(d: Device) {
    && Truthful(d)
    && (d.runtime in {Unprovisioned, ReprovisionRequired} ==> d.shown.None? && d.stored.None?)
    && (d.runtime in {Locked, Unlocked} ==> d.stored.Some? && d.shown == ShowStored(d))
    && (d.install.Some? ==> d.stored.None? && d.registration.None?)
    && (d.install.Some? ==> d.install.value.registration.epoch == 1)
  }

  /** The stored copy the journaled candidate was made from, still in place. */
  ghost predicate BaseInStore(v: VaultId, p: Pending, l: Local, d: Device) {
    && v in l.store && l.store[v].vault.generation == p.expectedGeneration
    && d.registration == Some(l.store[v].registration)
    && l.store[v].deviceId == Some(d.id) && l.store[v].status == Active
  }

  /** What a journal entry for this Device implies, by kind. */
  ghost predicate EntryOk(v: VaultId, p: Pending, l: Local, d: Device) {
    && p.candidate.status == Active
    && match p.kind
       case InitialProvisioning =>
         && p.expectedGeneration == 0 && p.candidate.vault.generation == 1
         && (if Owns(d, v) && Provisioned(d)
             then Holds(p.candidate, d) && (v in l.store ==> Holds(l.store[v], d))
             else v !in l.store && (Owns(d, v) ==> d.stored == Some(p.candidate.vault)))
       case RecoveryProvisioning =>
         && 0 < p.expectedGeneration == p.candidate.vault.generation
         && v in l.store && l.store[v].vault.generation == p.expectedGeneration
         && (Owns(d, v) ==> d.stored == Some(p.candidate.vault))
         && (Owns(d, v) && Provisioned(d) ==> Holds(p.candidate, d))
       case DeviceReset =>
         if Owns(d, v)
         then v in l.store && Holds(l.store[v], d) && Holds(p.candidate, d)
              && p.expectedGeneration == l.store[v].vault.generation
         else v in l.store ==> l.store[v].vault.generation == p.expectedGeneration
       case _ =>
         && Owns(d, v) && Provisioned(d) && v in l.store
         && p.candidate.vault.generation == p.expectedGeneration + 1
         && d.registration == Some(p.candidate.registration) && p.candidate.deviceId == Some(d.id)
         && (|| (BaseInStore(v, p, l, d) && (Holds(l.store[v], d) || Holds(p.candidate, d)))
             || (Holds(p.candidate, d) && Holds(l.store[v], d)))
  }

  ghost predicate JournaledFor(v: VaultId, l: Local, d: Device) {
    v in l.journal && l.journal[v].candidate.deviceId == Some(d.id)
  }

  ghost predicate JournalOk(l: Local, d: Device) {
    && (forall v :: JournaledFor(v, l, d) ==> EntryOk(v, l.journal[v], l, d))
    && (forall v :: JournaledFor(v, l, d) && l.journal[v].kind == DeviceReset && !Owns(d, v) ==> d.id in l.intents)
  }

  /** The Device's own Vault is in the store or in the journal, whatever was lost. */
  ghost predicate OwnerOk(l: Local, d: Device) {
    && (Provisioned(d) ==>
          var v := d.stored.value.id;
          if v in l.journal then JournaledFor(v, l, d) else v in l.store && Holds(l.store[v], d))
    && (d.stored.Some? && d.registration.None? ==>
          JournaledFor(d.stored.value.id, l, d) && Installs(l.journal[d.stored.value.id]) && d.id !in l.intents)
    && (d.stored.None? && d.registration.Some? ==> d.id in l.intents)
  }

  ghost predicate IntentOk(l: Local, d: Device) {
    d.id in l.intents ==>
      && |l.intents[d.id].affected| == 1
      && var a := l.intents[d.id].affected[0];
      && (a.vaultId in l.store ==> l.store[a.vaultId].vault.generation == a.generation)
      && (a.vaultId in l.journal ==> JournaledFor(a.vaultId, l, d) && l.journal[a.vaultId].kind == DeviceReset)
      && (forall v :: JournaledFor(v, l, d) && l.journal[v].kind == DeviceReset ==> v == a.vaultId)
      && (d.stored.Some? ==> Provisioned(d) && a.vaultId in l.store && Holds(l.store[a.vaultId], d))
  }

  ghost predicate Untouched(v: VaultId, p: Pending, l: Local, d: Device) {
    && JournaledFor(v, l, d) && l.journal[v] == p && p.candidate.vault.id == v
    && match p.kind
       case DeviceReset => d.id in l.intents && Provisioned(d) && Owns(d, v)
       case VaultUpdate => d.id !in l.intents && BaseInStore(v, p, l, d) && Holds(l.store[v], d)
       case VmkRekey => d.id !in l.intents && BaseInStore(v, p, l, d) && Holds(l.store[v], d)
       case _ => d.id !in l.intents && !Owns(d, v)
  }

  ghost predicate Explains(p: Pending, q: Request, d: Device) {
    if q.Deliver? then
      Installs(p) && q == Deliver(p.candidate.vault.id, p.candidate.registration) && p.candidate.registration.epoch == 1
    else q == CommitRequest(p) && (Installs(p) ==> d.install.None? || d.install == Some(Delivery(p)))
  }

  ghost predicate InflightOk(w: World) {
    w.inflight.Some? ==>
      && (w.process.Down? || w.process.Committing?)
      && exists v :: v in w.local.journal && Untouched(v, w.local.journal[v], w.local, w.device)
                     && Explains(w.local.journal[v], w.inflight.value, w.device)
                     && (w.process.Committing? ==> w.process.pending == w.local.journal[v])
  }

  /** A `hello` the browser is still acting on agrees with the Device. */
  ghost predicate Agrees(h: Hello, d: Device) {
    && h.deviceId == d.id && h.registration == d.registration
    && (h.vault.Some? ==> h.vault == ShowStored(d))
    && (h.state == Unprovisioned ==> d.stored.None?)
    && (h.state in {Locked, Unlocked} ==> h.vault.Some?)
  }

  ghost predicate ProcessOk(w: World) {
    match w.process
    case Down => true
    case Deciding(h) => w.inflight.None? && Agrees(h, w.device)
    case Resetting(h, s) =>
      && w.inflight.None? && Agrees(h, w.device) && h.vault.Some?
      && w.device.id in w.local.intents
      && w.local.intents[w.device.id] == ResetIntent(w.device.id, s)
      && s.vault.id in w.local.store && w.local.store[s.vault.id] == s && Holds(s, w.device)
      && s.vault.id !in w.local.journal
    case Committing(p, stage) =>
      && var v := p.candidate.vault.id;
      && JournaledFor(v, w.local, w.device) && w.local.journal[v] == p
      && (Installs(p) ==> p.candidate.registration.epoch == 1)
      && (p.kind != DeviceReset ==> w.device.id !in w.local.intents)
      && (stage != Sent ==> Untouched(v, p, w.local, w.device))
      && (stage == Staged ==> w.inflight.None?)
      && (stage == Delivering ==> Installs(p) && (w.inflight.None? || w.inflight.value.Deliver?))
      && (stage == Delivered ==> Installs(p) && w.inflight.None?
                                 && (w.device.install.None? || w.device.install == Some(Delivery(p))))
  }

  ghost predicate Inv(w: World) {
    && WellKeyed(w.local) && DeviceOk(w.device)
    && JournalOk(w.local, w.device) && OwnerOk(w.local, w.device) && IntentOk(w.local, w.device)
    && InflightOk(w) && ProcessOk(w)
  }

  // ----- preservation, one step at a time -----

  /** Only the id, the stored Vault and the registration of the Device matter to the records. */
  lemma RecordsSeeBindingOnly(l: Local, d: Device, e: Device)
    requires JournalOk(l, d) && OwnerOk(l, d) && IntentOk(l, d)
    requires e.id == d.id && e.stored == d.stored && e.registration == d.registration
    ensures JournalOk(l, e) && OwnerOk(l, e) && IntentOk(l, e)
  {
    forall v | JournaledFor(v, l, e) ensures EntryOk(v, l.journal[v], l, e) {
      assert JournaledFor(v, l, d);
    }
    forall v | JournaledFor(v, l, e) && l.journal[v].kind == DeviceReset
      ensures !Owns(e, v) ==> e.id in l.intents
      ensures e.id in l.intents ==> v == l.intents[e.id].affected[0].vaultId
    {
      assert JournaledFor(v, l, d);
    }
  }

  lemma DriftKeepsDeviceOk(d: Device, e: Device)
    requires DeviceOk(d) && Drifts(d, e)
    ensures DeviceOk(e) && (e.install.None? || e.install == d.install)
    ensures e.id == d.id && e.stored == d.stored && e.registration == d.registration
  {
  }

  lemma DriftKeepsInflight(w: World, x: World)
    requires Inv(w) && DriftStep(w, x)
    ensures InflightOk(x)
  {
    DriftKeepsDeviceOk(w.device, x.device);
    if w.inflight.Some? {
      var v :| v in w.local.journal && Untouched(v, w.local.journal[v], w.local, w.device)
               && Explains(w.local.journal[v], w.inflight.value, w.device)
               && (w.process.Committing? ==> w.process.pending == w.local.journal[v]);
      assert Untouched(v, w.local.journal[v], x.local, x.device);
    }
  }

  lemma DriftKeepsInv(w: World, x: World)
    requires Inv(w) && DriftStep(w, x)
    ensures Inv(x)
  {
    DriftKeepsDeviceOk(w.device, x.device);
    RecordsSeeBindingOnly(w.local, w.device, x.device);
    DriftKeepsInflight(w, x);
  }

  lemma LookKeepsInv(w: World, x: World)
    requires Inv(w) && LookStep(w, x)
    ensures Inv(x)
  {
  }

  lemma CrashKeepsInv(w: World, x: World)
    requires Inv(w) && CrashStep(w, x)
    ensures Inv(x)
  {
  }

  lemma SendKeepsInv(w: World, x: World)
    requires Inv(w) && SendStep(w, x)
    ensures Inv(x)
  {
  }

  lemma AcknowledgeKeepsInv(w: World, x: World)
    requires Inv(w) && AcknowledgeStep(w, x)
    ensures Inv(x)
  {
  }

  lemma FinishedMeansNoIntent(h: Hello, l: Local)
    requires Decide(h, l) == Finished
    ensures h.deviceId !in l.intents && JournalDecision(h, l) == Finished
  {
    if h.deviceId in l.intents && ShowsClean(h) {
      CleanupNeverPuts(l.intents[h.deviceId].affected, l);
    }
  }

  lemma StageKeepsInv(w: World, x: World)
    requires Inv(w) && StageStep(w, x)
    ensures Inv(x)
  {
    FinishedMeansNoIntent(w.process.hello, w.local);
  }

  lemma StageIntentKeepsInv(w: World, x: World)
    requires Inv(w) && StageIntentStep(w, x)
    ensures Inv(x)
  {
  }

  lemma UnstageIntentKeepsInv(w: World, x: World)
    requires Inv(w) && UnstageIntentStep(w, x)
    ensures Inv(x)
  {
  }

  lemma StageResetKeepsInv(w: World, x: World)
    requires Inv(w) && StageResetStep(w, x)
    ensures Inv(x)
  {
  }

  /** With a reset intent of the form the protocol stages, cleanup looks at one Vault. */
  lemma IntentWrite(h: Hello, l: Local, d: Device)
    requires IntentOk(l, d) && Agrees(h, d) && d.id in l.intents
    requires Decide(h, l).Perform?
    ensures var a := l.intents[d.id].affected[0];
            if ShowsClean(h) && a.vaultId in l.store then Decide(h, l).write == StoreDelete(a.vaultId)
            else if ShowsClean(h) && a.vaultId in l.journal then Decide(h, l).write == JournalDelete(a.vaultId)
            else Decide(h, l).write == IntentDelete(d.id)
                 && (ShowsClean(h) || ResetUntouched(l.intents[d.id], h, l))
  {
    var affected := l.intents[d.id].affected;
    assert affected[1..] == [];
    assert CleanupNext(affected[1..], l) == None;
  }

  lemma IntentWriteKeepsInv(w: World, x: World)
    requires Inv(w) && WriteStep(w, x) && w.device.id in w.local.intents
    ensures Inv(x)
  {
    IntentWrite(w.process.hello, w.local, w.device);
  }

  lemma CleanJournalWriteKeepsInv(w: World, x: World)
    requires Inv(w) && WriteStep(w, x) && w.device.id !in w.local.intents && w.process.hello.vault.None?
    ensures Inv(x)
  {
    var v := Least(Droppable(w.process.hello, w.local));
    assert JournaledFor(v, w.local, w.device);
    assert x == w.(local := Apply(w.local, JournalDelete(v)));
    forall u | JournaledFor(u, x.local, x.device) ensures EntryOk(u, x.local.journal[u], x.local, x.device) {
      assert JournaledFor(u, w.local, w.device);
    }
  }

  lemma PromotionKeepsInv(w: World, x: World)
    requires Inv(w) && WriteStep(w, x) && w.device.id !in w.local.intents && w.process.hello.vault.Some?
    requires Decide(w.process.hello, w.local).write.StorePut?
    ensures Inv(x)
  {
    var v := w.process.hello.vault.value.id;
    assert JournaledFor(v, w.local, w.device) && EntryOk(v, w.local.journal[v], w.local, w.device);
    forall u | JournaledFor(u, x.local, x.device) ensures EntryOk(u, x.local.journal[u], x.local, x.device) {
      assert JournaledFor(u, w.local, w.device);
    }
  }

  lemma DropKeepsInv(w: World, x: World)
    requires Inv(w) && WriteStep(w, x) && w.device.id !in w.local.intents && w.process.hello.vault.Some?
    requires Decide(w.process.hello, w.local).write.JournalDelete?
    ensures Inv(x)
  {
    var v := w.process.hello.vault.value.id;
    assert JournaledFor(v, w.local, w.device) && EntryOk(v, w.local.journal[v], w.local, w.device);
    forall u | JournaledFor(u, x.local, x.device) ensures EntryOk(u, x.local.journal[u], x.local, x.device) {
      assert JournaledFor(u, w.local, w.device);
    }
  }

  lemma WriteKeepsInv(w: World, x: World)
    requires Inv(w) && WriteStep(w, x)
    ensures Inv(x)
  {
    if w.device.id in w.local.intents {
      IntentWriteKeepsInv(w, x);
    } else if w.process.hello.vault.None? {
      CleanJournalWriteKeepsInv(w, x);
    } else if Decide(w.process.hello, w.local).write.StorePut? {
      PromotionKeepsInv(w, x);
    } else {
      DropKeepsInv(w, x);
    }
  }

  lemma RefusalKeepsInv(w: World, x: World)
    requires Inv(w) && x == w.(inflight := None)
    ensures Inv(x)
  {
  }

  /** The journal entry the request on the line comes from. */
  lemma Explained(w: World) returns (v: VaultId, p: Pending)
    requires Inv(w) && w.inflight.Some?
    ensures JournaledFor(v, w.local, w.device) && w.local.journal[v] == p && p.candidate.vault.id == v
    ensures Untouched(v, p, w.local, w.device) && Explains(p, w.inflight.value, w.device)
    ensures EntryOk(v, p, w.local, w.device) && (w.process.Committing? ==> w.process.pending == p)
  {
    v :| v in w.local.journal && Untouched(v, w.local.journal[v], w.local, w.device)
         && Explains(w.local.journal[v], w.inflight.value, w.device)
         && (w.process.Committing? ==> w.process.pending == w.local.journal[v]);
    p := w.local.journal[v];
  }

  lemma DeliverKeepsInv(w: World, x: World)
    requires Inv(w) && w.inflight.Some? && w.inflight.value.Deliver?
    requires DeliverServed(w.device, w.inflight.value, x.device) && x == w.(device := x.device, inflight := None)
    ensures Inv(x)
  {
    var v, p := Explained(w);
    RecordsSeeBindingOnly(w.local, w.device, x.device);
  }

  lemma ReplaceKeepsInv(w: World, x: World)
    requires Inv(w) && w.inflight.Some? && (w.inflight.value.Update? || w.inflight.value.Rekey?)
    requires Serves(w.device, w.inflight.value, x.device) && x == w.(device := x.device, inflight := None)
    ensures Inv(x)
  {
    var v, p := Explained(w);
    forall u | JournaledFor(u, w.local, x.device) ensures EntryOk(u, w.local.journal[u], w.local, x.device) {
      assert JournaledFor(u, w.local, w.device);
    }
  }

  lemma InstallKeepsInv(w: World, x: World)
    requires Inv(w) && w.inflight.Some? && w.inflight.value.Install?
    requires InstallServed(w.device, w.inflight.value, x.device) && x == w.(device := x.device, inflight := None)
    ensures Inv(x)
  {
    var v, p := Explained(w);
    forall u | JournaledFor(u, w.local, x.device) ensures EntryOk(u, w.local.journal[u], w.local, x.device) {
      assert JournaledFor(u, w.local, w.device);
    }
  }

  lemma ResetKeepsInv(w: World, x: World)
    requires Inv(w) && w.inflight.Some? && w.inflight.value.ResetCommit?
    requires ResetServed(w.device, x.device) && x == w.(device := x.device, inflight := None)
    ensures Inv(x)
  {
    var v, p := Explained(w);
    forall u | JournaledFor(u, w.local, x.device) ensures EntryOk(u, w.local.journal[u], w.local, x.device) {
      assert JournaledFor(u, w.local, w.device);
    }
  }

  lemma ServeKeepsInv(w: World, x: World)
    requires Inv(w) && ServeStep(w, x)
    ensures Inv(x)
  {
    if x.device == w.device {
      RefusalKeepsInv(w, x);
    } else if Drifts(w.device, x.device) {
      DriftKeepsInv(w, w.(device := x.device));
      RefusalKeepsInv(w.(device := x.device), x);
    } else {
      match w.inflight.value
      case Deliver(_, _) => DeliverKeepsInv(w, x);
      case Install(_) => InstallKeepsInv(w, x);
      case Update(_, _) => ReplaceKeepsInv(w, x);
      case Rekey(_, _) => ReplaceKeepsInv(w, x);
      case ResetCommit => ResetKeepsInv(w, x);
    }
  }
}
