/**
 Runs with everything at once: the protocol's steps, updates that cannot be read back, recovery
 resets of the Device at any time, and reset intents that name any number of Vaults. Whatever the
 records were to begin with, this is when a browser copy may die.
 */
module RecoveryRuns {
  import opened Vocabulary
  import opened BrowserState
  import opened Reconciliation
  import opened CommitProtocol
  import opened UnreadUpdates

  /** The recovery controller stages an intent for what it found, under the same records. */
  ghost predicate RecoveryIntentStep(w: World, x: World) {
    exists intent: Intent :: intent.deviceId !in w.local.intents
      && x == w.(local := w.local.(intents := w.local.intents[intent.deviceId := intent]))
  }

  /** The Device is erased by a recovery reset that this or another program asked for. */
  ghost predicate WipeStep(w: World, x: World) {
    Wiped(w.device, x.device) && x == w.(device := x.device)
  }

  ghost predicate WideStep(w: World, x: World) {
    AnyStep(w, x) || RecoveryIntentStep(w, x) || WipeStep(w, x)
  }

  /** Any records, any Device, and nothing on the line. */
  ghost predicate WideRun(run: seq<World>) {
    && run != [] && run[0].process.Down? && run[0].inflight.None? && Honest(run[0].device)
    && forall i :: 0 < i < |run| ==> WideStep(run[i - 1], run[i])
  }

  /** A Device that calls itself unprovisioned has no Vault; a waiting installation has nothing before it. */
  predicate Honest(d: Device) {
    && (d.runtime in {Unprovisioned, ReprovisionRequired} ==> d.stored.None?)
    && (d.runtime in {Locked, Unlocked} ==> d.stored.Some?)
    && (d.install.Some? ==> d.stored.None? && d.registration.None?)
  }

  /** What a clean `hello` said is still so. */
  ghost predicate CleanIsTrue(w: World) {
    && Honest(w.device)
    && (w.process.Deciding? || w.process.Resetting? ==> w.inflight.None?)
    && (w.process.Deciding? && ShowsClean(w.process.hello) ==> w.device.stored.None? && w.device.registration.None?)
    && (w.process.Resetting? ==> !ShowsClean(w.process.hello))
  }

  lemma ServingIsHonest(d: Device, q: Request, e: Device)
    requires Honest(d) && (Serves(d, q, e) || Drifts(d, e) || (q.Update? && UpdateUnread(d, q, e)))
    ensures Honest(e)
  {
  }

  lemma DriftIsHonest(d: Device, e: Device)
    requires Honest(d) && (Drifts(d, e) || Wiped(d, e))
    ensures Honest(e)
    ensures d.stored.None? ==> e.stored.None?
    ensures d.registration.None? ==> e.registration.None?
  {
  }

  lemma CleanStaysTrue(w: World, x: World)
    requires CleanIsTrue(w) && WideStep(w, x)
    ensures CleanIsTrue(x)
  {
    if DriftStep(w, x) || WipeStep(w, x) {
      DriftIsHonest(w.device, x.device);
    } else if ServeStep(w, x) || UnreadStep(w, x) {
      if x.device != w.device { ServingIsHonest(w.device, w.inflight.value, x.device); }
    }
  }

  lemma {:induction false} CleanIsAlwaysTrue(run: seq<World>, k: nat)
    requires WideRun(run) && k < |run|
    ensures CleanIsTrue(run[k])
  {
    if k > 0 {
      CleanIsAlwaysTrue(run, k - 1);
      CleanStaysTrue(run[k - 1], run[k]);
    }
  }

  /** A reset intent of this Device, or the journal, names the Vault in this very generation. */
  ghost predicate Named(l: Local, d: DeviceId, v: VaultId, generation: nat) {
    || (d in l.intents && Affected(v, generation) in l.intents[d].affected)
    || (v in l.journal && l.journal[v].kind == DeviceReset && l.journal[v].candidate.deviceId == Some(d)
        && l.journal[v].expectedGeneration == generation)
  }

  lemma {:induction false} CleanupDeletesNamed(affected: seq<Affected>, l: Local, v: VaultId)
    requires CleanupNext(affected, l) == Some(Perform(StoreDelete(v)))
    ensures v in l.store && Affected(v, l.store[v].vault.generation) in affected
  {
    var a := affected[0];
    if a.vaultId in l.store {
      assert a == Affected(v, l.store[v].vault.generation);
    } else if a.vaultId !in l.journal {
      CleanupDeletesNamed(affected[1..], l, v);
    }
  }

  lemma DeletesOnlyNamed(h: Hello, l: Local, v: VaultId)
    requires Decide(h, l) == Perform(StoreDelete(v))
    ensures ShowsClean(h) && v in l.store && Named(l, h.deviceId, v, l.store[v].vault.generation)
  {
    if h.deviceId in l.intents && ShowsClean(h) {
      CleanupDeletesNamed(l.intents[h.deviceId].affected, l, v);
    }
  }

  /**
   A browser copy dies only while the Device holds no Vault and no registration, nothing is on
   the line, and a reset intent of that Device or a journaled reset names the copy in exactly the
   generation it has.
   */
  lemma CopiesDieOnlyNamedAndClean(run: seq<World>, k: nat, v: VaultId)
    requires WideRun(run) && 0 < k < |run|
    requires v in run[k - 1].local.store && v !in run[k].local.store
    ensures var w := run[k - 1];
            && w.process.Deciding? && ShowsClean(w.process.hello) && w.inflight.None?
            && w.device.stored.None? && w.device.registration.None?
            && Named(w.local, w.process.hello.deviceId, v, w.local.store[v].vault.generation)
  {
    CleanIsAlwaysTrue(run, k - 1);
    var w, x := run[k - 1], run[k];
    assert WideStep(w, x);
    DeletionIsDecided(w, x, v);
    DeletesOnlyNamed(w.process.hello, w.local, v);
  }

  lemma DeletionIsDecided(w: World, x: World, v: VaultId)
    requires WideStep(w, x) && v in w.local.store && v !in x.local.store
    ensures w.process.Deciding? && Decide(w.process.hello, w.local) == Perform(StoreDelete(v))
  {
    assert WriteStep(w, x);
  }
}
