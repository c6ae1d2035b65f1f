/**
 Recovery Factory Reset in the browser: the intent that names every copy the Device's reset
 makes obsolete, and the cleanup that deletes those copies afterwards.
 */
module RecoveryReset {
  import opened Vocabulary
  import opened BrowserState
  import opened Reconciliation

  datatype Outcome = Returned | Threw | Died

  ghost function StoredFor(l: Local, d: DeviceId): map<VaultId, nat> {
    map v | v in l.store && l.store[v].deviceId == Some(d) :: l.store[v].vault.generation
  }

  ghost function JournaledBy(l: Local, d: DeviceId): map<VaultId, nat> {
    map v | v in l.journal && l.journal[v].candidate.deviceId == Some(d) :: l.journal[v].candidate.vault.generation
  }

  ghost function Shown(h: Hello): map<VaultId, nat> {
    if h.vault.Some? && h.vault.value.generation > 0 then map[h.vault.value.id := h.vault.value.generation] else map[]
  }

  /** The generation each affected Vault is recorded with: a journaled candidate wins. */
  ghost function Targets(h: Hello, l: Local): map<VaultId, nat> {
    Shown(h) + StoredFor(l, h.deviceId) + JournaledBy(l, h.deviceId)
  }

  ghost predicate Lists(affected: seq<Affected>, m: map<VaultId, nat>) {
    && (forall i :: 0 <= i < |affected| ==>
          affected[i].vaultId in m && m[affected[i].vaultId] == affected[i].generation)
    && (forall v :: v in m ==> exists i :: 0 <= i < |affected| && affected[i].vaultId == v)
    && (forall i, j :: 0 <= i < j < |affected| ==> affected[i].vaultId != affected[j].vaultId)
  }

  ghost predicate StoreAgrees(l: Local, m: map<VaultId, nat>) {
    forall v :: v in m && v in l.store ==> l.store[v].vault.generation == m[v]
  }

  /** A journaled candidate of another generation than the stored copy, for the same Device. */
  ghost predicate CandidateAhead(h: Hello, l: Local, v: VaultId) {
    && v in l.store && v in l.journal && l.journal[v].candidate.deviceId == Some(h.deviceId)
    && l.journal[v].candidate.vault.generation != l.store[v].vault.generation
  }

  /** A stored copy filed for another Device, of another generation than the Device shows. */
  ghost predicate ForeignCopyDiffers(h: Hello, l: Local, v: VaultId) {
    && v in l.store && v in Shown(h) && v !in JournaledBy(l, h.deviceId)
    && l.store[v].deviceId != Some(h.deviceId) && l.store[v].vault.generation != Shown(h)[v]
  }

  /** The staged intent can be cleaned up exactly when neither kind of mismatch exists. */
  lemma IntentMatchesStoreIff(h: Hello, l: Local)
    ensures StoreAgrees(l, Targets(h, l)) <==>
            forall v :: v in l.store ==> !CandidateAhead(h, l, v) && !ForeignCopyDiffers(h, l, v)
  {
    var m := Targets(h, l);
    forall v | v in l.store
      ensures CandidateAhead(h, l, v) || ForeignCopyDiffers(h, l, v) <==> v in m && m[v] != l.store[v].vault.generation
    {
    }
  }

  /** Once stale, the intent blocks every later reconciliation with the clean Device. */
  lemma {:induction false} StaleIntentBlocksForGood(h: Hello, l: Local, i: nat)
    requires ShowsClean(h) && h.deviceId in l.intents && i < |l.intents[h.deviceId].affected|
    requires var a := l.intents[h.deviceId].affected[i];
             a.vaultId in l.store && l.store[a.vaultId].vault.generation != a.generation
    requires forall j, k :: 0 <= j < k < |l.intents[h.deviceId].affected| ==>
               l.intents[h.deviceId].affected[j].vaultId != l.intents[h.deviceId].affected[k].vaultId
    ensures Settle(h, l).end == Blocked(GenerationConflict)
    ensures l.intents[h.deviceId].affected[i].vaultId in Settle(h, l).local.store
    decreases |l.intents| + |l.journal|, PutsLeft(h, l)
  {
    var affected := l.intents[h.deviceId].affected;
    StaleCleanup(affected, l, i);
    if Decide(h, l).Perform? {
      DecisionsShrink(h, l);
      StaleIntentBlocksForGood(h, Apply(l, Decide(h, l).write), i);
    }
  }

  /** Cleanup reaches the stale Vault without having touched it. */
  lemma {:induction false} StaleCleanup(affected: seq<Affected>, l: Local, i: nat)
    requires i < |affected| && affected[i].vaultId in l.store
    requires l.store[affected[i].vaultId].vault.generation != affected[i].generation
    requires forall j, k :: 0 <= j < k < |affected| ==> affected[j].vaultId != affected[k].vaultId
    ensures var next := CleanupNext(affected, l);
            && next.Some? && next.value != Finished
            && (next.value.Blocked? ==> next.value == Blocked(GenerationConflict))
            && (next.value.Perform? ==> next.value.write.StoreDelete? || next.value.write.JournalDelete?)
            && (next.value.Perform? && next.value.write.StoreDelete? ==> next.value.write.vaultId != affected[i].vaultId)
  {
    if i > 0 {
      assert affected[1..][i - 1] == affected[i];
      StaleCleanup(affected[1..], l, i - 1);
    }
  }

  /** A `hello` that answers although the Device has failed, or shows half a binding, asks for recovery. */
  predicate AsksForRecovery(h: Hello) {
    h.state == Failed || h.state == ReprovisionRequired || h.vault.Some? != h.registration.Some?
  }

  /**
   A concrete case: one stored copy, and a staged update of it that was never committed. The intent
   built while the Device asks for recovery blocks every reconciliation once it is clean.
   */
  lemma JournaledUpdateMakesCleanupImpossible() returns (broken: Hello, clean: Hello, l: Local)
    ensures WellKeyed(l) && AsksForRecovery(broken) && ShowsClean(clean) && clean.deviceId == broken.deviceId
    ensures broken.deviceId !in l.intents && exists v :: CandidateAhead(broken, l, v)
    ensures forall intent: Intent :: intent.deviceId == broken.deviceId && Lists(intent.affected, Targets(broken, l)) ==>
              Settle(clean, l.(intents := l.intents[broken.deviceId := intent])).end == Blocked(GenerationConflict)
  {
    broken := Hello(4, Failed, None, Some(Registration(7, 1, 9)), true);
    clean := Hello(4, Unprovisioned, None, None, true);
    var s := State(Vault(5, 1, 2, 100), 1, Registration(7, 1, 9), Active, 3, Some(4));
    var c := s.(vault := Vault(5, 2, 2, 200));
    l := Local(map[5 := s], map[5 := Pending(VaultUpdate, 1, c)], map[]);
    assert CandidateAhead(broken, l, 5);
    forall intent: Intent | intent.deviceId == 4 && Lists(intent.affected, Targets(broken, l))
      ensures Settle(clean, l.(intents := l.intents[4 := intent])).end == Blocked(GenerationConflict)
    {
      assert 5 in Targets(broken, l);
      var i :| 0 <= i < |intent.affected| && intent.affected[i].vaultId == 5;
      StaleIntentBlocksForGood(clean, l.(intents := l.intents[4 := intent]), i);
    }
  }

  lemma ListsExtends(entries: seq<Affected>, m: map<VaultId, nat>, todo: set<VaultId>, v: VaultId)
    requires v in todo && todo <= m.Keys && Lists(entries, m - todo)
    ensures Lists(entries + [Affected(v, m[v])], m - (todo - {v}))
  {
    var longer := entries + [Affected(v, m[v])];
    assert longer[|entries|].vaultId == v;
    forall u | u in m - (todo - {v}) ensures exists i :: 0 <= i < |longer| && longer[i].vaultId == u {
      if u != v {
        assert u in m - todo;
        var i :| 0 <= i < |entries| && entries[i].vaultId == u;
        assert longer[i].vaultId == u;
      }
    }
  }

  class CanonicalRecoveryResetController {
    /** Whether calls into durable storage never fail (a crash is not a failure). */
    const reliableStorage: bool

    var hello: Hello
    var local: Local
    /** The records as found under the second browser lock, if it was taken. */
    ghost var resumed: Option<Local>

    constructor (reliable: bool, h: Hello, l: Local)
      ensures hello == h && local == l && resumed == None && reliableStorage == reliable
    {
      reliableStorage, hello, local, resumed := reliable, h, l, None;
    }

    /** Collects the affected Vaults; an entry for the same Vault replaces the earlier one. */
    method BuildResetIntent() returns (intent: Intent)
      ensures intent.deviceId == hello.deviceId && Lists(intent.affected, Targets(hello, local))
    {
      var affected: map<VaultId, nat> := map[];
      if hello.vault.Some? && hello.vault.value.generation > 0 {
        affected := affected[hello.vault.value.id := hello.vault.value.generation];
      }
      assert affected == Shown(hello);
      affected := AddStored(affected);
      affected := AddJournaled(affected);
      var entries := ListEntries(affected);
      intent := Intent(hello.deviceId, entries);
    }

    method AddStored(shown: map<VaultId, nat>) returns (affected: map<VaultId, nat>)
      ensures affected == shown + StoredFor(local, hello.deviceId)
    {
      affected := shown;
      var states := local.store.Keys;
      ghost var stored := StoredFor(local, hello.deviceId);
      while states != {}
        invariant states <= local.store.Keys
        invariant affected.Keys == shown.Keys + (stored.Keys - states)
        invariant forall v :: v in affected ==>
                    affected[v] == if v in stored && v !in states then stored[v] else shown[v]
      {
        var v := Least(states);
        if local.store[v].deviceId == Some(hello.deviceId) {
          affected := affected[v := local.store[v].vault.generation];
        }
        states := states - {v};
      }
    }

    method AddJournaled(before: map<VaultId, nat>) returns (affected: map<VaultId, nat>)
      ensures affected == before + JournaledBy(local, hello.deviceId)
    {
      affected := before;
      var pendings := local.journal.Keys;
      ghost var journaled := JournaledBy(local, hello.deviceId);
      while pendings != {}
        invariant pendings <= local.journal.Keys
        invariant affected.Keys == before.Keys + (journaled.Keys - pendings)
        invariant forall v :: v in affected ==>
                    affected[v] == if v in journaled && v !in pendings then journaled[v] else before[v]
      {
        var v := Least(pendings);
        if local.journal[v].candidate.deviceId == Some(hello.deviceId) {
          affected := affected[v := local.journal[v].candidate.vault.generation];
        }
        pendings := pendings - {v};
      }
    }

    method ListEntries(m: map<VaultId, nat>) returns (entries: seq<Affected>)
      ensures Lists(entries, m)
    {
      entries := [];
      var todo := m.Keys;
      while todo != {}
        invariant todo <= m.Keys
        invariant Lists(entries, m - todo)
      {
        var v := Least(todo);
        ListsExtends(entries, m, todo, v);
        entries := entries + [Affected(v, m[v])];
        todo := todo - {v};
      }
      assert m - {} == m;
    }

    /** One durable change; it fails, or the process ends, at any time. */
    method Attempt() returns (o: Outcome)
      ensures o.Threw? ==> !reliableStorage
    {
      var failed: bool, crash: bool := *, *;
      o := if crash then Died else if failed && !reliableStorage then Threw else Returned;
    }

    /** Deletes every affected copy, refusing at the first one of another generation. */
    method CleanupFromResetIntent() returns (o: Outcome)
      requires forall d :: d in local.intents ==> local.intents[d].deviceId == d
      modifies this`local
      ensures hello.deviceId !in old(local).intents ==> o.Threw? && local == old(local)
      ensures o.Returned? ==> Cleanable(old(local), hello.deviceId) && local == Cleaned(old(local), hello.deviceId)
      ensures hello.deviceId in old(local).intents && !o.Returned? ==> PartlyCleaned(old(local), local, hello.deviceId)
      ensures o.Threw? && reliableStorage && hello.deviceId in old(local).intents ==> !Cleanable(old(local), hello.deviceId)
    {
      if hello.deviceId !in local.intents { return Threw; }
      var intent := local.intents[hello.deviceId];
      var current := local.store;
      var i := 0;
      ghost var gone: set<VaultId> := {};
      while i < |intent.affected|
        invariant 0 <= i <= |intent.affected|
        invariant gone == set k | 0 <= k < i :: intent.affected[k].vaultId
        invariant local == Local(current - gone, old(local.journal) - gone, old(local.intents))
        invariant current == old(local.store)
        invariant forall k :: 0 <= k < i && intent.affected[k].vaultId in current ==>
                    current[intent.affected[k].vaultId].vault.generation == intent.affected[k].generation
      {
        var a := intent.affected[i];
        assert gone <= AffectedIds(intent) && gone + {a.vaultId} <= AffectedIds(intent);
        assert PartlyBy(old(local), local, hello.deviceId, gone, gone);
        if a.vaultId in current {
          if current[a.vaultId].vault.generation != a.generation { return Threw; }
          o := Attempt();
          if !o.Returned? { return; }
          local := local.(store := local.store - {a.vaultId});
          assert PartlyBy(old(local), local, hello.deviceId, gone + {a.vaultId}, gone);
        }
        o := Attempt();
        if !o.Returned? { return; }
        local := local.(journal := local.journal - {a.vaultId});
        gone := gone + {a.vaultId};
        i := i + 1;
      }
      assert gone == AffectedIds(intent);
      assert PartlyBy(old(local), local, hello.deviceId, gone, gone);
      o := Attempt();
      if !o.Returned? { return; }
      local := local.(intents := local.intents - {intent.deviceId});
    }

    /** What other tabs make of the records between the two browser locks. */
    method OtherTabs()
      requires forall d :: d in local.intents ==> local.intents[d].deviceId == d
      modifies this`local, this`resumed
      ensures resumed == Some(local) && forall d :: d in local.intents ==> local.intents[d].deviceId == d
    {
      var moved: Local := *;
      if forall d :: d in moved.intents ==> moved.intents[d].deviceId == d { local := moved; }
      resumed := Some(local);
    }

    /**
     Stages the intent unless one is open, asks for the reset, and cleans up once `next`, the
     fresh `hello`, shows the same Device clean. Before that no copy is touched.
     */
    method Complete(next: Option<Hello>) returns (o: Outcome)
      requires (forall d :: d in local.intents ==> local.intents[d].deviceId == d) && resumed == None
      modifies this
      ensures resumed.None? ==> !o.Returned? && (local == old(local) || Staged(old(hello), old(local), local))
      ensures resumed.Some? ==>
                && next.Some? && next.value.deviceId == old(hello).deviceId && ShowsClean(next.value)
                && hello.deviceId == old(hello).deviceId
                && (o.Returned? ==> hello.deviceId in resumed.value.intents && Cleanable(resumed.value, hello.deviceId)
                                    && local == Cleaned(resumed.value, hello.deviceId))
                && (!o.Returned? ==> local == resumed.value || (hello.deviceId in resumed.value.intents
                                                                 && PartlyCleaned(resumed.value, local, hello.deviceId)))
                && (o.Threw? && reliableStorage && hello.deviceId in resumed.value.intents ==>
                      !Cleanable(resumed.value, hello.deviceId))
      ensures resumed.Some? && Staged(old(hello), old(local), resumed.value) ==>
                (Cleanable(resumed.value, old(hello).deviceId) <==> StoreAgrees(old(local), Targets(old(hello), old(local))))
    {
      if hello.deviceId !in local.intents {
        var intent := BuildResetIntent();
        o := Attempt();
        if !o.Returned? { return; }
        local := local.(intents := local.intents[hello.deviceId := intent]);
        assert Staged(old(hello), old(local), local);
      }
      // the request is sent here; only the fresh hello tells what it did
      var crash: bool := *;
      if crash { return Died; }
      if next.None? || next.value.deviceId != hello.deviceId { return Threw; }
      hello := next.value;
      if hello.vault.Some? || hello.registration.Some? || hello.state != Unprovisioned { return Threw; }
      OtherTabs();
      if Staged(old(hello), old(local), local) {
        StagedIsCleanableIff(old(hello), old(local), local);
      }
      o := CleanupFromResetIntent();
    }
  }

  /** The records with the intent that was built for them, and nothing else changed. */
  ghost predicate Staged(h: Hello, before: Local, after: Local) {
    && h.deviceId !in before.intents && h.deviceId in after.intents
    && var intent := after.intents[h.deviceId];
    && intent.deviceId == h.deviceId && Lists(intent.affected, Targets(h, before))
    && after == before.(intents := before.intents[h.deviceId := intent])
  }

  lemma StagedIsCleanableIff(h: Hello, before: Local, after: Local)
    requires Staged(h, before, after)
    ensures Cleanable(after, h.deviceId) <==> StoreAgrees(before, Targets(h, before))
  {
    CleanableIffAgrees(before, after, after.intents[h.deviceId], Targets(h, before));
  }

  ghost predicate PartlyBy(was: Local, now: Local, d: DeviceId, stored: set<VaultId>, journaled: set<VaultId>)
    requires d in was.intents
  {
    && stored <= AffectedIds(was.intents[d]) && journaled <= AffectedIds(was.intents[d])
    && now == Local(was.store - stored, was.journal - journaled, was.intents)
  }

  /** A cleanup that was cut short: some affected copies and entries are gone, the intent is not. */
  ghost predicate PartlyCleaned(was: Local, now: Local, d: DeviceId)
    requires d in was.intents
  {
    exists stored, journaled :: PartlyBy(was, now, d, stored, journaled)
  }

  /** Cut short by a failing write or a crash, the cleanup can be taken up again to the same end. */
  lemma CleanupResumes(was: Local, now: Local, d: DeviceId)
    requires d in was.intents && PartlyCleaned(was, now, d) && Cleanable(was, d)
    ensures d in now.intents && Cleanable(now, d) && Cleaned(now, d) == Cleaned(was, d)
  {
    var stored, journaled :| PartlyBy(was, now, d, stored, journaled);
  }

  ghost function AffectedIds(intent: Intent): set<VaultId> {
    set k | 0 <= k < |intent.affected| :: intent.affected[k].vaultId
  }

  ghost function Cleaned(l: Local, d: DeviceId): Local
    requires d in l.intents
  {
    var gone := AffectedIds(l.intents[d]);
    Local(l.store - gone, l.journal - gone, l.intents - {d})
  }

  ghost predicate Cleanable(l: Local, d: DeviceId)
    requires d in l.intents
  {
    forall k :: 0 <= k < |l.intents[d].affected| ==>
      var a := l.intents[d].affected[k];
      a.vaultId in l.store ==> l.store[a.vaultId].vault.generation == a.generation
  }

  lemma CleanableIffAgrees(before: Local, l: Local, intent: Intent, m: map<VaultId, nat>)
    requires Lists(intent.affected, m) && intent.deviceId in l.intents && l.intents[intent.deviceId] == intent
    requires l.store == before.store
    ensures Cleanable(l, intent.deviceId) <==> StoreAgrees(before, m)
    ensures AffectedIds(intent) == m.Keys
  {
    forall v | v in m && v in before.store && Cleanable(l, intent.deviceId)
      ensures before.store[v].vault.generation == m[v]
    {
      var i :| 0 <= i < |intent.affected| && intent.affected[i].vaultId == v;
      assert intent.affected[i].generation == m[v];
    }
    forall v | v in m ensures v in AffectedIds(intent) {
      var i :| 0 <= i < |intent.affected| && intent.affected[i].vaultId == v;
    }
  }
}
