/** The browser's management of one Device: reconcile, then stage, send and reconcile again. */
module CanonicalManagement {
  import opened Vocabulary
  import opened BrowserState
  import opened Reconciliation
  import opened CommitProtocol
  import opened CommitInvariant
  import opened CommitTheorems
  import opened UnreadUpdates
  import opened BrowserEnvironment

  datatype Error =
    | PendingTransaction
    | ConflictingGeneration
    | StorageFailed
    | OperationFailed
    | Refused

  /** How an operation ended. A crash runs no handler: the process is simply gone. */
  datatype Outcome = Returned | Threw(error: Error) | Died

  datatype Ownership = NoOwner | ActiveOwner | ReplacementOwner | ConflictOwner

  /** Keys in ascending order, the order in which the journal lists its records. */
  ghost predicate Ascending(ps: seq<Pending>) {
    forall i, j :: 0 <= i < j < |ps| ==> ps[i].candidate.vault.id < ps[j].candidate.vault.id
  }

  /** From the i-th listed entry on, the list is what reconciliation may still drop. */
  ghost predicate Remaining(h: Hello, l: Local, ps: seq<Pending>, i: nat) {
    && i <= |ps| && Ascending(ps)
    && (forall k :: i <= k < |ps| ==> var v := ps[k].candidate.vault.id;
          v in l.journal && l.journal[v] == ps[k] && ps[k].candidate.deviceId == Some(h.deviceId))
    && (forall v :: v in Droppable(h, l) ==> exists k :: i <= k < |ps| && ps[k].candidate.vault.id == v)
  }

  lemma FilesDroppable(h: Hello, l: Local, ps: seq<Pending>)
    requires Ascending(ps)
    requires forall k :: 0 <= k < |ps| ==> var v := ps[k].candidate.vault.id;
               v in l.journal && l.journal[v] == ps[k] && ps[k].candidate.deviceId == Some(h.deviceId)
    requires WellKeyed(l)
    requires forall v :: v in l.journal && l.journal[v].candidate.deviceId == Some(h.deviceId) ==> l.journal[v] in ps
    ensures Remaining(h, l, ps, 0)
  {
    forall v | v in Droppable(h, l) ensures exists k :: 0 <= k < |ps| && ps[k].candidate.vault.id == v {
      assert l.journal[v] in ps;
    }
  }

  lemma NextDroppable(h: Hello, l: Local, ps: seq<Pending>, i: nat)
    requires Remaining(h, l, ps, i) && i < |ps|
    ensures ClearedWhenClean(ps[i]) ==> ps[i].candidate.vault.id in Droppable(h, l)
    ensures ClearedWhenClean(ps[i]) ==> forall v :: v in Droppable(h, l) ==> ps[i].candidate.vault.id <= v
    ensures !ClearedWhenClean(ps[i]) ==> Remaining(h, l, ps, i + 1)
  {
    assert l.journal[ps[i].candidate.vault.id] == ps[i];
  }

  lemma DroppedShrinks(h: Hello, l: Local, m: Local, ps: seq<Pending>, i: nat)
    requires Remaining(h, l, ps, i) && i < |ps|
    requires m.journal == l.journal - {ps[i].candidate.vault.id}
    ensures Remaining(h, m, ps, i + 1)
  {
    forall v | v in Droppable(h, m) ensures exists k :: i + 1 <= k < |ps| && ps[k].candidate.vault.id == v {
      assert v in Droppable(h, l);
    }
  }

  ghost predicate CleanedUpTo(affected: seq<Affected>, i: nat, l: Local) {
    && i <= |affected|
    && forall j :: 0 <= j < i ==> affected[j].vaultId !in l.store && affected[j].vaultId !in l.journal
  }

  /** Cleanup skips affected Vaults without any record left. */
  lemma {:induction false} CleanupSkips(affected: seq<Affected>, l: Local, i: nat)
    requires CleanedUpTo(affected, i, l)
    ensures CleanupNext(affected, l) == CleanupNext(affected[i..], l)
  {
    if i > 0 {
      CleanupSkips(affected[1..], l, i - 1);
      assert affected[1..][i - 1..] == affected[i..];
    } else {
      assert affected[0..] == affected;
    }
  }

  /**
   What the two-party commit comes to once reconciliation with the `hello` after the request has
   finished: the candidate everywhere, the old Vault everywhere, or still undecided.
   */
  lemma ReplacementResolves(w: World, p: Pending)
    requires Inv(w) && w.process.Deciding? && (p.kind == VaultUpdate || p.kind == VmkRekey)
    requires var v := p.candidate.vault.id; JournaledFor(v, w.local, w.device) && w.local.journal[v] == p
    ensures var v := p.candidate.vault.id;
            var r := Settle(w.process.hello, w.local);
            && (w.process.hello.vault.None? ==> r.local == w.local || r.end.Blocked?)
            && (v in r.local.journal ==> r.local.journal[v] == p)
            && (r.end.Blocked? ==> v in r.local.journal)
            && (r.end == Finished && w.process.hello.vault.Some? ==>
                  && SyncedRecords(r.local, w.device) && w.device.stored.value.id == v
                  && (if w.device.stored.value.generation == p.candidate.vault.generation
                      then r.local.store[v].vault == p.candidate.vault
                      else v in w.local.store && r.local.store[v].vault == w.local.store[v].vault))
  {
    var v := p.candidate.vault.id;
    assert EntryOk(v, p, w.local, w.device);
    ReconciliationSettles(w);
    assert w.device.id !in w.local.intents ==> Decide(w.process.hello, w.local) == JournalDecision(w.process.hello, w.local);
    SettleOnlyDropsEntries(w.process.hello, w.local, v);
  }

  lemma InstallationResolves(w: World, p: Pending)
    requires Inv(w) && w.process.Deciding? && Installs(p) && w.device.id !in w.local.intents
    requires var v := p.candidate.vault.id; JournaledFor(v, w.local, w.device) && w.local.journal[v] == p
    ensures var v := p.candidate.vault.id;
            var h := w.process.hello;
            var r := Settle(h, w.local);
            && (v in r.local.journal ==> r.local.journal[v] == p)
            && (r.end.Blocked? ==> v in r.local.journal)
            && (r.end == Finished && v !in r.local.journal ==>
                  if ShowsClean(h) then p.kind == InitialProvisioning ==> v !in r.local.store
                  else SyncedRecords(r.local, w.device) && w.device.stored == Some(p.candidate.vault)
                       && w.device.registration == Some(p.candidate.registration))
  {
    var v, h := p.candidate.vault.id, w.process.hello;
    assert EntryOk(v, p, w.local, w.device);
    ReconciliationSettles(w);
    SettleOnlyDropsEntries(h, w.local, v);
    if ShowsClean(h) {
      if p.kind == InitialProvisioning { CleanSettleDropsEntries(h, w.local, v); }
    } else if h.vault.Some? && h.vault.value.id != v {
      SettleLeavesOtherEntries(h, w.local, v);
    }
  }

  /** Both kinds of transaction, as the reader of the settled records sees them. */
  lemma StagedResolves(w: World, p: Pending)
    requires Inv(w) && w.process.Deciding? && p.kind != DeviceReset && w.device.id !in w.local.intents
    requires var v := p.candidate.vault.id; JournaledFor(v, w.local, w.device) && w.local.journal[v] == p
    ensures var v := p.candidate.vault.id;
            var h := w.process.hello;
            var r := Settle(h, w.local);
            && (v in r.local.journal ==> r.local.journal[v] == p)
            && (r.end.Blocked? ==> v in r.local.journal)
            && (r.end == Finished && v !in r.local.journal ==>
                  if ShowsClean(h)
                  then Installs(p) && (p.kind == InitialProvisioning ==> v !in r.local.store)
                  else && h.vault.Some? && SyncedRecords(r.local, w.device) && w.device.stored.value.id == v
                       && if Installs(p) || w.device.stored.value.generation == p.candidate.vault.generation
                          then w.device.stored == Some(p.candidate.vault)
                               && w.device.registration == Some(p.candidate.registration)
                          else v in w.local.store && w.device.stored == Some(w.local.store[v].vault))
  {
    if Installs(p) {
      InstallationResolves(w, p);
    } else {
      ReplacementResolves(w, p);
      assert EntryOk(p.candidate.vault.id, p, w.local, w.device);
    }
  }

  /** Records in step with the Device leave reconciliation nothing to do. */
  lemma SyncedRecordsRest(w: World)
    requires Inv(w) && w.process.Deciding? && SyncedRecords(w.local, w.device)
    ensures Decide(w.process.hello, w.local) == Finished
    ensures Settle(w.process.hello, w.local) == Settled(w.local, Finished)
  {
  }

  /** What the records of an open reset come to with the `hello` after the commit request. */
  lemma ResetResolves(w: World)
    requires Inv(w) && w.process.Deciding? && w.device.id in w.local.intents
    ensures var h := w.process.hello;
            var v := w.local.intents[w.device.id].affected[0].vaultId;
            var r := Settle(h, w.local);
            if ShowsClean(h) then
              && r.end == Finished && w.device.id !in r.local.intents
              && v !in r.local.store && v !in r.local.journal
              && w.device.stored.None? && w.device.registration.None?
            else if ShowsProvisioned(h) then
              r.end == Finished && r.local.store == w.local.store && SyncedRecords(r.local, w.device)
            else r == Settled(w.local, Blocked(ResetUnproven))
  {
    OpenResetFinishesOrRestores(w, 0);
    assert AfterWrites(w.process.hello, w.local, 0) == w.local;
  }

  /** What a call staged: nothing, or a candidate made from the stored `base`. */
  datatype Attempt = Unstaged | Attempted(base: State, candidate: State)

  class CanonicalDeviceManagement {
    const env: Environment
    var hello: Hello
    var state: Option<State>
    var ownership: Ownership
    var unlockRequired: bool

    /** A run of the protocol, and a `hello` the process is still acting on. */
    ghost predicate Valid()
      reads this, env
    {
      env.Valid() && hello.deviceId == env.device.id
    }

    ghost predicate Looking()
      reads this, env
    {
      Valid() && env.process == Deciding(hello)
    }

    constructor (e: Environment, initial: Hello)
      requires e.Valid() && initial.deviceId == e.device.id
      ensures Valid() && env == e && hello == initial && state == None && ownership == NoOwner
    {
      env := e;
      hello, state, ownership, unlockRequired := initial, None, NoOwner, false;
    }

    /** Reads the journal entries of this Device in key order. */
    method ListForDevice() returns (ps: seq<Pending>)
      requires Looking() && WellKeyed(env.local)
      ensures Ascending(ps)
      ensures forall k :: 0 <= k < |ps| ==> var v := ps[k].candidate.vault.id;
                v in env.local.journal && env.local.journal[v] == ps[k] && ps[k].candidate.deviceId == Some(hello.deviceId)
      ensures forall v :: v in env.local.journal && env.local.journal[v].candidate.deviceId == Some(hello.deviceId)
                ==> env.local.journal[v] in ps
    {
      ps := [];
      var keys := set v | v in env.local.journal && env.local.journal[v].candidate.deviceId == Some(hello.deviceId);
      var todo := keys;
      while todo != {}
        invariant todo <= keys && Ascending(ps)
        invariant forall i :: 0 <= i < |ps| ==>
                    ps[i].candidate.vault.id in keys && env.local.journal[ps[i].candidate.vault.id] == ps[i]
        invariant forall i, v :: 0 <= i < |ps| && v in todo ==> ps[i].candidate.vault.id < v
        invariant forall v :: v in keys ==> v in todo || env.local.journal[v] in ps
      {
        var v := Least(todo);
        ps := ps + [env.local.journal[v]];
        todo := todo - {v};
      }
    }

    /** Only reconciliation happened since the Device was `d` and the records were `l`. */
    ghost predicate Reconciling(d: Device, l: Local)
      reads this, env
    {
      && Looking() && env.inflight.None?
      && env.device.id == d.id && env.device.stored == d.stored && env.device.registration == d.registration
      && Settle(hello, env.local) == Settle(hello, l)
    }

    /** One durable change, or one that changes nothing. */
    method Perform(w: Write, ghost d: Device, ghost l: Local) returns (o: Outcome)
      requires Reconciling(d, l)
      requires Apply(env.local, w) == env.local || Decide(hello, env.local) == Reconciliation.Perform(w)
      modifies env
      ensures !o.Died? ==> Reconciling(d, l)
      ensures o.Died? ==> Valid()
      ensures o.Returned? ==> env.local == Apply(old(env.local), w)
      ensures o.Threw? ==> env.local == old(env.local) && !env.reliableStorage && o.error == StorageFailed
    {
      var reply := env.Commit(w);
      o := match reply case Answered => Returned case Failed => Threw(StorageFailed) case Crashed => Died;
    }

    /** Deletes the browser records of one affected Vault, those before it being gone already. */
    method CleanAffected(affected: seq<Affected>, i: nat, ghost d: Device, ghost l: Local) returns (o: Outcome)
      requires Reconciling(d, l) && ShowsClean(hello) && hello.deviceId in env.local.intents
      requires env.local.intents[hello.deviceId].affected == affected && i < |affected|
      requires CleanedUpTo(affected, i, env.local)
      modifies this`ownership, env
      ensures !o.Died? ==> Reconciling(d, l) && env.local.intents == old(env.local.intents)
      ensures o.Died? ==> Valid()
      ensures o.Returned? ==> CleanedUpTo(affected, i + 1, env.local)
      ensures o.Threw? ==> (Decide(hello, env.local).Blocked? && o.error == ConflictingGeneration)
                           || (!env.reliableStorage && o.error == StorageFailed)
    {
      var a := affected[i];
      CleanupSkips(affected, env.local, i);
      if a.vaultId in env.local.store {
        if env.local.store[a.vaultId].vault.generation != a.generation {
          ownership := ConflictOwner;
          return Threw(ConflictingGeneration);
        }
        o := Perform(StoreDelete(a.vaultId), d, l);
        if !o.Returned? { return; }
        CleanupSkips(affected, env.local, i);
      }
      o := Perform(JournalDelete(a.vaultId), d, l);
    }

    method ReconcileResetIntentForHello() returns (o: Outcome)
      requires Looking() && env.inflight.None?
      modifies this`ownership, env
      ensures !o.Died? ==> Reconciling(old(env.device), old(env.local))
      ensures o.Died? ==> Valid()
      ensures o.Returned? ==> hello.deviceId !in env.local.intents
      ensures o.Threw? ==> (Decide(hello, env.local).Blocked? && o.error in {PendingTransaction, ConflictingGeneration})
                           || (!env.reliableStorage && o.error == StorageFailed)
    {
      env.NowIsReached();
      ReachedBasics(env.Now());
      ghost var d, l := env.device, env.local;
      if hello.deviceId !in env.local.intents { return Returned; }
      var intent := env.local.intents[hello.deviceId];

      if hello.vault.None? && hello.registration.None? && hello.state == Unprovisioned {
        var i := 0;
        while i < |intent.affected|
          invariant 0 <= i <= |intent.affected|
          invariant Reconciling(d, l)
          invariant hello.deviceId in env.local.intents && env.local.intents[hello.deviceId] == intent
          invariant CleanedUpTo(intent.affected, i, env.local)
        {
          o := CleanAffected(intent.affected, i, d, l);
          if !o.Returned? { return; }
          i := i + 1;
        }
        CleanupSkips(intent.affected, env.local, |intent.affected|);
        o := Perform(IntentDelete(intent.deviceId), d, l);
        return;
      }

      if |intent.affected| == 1 {
        var a := intent.affected[0];
        if a.vaultId in env.local.store && env.local.store[a.vaultId].vault.generation == a.generation
           && BindingMatches(env.local.store[a.vaultId], hello) {
          o := Perform(IntentDelete(intent.deviceId), d, l);
          return;
        }
      }
      ownership := ConflictOwner;
      o := Threw(PendingTransaction);
    }

    /** Drops one journal entry of a Device that holds nothing. */
    method DropPending(p: Pending, ghost d: Device, ghost l: Local) returns (o: Outcome)
      requires Reconciling(d, l) && ShowsClean(hello) && hello.deviceId !in env.local.intents
      requires p.candidate.vault.id in Droppable(hello, env.local) && env.local.journal[p.candidate.vault.id] == p
      requires forall v :: v in Droppable(hello, env.local) ==> p.candidate.vault.id <= v
      modifies this`ownership, env
      ensures !o.Died? ==> Reconciling(d, l) && env.local.intents == old(env.local.intents)
      ensures o.Died? ==> Valid()
      ensures o.Returned? ==> env.local.journal == old(env.local.journal) - {p.candidate.vault.id}
      ensures o.Threw? ==> (Decide(hello, env.local).Blocked? && o.error == ConflictingGeneration)
                           || (!env.reliableStorage && o.error == StorageFailed)
    {
      var v := p.candidate.vault.id;
      assert Least(Droppable(hello, env.local)) == v;
      if p.kind == DeviceReset && v in env.local.store {
        if env.local.store[v].vault.generation != p.expectedGeneration {
          ownership := ConflictOwner;
          return Threw(ConflictingGeneration);
        }
        ghost var before := env.local;
        o := Perform(StoreDelete(v), d, l);
        if !o.Returned? { return; }
        assert Droppable(hello, env.local) == Droppable(hello, before);
      }
      o := Perform(JournalDelete(v), d, l);
    }

    /** The journal entries of a Device that holds nothing. */
    method ReconcileCleanJournal(ghost d: Device, ghost l: Local) returns (o: Outcome)
      requires Reconciling(d, l) && ShowsClean(hello) && hello.deviceId !in env.local.intents
      modifies this`ownership, env
      ensures !o.Died? ==> Reconciling(d, l)
      ensures o.Died? ==> Valid()
      ensures o.Returned? ==> Decide(hello, env.local) == Finished
      ensures o.Threw? ==> (Decide(hello, env.local).Blocked? && o.error == ConflictingGeneration)
                           || (!env.reliableStorage && o.error == StorageFailed)
    {
      env.NowIsReached();
      ReachedBasics(env.Now());
      var pendings := ListForDevice();
      FilesDroppable(hello, env.local, pendings);
      var i := 0;
      while i < |pendings|
        invariant 0 <= i <= |pendings|
        invariant Reconciling(d, l) && hello.deviceId !in env.local.intents
        invariant Remaining(hello, env.local, pendings, i)
      {
        var p := pendings[i];
        NextDroppable(hello, env.local, pendings, i);
        if ClearedWhenClean(p) {
          ghost var before := env.local;
          o := DropPending(p, d, l);
          if !o.Returned? { return; }
          DroppedShrinks(hello, before, env.local, pendings, i);
        }
        i := i + 1;
      }
      o := Returned;
    }

    method ReconcilePendingForHello() returns (o: Outcome)
      requires Looking() && env.inflight.None?
      modifies this`ownership, env
      ensures !o.Died? ==> Reconciling(old(env.device), old(env.local))
      ensures o.Died? ==> Valid()
      ensures o.Returned? ==> Decide(hello, env.local) == Finished
      ensures o.Threw? ==> Decide(hello, env.local).Blocked? || !env.reliableStorage
    {
      ghost var d, l := env.device, env.local;
      o := ReconcileResetIntentForHello();
      if !o.Returned? { return; }
      if hello.vault.None? {
        if hello.state == Unprovisioned && hello.registration.None? {
          o := ReconcileCleanJournal(d, l);
        }
        return;
      }
      var v := hello.vault.value.id;
      if v !in env.local.journal { return; }
      o := ReconcileVaultJournal(v, d, l);
    }

    /** The journal entry of the Vault the Device shows. */
    method ReconcileVaultJournal(v: VaultId, ghost d: Device, ghost l: Local) returns (o: Outcome)
      requires Reconciling(d, l) && hello.deviceId !in env.local.intents
      requires hello.vault.Some? && hello.vault.value.id == v && v in env.local.journal
      modifies this`ownership, env
      ensures !o.Died? ==> Reconciling(d, l)
      ensures o.Died? ==> Valid()
      ensures o.Returned? ==> Decide(hello, env.local) == Finished
      ensures o.Threw? ==> Decide(hello, env.local).Blocked? || !env.reliableStorage
    {
      var p := env.local.journal[v];
      var c := p.candidate;
      if c.deviceId != Some(hello.deviceId) || c.vault.id != v {
        ownership := ConflictOwner;
        return Threw(ConflictingGeneration);
      }
      if p.kind == DeviceReset {
        if v in env.local.store && BindingMatches(c, hello) && BindingMatches(env.local.store[v], hello) {
          o := Perform(JournalDelete(v), d, l);
          return;
        }
        ownership := ConflictOwner;
        return Threw(ConflictingGeneration);
      }
      env.NowIsReached();
      ReachedBasics(env.Now());
      if BindingMatches(c, hello) {
        o := Promote(v, p, d, l);
        return;
      }
      if p.kind != InitialProvisioning && p.kind != RecoveryProvisioning
         && hello.vault.value.generation == p.expectedGeneration
         && v in env.local.store && BindingMatches(env.local.store[v], hello) {
        o := Perform(JournalDelete(v), d, l);
        return;
      }
      ownership := ConflictOwner;
      o := Threw(ConflictingGeneration);
    }

    /** The Device committed the candidate: store it, then drop its journal entry. */
    method Promote(v: VaultId, p: Pending, ghost d: Device, ghost l: Local) returns (o: Outcome)
      requires Reconciling(d, l) && hello.deviceId !in env.local.intents && WellKeyed(env.local)
      requires hello.vault.Some? && hello.vault.value.id == v && v in env.local.journal && env.local.journal[v] == p
      requires p.candidate.vault.id == v && p.kind != DeviceReset && BindingMatches(p.candidate, hello)
      modifies env
      ensures !o.Died? ==> Reconciling(d, l)
      ensures o.Died? ==> Valid()
      ensures o.Returned? ==> Decide(hello, env.local) == Finished
      ensures o.Threw? ==> Decide(hello, env.local).Blocked? || !env.reliableStorage
    {
      var c := p.candidate;
      if v !in env.local.store {
        if p.expectedGeneration != 0 { return Threw(ConflictingGeneration); }
        o := PutCandidate(c, None, d, l);
      } else if env.local.store[v].vault.generation == p.expectedGeneration {
        o := PutCandidate(c, Some(p.expectedGeneration), d, l);
      } else if env.local.store[v].vault.generation == c.vault.generation {
        if !BindingMatches(env.local.store[v], hello) { return Threw(ConflictingGeneration); }
        o := Returned;
      } else {
        return Threw(ConflictingGeneration);
      }
      if !o.Returned? { return; }
      o := Perform(JournalDelete(v), d, l);
    }

    method PutCandidate(c: State, expected: Option<nat>, ghost d: Device, ghost l: Local) returns (o: Outcome)
      requires Reconciling(d, l) && hello.deviceId !in env.local.intents
      requires hello.vault.Some? && hello.vault.value.id == c.vault.id && BindingMatches(c, hello)
      requires var v := c.vault.id;
               && v in env.local.journal && env.local.journal[v].candidate == c && env.local.journal[v].kind != DeviceReset
               && (if expected.Some?
                   then env.local.journal[v].expectedGeneration == expected.value
                        && v in env.local.store && env.local.store[v].vault.generation == expected.value
                        && env.local.store[v].vault.id == v
                   else v !in env.local.store && env.local.journal[v].expectedGeneration == 0)
      modifies env
      ensures !o.Died? ==> Reconciling(d, l) && env.local.journal == old(env.local.journal)
      ensures o.Died? ==> Valid()
      ensures o.Returned? ==> Decide(hello, env.local) == Reconciliation.Perform(JournalDelete(c.vault.id))
      ensures o.Threw? ==> !env.reliableStorage
    {
      env.NowIsReached();
      SoberWriter(env.Now(), c.vault.id);
      assert EntryOk(c.vault.id, env.local.journal[c.vault.id], env.local, env.device);
      var reply := env.Put(c, expected);
      o := match reply case Answered => Returned case Failed => Threw(StorageFailed) case Crashed => Died;
    }

    /** Loads the stored state of the Vault the Device shows. */
    method ReloadBrowserState()
      requires Looking()
      modifies this`state, this`ownership
      ensures Looking()
      ensures state.Some? <==> hello.vault.Some? && hello.vault.value.id in env.local.store
                               && env.local.store[hello.vault.value.id].deviceId == Some(hello.deviceId)
      ensures state.Some? ==> state.value == env.local.store[hello.vault.value.id]
      ensures ownership == ActiveOwner <==> state.Some? && state.value.status == Active
    {
      if hello.vault.None? {
        state, ownership := None, NoOwner;
        return;
      }
      var v := hello.vault.value.id;
      if v !in env.local.store || env.local.store[v].deviceId != Some(hello.deviceId) {
        state, ownership := None, ConflictOwner;
        return;
      }
      state := Some(env.local.store[v]);
      ownership := if env.local.store[v].status == Active then ActiveOwner else ReplacementOwner;
    }

    /** Nothing is on the line, and the store equals the Device. */
    ghost predicate InStep()
      reads this, env
    {
      Valid() && env.inflight.None? && SyncedRecords(env.local, env.device)
    }

    /** Asks for a fresh `hello`, reconciles every durable record with it, and reloads. */
    method RefreshHelloAndBrowserState() returns (o: Outcome)
      requires Valid()
      modifies this`hello, this`state, this`ownership, env
      ensures Valid()
      ensures o.Returned? ==> Looking() && env.inflight.None? && Decide(hello, env.local) == Finished
      ensures o.Returned? ==> LoadedState()
      ensures old(InStep()) && (o.Returned? || (o.Threw? && env.reliableStorage)) ==>
                SyncedRecords(env.local, env.device) && env.device.stored == old(env.device.stored)
    {
      var reply;
      reply, hello := env.RequestHello(hello);
      if reply.Crashed? { return Died; }
      if reply.Failed? { return Threw(OperationFailed); }
      env.NowIsReached();
      if SyncedRecords(env.local, env.device) {
        SoberWithoutUpdate(env.Now());
        SyncedRecordsRest(env.Now());
      }
      o := ReconcilePendingForHello();
      if o.Returned? { ReloadBrowserState(); }
    }

    /** The loaded state is the stored one of the shown Vault. */
    ghost predicate LoadedState()
      reads this, env
    {
      && (state.Some? ==>
            && hello.vault.Some? && hello.vault.value.id in env.local.store
            && state.value == env.local.store[hello.vault.value.id])
      && (ownership == ActiveOwner ==> state.Some? && state.value.status == Active)
    }

    /** Canonical writes need the active Trusted Browser and an unlocked Device. */
    method RequireActiveWriter() returns (o: Outcome)
      requires LoadedState()
      ensures o == Returned || o == Threw(Refused)
      ensures o.Returned? ==> state.Some? && state.value.status == Active && ActiveWriter(hello, env.local, state.value.vault.id)
    {
      if state.None? || state.value.status != Active || ownership != ActiveOwner { return Threw(Refused); }
      if hello.state != Unlocked { return Threw(Refused); }
      if !BindingMatches(state.value, hello) { return Threw(Refused); }
      o := Returned;
    }

    /**
     Replaces the Vault plaintext; `edit` is the re-encrypted body, or None when the edit itself
     is refused. A normal return means that Device and store hold the candidate; an exception
     that leaves nothing journaled means that both still hold the old Vault; otherwise the
     candidate is still journaled.
     */
    method MutateVault(edit: Option<nat>, requireFormat2: bool) returns (o: Outcome, a: Attempt)
      requires Valid()
      modifies this, env
      ensures Valid()
      ensures o.Returned? ==> a.Attempted? && CandidateCommitted(a.candidate) && edit == Some(a.candidate.vault.body)
      ensures a.Attempted? ==> NextOf(a.base, a.candidate) && a.candidate.wrappedVmk == a.base.wrappedVmk
      ensures o.Threw? && env.reliableStorage ==> EffectOfFailure(a, VaultUpdate, old(InStep()), old(env.device.stored))
    {
      a := Unstaged;
      o := RefreshHelloAndBrowserState();
      if !o.Returned? { return; }
      o := RequireActiveWriter();
      if !o.Returned? { return; }
      var s := state.value;
      env.NowIsReached();
      SoberWriter(env.Now(), s.vault.id);
      var format := NextFormat(s, hello, requireFormat2);
      if format.None? || edit.None? || s.vault.generation + 1 > MAX_U64 {
        o := Threw(Refused);
        return;
      }
      var c := s.(vault := Vault(s.vault.id, s.vault.generation + 1, format.value, edit.value));
      var p := Pending(VaultUpdate, s.vault.generation, c);
      o, a := StageAndCommit(p, s);
    }

    /** Replaces the VMK: a new body, a new recovery wrapper and a new browser wrapper. */
    method RotateVmk(passphraseMatches: bool, body: nat, recoveryWrap: nat, wrappedVmk: nat)
      returns (o: Outcome, a: Attempt)
      requires Valid()
      modifies this, env
      ensures Valid()
      ensures o.Returned? ==> a.Attempted? && CandidateCommitted(a.candidate)
                              && passphraseMatches && a.candidate.vault.body == body
                              && a.candidate.recoveryWrap == recoveryWrap && a.candidate.wrappedVmk == wrappedVmk
      ensures a.Attempted? ==> NextOf(a.base, a.candidate)
      ensures o.Threw? && env.reliableStorage ==> EffectOfFailure(a, VmkRekey, old(InStep()), old(env.device.stored))
    {
      a := Unstaged;
      o := RefreshHelloAndBrowserState();
      if !o.Returned? { return; }
      o := RequireActiveWriter();
      if !o.Returned? { return; }
      var s := state.value;
      env.NowIsReached();
      SoberWriter(env.Now(), s.vault.id);
      var format := NextFormat(s, hello, false);
      if format.None? || !passphraseMatches || s.vault.generation + 1 > MAX_U64 {
        o := Threw(Refused);
        return;
      }
      var next := Vault(s.vault.id, s.vault.generation + 1, format.value, body);
      var c := s.(vault := next, recoveryWrap := recoveryWrap, wrappedVmk := wrappedVmk);
      var p := Pending(VmkRekey, s.vault.generation, c);
      o, a := StageAndCommit(p, s);
    }

    ghost predicate NextOf(base: State, c: State) {
      && c.vault.id == base.vault.id && c.vault.generation == base.vault.generation + 1 <= MAX_U64
      && c.registration == base.registration && c.deviceId == base.deviceId && c.status == base.status == Active
    }

    /** What an exception leaves behind when local storage works. */
    ghost predicate EffectOfFailure(a: Attempt, kind: TransactionKind, inStep: bool, stored: Option<Vault>)
      reads this, env
    {
      && (a.Attempted? ==>
            var v := a.candidate.vault.id;
            if v in env.local.journal then env.local.journal[v].candidate == a.candidate
            else NotCommitted(kind, a.base, a.candidate))
      && (a.Attempted? && inStep ==> stored == Some(a.base.vault))
      && (a.Unstaged? && inStep ==> stored.Some? && OldVaultKept(stored.value))
    }

    /**
     Nothing is pending, and the Device has either the old Vault or, unread, the candidate: the
     old one exactly if the last `hello` showed what the Device has.
     */
    ghost predicate NotCommitted(kind: TransactionKind, base: State, c: State)
      reads this, env
    {
      && (OldVaultKept(base.vault) <==> hello.vault == ShowStored(env.device))
      && (OldVaultKept(base.vault) || (kind == VaultUpdate && LeftBehind(base, c)))
    }

    /**
     The update became persistent without being read back: the last `hello` came from a failed
     runtime with the old metadata, the browser keeps the old Vault, and the candidate is only in
     flash.
     */
    ghost predicate LeftBehind(base: State, c: State)
      reads this, env
    {
      && env.device.stored == Some(c.vault) && env.device.registration == Some(c.registration)
      && hello.vault == Some(Show(base.vault)) && hello.state == RuntimeState.Failed
      && base.vault.id in env.local.store && env.local.store[base.vault.id] == base && base.vault.id !in env.local.journal
      && Orphaned(env.Now())
    }

    /** Stages a replacement of the stored state, sends it once, and resolves it. */
    method StageAndCommit(p: Pending, s: State) returns (o: Outcome, a: Attempt)
      requires Looking() && env.inflight.None? && Decide(hello, env.local) == Finished
      requires MayStage(hello, env.local, p) && p.kind in {VaultUpdate, VmkRekey}
      requires s == env.local.store[p.candidate.vault.id] && env.Sober()
      modifies this, env
      ensures Valid()
      ensures o.Returned? ==> a == Attempted(s, p.candidate) && CandidateCommitted(p.candidate)
      ensures a.Attempted? ==> a == Attempted(s, p.candidate)
      ensures o.Threw? && env.reliableStorage ==> a.Attempted?
      ensures o.Threw? && env.reliableStorage ==>
                var v := p.candidate.vault.id;
                if v in env.local.journal then env.local.journal[v] == p else NotCommitted(p.kind, s, p.candidate)
    {
      a := Unstaged;
      var reply := env.Stage(p);
      if reply.Crashed? { return Died, a; }
      if reply.Failed? { return Threw(PendingTransaction), a; }
      a := Attempted(s, p.candidate);
      var failed := false;
      if p.kind == VmkRekey {
        // the new VMK is delivered over an authenticated session first
        reply := env.Converse();
        if reply.Crashed? { return Died, a; }
        failed := reply.Failed?;
      }
      if !failed {
        reply := env.SendCommit(p);
        if reply.Crashed? { return Died, a; }
        failed := reply.Failed?;
      }
      o := ResolvePendingOperation(p, failed);
    }

    /**
     The outcome of a staged transaction is read from a fresh `hello`, never from the reply to
     the request. `failed` only chooses which exception reports an operation without effect.
     */
    method ResolvePendingOperation(p: Pending, failed: bool) returns (o: Outcome)
      requires Valid() && env.process.Committing? && env.process.pending == p && p.kind != DeviceReset
      modifies this, env
      ensures Valid()
      ensures o.Returned? ==> CandidateCommitted(p.candidate) && ownership == ActiveOwner
      ensures o.Threw? && env.reliableStorage ==>
                var v := p.candidate.vault.id;
                if v in env.local.journal then env.local.journal[v] == p
                else if Installs(p) then NothingInstalled(p)
                else v in old(env.local.store) && NotCommitted(p.kind, old(env.local).store[v], p.candidate)
    {
      var v := p.candidate.vault.id;
      o := LookAgain(p);
      if o.Died? { return; }
      if v in env.local.journal {
        ownership, unlockRequired := ConflictOwner, false;
        return Threw(PendingTransaction);
      }
      if o.Threw? { return; }
      if state.Some? && state.value.vault.generation == p.candidate.vault.generation
         && BindingMatches(state.value, hello) {
        ownership, unlockRequired := ActiveOwner, hello.state == Locked;
        return Returned;
      }
      o := Threw(if failed then OperationFailed else Refused);
    }

    /** The fresh `hello` after a request, reconciliation with it, and the state it leaves. */
    method LookAgain(p: Pending) returns (o: Outcome)
      requires Valid() && env.process.Committing? && env.process.pending == p && p.kind != DeviceReset
      modifies this, env
      ensures Valid()
      ensures o.Returned? ==> Looking() && LoadedState() && ResolvedTo(p, old(env.local))
      ensures o.Returned? && p.candidate.vault.id !in env.local.journal && hello.vault.Some? ==> state.Some?
      ensures o.Threw? && env.reliableStorage ==>
                p.candidate.vault.id in env.local.journal && env.local.journal[p.candidate.vault.id] == p
    {
      env.NowIsReached();
      StagedIsSoberOrUnread(env.Now(), p);
      if env.Sober() && Installs(p) { OwnRequest(env.Now(), p); }
      var reply;
      reply, hello := env.RequestHello(hello);
      if reply.Crashed? { return Died; }
      if reply.Failed? { return Threw(OperationFailed); }
      env.NowIsReached();
      if !Installs(p) { UnreadIsOwn(env.Now(), p); }
      o := ReconcileStaged(p);
    }

    method ReconcileStaged(p: Pending) returns (o: Outcome)
      requires Looking() && env.inflight.None? && p.kind != DeviceReset && hello.deviceId !in env.local.intents
      requires p.candidate.deviceId == Some(hello.deviceId)
      requires env.Sober() || (p.kind == VaultUpdate && UnreadIn(env.Now(), p.candidate.vault.id))
      requires p.candidate.vault.id in env.local.journal && env.local.journal[p.candidate.vault.id] == p
      modifies this`state, this`ownership, env
      ensures Valid()
      ensures o.Returned? ==> Looking() && LoadedState() && ResolvedTo(p, old(env.local))
      ensures o.Returned? && p.candidate.vault.id !in env.local.journal && hello.vault.Some? ==> state.Some?
      ensures o.Threw? && env.reliableStorage ==>
                p.candidate.vault.id in env.local.journal && env.local.journal[p.candidate.vault.id] == p
    {
      hide Inv, Orphaned, Unread, UnreadIn, Reached;
      ghost var w, v := env.Now(), p.candidate.vault.id;
      if Inv(w) {
        StagedResolves(w, p);
        InvAgrees(w);
      } else {
        UnreadSettles(w, v);
      }
      o := ReconcilePendingForHello();
      if !o.Returned? { return; }
      if !Inv(w) {
        env.NowIsReached();
        UnreadEndsOrphaned(w, env.Now(), v);
      }
      ReloadBrowserState();
    }

    /** What the settled records say about the staged transaction. */
    ghost predicate ResolvedTo(p: Pending, before: Local)
      reads this, env
    {
      var v := p.candidate.vault.id;
      if v in env.local.journal then env.local.journal[v] == p
      else if ShowsClean(hello) then Installs(p) && NothingInstalled(p)
      else if hello.vault != ShowStored(env.device) then
        p.kind == VaultUpdate && v in before.store && LeftBehind(before.store[v], p.candidate)
      else
        && SyncedRecords(env.local, env.device) && hello.vault == ShowStored(env.device)
        && env.device.stored.value.id == v && BindingMatches(env.local.store[v], hello)
        && if Installs(p) || env.device.stored.value.generation == p.candidate.vault.generation
           then CandidateCommitted(p.candidate)
           else v in before.store && OldVaultKept(before.store[v].vault)
    }

    /** The installation had no effect: the Device is clean and no new copy was stored. */
    ghost predicate NothingInstalled(p: Pending)
      reads this, env
    {
      && env.device.stored.None? && env.device.registration.None?
      && (p.kind == InitialProvisioning ==> p.candidate.vault.id !in env.local.store)
    }

    /** The Device and the store both hold the candidate, and nothing is pending. */
    ghost predicate CandidateCommitted(c: State)
      reads this, env
    {
      SyncedRecords(env.local, env.device) && env.device.stored == Some(c.vault)
      && env.device.registration == Some(c.registration)
    }

    /** The Device and the store both hold this earlier Vault, and nothing is pending. */
    ghost predicate OldVaultKept(v: Vault)
      reads this, env
    {
      SyncedRecords(env.local, env.device) && env.device.stored == Some(v)
    }

    /** Delivers the VMK, then the envelope, and resolves the installation. */
    method DeliverAndInstall(p: Pending) returns (o: Outcome)
      requires Looking() && env.inflight.None? && Decide(hello, env.local) == Finished
      requires Installs(p)
      requires p.candidate.vault.id !in env.local.journal ==> MayStage(hello, env.local, p)
      modifies this, env
      ensures Valid()
      ensures o.Returned? ==> CandidateCommitted(p.candidate)
      ensures o.Threw? && env.reliableStorage && p.candidate.vault.id !in env.local.journal ==> NothingInstalled(p)
    {
      var reply := env.Stage(p);
      if reply.Crashed? { return Died; }
      if reply.Failed? { return Threw(PendingTransaction); }
      reply := env.DeliverForInstall(p);
      if reply.Crashed? { return Died; }
      if reply.Answered? {
        reply := env.SendCommit(p);
        if reply.Crashed? { return Died; }
      }
      o := ResolvePendingOperation(p, reply.Failed?);
    }

    /**
     Provisions an empty Device with a new Vault. `vaultId` is a fresh random id: one the
     browser has never filed anything under.
     */
    method InitialProvision(accounts: nat, maximum: nat, vaultId: VaultId, body: nat, recoveryWrap: nat,
                            wrappedVmk: nat, registrationId: nat, key: nat)
      returns (o: Outcome)
      requires Valid() && vaultId !in env.local.store && vaultId !in env.local.journal
      modifies this, env
      ensures Valid()
      ensures o.Returned? ==> SyncedRecords(env.local, env.device) && env.device.stored.value.id == vaultId
                              && env.device.stored.value.body == body && env.device.stored.value.generation == 1
                              && env.device.registration == Some(Registration(registrationId, 1, key))
      ensures o.Threw? && env.reliableStorage && vaultId !in env.local.journal ==>
                vaultId !in env.local.store && !Owns(env.device, vaultId)
    {
      var reply;
      reply, hello := env.RequestHello(hello);
      if reply.Crashed? { return Died; }
      env.NowIsReached();
      ReachedBasics(env.Now());
      if reply.Failed? { return Threw(OperationFailed); }
      SettleOnlyDropsEntries(hello, env.local, vaultId);
      SettleStoresOnlyJournaled(hello, env.local, vaultId);
      o := ReconcilePendingForHello();
      env.NowIsReached();
      ReachedBasics(env.Now());
      if !o.Returned? { return; }
      if hello.vault.Some? || hello.registration.Some? { return Threw(Refused); }
      if accounts == 0 || accounts > maximum { return Threw(Refused); }
      var format := if hello.writesFormat2 then FORMAT_2 else LEGACY_FORMAT;
      var c := State(Vault(vaultId, 1, format, body), recoveryWrap, Registration(registrationId, 1, key), Active,
                     wrappedVmk, Some(hello.deviceId));
      o := DeliverAndInstall(Pending(InitialProvisioning, 0, c));
    }

    /** Installs the one imported Vault on an empty Device under a new registration. */
    method RecoverImportedVaultToCleanDevice(wrappedVmk: nat, registrationId: nat, key: nat)
      returns (o: Outcome, started: Option<Pending>)
      requires Valid()
      modifies this, env
      ensures Valid()
      ensures started.Some? ==> started.value.kind == RecoveryProvisioning
                                && started.value.candidate.registration == Registration(registrationId, 1, key)
      ensures o.Returned? ==> started.Some? && CandidateCommitted(started.value.candidate)
      ensures o.Threw? && env.reliableStorage && started.Some? && started.value.candidate.vault.id !in env.local.journal ==>
                NothingInstalled(started.value)
    {
      started := None;
      o := RefreshHelloAndBrowserState();
      if !o.Returned? { return; }
      if hello.vault.Some? || hello.registration.Some? || hello.state != Unprovisioned { return Threw(Refused), None; }
      env.NowIsReached();
      SoberWithoutUpdate(env.Now());
      var candidates := set v | v in env.local.store && env.local.store[v].status == ReplacementPending;
      if |candidates| != 1 { return Threw(Refused), None; }
      var s := env.local.store[Least(candidates)];
      if s.vault.format == FORMAT_2 && !hello.writesFormat2 { return Threw(Refused), None; }
      if s.vault.id in env.local.journal { return Threw(PendingTransaction), None; }
      // Vault envelopes carry a positive generation
      if s.vault.generation == 0 { return Threw(Refused), None; }
      var c := State(s.vault, s.recoveryWrap, Registration(registrationId, 1, key), Active, wrappedVmk,
                     Some(hello.deviceId));
      started := Some(Pending(RecoveryProvisioning, s.vault.generation, c));
      o := DeliverAndInstall(started.value);
    }

    /**
     Resets the Device after a confirmation on the Device itself. A normal return means that the
     Device is clean and the browser copy is gone; an exception without an open intent means that
     Device and store still hold the old Vault; otherwise the intent stays and no copy was touched.
     */
    method FactoryReset(presenceRequired: bool) returns (o: Outcome, started: Option<State>)
      requires Valid()
      modifies this, env
      ensures Valid()
      ensures !presenceRequired ==> !o.Returned? && started.None?
      ensures o.Returned? ==> started.Some? && ResetDone(started.value)
      ensures o.Threw? && env.reliableStorage && started.Some? ==>
                if hello.deviceId in env.local.intents
                then ResetOpen(started.value)
                else OldVaultKept(started.value.vault)
    {
      started := None;
      o := RefreshHelloAndBrowserState();
      if !o.Returned? { return; }
      o := RequireActiveWriter();
      if !o.Returned? { return; }
      FinishedMeansNoIntent(hello, env.local);
      // only firmware that asks for a confirmation on the Device
      if !presenceRequired { return Threw(Refused), None; }
      var s := state.value;
      ghost var l := env.local;
      // begin, then poll until the Device reports the confirmation
      var confirmed := false;
      var polls: nat := *;
      var reply := env.Converse();
      if reply.Crashed? { o := Died; return; }
      if reply.Failed? { o := Threw(OperationFailed); return; }
      while polls > 0 && !confirmed
        invariant Looking() && env.inflight.None? && env.local == l
        invariant Decide(hello, env.local) == Finished
        modifies env
      {
        reply := env.Converse();
        if reply.Crashed? { o := Died; return; }
        if reply.Failed? { break; }
        confirmed := *;
        polls := polls - 1;
      }
      if !confirmed {
        o := CancelReset(OperationFailed);
        return;
      }
      o, started := CommitReset(s);
    }

    /** The intent first, the journal entry second, then one commit request. */
    method CommitReset(s: State) returns (o: Outcome, started: Option<State>)
      requires Looking() && env.inflight.None? && Decide(hello, env.local) == Finished
      requires hello.deviceId !in env.local.intents
      requires ActiveWriter(hello, env.local, s.vault.id) && s == env.local.store[s.vault.id]
      modifies this, env
      ensures Valid()
      ensures o.Returned? ==> started == Some(s) && ResetDone(s)
      ensures o.Threw? && env.reliableStorage && started.Some? ==>
                started == Some(s) && if hello.deviceId in env.local.intents then ResetOpen(s) else OldVaultKept(s.vault)
    {
      started := None;
      env.NowIsReached();
      SoberWriter(env.Now(), s.vault.id);
      hide Inv, Orphaned, Unread, UnreadIn;
      var reply := env.StageIntent(s);
      if reply.Crashed? { return Died, started; }
      if reply.Failed? {
        o := CancelReset(StorageFailed);
        return;
      }
      started := Some(s);
      reply := env.StageReset(s);
      if reply.Crashed? { return Died, started; }
      if reply.Failed? {
        reply := env.WithdrawIntent(hello.deviceId);
        if reply.Crashed? { return Died, started; }
        o := CancelReset(StorageFailed);
        return;
      }
      reply := env.SendCommit(Pending(DeviceReset, s.vault.generation, s));
      if reply.Crashed? { return Died, started; }
      o := ResolveFactoryReset(s, reply.Failed?);
    }

    /** The best-effort cancel before a reset is given up. */
    method CancelReset(e: Error) returns (o: Outcome)
      requires Valid() && env.inflight.None?
      modifies env
      ensures Valid() && env.local == old(env.local) && env.device.id == old(env.device.id)
      ensures env.device.stored == old(env.device.stored) && env.device.registration == old(env.device.registration)
      ensures o == Died || o == Threw(e)
    {
      var reply := env.Converse();
      o := if reply.Crashed? then Died else Threw(e);
    }

    method ResolveFactoryReset(s: State, failed: bool) returns (o: Outcome)
      requires Valid() && ResetOpen(s)
      modifies this, env
      ensures Valid()
      ensures o.Returned? ==> ResetDone(s)
      ensures o.Threw? && env.reliableStorage ==>
                if hello.deviceId in env.local.intents then ResetOpen(s) else OldVaultKept(s.vault)
    {
      var reply;
      reply, hello := env.RequestHello(hello);
      if reply.Crashed? { return Died; }
      o := Threw(OperationFailed);
      if reply.Answered? {
        o := ReconcileReset(s);
        if o.Died? { return; }
      }
      if hello.deviceId in env.local.intents {
        ownership, unlockRequired := ConflictOwner, false;
        return Threw(PendingTransaction);
      }
      if o.Threw? { return; }
      if hello.vault.None? && hello.registration.None? && hello.state == Unprovisioned {
        state, ownership, unlockRequired := None, NoOwner, false;
        return Returned;
      }
      o := Threw(if failed then OperationFailed else Refused);
    }

    method ReconcileReset(s: State) returns (o: Outcome)
      requires Looking() && env.inflight.None? && ResetOpen(s)
      modifies this`state, this`ownership, env
      ensures Valid()
      ensures o.Returned? ==> if ShowsClean(hello) then ResetDone(s)
                              else OldVaultKept(s.vault) && hello.deviceId !in env.local.intents
      ensures o.Threw? && env.reliableStorage ==> ResetOpen(s)
    {
      env.NowIsReached();
      SoberWithoutUpdate(env.Now());
      ResetResolves(env.Now());
      o := ReconcilePendingForHello();
      if o.Returned? { ReloadBrowserState(); }
    }

    ghost predicate ResetDone(s: State)
      reads this, env
    {
      && env.device.stored.None? && env.device.registration.None? && hello.deviceId !in env.local.intents
      && s.vault.id !in env.local.store && s.vault.id !in env.local.journal
    }

    /** The intent of this reset is still there, and so is the browser copy. */
    ghost predicate ResetOpen(s: State)
      reads this, env
    {
      && hello.deviceId in env.local.intents
      && env.local.intents[hello.deviceId] == ResetIntent(hello.deviceId, s)
      && s.vault.id in env.local.store && env.local.store[s.vault.id] == s
    }
  }
}
