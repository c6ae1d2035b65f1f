/**
 Reconciliation of the browser's durable records with one `hello`. `Decide` gives the next
 durable change for the records as they are now, so a browser that crashed after any number
 of changes simply decides again; `Settle` follows the decisions to the end.
 */
module Reconciliation {
  import opened Vocabulary
  import opened BrowserState

  datatype Write =
    | StorePut(state: State)
    | StoreDelete(vaultId: VaultId)
    | JournalDelete(vaultId: VaultId)
    | IntentDelete(deviceId: DeviceId)

  datatype Reason = GenerationConflict | ResetUnproven

  datatype Decision = Perform(write: Write) | Finished | Blocked(reason: Reason)

  function Apply(l: Local, w: Write): Local {
    match w
    case StorePut(s) => l.(store := l.store[s.vault.id := s])
    case StoreDelete(v) => l.(store := l.store - {v})
    case JournalDelete(v) => l.(journal := l.journal - {v})
    case IntentDelete(d) => l.(intents := l.intents - {d})
  }

  /** The first affected Vault that still has a browser record decides. */
  function CleanupNext(affected: seq<Affected>, l: Local): Option<Decision> {
    if affected == [] then None
    else
      var a := affected[0];
      if a.vaultId in l.store then
        if l.store[a.vaultId].vault.generation != a.generation then Some(Blocked(GenerationConflict))
        else Some(Perform(StoreDelete(a.vaultId)))
      else if a.vaultId in l.journal then Some(Perform(JournalDelete(a.vaultId)))
      else CleanupNext(affected[1..], l)
  }

  /** A reset intent whose Device still carries exactly the untouched stored binding. */
  predicate ResetUntouched(intent: Intent, h: Hello, l: Local) {
    && |intent.affected| == 1
    && var a := intent.affected[0];
    && a.vaultId in l.store
    && l.store[a.vaultId].vault.generation == a.generation
    && BindingMatches(l.store[a.vaultId], h)
  }

  /** The part that looks at a durable reset intent of this Device. */
  function IntentDecision(h: Hello, l: Local): Option<Decision> {
    if h.deviceId !in l.intents then None
    else
      var intent := l.intents[h.deviceId];
      if ShowsClean(h) then
        var next := CleanupNext(intent.affected, l);
        if next.Some? then next else Some(Perform(IntentDelete(h.deviceId)))
      else if ResetUntouched(intent, h, l) then Some(Perform(IntentDelete(h.deviceId)))
      else Some(Blocked(ResetUnproven))
  }

  predicate ClearedWhenClean(p: Pending) {
    || p.kind == DeviceReset
    || (p.kind == InitialProvisioning && p.expectedGeneration == 0)
    || p.kind == RecoveryProvisioning
  }

  /** Journal keys a clean Device lets the browser drop. */
  function Droppable(h: Hello, l: Local): set<VaultId> {
    set v | v in l.journal && l.journal[v].candidate.deviceId == Some(h.deviceId)
            && ClearedWhenClean(l.journal[v])
  }

  predicate IsLeast(m: nat, s: set<nat>) {
    m in s && forall x :: x in s ==> m <= x
  }

  /** IndexedDB lists records by ascending key. */
  function Least(s: set<nat>): (m: nat)
    requires s != {}
    ensures IsLeast(m, s)
  {
    LeastExists(s);
    var m :| IsLeast(m, s);
    m
  }

  lemma LeastExists(s: set<nat>)
    requires s != {}
    ensures exists m :: IsLeast(m, s)
  {
    var y :| y in s;
    var rest := s - {y};
    assert forall x :: x in s ==> x == y || x in rest;
    if rest == {} {
      assert IsLeast(y, s);
    } else {
      LeastExists(rest);
      var m :| IsLeast(m, rest);
      assert IsLeast(if y <= m then y else m, s);
    }
  }

  function CleanJournalDecision(h: Hello, l: Local): Decision {
    var keys := Droppable(h, l);
    if keys == {} then Finished
    else
      var v := Least(keys);
      var p := l.journal[v];
      if p.kind == DeviceReset && v in l.store then
        if l.store[v].vault.generation != p.expectedGeneration then Blocked(GenerationConflict)
        else Perform(StoreDelete(v))
      else Perform(JournalDelete(v))
  }

  /** Stores the candidate unless that is what the store already holds. */
  function PutThenDrop(l: Local, s: State, v: VaultId): Decision {
    if s.vault.id in l.store && l.store[s.vault.id] == s then Perform(JournalDelete(v))
    else Perform(StorePut(s))
  }

  function PendingDecision(h: Hello, l: Local, v: VaultId): Decision
    requires h.vault.Some? && h.vault.value.id == v
  {
    if v !in l.journal then Finished
    else
      var p := l.journal[v];
      var c := p.candidate;
      if c.deviceId != Some(h.deviceId) || c.vault.id != v then Blocked(GenerationConflict)
      else if p.kind == DeviceReset then
        if v in l.store && BindingMatches(c, h) && BindingMatches(l.store[v], h) then Perform(JournalDelete(v))
        else Blocked(GenerationConflict)
      else if BindingMatches(c, h) then
        if v !in l.store then
          if p.expectedGeneration != 0 then Blocked(GenerationConflict) else Perform(StorePut(c))
        else if l.store[v].vault.generation == p.expectedGeneration then
          PutThenDrop(l, Merge(l.store[v], c, p.expectedGeneration), v)
        else if l.store[v].vault.generation == c.vault.generation && BindingMatches(l.store[v], h) then
          Perform(JournalDelete(v))
        else Blocked(GenerationConflict)
      else if p.kind != InitialProvisioning && p.kind != RecoveryProvisioning
              && h.vault.value.generation == p.expectedGeneration
              && v in l.store && BindingMatches(l.store[v], h) then
        Perform(JournalDelete(v))
      else Blocked(GenerationConflict)
  }

  function JournalDecision(h: Hello, l: Local): Decision {
    if h.vault.None? then
      if ShowsClean(h) then CleanJournalDecision(h, l) else Finished
    else PendingDecision(h, l, h.vault.value.id)
  }

  function Decide(h: Hello, l: Local): Decision {
    var byIntent := IntentDecision(h, l);
    if byIntent.Some? then byIntent.value else JournalDecision(h, l)
  }

  /** Records are filed under their own Vault id. */
  predicate WellKeyed(l: Local) {
    && (forall v :: v in l.store ==> l.store[v].vault.id == v)
    && (forall v :: v in l.journal ==> l.journal[v].candidate.vault.id == v)
    && (forall d :: d in l.intents ==> l.intents[d].deviceId == d)
  }

  // ----- following the decisions to the end -----

  lemma PutOnce(h: Hello, l: Local)
    requires Decide(h, l).Perform? && Decide(h, l).write.StorePut?
    ensures !ShowsClean(h)
    ensures var next := Decide(h, Apply(l, Decide(h, l).write));
            !(next.Perform? && next.write.StorePut?)
  {
    PutsOnlyFromJournal(h, l);
  }

  lemma PutsOnlyFromJournal(h: Hello, l: Local)
    requires Decide(h, l).Perform? && Decide(h, l).write.StorePut?
    ensures !ShowsClean(h) && h.vault.Some? && h.deviceId !in l.intents
    ensures Decide(h, l) == PendingDecision(h, l, h.vault.value.id)
  {
    if h.deviceId in l.intents && ShowsClean(h) {
      CleanupNeverPuts(l.intents[h.deviceId].affected, l);
    }
  }

  lemma {:induction false} CleanupNeverPuts(affected: seq<Affected>, l: Local)
    ensures var next := CleanupNext(affected, l);
            next.None? || next == Some(Blocked(GenerationConflict))
            || (next.value.Perform? && next.value.write.StoreDelete? && next.value.write.vaultId in l.store)
            || (next.value.Perform? && next.value.write.JournalDelete? && next.value.write.vaultId in l.journal)
  {
    if affected != [] { CleanupNeverPuts(affected[1..], l); }
  }

  /** Every decided deletion is of a record that exists. */
  lemma DeletesExist(h: Hello, l: Local)
    requires Decide(h, l).Perform?
    ensures match Decide(h, l).write
            case StorePut(_) => true
            case StoreDelete(v) => v in l.store && ShowsClean(h)
            case JournalDelete(v) => v in l.journal
            case IntentDelete(d) => d in l.intents
  {
    if h.deviceId in l.intents && ShowsClean(h) {
      CleanupNeverPuts(l.intents[h.deviceId].affected, l);
    }
  }

  function PutsLeft(h: Hello, l: Local): nat {
    if ShowsClean(h) then |l.store|
    else if Decide(h, l).Perform? && Decide(h, l).write.StorePut? then 1 else 0
  }

  lemma DecisionsShrink(h: Hello, l: Local)
    requires Decide(h, l).Perform?
    ensures var m := Apply(l, Decide(h, l).write);
            || |m.intents| + |m.journal| < |l.intents| + |l.journal|
            || (|m.intents| + |m.journal| == |l.intents| + |l.journal| && PutsLeft(h, m) < PutsLeft(h, l))
  {
    DeletesExist(h, l);
    match Decide(h, l).write
    case StorePut(s) => PutOnce(h, l);
    case StoreDelete(v) => MapRemoveShrinks(l.store, v);
    case JournalDelete(v) => MapRemoveShrinks(l.journal, v);
    case IntentDelete(d) => MapRemoveShrinks(l.intents, d);
  }

  datatype Settled = Settled(local: Local, end: Decision)

  /** The records and the verdict once reconciliation with `h` has nothing left to write. */
  function Settle(h: Hello, l: Local): (r: Settled)
    ensures !r.end.Perform? && Decide(h, r.local) == r.end
    decreases |l.intents| + |l.journal|, PutsLeft(h, l)
  {
    var d := Decide(h, l);
    if d.Perform? then
      DecisionsShrink(h, l);
      Settle(h, Apply(l, d.write))
    else Settled(l, d)
  }

  /** The records after the first `k` durable changes, fewer if reconciliation ends earlier. */
  function AfterWrites(h: Hello, l: Local, k: nat): Local
    decreases k
  {
    if k == 0 || !Decide(h, l).Perform? then l
    else AfterWrites(h, Apply(l, Decide(h, l).write), k - 1)
  }

  /** A crash after any number of durable changes is invisible to the next reconciliation. */
  lemma {:induction false} CrashedReconciliationResumes(h: Hello, l: Local, k: nat)
    ensures Settle(h, AfterWrites(h, l, k)) == Settle(h, l)
    decreases k
  {
    if k != 0 && Decide(h, l).Perform? {
      CrashedReconciliationResumes(h, Apply(l, Decide(h, l).write), k - 1);
    }
  }

  /** Reconciliation never adds to the journal nor rewrites an entry. */
  lemma {:induction false} SettleOnlyDropsEntries(h: Hello, l: Local, v: VaultId)
    ensures var r := Settle(h, l).local;
            v in r.journal ==> v in l.journal && r.journal[v] == l.journal[v]
    decreases |l.intents| + |l.journal|, PutsLeft(h, l)
  {
    if Decide(h, l).Perform? {
      DecisionsShrink(h, l);
      SettleOnlyDropsEntries(h, Apply(l, Decide(h, l).write), v);
    }
  }

  /** With a Vault shown and no reset open, only the entry of that Vault is looked at. */
  lemma {:induction false} SettleLeavesOtherEntries(h: Hello, l: Local, v: VaultId)
    requires h.vault.Some? && h.vault.value.id != v && h.deviceId !in l.intents && v in l.journal
    ensures v in Settle(h, l).local.journal
    decreases |l.intents| + |l.journal|, PutsLeft(h, l)
  {
    if Decide(h, l).Perform? {
      DecisionsShrink(h, l);
      SettleLeavesOtherEntries(h, Apply(l, Decide(h, l).write), v);
    }
  }

  /** A clean Device without an open reset lets only journaled resets delete stored copies. */
  lemma {:induction false} CleanSettleDropsEntries(h: Hello, l: Local, v: VaultId)
    requires ShowsClean(h) && h.deviceId !in l.intents && v !in l.store
    ensures v !in Settle(h, l).local.store
    decreases |l.intents| + |l.journal|, PutsLeft(h, l)
  {
    if Decide(h, l).Perform? {
      DecisionsShrink(h, l);
      CleanSettleDropsEntries(h, Apply(l, Decide(h, l).write), v);
    }
  }

  lemma WriteKeepsKeys(h: Hello, l: Local, v: VaultId)
    requires WellKeyed(l) && Decide(h, l).Perform?
    ensures var m := Apply(l, Decide(h, l).write);
            && WellKeyed(m)
            && (v in m.store ==> v in l.store || v in l.journal)
            && (v in m.journal ==> v in l.journal)
  {
    if Decide(h, l).write.StorePut? { PutsOnlyFromJournal(h, l); }
  }

  /** A copy that reconciliation stores was journaled under the same Vault id. */
  lemma {:induction false} SettleStoresOnlyJournaled(h: Hello, l: Local, v: VaultId)
    requires WellKeyed(l)
    ensures var r := Settle(h, l).local;
            v in r.store ==> v in l.store || v in l.journal
    decreases |l.intents| + |l.journal|, PutsLeft(h, l)
  {
    if Decide(h, l).Perform? {
      DecisionsShrink(h, l);
      WriteKeepsKeys(h, l, v);
      SettleStoresOnlyJournaled(h, Apply(l, Decide(h, l).write), v);
    }
  }
}
