/**
 Many browsers, one Device. A browser that imported a Recovery Package holds the Vault but is
 not yet trusted; it becomes the Device's one writer by replacing the registration. A Device
 lives from one installation to the next clearing.
 */
module BrowserReplacement {
  import opened Vocabulary
  import opened BrowserState
  import C = CommitProtocol
  import opened CommitInvariant

  type BrowserId = nat

  /**
   A browser's copy of the Vault, its journaled candidate, the registration id named in the package
   it was imported from, if it was, and, for the record, the Device's life it is from.
   */
  datatype Browser = Browser(state: State, candidate: Option<Vault>, previousId: Option<nat>, life: nat)

  /** What an exported Recovery Package says, and, for the record, the life it is from. */
  datatype Package = Package(vault: Vault, previousId: nat, epoch: nat, life: nat)

  /** The serial line belongs to the browser that was last answered a `hello` on it. */
  datatype Line = Line(who: BrowserId, hello: Hello)

  /** `vaults` and `registrations` are all the Device has held in this life, in order. */
  datatype Fleet = Fleet(
    device: C.Device,
    line: Option<Line>,
    browsers: map<BrowserId, Browser>,
    packages: set<Package>,
    life: nat,
    vaults: seq<Vault>,
    registrations: seq<Registration>)

  // ----- the browser's decision -----

  datatype Verdict = NotPending | Unregistered | OtherGeneration | Confirmed | NotNext | MayReplace

  function Judge(s: State, h: Hello): Verdict {
    if s.status != ReplacementPending then NotPending
    else if h.vault.None? || h.registration.None? then Unregistered
    else if Show(s.vault) != h.vault.value then OtherGeneration
    else if s.deviceId == Some(h.deviceId) && s.registration == h.registration.value then Confirmed
    else if s.registration.epoch != h.registration.value.epoch + 1
            || s.registration.id == h.registration.value.id
            || s.registration.key == h.registration.value.key then NotNext
    else MayReplace
  }

  /** The Device's side: the session checks of a replacement, its unlock, and the new record. */
  predicate ReplaceServed(d: C.Device, s: State, e: C.Device) {
    && d.stored.Some? && d.shown == C.ShowStored(d) && d.registration.Some?
    && s.vault.id == d.stored.value.id && s.vault.generation == d.stored.value.generation
    && s.registration.epoch == d.registration.value.epoch + 1
    && s.registration.id != d.registration.value.id && s.registration.key != d.registration.value.key
    && e == d.(registration := Some(s.registration), runtime := Unlocked)
  }

  /** A browser writes only over a binding it sees on an unlocked Device. */
  predicate Writes(s: State, h: Hello) {
    s.status == Active && h.state == Unlocked && BindingMatches(s, h)
  }

  /** The Device lets this browser write, now or in the `hello` the browser still acts on. */
  predicate MayWrite(f: Fleet, i: BrowserId) {
    && i in f.browsers
    && (|| (C.HelloOf(f.device).Some? && Writes(f.browsers[i].state, C.HelloOf(f.device).value))
        || (f.line.Some? && f.line.value.who == i && Writes(f.browsers[i].state, f.line.value.hello)))
  }

  // ----- steps -----

  ghost predicate DriftStep(f: Fleet, x: Fleet) {
    C.Drifts(f.device, x.device) && x == f.(device := x.device)
  }

  ghost predicate LookStep(f: Fleet, x: Fleet, i: BrowserId) {
    && i in f.browsers && C.HelloOf(f.device).Some?
    && x == f.(line := Some(Line(i, C.HelloOf(f.device).value)))
  }

  ghost predicate ExportStep(f: Fleet, x: Fleet, i: BrowserId) {
    && i in f.browsers
    && var b := f.browsers[i];
    && b.state.status == Active && b.candidate.None?
    && x == f.(packages := f.packages + {Package(b.state.vault, b.state.registration.id, b.state.registration.epoch, b.life)})
  }

  /** Random ids and keys are new. */
  ghost predicate FreshIn(r: Registration, f: Fleet) {
    && (forall i :: i in f.browsers ==>
          && f.browsers[i].state.registration.id != r.id && f.browsers[i].state.registration.key != r.key
          && f.browsers[i].previousId != Some(r.id))
    && (forall p :: p in f.packages ==> p.previousId != r.id)
    && (forall q :: q in f.registrations ==> q.id != r.id && q.key != r.key)
  }

  /** A package made for another Device never gets past loading. */
  ghost predicate ImportStep(f: Fleet, x: Fleet, p: Package, i: BrowserId, s: State) {
    && p in f.packages && i !in f.browsers && s.vault == p.vault && s.registration.epoch == p.epoch + 1
    && s.status == ReplacementPending && s.deviceId == Some(f.device.id) && FreshIn(s.registration, f)
    && x == f.(browsers := f.browsers[i := Browser(s, None, Some(p.previousId), p.life)])
  }

  predicate Holding(f: Fleet, i: BrowserId) {
    i in f.browsers && f.line.Some? && f.line.value.who == i
  }

  /** The writer journals its next Vault. */
  ghost predicate JournalStep(f: Fleet, x: Fleet, i: BrowserId, v: Vault) {
    && Holding(f, i) && Writes(f.browsers[i].state, f.line.value.hello) && f.browsers[i].candidate.None?
    && v.generation == f.browsers[i].state.vault.generation + 1 && v.id == f.browsers[i].state.vault.id
    && x == f.(browsers := f.browsers[i := f.browsers[i].(candidate := Some(v))])
  }

  /** The journaled candidate is sent, as an update or a re-key; whatever the Device makes of it. */
  ghost predicate SendStep(f: Fleet, x: Fleet, i: BrowserId) {
    && Holding(f, i) && Writes(f.browsers[i].state, f.line.value.hello) && f.browsers[i].candidate.Some?
    && var g, v := f.browsers[i].state.vault.generation, f.browsers[i].candidate.value;
    && (|| C.Serves(f.device, C.Update(g, v), x.device) || C.UpdateUnread(f.device, C.Update(g, v), x.device)
        || C.Serves(f.device, C.Rekey(g, v), x.device) || C.Drifts(f.device, x.device) || x.device == f.device)
    && x == f.(device := x.device, line := None,
               vaults := if x.device.stored == f.device.stored then f.vaults else f.vaults + [v])
  }

  /** Reconciliation: the journaled candidate is promoted or dropped, or there is a conflict. */
  ghost predicate SettleStep(f: Fleet, x: Fleet, i: BrowserId) {
    && Holding(f, i) && f.browsers[i].candidate.Some?
    && var b, h := f.browsers[i], f.line.value.hello;
    && var promoted := b.state.(vault := b.candidate.value);
    && (BindingMatches(promoted, h) || BindingMatches(b.state, h))
    && x == f.(browsers := f.browsers[i := b.(state := if BindingMatches(promoted, h) then promoted else b.state, candidate := None)])
  }

  ghost predicate ReplaceStep(f: Fleet, x: Fleet, i: BrowserId) {
    && Holding(f, i) && Judge(f.browsers[i].state, f.line.value.hello) == MayReplace
    && ReplaceServed(f.device, f.browsers[i].state, x.device)
    && x == f.(device := x.device, line := None, registrations := f.registrations + [f.browsers[i].state.registration])
  }

  ghost predicate ActivateStep(f: Fleet, x: Fleet, i: BrowserId) {
    && Holding(f, i) && f.browsers[i].state.status == ReplacementPending
    && BindingMatches(f.browsers[i].state, f.line.value.hello)
    && x == f.(browsers := f.browsers[i := f.browsers[i].(state := f.browsers[i].state.(status := Active))])
  }

  /** A confirmed reset of either kind ends the Device's life; some browsers clean up after it. */
  ghost predicate ClearStep(f: Fleet, x: Fleet, gone: set<BrowserId>) {
    x == f.(device := Cleared(f.device), line := None, browsers := f.browsers - gone, vaults := [], registrations := [])
  }

  function Cleared(d: C.Device): C.Device {
    d.(stored := None, registration := None, shown := None, runtime := Unprovisioned, resetAllowed := false, install := None)
  }

  /** A new life: a first installation, or the recovery of one browser's pending copy. */
  ghost predicate InstallStep(f: Fleet, x: Fleet, i: BrowserId, s: State) {
    && f.device.stored.None? && f.device.registration.None? && f.vaults == []
    && s.status == Active && s.deviceId == Some(f.device.id) && s.registration.epoch == 1 && FreshIn(s.registration, f)
    && (if i in f.browsers then f.browsers[i].state.status == ReplacementPending && s.vault == f.browsers[i].state.vault
        else s.vault.generation == 1)
    && x == f.(device := C.WithVault(f.device, s.vault).(registration := Some(s.registration), runtime := Unlocked,
                                                         resetAllowed := false, install := None),
               line := None, browsers := f.browsers[i := Browser(s, None, None, f.life + 1)], life := f.life + 1,
               vaults := [s.vault], registrations := [s.registration])
  }

  ghost predicate Acts(f: Fleet, x: Fleet, i: BrowserId) {
    || LookStep(f, x, i) || ExportStep(f, x, i) || SettleStep(f, x, i) || ReplaceStep(f, x, i) || ActivateStep(f, x, i)
    || SendStep(f, x, i) || (exists v :: JournalStep(f, x, i, v))
    || (exists p, s :: ImportStep(f, x, p, i, s))
    || (exists s :: InstallStep(f, x, i, s))
  }

  ghost predicate Next(f: Fleet, x: Fleet) {
    DriftStep(f, x) || (exists gone :: ClearStep(f, x, gone)) || (exists i :: Acts(f, x, i))
  }

  ghost predicate Moves(run: seq<Fleet>) {
    run != [] && forall k :: 0 < k < |run| ==> Next(run[k - 1], run[k])
  }

  /** Every replacement is of a package that names the Device's current registration. */
  ghost predicate PreviousIsCurrent(run: seq<Fleet>) {
    forall k :: 0 < k < |run| ==> ReplacesCurrent(run[k - 1], run[k])
  }

  ghost predicate ReplacesCurrent(f: Fleet, x: Fleet) {
    forall i :: ReplaceStep(f, x, i) ==> f.browsers[i].previousId == Some(f.device.registration.value.id)
  }

  /** Every replacement the Device records is of a package at most `age` lives old. */
  ghost predicate PackagesWithin(run: seq<Fleet>, age: nat) {
    forall k :: 0 < k < |run| ==> ReplacesWithin(run[k - 1], run[k], age)
  }

  ghost predicate ReplacesWithin(f: Fleet, x: Fleet, age: nat) {
    forall i :: ReplaceStep(f, x, i) ==> f.life <= f.browsers[i].life + age
  }

  /** Right after a first installation: one trusted browser in step with its Device. */
  ghost predicate Start(f: Fleet) {
    && DeviceSound(f.device) && f.packages == {} && f.line.None?
    && f.browsers.Keys == {0} && f.browsers[0].candidate.None? && f.browsers[0].previousId.None? && f.browsers[0].life == f.life
    && Holds(f.browsers[0].state, f.device)
    && f.vaults == [f.browsers[0].state.vault] && f.registrations == [f.browsers[0].state.registration]
  }

  // ----- the invariant -----

  /** What may be shown: what is stored, or, after an update that was not read back, an earlier one. */
  predicate ShowsNoLater(shown: Option<ShownVault>, stored: Option<Vault>) {
    shown.Some? ==>
      && stored.Some? && shown.value.id == stored.value.id
      && (shown.value == Show(stored.value) || shown.value.generation < stored.value.generation)
  }

  predicate DeviceSound(d: C.Device) {
    && d.install.None? && ShowsNoLater(d.shown, d.stored)
    && (d.runtime in {Locked, Unlocked} ==> d.stored.Some? && d.shown == C.ShowStored(d))
    && (d.runtime in {Unprovisioned, ReprovisionRequired} ==> d.stored.None?)
  }

  predicate Believable(h: Hello, d: C.Device) {
    && h.deviceId == d.id && h.registration == d.registration && ShowsNoLater(h.vault, d.stored)
    && (h.state in {Locked, Unlocked} ==> h.vault == C.ShowStored(d))
  }

  /** What holds whatever is imported: a working Device is truthful, and so is a `hello` in use. */
  ghost predicate LineOk(f: Fleet) {
    && DeviceSound(f.device)
    && (f.line.Some? ==> Believable(f.line.value.hello, f.device))
    && (forall i :: i in f.browsers ==> f.browsers[i].state.deviceId == Some(f.device.id))
  }

  /** Generations and epochs count up along a life, and the Device holds the last of each. */
  ghost predicate LifeOk(f: Fleet) {
    if f.vaults == [] then f.registrations == [] && f.device.stored.None? && f.device.registration.None?
    else
      && f.registrations != []
      && f.device.stored == Some(f.vaults[|f.vaults| - 1])
      && f.device.registration == Some(f.registrations[|f.registrations| - 1])
      && (forall k :: 0 <= k < |f.vaults| ==>
            f.vaults[k].generation == f.vaults[0].generation + k && f.vaults[k].id == f.vaults[0].id)
      && (forall k :: 0 <= k < |f.registrations| ==> f.registrations[k].epoch == f.registrations[0].epoch + k)
  }

  ghost predicate ApartFrom(r: Registration, line: seq<Registration>) {
    forall q :: q in line ==> q.id != r.id && q.key != r.key
  }

  /** The package's registration is one of this life's, with the epoch the package says. */
  ghost predicate NamesOneOf(id: nat, epoch: nat, line: seq<Registration>) {
    exists q :: q in line && q.id == id && q.epoch == epoch
  }

  ghost predicate NamesNoneOf(id: nat, line: seq<Registration>) {
    forall q :: q in line ==> q.id != id
  }

  /** A copy from the Device's present life. */
  ghost predicate PresentCopyOk(b: Browser, f: Fleet)
    requires f.device.registration.Some?
  {
    var s, d := b.state, f.device;
    && s.vault in f.vaults && s.registration.epoch <= d.registration.value.epoch + 1
    && (s.status == Active ==> s.registration in f.registrations)
    && (s.registration in f.registrations || ApartFrom(s.registration, f.registrations))
    && (s.status == ReplacementPending ==>
          b.previousId.Some? && s.registration.epoch > 0
          && NamesOneOf(b.previousId.value, s.registration.epoch - 1, f.registrations))
    && (d.registration == Some(s.registration) && s.status == ReplacementPending ==> d.stored == Some(s.vault))
    && (d.registration == Some(s.registration) && b.candidate.Some? ==> d.stored == Some(s.vault) || d.stored == b.candidate)
  }

  ghost predicate EarlierCopyOk(b: Browser, f: Fleet) {
    && ApartFrom(b.state.registration, f.registrations)
    && (b.previousId.Some? ==> NamesNoneOf(b.previousId.value, f.registrations))
  }

  ghost predicate BrowserOk(b: Browser, f: Fleet)
    requires LifeOk(f)
  {
    && b.life <= f.life
    && (b.candidate.Some? ==> b.state.status == Active && b.candidate.value.generation == b.state.vault.generation + 1)
    && (f.vaults != [] ==> if b.life == f.life then PresentCopyOk(b, f) else EarlierCopyOk(b, f))
  }

  ghost predicate PackageOk(p: Package, f: Fleet)
    requires LifeOk(f)
  {
    && p.life <= f.life
    && (f.vaults != [] ==>
          if p.life == f.life then p.vault in f.vaults && NamesOneOf(p.previousId, p.epoch, f.registrations)
          else NamesNoneOf(p.previousId, f.registrations))
  }

  /** Whoever names a browser's registration is from the same life. */
  ghost predicate NamesKeepLife(f: Fleet) {
    && (forall i, j :: i in f.browsers && j in f.browsers && f.browsers[i].previousId == Some(f.browsers[j].state.registration.id) ==>
          f.browsers[i].life == f.browsers[j].life)
    && (forall p, j :: p in f.packages && j in f.browsers && p.previousId == f.browsers[j].state.registration.id ==>
          p.life == f.browsers[j].life)
  }

  ghost predicate Apart(bs: map<BrowserId, Browser>) {
    forall i, j :: i in bs && j in bs && i != j ==>
      bs[i].state.registration.id != bs[j].state.registration.id
      && bs[i].state.registration.key != bs[j].state.registration.key
  }

  ghost predicate FleetInv(f: Fleet) {
    && LineOk(f) && LifeOk(f) && Apart(f.browsers) && NamesKeepLife(f)
    && (forall i :: i in f.browsers ==> BrowserOk(f.browsers[i], f))
    && (forall p :: p in f.packages ==> PackageOk(p, f))
  }

  /** Along one life, a generation names one Vault. */
  lemma GenerationNamesOneVault(f: Fleet, v: Vault)
    requires LifeOk(f) && v in f.vaults && v.generation == f.device.stored.value.generation
    ensures f.device.stored == Some(v)
  {
  }

  lemma EpochsStayBelow(f: Fleet, r: Registration)
    requires LifeOk(f) && r in f.registrations
    ensures r.epoch <= f.device.registration.value.epoch
    ensures r.epoch == f.device.registration.value.epoch ==> f.device.registration == Some(r)
  {
  }

  /** The browser the Device is registered to is of this life, and up to date where it may write. */
  lemma RegisteredIsPresent(f: Fleet, i: BrowserId, h: Hello)
    requires FleetInv(f) && i in f.browsers && Believable(h, f.device) && BindingMatches(f.browsers[i].state, h)
    ensures f.vaults != [] && f.device.registration == Some(f.browsers[i].state.registration)
    ensures f.browsers[i].life == f.life
    ensures h.state == Unlocked ==> f.device.stored == Some(f.browsers[i].state.vault)
  {
    assert BrowserOk(f.browsers[i], f);
    assert f.registrations[|f.registrations| - 1] in f.registrations;
  }

  // ----- preservation -----

  lemma LineStaysOk(f: Fleet, x: Fleet)
    requires LineOk(f) && Next(f, x)
    ensures LineOk(x)
  {
    if !DriftStep(f, x) && !(exists gone :: ClearStep(f, x, gone)) {
      var i :| Acts(f, x, i);
      ActingKeepsLine(f, x, i);
    }
  }

  lemma ActingKeepsLine(f: Fleet, x: Fleet, i: BrowserId)
    requires LineOk(f) && Acts(f, x, i)
    ensures LineOk(x)
  {
    hide SendStep, InstallStep;
    if SendStep(f, x, i) {
      SendKeepsLine(f, x, i);
    } else if s :| InstallStep(f, x, i, s) {
      InstallKeepsLine(f, x, i, s);
    }
  }

  lemma SendKeepsLine(f: Fleet, x: Fleet, i: BrowserId)
    requires LineOk(f) && SendStep(f, x, i)
    ensures LineOk(x)
  {
  }

  lemma InstallKeepsLine(f: Fleet, x: Fleet, i: BrowserId, s: State)
    requires LineOk(f) && InstallStep(f, x, i, s)
    ensures LineOk(x)
  {
  }

  lemma DriftKeepsFleetInv(f: Fleet, x: Fleet)
    requires FleetInv(f) && DriftStep(f, x)
    ensures FleetInv(x)
  {
    SameLifeKeepsInv(f, x);
  }

  /** Nothing the records look at has moved. */
  lemma SameLifeKeepsInv(f: Fleet, x: Fleet)
    requires FleetInv(f) && LineOk(x)
    requires x.device.stored == f.device.stored && x.device.registration == f.device.registration
    requires x.vaults == f.vaults && x.registrations == f.registrations && x.life == f.life
    requires x.browsers == f.browsers && x.packages == f.packages
    ensures FleetInv(x)
  {
    assert LifeOk(x);
    forall i | i in x.browsers ensures BrowserOk(x.browsers[i], x) { assert BrowserOk(f.browsers[i], f); }
    forall p | p in x.packages ensures PackageOk(p, x) { assert PackageOk(p, f); }
  }

  lemma ExportKeepsFleetInv(f: Fleet, x: Fleet, i: BrowserId)
    requires FleetInv(f) && ExportStep(f, x, i)
    ensures FleetInv(x)
  {
    var s := f.browsers[i].state;
    assert BrowserOk(f.browsers[i], f);
    if s.registration in f.registrations { EpochsStayBelow(f, s.registration); }
    forall j | j in x.browsers ensures BrowserOk(x.browsers[j], x) { assert BrowserOk(f.browsers[j], f); }
    forall p | p in x.packages ensures PackageOk(p, x) {
      if p in f.packages { assert PackageOk(p, f); }
    }
  }

  lemma ImportKeepsFleetInv(f: Fleet, x: Fleet, p: Package, i: BrowserId, s: State)
    requires FleetInv(f) && ImportStep(f, x, p, i, s)
    ensures FleetInv(x)
  {
    hide DeviceSound, Believable;
    assert PackageOk(p, f);
    forall j | j in x.browsers ensures BrowserOk(x.browsers[j], x) {
      if j != i { assert BrowserOk(f.browsers[j], f); }
    }
    forall q | q in x.packages ensures PackageOk(q, x) { assert PackageOk(q, f); }
  }

  /** One browser's copy has changed, and is still what its registration makes it. */
  lemma OneCopyKeepsInv(f: Fleet, x: Fleet, i: BrowserId)
    requires FleetInv(f) && i in f.browsers && i in x.browsers && x == f.(browsers := f.browsers[i := x.browsers[i]])
    requires var b, c := f.browsers[i], x.browsers[i];
             && c.state.registration == b.state.registration && c.state.deviceId == b.state.deviceId
             && c.previousId == b.previousId && c.life == b.life && BrowserOk(c, f)
    ensures FleetInv(x)
  {
    hide DeviceSound, Believable;
    assert LifeOk(x);
    forall j | j in x.browsers ensures BrowserOk(x.browsers[j], x) {
      if j != i { assert BrowserOk(f.browsers[j], f); } else { assert BrowserOk(x.browsers[i], f); }
    }
    forall p | p in x.packages ensures PackageOk(p, x) { assert PackageOk(p, f); }
  }

  lemma JournalKeepsFleetInv(f: Fleet, x: Fleet, i: BrowserId, v: Vault)
    requires FleetInv(f) && JournalStep(f, x, i, v)
    ensures FleetInv(x)
  {
    RegisteredIsPresent(f, i, f.line.value.hello);
    hide DeviceSound, Believable, Apart, NamesKeepLife, LifeOk;
    assert BrowserOk(f.browsers[i], f);
    assert BrowserOk(x.browsers[i], f);
    OneCopyKeepsInv(f, x, i);
  }

  lemma SendMovesDevice(f: Fleet, x: Fleet, i: BrowserId)
    requires FleetInv(f) && SendStep(f, x, i)
    ensures f.vaults != [] && f.browsers[i].life == f.life
    ensures f.device.registration == Some(f.browsers[i].state.registration)
    ensures f.device.stored == Some(f.browsers[i].state.vault)
    ensures LineOk(x) && LifeOk(x) && x.vaults != [] && x.device.registration == f.device.registration
    ensures x.device.stored == f.device.stored || x.device.stored == f.browsers[i].candidate
    ensures forall u :: u in f.vaults ==> u in x.vaults
  {
    RegisteredIsPresent(f, i, f.line.value.hello);
    assert BrowserOk(f.browsers[i], f);
    SendKeepsLine(f, x, i);
  }

  lemma SendKeepsFleetInv(f: Fleet, x: Fleet, i: BrowserId)
    requires FleetInv(f) && SendStep(f, x, i)
    ensures FleetInv(x)
  {
    SendMovesDevice(f, x, i);
    hide C.Serves, C.Drifts, C.UpdateUnread, DeviceSound, LineOk;
    assert BrowserOk(f.browsers[i], f);
    forall j | j in x.browsers ensures BrowserOk(x.browsers[j], x) {
      assert BrowserOk(f.browsers[j], f);
    }
    forall p | p in x.packages ensures PackageOk(p, x) { assert PackageOk(p, f); }
  }

  /** What reconciliation makes of the journaled candidate is still from the Device's line of Vaults. */
  lemma SettledCopyIsOk(f: Fleet, x: Fleet, i: BrowserId)
    requires FleetInv(f) && SettleStep(f, x, i)
    ensures BrowserOk(x.browsers[i], f)
  {
    hide DeviceSound, NamesKeepLife, Apart, C.HelloOf;
    RegisteredSettles(f, i);
    assert BrowserOk(f.browsers[i], f);
  }

  lemma RegisteredSettles(f: Fleet, i: BrowserId)
    requires FleetInv(f) && Holding(f, i) && f.browsers[i].candidate.Some?
    requires var b, h := f.browsers[i], f.line.value.hello;
             BindingMatches(b.state.(vault := b.candidate.value), h) || BindingMatches(b.state, h)
    ensures f.vaults != [] && f.browsers[i].life == f.life
    ensures var b, h := f.browsers[i], f.line.value.hello;
            BindingMatches(b.state.(vault := b.candidate.value), h) ==> b.candidate.value in f.vaults
  {
    var b, h := f.browsers[i], f.line.value.hello;
    assert BrowserOk(b, f);
    assert f.device.registration == Some(b.state.registration);
    assert f.registrations[|f.registrations| - 1] in f.registrations && f.vaults[|f.vaults| - 1] in f.vaults;
  }

  lemma SettleKeepsFleetInv(f: Fleet, x: Fleet, i: BrowserId)
    requires FleetInv(f) && SettleStep(f, x, i)
    ensures FleetInv(x)
  {
    SettledCopyIsOk(f, x, i);
    hide DeviceSound, Believable, Apart, NamesKeepLife, BrowserOk;
    OneCopyKeepsInv(f, x, i);
  }

  lemma ReplaceKeepsFleetInv(f: Fleet, x: Fleet, i: BrowserId)
    requires FleetInv(f) && ReplaceStep(f, x, i) && f.life <= f.browsers[i].life
    ensures FleetInv(x)
  {
    var s := f.browsers[i].state;
    assert BrowserOk(f.browsers[i], f);
    GenerationNamesOneVault(f, s.vault);
    if s.registration in f.registrations { EpochsStayBelow(f, s.registration); }
    assert LifeOk(x);
    forall j | j in x.browsers ensures BrowserOk(x.browsers[j], x) {
      assert BrowserOk(f.browsers[j], f);
    }
    forall p | p in x.packages ensures PackageOk(p, x) { assert PackageOk(p, f); }
  }

  lemma ActivateKeepsFleetInv(f: Fleet, x: Fleet, i: BrowserId)
    requires FleetInv(f) && ActivateStep(f, x, i)
    ensures FleetInv(x)
  {
    RegisteredIsPresent(f, i, f.line.value.hello);
    assert f.registrations[|f.registrations| - 1] in f.registrations;
    hide DeviceSound, Believable, Apart, NamesKeepLife;
    assert BrowserOk(f.browsers[i], f);
    assert BrowserOk(x.browsers[i], f);
    OneCopyKeepsInv(f, x, i);
  }

  lemma ClearKeepsFleetInv(f: Fleet, x: Fleet, gone: set<BrowserId>)
    requires FleetInv(f) && ClearStep(f, x, gone)
    ensures FleetInv(x)
  {
    forall j | j in x.browsers ensures BrowserOk(x.browsers[j], x) { assert BrowserOk(f.browsers[j], f); }
    forall p | p in x.packages ensures PackageOk(p, x) { assert PackageOk(p, f); }
  }

  lemma InstallKeepsFleetInv(f: Fleet, x: Fleet, i: BrowserId, s: State)
    requires FleetInv(f) && InstallStep(f, x, i, s)
    ensures FleetInv(x)
  {
    assert x.vaults == [s.vault] && x.registrations == [s.registration];
    assert LifeOk(x);
    forall j | j in x.browsers ensures BrowserOk(x.browsers[j], x) {
      if j != i { assert BrowserOk(f.browsers[j], f); }
    }
    forall p | p in x.packages ensures PackageOk(p, x) { assert PackageOk(p, f); }
  }

  lemma ActingKeepsFleetInv(f: Fleet, x: Fleet, i: BrowserId)
    requires FleetInv(f) && Acts(f, x, i) && (ReplaceStep(f, x, i) ==> f.life <= f.browsers[i].life)
    ensures FleetInv(x)
  {
    hide FleetInv;
    if LookStep(f, x, i) { LookKeepsFleetInv(f, x, i); }
    else if ExportStep(f, x, i) { ExportKeepsFleetInv(f, x, i); }
    else if SettleStep(f, x, i) { SettleKeepsFleetInv(f, x, i); }
    else if ReplaceStep(f, x, i) { ReplaceKeepsFleetInv(f, x, i); }
    else if ActivateStep(f, x, i) { ActivateKeepsFleetInv(f, x, i); }
    else if SendStep(f, x, i) { SendKeepsFleetInv(f, x, i); }
    else if v :| JournalStep(f, x, i, v) { JournalKeepsFleetInv(f, x, i, v); }
    else if p, s :| ImportStep(f, x, p, i, s) { ImportKeepsFleetInv(f, x, p, i, s); }
    else {
      var s :| InstallStep(f, x, i, s);
      InstallKeepsFleetInv(f, x, i, s);
    }
  }

  lemma LookKeepsFleetInv(f: Fleet, x: Fleet, i: BrowserId)
    requires FleetInv(f) && LookStep(f, x, i)
    ensures FleetInv(x)
  {
    SameLifeKeepsInv(f, x);
  }

  lemma StepKeepsFleetInv(f: Fleet, x: Fleet)
    requires FleetInv(f) && Next(f, x)
    requires ReplacesWithin(f, x, 0)
    ensures FleetInv(x)
  {
    hide FleetInv;
    if DriftStep(f, x) {
      DriftKeepsFleetInv(f, x);
    } else if gone :| ClearStep(f, x, gone) {
      ClearKeepsFleetInv(f, x, gone);
    } else {
      var i :| Acts(f, x, i);
      ActingKeepsFleetInv(f, x, i);
    }
  }

  lemma {:induction false} EveryReachedFleetHasInv(run: seq<Fleet>, k: nat)
    requires Moves(run) && PackagesWithin(run, 0) && FleetInv(run[0]) && k < |run|
    ensures FleetInv(run[k])
  {
    hide FleetInv;
    if k > 0 {
      EveryReachedFleetHasInv(run, k - 1);
      StepKeepsFleetInv(run[k - 1], run[k]);
    }
  }

  lemma StartHasFleetInv(f: Fleet)
    requires Start(f)
    ensures FleetInv(f)
  {
    assert f.browsers[0].state.registration in f.registrations;
  }

  lemma {:induction false} EveryLineIsOk(run: seq<Fleet>, k: nat)
    requires Moves(run) && LineOk(run[0]) && k < |run|
    ensures LineOk(run[k])
  {
    if k > 0 {
      EveryLineIsOk(run, k - 1);
      LineStaysOk(run[k - 1], run[k]);
    }
  }

  // ----- what it means -----

  /**
   Browsers import packages, replace each other, lose replies, clear the Device and install it
   again. As long as replacements are of packages from the Device's present life, at any time at
   most one browser may write, and that one holds exactly the Vault the Device holds.
   */
  lemma SingleWriterIsUpToDate(run: seq<Fleet>, k: nat, i: BrowserId, j: BrowserId)
    requires Moves(run) && PackagesWithin(run, 0) && Start(run[0]) && k < |run|
    requires MayWrite(run[k], i)
    ensures run[k].device.stored == Some(run[k].browsers[i].state.vault)
    ensures MayWrite(run[k], j) ==> i == j
  {
    hide Moves;
    StartHasFleetInv(run[0]);
    EveryReachedFleetHasInv(run, k);
    WriterIsRegistered(run[k], i);
    if MayWrite(run[k], j) { WriterIsRegistered(run[k], j); }
  }

  lemma WriterIsRegistered(f: Fleet, i: BrowserId)
    requires FleetInv(f) && MayWrite(f, i)
    ensures f.device.registration == Some(f.browsers[i].state.registration)
    ensures f.device.stored == Some(f.browsers[i].state.vault)
  {
    if C.HelloOf(f.device).Some? && Writes(f.browsers[i].state, C.HelloOf(f.device).value) {
      assert Believable(C.HelloOf(f.device).value, f.device);
      RegisteredIsPresent(f, i, C.HelloOf(f.device).value);
    } else {
      RegisteredIsPresent(f, i, f.line.value.hello);
    }
  }

  /** What a pending replacement needs in order to be completed, now or later in this life. */
  predicate Open(d: C.Device, s: State) {
    || d.registration == Some(s.registration)
    || (d.registration.Some? && d.registration.value.epoch + 1 == s.registration.epoch && d.stored == Some(s.vault))
  }

  ghost predicate Pending(f: Fleet, i: BrowserId) {
    i in f.browsers && f.browsers[i].state.status == ReplacementPending
  }

  /** What an idle, working Device looks like after a power cycle. */
  function Rebooted(d: C.Device): C.Device {
    d.(shown := C.ShowStored(d), runtime := if d.stored.Some? then Locked else Unprovisioned, resetAllowed := false, install := None)
  }

  /** A browser completes its replacement: unlock, look, replace if that is left to do, look, activate. */
  lemma CompletionRun(f: Fleet, i: BrowserId) returns (run: seq<Fleet>)
    requires LineOk(f) && Pending(f, i) && f.device.stored.Some? && f.device.registration.Some?
    requires var s := f.browsers[i].state;
             && Show(s.vault) == Show(f.device.stored.value)
             && (f.device.registration == Some(s.registration)
                 || (s.registration.epoch == f.device.registration.value.epoch + 1
                     && s.registration.id != f.device.registration.value.id
                     && s.registration.key != f.device.registration.value.key))
    ensures Moves(run) && run[0] == f
    ensures var x := run[|run| - 1];
            && MayWrite(x, i) && x.device.stored == f.device.stored && x.life == f.life
            && x.browsers == f.browsers[i := f.browsers[i].(state := f.browsers[i].state.(status := Active))]
    ensures forall age: nat :: f.life <= f.browsers[i].life + age ==> PackagesWithin(run, age)
  {
    var s := f.browsers[i].state;
    var g := f.(device := Rebooted(f.device));
    assert C.Reboots(f.device, g.device);
    var u := g.(device := g.device.(runtime := Unlocked));
    assert C.Settles(g.device, u.device);
    var h := u.(line := Some(Line(i, C.HelloOf(u.device).value)));
    assert LookStep(u, h, i) && Acts(u, h, i);
    run := [f, g, u, h];
    if f.device.registration != Some(s.registration) {
      var d := h.device.(registration := Some(s.registration), runtime := Unlocked);
      assert ReplaceServed(h.device, s, d);
      var e := h.(device := d, line := None, registrations := f.registrations + [s.registration]);
      assert ReplaceStep(h, e, i) && Acts(h, e, i);
      h := e.(line := Some(Line(i, C.HelloOf(d).value)));
      assert LookStep(e, h, i) && Acts(e, h, i);
      run := run + [e, h];
    }
    var x := h.(browsers := h.browsers[i := h.browsers[i].(state := s.(status := Active))]);
    assert ActivateStep(h, x, i) && Acts(h, x, i);
    run := run + [x];
  }

  /** An open replacement can be completed by a power cycle and this browser alone. */
  lemma OpenReplacementCompletes(f: Fleet, i: BrowserId) returns (run: seq<Fleet>)
    requires FleetInv(f) && Pending(f, i) && f.browsers[i].life == f.life && Open(f.device, f.browsers[i].state)
    ensures Moves(run) && PackagesWithin(run, 0) && run[0] == f
    ensures var x := run[|run| - 1];
            MayWrite(x, i) && x.browsers[i].state == f.browsers[i].state.(status := Active)
  {
    var s := f.browsers[i].state;
    assert BrowserOk(f.browsers[i], f);
    if s.registration in f.registrations { EpochsStayBelow(f, s.registration); }
    assert f.registrations[|f.registrations| - 1] in f.registrations;
    run := CompletionRun(f, i);
  }

  lemma ClosedSurvivesBrowser(f: Fleet, x: Fleet, i: BrowserId, j: BrowserId)
    requires FleetInv(f) && Acts(f, x, j) && x.life == f.life
    requires Pending(f, i) && f.browsers[i].life == f.life && !Open(f.device, f.browsers[i].state)
    requires ReplaceStep(f, x, j) ==> f.life <= f.browsers[j].life
    ensures Pending(x, i) && x.browsers[i] == f.browsers[i] && !Open(x.device, x.browsers[i].state)
  {
    hide C.HelloOf, C.Drifts, DeviceSound;
    assert BrowserOk(f.browsers[i], f);
    if ReplaceStep(f, x, j) {
      assert BrowserOk(f.browsers[j], f);
      GenerationNamesOneVault(f, f.browsers[j].state.vault);
    } else if ActivateStep(f, x, j) || SettleStep(f, x, j) {
      assert BrowserOk(f.browsers[j], f);
    } else if SendStep(f, x, j) {
      SendMovesDevice(f, x, j);
    }
  }

  lemma ClosedStaysClosed(f: Fleet, x: Fleet, i: BrowserId)
    requires FleetInv(f) && Next(f, x) && x.life == f.life
    requires ReplacesWithin(f, x, 0)
    requires Pending(f, i) && f.browsers[i].life == f.life && !Open(f.device, f.browsers[i].state)
    ensures i in x.browsers ==> Pending(x, i) && x.browsers[i] == f.browsers[i] && !Open(x.device, x.browsers[i].state)
  {
    hide FleetInv;
    if !DriftStep(f, x) && !(exists gone :: ClearStep(f, x, gone)) {
      var j :| Acts(f, x, j);
      ClosedSurvivesBrowser(f, x, i, j);
    }
  }

  /**
   A replacement whose epoch went to another browser, or whose Vault was outrun, is over for
   this life of the Device.
   */
  lemma {:induction false} ClosedReplacementStaysPending(run: seq<Fleet>, i: BrowserId, k: nat)
    requires Moves(run) && PackagesWithin(run, 0) && FleetInv(run[0])
    requires Pending(run[0], i) && run[0].browsers[i].life == run[0].life && !Open(run[0].device, run[0].browsers[i].state)
    requires k < |run| && (forall m :: 0 <= m <= k ==> run[m].life == run[0].life && i in run[m].browsers)
    ensures Pending(run[k], i) && run[k].browsers[i] == run[0].browsers[i]
    ensures !Open(run[k].device, run[k].browsers[i].state)
  {
    hide FleetInv;
    if k > 0 {
      ClosedReplacementStaysPending(run, i, k - 1);
      EveryReachedFleetHasInv(run, k - 1);
      ClosedStaysClosed(run[k - 1], run[k], i);
    }
  }

  // ----- telling packages of the present life -----

  /** Where a replacement could be recorded, its package is of this life exactly if it names the Device's registration. */
  lemma PresentLifeIffPreviousIsCurrent(f: Fleet, i: BrowserId)
    requires FleetInv(f) && f.vaults != [] && Pending(f, i) && f.browsers[i].previousId.Some?
    requires f.browsers[i].state.registration.epoch == f.device.registration.value.epoch + 1
    ensures f.browsers[i].life == f.life <==> f.browsers[i].previousId == Some(f.device.registration.value.id)
  {
    assert BrowserOk(f.browsers[i], f);
    assert f.registrations[|f.registrations| - 1] in f.registrations;
    if f.browsers[i].life == f.life {
      var q :| q in f.registrations && q.id == f.browsers[i].previousId.value && q.epoch == f.browsers[i].state.registration.epoch - 1;
      EpochsStayBelow(f, q);
    }
  }

  /** A pending copy comes from a package. */
  ghost predicate PendingIsImported(f: Fleet) {
    forall i :: Pending(f, i) ==> f.browsers[i].previousId.Some?
  }

  lemma {:induction false} PendingStaysImported(run: seq<Fleet>, k: nat)
    requires Moves(run) && PendingIsImported(run[0]) && k < |run|
    ensures PendingIsImported(run[k])
  {
    if k > 0 {
      PendingStaysImported(run, k - 1);
      assert Next(run[k - 1], run[k]);
    }
  }

  lemma StepWithinIffCurrent(f: Fleet, x: Fleet)
    requires FleetInv(f) && PendingIsImported(f)
    ensures ReplacesWithin(f, x, 0) <==> ReplacesCurrent(f, x)
  {
    forall i | ReplaceStep(f, x, i)
      ensures f.life <= f.browsers[i].life <==> f.browsers[i].previousId == Some(f.device.registration.value.id)
    {
      assert BrowserOk(f.browsers[i], f);
      assert Pending(f, i);
      PresentLifeIffPreviousIsCurrent(f, i);
    }
  }

  /**
   The condition can be checked before the request: a run accepts no package from an earlier life
   exactly if every replacement is of a package that names the Device's current registration.
   */
  lemma PackagesArePresentIffTheyNameTheRegistration(run: seq<Fleet>)
    requires Moves(run) && Start(run[0])
    ensures PackagesWithin(run, 0) <==> PreviousIsCurrent(run)
  {
    hide Moves, Start, ReplacesWithin, ReplacesCurrent;
    if PackagesWithin(run, 0) || PreviousIsCurrent(run) {
      forall k: nat | 0 < k < |run| ensures ReplacesWithin(run[k - 1], run[k], 0) && ReplacesCurrent(run[k - 1], run[k]) {
        CheckedStep(run, k);
      }
    }
  }

  lemma {:induction false} CheckedStep(run: seq<Fleet>, k: nat)
    requires Moves(run) && Start(run[0]) && 0 < k < |run| && (PackagesWithin(run, 0) || PreviousIsCurrent(run))
    ensures FleetInv(run[k - 1])
    ensures ReplacesWithin(run[k - 1], run[k], 0) && ReplacesCurrent(run[k - 1], run[k])
  {
    hide FleetInv, ReplacesWithin, ReplacesCurrent, Start;
    if k == 1 {
      StartHasFleetInv(run[0]);
    } else {
      CheckedStep(run, k - 1);
      StepKeepsFleetInv(run[k - 2], run[k - 1]);
    }
    StartIsImported(run[0]);
    PendingStaysImported(run, k - 1);
    StepWithinIffCurrent(run[k - 1], run[k]);
  }

  lemma StartIsImported(f: Fleet)
    requires Start(f)
    ensures PendingIsImported(f)
  {
  }

  // ----- packages from an earlier life -----

  /** Some browser may write although its Vault is not the Device's. */
  ghost predicate Misled(f: Fleet) {
    exists i :: MayWrite(f, i) && f.device.stored != Some(f.browsers[i].state.vault)
  }

  ghost predicate NeverMisled(age: nat) {
    forall run: seq<Fleet>, k: nat ::
      Moves(run) && Start(run[0]) && PackagesWithin(run, age) && k < |run| ==> !Misled(run[k])
  }

  /**
   Replacements keep every writer up to date exactly when no package older than the Device's
   present life is accepted: one clearing in between is already too much.
   */
  lemma WritersStayUpToDateIff(age: nat)
    ensures NeverMisled(age) <==> age == 0
  {
    if age == 0 {
      forall run: seq<Fleet>, k: nat
        | Moves(run) && Start(run[0]) && PackagesWithin(run, 0) && k < |run|
        ensures !Misled(run[k])
      {
        forall i | MayWrite(run[k], i) ensures run[k].device.stored == Some(run[k].browsers[i].state.vault) {
          SingleWriterIsUpToDate(run, k, i, i);
        }
      }
    } else {
      var run := PackageOfAnEarlierLife();
      OlderIsWider(run, 1, age);
      assert Misled(run[|run| - 1]);
      assert |run| - 1 < |run|;
    }
  }

  lemma OlderIsWider(run: seq<Fleet>, age: nat, more: nat)
    requires PackagesWithin(run, age) && age <= more
    ensures PackagesWithin(run, more)
  {
    forall k | 0 < k < |run| ensures ReplacesWithin(run[k - 1], run[k], more) {
      assert ReplacesWithin(run[k - 1], run[k], age);
    }
  }

  /**
   In any reachable fleet, a package that shows the Device's generation and epoch but another
   content is from an earlier life, and importing and completing it makes a misled writer.
   */
  lemma ForeignPackageMisleads(f: Fleet, p: Package, i: BrowserId, s: State) returns (run: seq<Fleet>)
    requires FleetInv(f) && f.vaults != [] && p in f.packages
    requires Show(p.vault) == Show(f.device.stored.value) && p.epoch == f.device.registration.value.epoch
    requires f.device.stored != Some(p.vault)
    requires i !in f.browsers && FreshIn(s.registration, f)
    requires s == State(p.vault, s.recoveryWrap, Registration(s.registration.id, p.epoch + 1, s.registration.key),
                        ReplacementPending, s.wrappedVmk, Some(f.device.id))
    ensures p.life < f.life
    ensures Moves(run) && run[0] == f && MayWrite(run[|run| - 1], i) && Misled(run[|run| - 1])
  {
    assert PackageOk(p, f);
    if p.life == f.life { GenerationNamesOneVault(f, p.vault); }
    assert f.registrations[|f.registrations| - 1] in f.registrations;
    var g := f.(browsers := f.browsers[i := Browser(s, None, Some(p.previousId), p.life)]);
    assert ImportStep(f, g, p, i, s) && Acts(f, g, i);
    var rest := CompletionRun(g, i);
    run := [f] + rest;
    assert run[1] == g;
    RunsJoin([f, g], rest);
    assert [f] + rest == [f, g] + rest[1..];
    var x := run[|run| - 1];
    assert x == rest[|rest| - 1] && x.browsers[i].state.vault == p.vault;
  }

  lemma RunsJoin(a: seq<Fleet>, b: seq<Fleet>)
    requires Moves(a) && Moves(b) && a[|a| - 1] == b[0]
    ensures Moves(a + b[1..]) && (a + b[1..])[0] == a[0] && (a + b[1..])[|a| + |b| - 2] == b[|b| - 1]
    ensures forall age: nat :: PackagesWithin(a, age) && PackagesWithin(b, age) ==> PackagesWithin(a + b[1..], age)
  {
    var run := a + b[1..];
    forall k | 0 < k < |run|
      ensures if k < |a| then run[k - 1] == a[k - 1] && run[k] == a[k]
              else run[k - 1] == b[k - |a|] && run[k] == b[k - |a| + 1]
    {
    }
    forall k | 0 < k < |run| ensures Next(run[k - 1], run[k]) {
      if k >= |a| { assert Next(b[k - |a| + 1 - 1], b[k - |a| + 1]); }
    }
    forall age: nat, k | PackagesWithin(a, age) && PackagesWithin(b, age) && 0 < k < |run|
      ensures ReplacesWithin(run[k - 1], run[k], age)
    {
      if k >= |a| { assert ReplacesWithin(b[k - |a| + 1 - 1], b[k - |a| + 1], age); }
    }
  }

  /** The writer's next generation, sent, served and reconciled. */
  lemma AdvanceRun(f: Fleet, i: BrowserId, v: Vault) returns (run: seq<Fleet>)
    requires i in f.browsers && f.device.runtime == Unlocked && f.device.shown == C.ShowStored(f.device)
    requires var b := f.browsers[i];
             && Holds(b.state, f.device) && b.candidate.None? && f.device.stored.value.generation < MAX_U64
             && v == b.state.vault.(generation := b.state.vault.generation + 1, body := v.body)
    ensures Moves(run) && PackagesWithin(run, 0) && run[0] == f
    ensures var x := run[|run| - 1];
            x == f.(device := C.WithVault(f.device, v).(resetAllowed := false), line := x.line,
                    browsers := f.browsers[i := f.browsers[i].(state := f.browsers[i].state.(vault := v))],
                    vaults := f.vaults + [v])
  {
    run := ServedRun(f, i, v);
    var h := run[|run| - 1];
    var e := h.(line := Some(Line(i, C.HelloOf(h.device).value)));
    assert LookStep(h, e, i) && Acts(h, e, i);
    var x := e.(browsers := e.browsers[i := f.browsers[i].(state := f.browsers[i].state.(vault := v))]);
    assert SettleStep(e, x, i) && Acts(e, x, i);
    run := run + [e, x];
  }

  lemma ServedRun(f: Fleet, i: BrowserId, v: Vault) returns (run: seq<Fleet>)
    requires i in f.browsers && f.device.runtime == Unlocked && f.device.shown == C.ShowStored(f.device)
    requires var b := f.browsers[i];
             && Holds(b.state, f.device) && b.candidate.None? && f.device.stored.value.generation < MAX_U64
             && v == b.state.vault.(generation := b.state.vault.generation + 1, body := v.body)
    ensures Moves(run) && PackagesWithin(run, 0) && run[0] == f
    ensures run[|run| - 1] == f.(device := C.WithVault(f.device, v).(resetAllowed := false), line := None,
                                 browsers := f.browsers[i := f.browsers[i].(candidate := Some(v))], vaults := f.vaults + [v])
  {
    hide C.Drifts;
    var b := f.browsers[i];
    var g := f.(line := Some(Line(i, C.HelloOf(f.device).value)));
    assert LookStep(f, g, i) && Acts(f, g, i);
    var d := C.WithVault(f.device, v).(resetAllowed := false);
    assert C.UpdateServed(f.device, C.Update(b.state.vault.generation, v), d);
    var j := g.(browsers := f.browsers[i := b.(candidate := Some(v))]);
    assert JournalStep(g, j, i, v) && Acts(g, j, i);
    var h := j.(device := d, line := None, vaults := f.vaults + [v]);
    assert SendStep(j, h, i) && Acts(j, h, i);
    run := [f, g, j, h];
  }

  /** One browser, one update, a package from before it and one from after. */
  lemma TwoExports() returns (run: seq<Fleet>)
    ensures Moves(run) && PackagesWithin(run, 0) && Start(run[0])
    ensures var x := run[|run| - 1];
            x == Fleet(C.Device(4, Some(Vault(5, 2, 2, 200)), Some(Registration(7, 1, 9)), Some(ShownVault(5, 2, 2)), Unlocked,
                                false, None, true),
                       x.line,
                       map[0 := Browser(State(Vault(5, 2, 2, 200), 1, Registration(7, 1, 9), Active, 3, Some(4)), None, None, 0)],
                       {Package(Vault(5, 1, 2, 100), 7, 1, 0), Package(Vault(5, 2, 2, 200), 7, 1, 0)}, 0,
                       [Vault(5, 1, 2, 100), Vault(5, 2, 2, 200)], [Registration(7, 1, 9)])
  {
    hide SendStep, JournalStep, SettleStep, ActivateStep, DriftStep, ImportStep, InstallStep, ClearStep, ReplaceServed;
    var old1, new1, reg := Vault(5, 1, 2, 100), Vault(5, 2, 2, 200), Registration(7, 1, 9);
    var d := C.Device(4, Some(old1), Some(reg), Some(Show(old1)), Unlocked, false, None, true);
    var f := Fleet(d, None, map[0 := Browser(State(old1, 1, reg, Active, 3, Some(4)), None, None, 0)], {}, 0, [old1], [reg]);
    var g := f.(packages := f.packages + {Package(old1, 7, 1, 0)});
    assert ExportStep(f, g, 0) && Acts(f, g, 0);
    var step := AdvanceRun(g, 0, new1);
    RunsJoin([f, g], step);
    run := [f, g] + step[1..];
    var h := run[|run| - 1];
    var x := h.(packages := h.packages + {Package(new1, 7, 1, 0)});
    assert ExportStep(h, x, 0) && Acts(h, x, 0);
    RunsJoin(run, [h, x]);
    run := run + [h, x][1..];
    assert x.browsers == map[0 := Browser(State(new1, 1, reg, Active, 3, Some(4)), None, None, 0)];
  }

  /** The Device is cleared and recovered from the older package, by another browser. */
  lemma RecoveredFromOlderPackage(f: Fleet) returns (run: seq<Fleet>)
    requires f == Fleet(f.device, f.line, f.browsers, f.packages, 0, f.vaults, [Registration(7, 1, 9)])
    requires f.browsers.Keys == {0} && f.browsers[0].previousId.None? && f.device.id == 4
    requires Package(Vault(5, 1, 2, 100), 7, 1, 0) in f.packages && forall p :: p in f.packages ==> p.previousId == 7
    ensures Moves(run) && PackagesWithin(run, 0) && run[0] == f
    ensures var x := run[|run| - 1];
            var s := State(Vault(5, 1, 2, 100), 1, Registration(12, 1, 13), Active, 5, Some(4));
            && x.packages == f.packages && x.browsers == map[1 := Browser(s, None, None, 1)] && x.life == 1
            && x.registrations == [Registration(12, 1, 13)] && x.vaults == [s.vault] && x.line == None
            && x.device == Cleared(f.device).(stored := Some(s.vault), registration := Some(s.registration),
                                              shown := Some(Show(s.vault)), runtime := Unlocked)
  {
    hide SendStep, JournalStep, SettleStep, ActivateStep, DriftStep, C.HelloOf;
    var g := f.(device := Cleared(f.device), line := None, browsers := f.browsers - {0}, vaults := [], registrations := []);
    assert ClearStep(f, g, {0});
    var pending := State(Vault(5, 1, 2, 100), 1, Registration(8, 2, 11), ReplacementPending, 5, Some(4));
    var h := g.(browsers := g.browsers[1 := Browser(pending, None, Some(7), 0)]);
    assert ImportStep(g, h, Package(Vault(5, 1, 2, 100), 7, 1, 0), 1, pending) && Acts(g, h, 1);
    var s := pending.(registration := Registration(12, 1, 13), status := Active);
    var x := h.(device := C.WithVault(h.device, s.vault).(registration := Some(s.registration), runtime := Unlocked,
                                                          resetAllowed := false, install := None),
                browsers := h.browsers[1 := Browser(s, None, None, 1)], life := 1, vaults := [s.vault], registrations := [s.registration]);
    assert InstallStep(h, x, 1, s) && Acts(h, x, 1);
    run := [f, g, h, x];
    assert x.browsers == map[1 := Browser(s, None, None, 1)];
  }

  /**
   A package exported before the Device was erased and recovered from an older one can show the
   Device's generation with another content, and makes its importer the trusted writer.
   */
  lemma PackageOfAnEarlierLife() returns (run: seq<Fleet>)
    ensures Moves(run) && Start(run[0]) && PackagesWithin(run, 1)
    ensures var x := run[|run| - 1]; MayWrite(x, 2) && x.device.stored != Some(x.browsers[2].state.vault)
  {
    run := TwoLives();
    var f := run[|run| - 1];
    var s := State(Vault(5, 2, 2, 200), 1, Registration(14, 2, 15), ReplacementPending, 6, Some(4));
    var g := f.(browsers := f.browsers[2 := Browser(s, None, Some(7), 0)]);
    assert ImportStep(f, g, Package(s.vault, 7, 1, 0), 2, s) && Acts(f, g, 2);
    hide Moves, PackagesWithin;
    OneStep(f, g);
    RunsJoin(run, [f, g]);
    run := run + [f, g][1..];
    StartIsOk(run[0]);
    EveryLineIsOk(run, |run| - 1);
    var end := CompletionRun(g, 2);
    OlderIsWider(run, 0, 1);
    RunsJoin(run, end);
    run := run + end[1..];
  }

  lemma OneStep(f: Fleet, g: Fleet)
    requires Next(f, g) && ReplacesWithin(f, g, 0)
    ensures Moves([f, g]) && PackagesWithin([f, g], 0)
  {
  }

  /** Exported, cleared, recovered from the older package, and updated differently. */
  lemma TwoLives() returns (run: seq<Fleet>)
    ensures Moves(run) && PackagesWithin(run, 0) && Start(run[0])
    ensures var x := run[|run| - 1];
            && x.device.id == 4 && x.device.stored == Some(Vault(5, 2, 2, 300)) && x.device.registration == Some(Registration(12, 1, 13))
            && Package(Vault(5, 2, 2, 200), 7, 1, 0) in x.packages && x.life == 1 && x.registrations == [Registration(12, 1, 13)]
            && x.browsers.Keys == {1} && x.browsers[1].state.registration == Registration(12, 1, 13)
            && x.browsers[1].previousId.None? && forall p :: p in x.packages ==> p.previousId == 7
  {
    hide Next, PackagesWithin, Start;
    run := TwoExports();
    var recovery := RecoveredFromOlderPackage(run[|run| - 1]);
    RunsJoin(run, recovery);
    run := run + recovery[1..];
    var advance := AdvanceRun(run[|run| - 1], 1, Vault(5, 2, 2, 300));
    RunsJoin(run, advance);
    run := run + advance[1..];
  }

  lemma StartIsOk(f: Fleet)
    requires Start(f)
    ensures LineOk(f)
  {
  }

  // ----- the browser process -----

  datatype Ownership = Unknown | Owner | Unowned

  datatype Completion = NothingPending | Activated | Refused | Interrupted

  /** The browser process completing its own pending replacement; `me` is its place in the fleet. */
  class ReplacingBrowser {
    var device: C.Device
    var store: map<VaultId, State>
    var hello: Hello
    var state: Option<State>
    var ownership: Ownership
    var unlockRequired: bool
    ghost const me: BrowserId
    ghost var run: seq<Fleet>

    ghost predicate Valid()
      reads this
    {
      && Moves(run) && LineOk(run[0])
      && var f := run[|run| - 1];
      && f.device == device && me in f.browsers
      && state == Some(f.browsers[me].state)
      && f.browsers[me].state.vault.id in store && store[f.browsers[me].state.vault.id] == f.browsers[me].state
    }

    /** The `hello` this browser acts on is the last one answered on the line, which it holds. */
    ghost predicate Looking()
      reads this
    {
      Valid() && run[|run| - 1].line == Some(Line(me, hello))
    }

    constructor (f: Fleet, i: BrowserId, records: map<VaultId, State>)
      requires LineOk(f) && i in f.browsers && f.line.Some? && f.line.value.who == i
      requires f.browsers[i].state.vault.id in records && records[f.browsers[i].state.vault.id] == f.browsers[i].state
      ensures Looking() && device == f.device && hello == f.line.value.hello && store == records && run == [f] && me == i
    {
      device, store, hello := f.device, records, f.line.value.hello;
      state, ownership, unlockRequired := Some(f.browsers[i].state), Unknown, false;
      me, run := i, [f];
    }

    /** The copy is bound to this Device, and a `hello` in use agrees with it. */
    lemma OwnDevice()
      requires Valid()
      ensures LineOk(run[|run| - 1]) && state.value.deviceId == Some(device.id)
    {
      EveryLineIsOk(run, |run| - 1);
    }

    /** The Device moves on by itself. */
    method Drift()
      requires Valid()
      modifies this`device, this`run
      ensures Valid() && old(run) <= run && run[|run| - 1].line == old(run[|run| - 1].line)
      ensures device.stored == old(device.stored) && device.registration == old(device.registration) && device.id == old(device.id)
    {
      var next: C.Device := *;
      if C.Drifts(device, next) {
        ghost var f := run[|run| - 1];
        device := next;
        assert DriftStep(f, f.(device := next));
        run := run + [f.(device := next)];
      }
    }

    /** The whole key delivery: the Device may have recorded the new registration or not. */
    method Deliver() returns (answered: bool)
      requires Looking() && Judge(state.value, hello) == MayReplace
      modifies this`device, this`run
      ensures Valid() && old(run) <= run && device.stored == old(device.stored) && device.id == old(device.id)
      ensures device.registration == old(device.registration) || device.registration == Some(state.value.registration)
      ensures device.registration == old(device.registration)
              || (device.stored.Some? && state.value.vault.id == device.stored.value.id
                  && state.value.vault.generation == device.stored.value.generation)
    {
      Drift();
      var served: bool := *;
      var next := device.(registration := Some(state.value.registration), runtime := Unlocked);
      if served && ReplaceServed(device, state.value, next) {
        ghost var f := run[|run| - 1];
        ghost var x := f.(device := next, line := None, registrations := f.registrations + [state.value.registration]);
        device := next;
        assert ReplaceStep(f, x, me) && Acts(f, x, me);
        run := run + [x];
        Drift();
      }
      answered := *;
    }

    /** A fresh `hello`, if the Device answers one. */
    method Look() returns (answered: bool)
      requires Valid()
      modifies this`hello, this`run
      ensures Valid() && old(run) <= run
      ensures answered <==> C.HelloOf(device).Some?
      ensures if answered then Looking() && C.HelloOf(device) == Some(hello) else hello == old(hello)
    {
      if C.HelloOf(device).None? { return false; }
      ghost var f := run[|run| - 1];
      hello := C.HelloOf(device).value;
      ghost var x := f.(line := Some(Line(me, hello)));
      assert LookStep(f, x, me) && Acts(f, x, me);
      run := run + [x];
      answered := true;
    }

    /** The pending copy, trusted from now on, goes into durable storage. */
    method Activate()
      requires Looking() && state.value.status == ReplacementPending && BindingMatches(state.value, hello)
      modifies this`store, this`state, this`ownership, this`run
      ensures Looking() && old(run) <= run && ownership == Owner
      ensures state == Some(old(state).value.(status := Active))
      ensures store == old(store)[state.value.vault.id := state.value]
      ensures hello.state == Unlocked ==> MayWrite(run[|run| - 1], me)
    {
      ghost var f := run[|run| - 1];
      ghost var b := f.browsers[me];
      ghost var x := f.(browsers := f.browsers[me := b.(state := b.state.(status := Active))]);
      state := Some(state.value.(status := Active));
      store := store[state.value.vault.id := state.value];
      ownership := Owner;
      assert ActivateStep(f, x, me) && Acts(f, x, me);
      run := run + [x];
    }

    /**
     Completes a pending replacement, or leaves the stored copy pending. A confirmed one sends
     nothing; an interrupted one that the Device did record is confirmed at the next look.
     */
    method CompletePendingReplacement() returns (r: Completion)
      requires Looking()
      modifies this
      ensures Valid() && old(run) <= run && device.stored == old(device.stored)
      ensures r.NothingPending? <==> Judge(old(state).value, old(hello)).NotPending?
      ensures r.Refused? <==> Judge(old(state).value, old(hello)) in {Unregistered, OtherGeneration, NotNext}
      ensures r.NothingPending? || r.Refused? ==> device == old(device)
      ensures Judge(old(state).value, old(hello)) in {Unregistered, NotNext} ==> ownership == Unowned
      ensures Judge(old(state).value, old(hello)).Confirmed? ==> r.Activated? && device == old(device)
      ensures r.Activated? ==>
                && state == Some(old(state).value.(status := Active)) && store == old(store)[state.value.vault.id := state.value]
                && Looking() && BindingMatches(state.value, hello) && (hello.state == Unlocked ==> MayWrite(run[|run| - 1], me))
                && device.registration == Some(state.value.registration) && ownership == Owner
                && (unlockRequired <==> hello.state == Locked)
      ensures !r.Activated? ==> state == old(state) && store == old(store)
      ensures r.Interrupted? && device.registration == Some(state.value.registration)
              && C.HelloOf(device).Some? && device.shown == C.ShowStored(device) ==>
                Judge(state.value, C.HelloOf(device).value).Confirmed?
    {
      hide LineOk, Moves, C.Drifts, C.HelloOf, MayWrite, Acts, Next, ReplaceServed;
      OwnDevice();
      HelloAgrees();
      match Judge(state.value, hello) {
        case NotPending => return NothingPending;
        case Confirmed =>
          Activate();
          unlockRequired := hello.state == Locked;
          return Activated;
        case OtherGeneration => return Refused;
        case Unregistered | NotNext =>
          ownership := Unowned;
          return Refused;
        case MayReplace => {}
      }
      r := Replace();
    }

    /** The request itself, and what a fresh `hello` says of it. */
    method Replace() returns (r: Completion)
      requires Looking() && Judge(state.value, hello) == MayReplace
      modifies this
      ensures Valid() && old(run) <= run && device.stored == old(device.stored)
      ensures r.Activated? || r.Interrupted?
      ensures r.Activated? ==>
                && state == Some(old(state).value.(status := Active)) && store == old(store)[state.value.vault.id := state.value]
                && Looking() && BindingMatches(state.value, hello) && MayWrite(run[|run| - 1], me)
                && device.registration == Some(state.value.registration) && ownership == Owner && !unlockRequired
                && hello.state == Unlocked
      ensures !r.Activated? ==> state == old(state) && store == old(store)
      ensures r.Interrupted? && device.registration == Some(state.value.registration)
              && C.HelloOf(device).Some? && device.shown == C.ShowStored(device) ==>
                Judge(state.value, C.HelloOf(device).value).Confirmed?
    {
      hide LineOk, Moves, C.Drifts, C.HelloOf, MayWrite, Acts, Next, ReplaceServed;
      OwnDevice();
      HelloAgrees();
      var answered := Deliver();
      HelloShows();
      if !answered { return Interrupted; }
      var looked := Look();
      if !looked { return Interrupted; }
      if !BindingMatches(state.value.(deviceId := Some(hello.deviceId)), hello) || hello.state != Unlocked {
        return Interrupted;
      }
      OwnDevice();
      HelloAgrees();
      Activate();
      unlockRequired := false;
      r := Activated;
    }

    lemma HelloAgrees()
      requires Looking()
      ensures hello.deviceId == device.id && hello.registration == device.registration
      ensures ShowsNoLater(hello.vault, device.stored)
    {
      EveryLineIsOk(run, |run| - 1);
    }

    /** What a `hello` says comes from the Device's own fields. */
    lemma HelloShows()
      ensures C.HelloOf(device).Some? ==>
                && C.HelloOf(device).value.vault == device.shown && C.HelloOf(device).value.registration == device.registration
                && C.HelloOf(device).value.deviceId == device.id
    {
    }
  }
}
