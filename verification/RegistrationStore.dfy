/**
 The Device's one registration: its record in flash, the copy in RAM, and the epoch that
 rises with every replacement until the registration is cleared.
 */
module RegistrationStore {
  import opened Vocabulary
  import opened Bytes
  import opened SessionBinding
  import opened Presence

  datatype Registration = Registration(vaultId: Id16, id: Id16, epoch: u32, key: Key65)

  const MAGIC: seq<byte> := [77, 53, 65, 82, 69, 71, 49, 0]
  const ENCODED_BYTES: nat := 109

  predicate Storable(r: Registration, onCurve: Key65 -> bool) {
    r.vaultId != 0 && r.id != 0 && r.epoch != 0 && onCurve(r.key)
  }

  function Encode(r: Registration): (record: seq<byte>)
    ensures |record| == ENCODED_BYTES
  {
    MAGIC + BigEndian(r.vaultId, 16) + BigEndian(r.id, 16) + BigEndian(r.epoch, 4) + BigEndian(r.key, 65)
  }

  lemma Widths()
    ensures Pow256(4) == MAX_U32 + 1
    ensures Pow256(16) == 0x1_0000_0000_0000_0000_0000_0000_0000_0000
    ensures Pow256(65) == KEY65_LIMIT
  {
    WidthsFrom(4);
  }

  lemma WidthsFrom(w: nat)
    requires w == 4
    ensures Pow256(w) == MAX_U32 + 1
    ensures Pow256(4 * w) == 0x1_0000_0000_0000_0000_0000_0000_0000_0000
    ensures Pow256(16 * w + 1) == KEY65_LIMIT
  {
    assert Pow256(4) == MAX_U32 + 1;
    PowersMultiply(w, w);
    PowersMultiply(2 * w, 2 * w);
    PowersMultiply(4 * w, 4 * w);
    PowersMultiply(8 * w, 8 * w);
    PowersMultiply(16 * w, 1);
  }

  function Parse(record: seq<byte>): Registration
    requires |record| == ENCODED_BYTES
  {
    Widths();
    Registration(BigValue(record[8..24]), BigValue(record[24..40]), BigValue(record[40..44]), BigValue(record[44..109]))
  }

  function Decode(record: seq<byte>, onCurve: Key65 -> bool): Option<Registration> {
    if |record| != ENCODED_BYTES || record[..8] != MAGIC then None
    else if Storable(Parse(record), onCurve) then Some(Parse(record)) else None
  }

  lemma RecordRoundTrip(r: Registration, onCurve: Key65 -> bool)
    ensures Decode(Encode(r), onCurve) == if Storable(r, onCurve) then Some(r) else None
  {
    var record := Encode(r);
    Widths();
    assert record[..8] == MAGIC;
    assert record[8..24] == BigEndian(r.vaultId, 16);
    assert record[24..40] == BigEndian(r.id, 16);
    assert record[40..44] == BigEndian(r.epoch, 4);
    assert record[44..109] == BigEndian(r.key, 65);
    BigRoundTrip(r.vaultId, 16);
    BigRoundTrip(r.id, 16);
    BigRoundTrip(r.epoch, 4);
    BigRoundTrip(r.key, 65);
  }

  lemma RecordIsCanonical(record: seq<byte>, onCurve: Key65 -> bool)
    requires Decode(record, onCurve).Some?
    ensures Encode(Decode(record, onCurve).value) == record
  {
    BigIsCanonical(record[8..24]);
    BigIsCanonical(record[24..40]);
    BigIsCanonical(record[40..44]);
    BigIsCanonical(record[44..109]);
    assert record == record[..8] + record[8..24] + record[24..40] + record[40..44] + record[44..109];
  }

  /** What one uninterrupted line of registrations looks like: epoch n+1 belongs to entry n. */
  predicate Chain(history: seq<Registration>) {
    forall i :: 0 <= i < |history| ==> history[i].epoch == i + 1 && history[i].vaultId == history[0].vaultId
  }

  datatype Status = Ok | NotFound | InvalidArgument | Conflict | Corrupt | Io

  datatype Snapshot = Snapshot(deviceId: Id16, registration: Option<Registration>)

  datatype Read = Found(record: seq<byte>) | Absent | Unreadable

  class Store {
    // flash
    var record: Option<seq<byte>>
    var deviceIdRecord: Option<seq<byte>>
    // RAM
    var ready: bool
    var recoveryResetAvailable: bool
    var deviceIdRecoveryRequired: bool
    var snapshot: Snapshot

    const onCurve: Key65 -> bool

    /** Every registration since the last clearing, oldest first. */
    ghost var history: seq<Registration>
    /** RAM has forgotten a registration that flash still holds, after a failed read. */
    ghost var forgotten: bool

    ghost function Stored(): Option<Registration>
      reads this
    {
      if record.Some? then Decode(record.value, onCurve) else None
    }

    ghost predicate Valid()
      reads this
    {
      && Chain(history)
      && (record.None? ==> history == [])
      && (Stored().Some? ==> history != [] && history[|history| - 1] == Stored().value)
      && (snapshot.registration.Some? ==> history != [] && history[|history| - 1] == snapshot.registration.value)
      && (forgotten ==> snapshot.registration.None? && record.Some?)
      && (ready && snapshot.registration.None? && !forgotten ==> Stored().None?)
    }

    /** Flash is as it was. */
    twostate predicate Kept()
      reads this
    {
      record == old(record) && history == old(history)
    }

    /** One registration was added, one epoch up. */
    twostate predicate Appended()
      reads this
    {
      record.Some? && |history| == |old(history)| + 1 && old(history) <= history
    }

    ghost predicate FlashUnchanged(was: Option<seq<byte>>, wasHistory: seq<Registration>)
      reads this
    {
      record == was && history == wasHistory
    }

    /** A Device that has never been registered, whatever its id record holds. */
    constructor (valid: Key65 -> bool, idRecord: Option<seq<byte>>)
      ensures Valid() && record.None? && history == [] && !ready && !forgotten && onCurve == valid
    {
      onCurve := valid;
      record, deviceIdRecord := None, idRecord;
      ready, recoveryResetAvailable, deviceIdRecoveryRequired := false, false, false;
      snapshot := Snapshot(0, None);
      history, forgotten := [], false;
    }

    /** Flash wears out: the record turns into something that does not decode. */
    method Decay(damaged: seq<byte>)
      requires Valid() && record.Some? && Decode(damaged, onCurve).None?
      modifies this`record
      ensures Valid() && record == Some(damaged)
    {
      record := Some(damaged);
    }

    method ReadRecord() returns (r: Read)
      ensures r == Unreadable || r == if record.Some? then Found(record.value) else Absent
    {
      var failed: bool := *;
      r := if failed then Unreadable else if record.Some? then Found(record.value) else Absent;
    }

    method LoadOrCreateDeviceId() returns (status: Status)
      modifies this`snapshot, this`deviceIdRecord
      ensures snapshot.registration == old(snapshot.registration)
      ensures status == Ok ==> snapshot.deviceId != 0 && deviceIdRecord == Some(BigEndian(snapshot.deviceId, 16))
      ensures status == Corrupt ==> deviceIdRecord == old(deviceIdRecord)
      ensures old(deviceIdRecord).Some? ==> deviceIdRecord == old(deviceIdRecord)
    {
      hide BigEndian;
      Widths();
      var failed: bool := *;
      if failed { return Io; }
      if deviceIdRecord.Some? {
        var bytes := deviceIdRecord.value;
        if |bytes| != 16 {
          snapshot := snapshot.(deviceId := 0);
          return Corrupt;
        }
        BigIsCanonical(bytes);
        snapshot := snapshot.(deviceId := BigValue(bytes));
        return if snapshot.deviceId == 0 then Corrupt else Ok;
      }
      var drawn := FreshDeviceId();
      snapshot := snapshot.(deviceId := drawn);
      failed := *;
      if failed {
        snapshot := snapshot.(deviceId := 0);
        return Io;
      }
      deviceIdRecord := Some(BigEndian(drawn, 16));
      status := Ok;
    }

    method FreshDeviceId() returns (id: Id16)
      ensures id != 0
    {
      id :| id != 0;
    }

    method LoadRegistration() returns (status: Status)
      modifies this`snapshot
      ensures snapshot.deviceId == old(snapshot.deviceId)
      ensures status == Ok ==> snapshot.registration.Some? && snapshot.registration == Stored()
      ensures status != Ok ==> snapshot.registration.None?
      ensures status == NotFound ==> record.None?
      ensures status == Corrupt ==> Stored().None? && record.Some?
      ensures status in {Ok, NotFound, Corrupt, Io}
    {
      snapshot := snapshot.(registration := None);
      var r := ReadRecord();
      match r
      case Unreadable => status := Io;
      case Absent => status := NotFound;
      case Found(bytes) =>
        if |bytes| != ENCODED_BYTES { return Corrupt; }
        if bytes[..8] != MAGIC { return Corrupt; }
        var parsed := Parse(bytes);
        if parsed.vaultId == 0 || parsed.id == 0 || parsed.epoch == 0 || !onCurve(parsed.key) { return Corrupt; }
        snapshot := snapshot.(registration := Some(parsed));
        status := Ok;
    }

    /** Boot. A damaged record is kept, and only opens the confirmed recovery. */
    method Initialize() returns (status: Status)
      requires Valid()
      modifies this
      ensures Valid() && record == old(record) && history == old(history) && !forgotten
      ensures ready <==> status == Ok
      ensures ready ==> snapshot.registration == Stored() && snapshot.deviceId != 0
      ensures status == Corrupt ==> recoveryResetAvailable && snapshot.registration.None?
      ensures old(deviceIdRecord).Some? ==> deviceIdRecord == old(deviceIdRecord)
    {
      hide BigEndian, BigValue, Pow256, Decode, Chain;
      ready, recoveryResetAvailable, deviceIdRecoveryRequired, forgotten := false, false, false, false;
      snapshot := Snapshot(0, None);
      status := LoadOrCreateDeviceId();
      if status == Corrupt {
        var drawn := FreshDeviceId();
        snapshot := Snapshot(drawn, None);
        recoveryResetAvailable, deviceIdRecoveryRequired := true, true;
        return;
      }
      if status != Ok { return; }
      status := LoadRegistration();
      if status == Corrupt {
        recoveryResetAvailable := true;
        return;
      }
      if status != Ok && status != NotFound {
        snapshot := Snapshot(0, None);
        return;
      }
      ready := true;
      status := Ok;
    }

    method PersistRegistration(r: Registration) returns (status: Status)
      requires Valid() && ready
      requires Chain(history + [r])
      modifies this
      ensures Valid() && ready && status in {Ok, InvalidArgument, Io}
      ensures status == Ok ==> Stored() == Some(r) && history == old(history) + [r] && !forgotten
                               && snapshot == Snapshot(old(snapshot).deviceId, Some(r))
      ensures status != Ok ==> FlashUnchanged(old(record), old(history))
                               && snapshot == old(snapshot) && forgotten == old(forgotten)
      ensures deviceIdRecord == old(deviceIdRecord)
    {
      if r.vaultId == 0 || r.id == 0 || r.epoch == 0 || !onCurve(r.key) { return InvalidArgument; }
      var failed: bool := *;
      if failed { return Io; }
      RecordRoundTrip(r, onCurve);
      record := Some(Encode(r));
      snapshot := snapshot.(registration := Some(r));
      history := history + [r];
      forgotten := false;
      status := Ok;
    }

    /** The first registration: only where flash holds none, and always with epoch 1. */
    method InstallInitial(vaultId: Id16, id: Id16, epoch: u32, key: Key65) returns (status: Status)
      requires Valid()
      modifies this
      ensures Valid() && ready == old(ready)
      ensures status == Ok ==> ready && epoch == 1 && old(record).None?
                               && history == [Registration(vaultId, id, 1, key)] && Stored() == Some(history[0])
                               && snapshot == Snapshot(old(snapshot).deviceId, Some(history[0])) && !forgotten
      ensures status != Ok ==> FlashUnchanged(old(record), old(history))
      ensures status == Conflict ==> old(Stored()).Some?
      ensures ready && old(Stored()).None? ==> !forgotten && (status != Ok ==> Stored().None?)
      ensures old(Stored()).None? && old(snapshot).registration.None? && status != Ok ==> snapshot.registration.None?
      ensures snapshot.deviceId == old(snapshot).deviceId
      ensures deviceIdRecord == old(deviceIdRecord)
    {
      if !ready { return Io; }
      var refresh := Refresh();
      if refresh != NotFound { return if refresh == Ok then Conflict else refresh; }
      if epoch != 1 { return InvalidArgument; }
      status := PersistRegistration(Registration(vaultId, id, epoch, key));
    }

    /** Rereads flash; a failed read leaves RAM without the registration. */
    method Refresh() returns (status: Status)
      requires Valid() && ready
      modifies this`snapshot, this`forgotten
      ensures Valid() && snapshot.deviceId == old(snapshot).deviceId
      ensures forgotten <==> status == Io && Stored().Some?
      ensures status == Ok ==> snapshot.registration.Some? && snapshot.registration == Stored()
      ensures status != Ok ==> snapshot.registration.None?
      ensures status == NotFound ==> record.None?
      ensures status in {Ok, NotFound, Corrupt, Io}
    {
      status := LoadRegistration();
      forgotten := status == Io && Stored().Some?;
    }

    /** A replacement: only over the very epoch it was drawn up against, and one epoch up. */
    method Replace(vaultId: Id16, expectedEpoch: u32, id: Id16, newEpoch: u32, key: Key65) returns (status: Status)
      requires Valid()
      modifies this
      ensures Valid() && ready == old(ready)
      ensures status == Ok ==>
                && ready && old(Stored()).Some? && old(Stored()).value.vaultId == vaultId
                && old(Stored()).value.epoch == expectedEpoch && newEpoch == expectedEpoch + 1
                && history == old(history) + [Registration(vaultId, id, newEpoch, key)]
                && Stored() == Some(history[|history| - 1])
                && snapshot == Snapshot(old(snapshot).deviceId, Stored()) && !forgotten
      ensures status != Ok ==> FlashUnchanged(old(record), old(history))
      ensures status == Conflict ==>
                old(Stored()).Some? && (old(Stored()).value.vaultId != vaultId || old(Stored()).value.epoch != expectedEpoch)
      ensures forgotten ==> old(forgotten) || status == Io
      ensures snapshot.deviceId == old(snapshot).deviceId
      ensures deviceIdRecord == old(deviceIdRecord)
    {
      if !ready || expectedEpoch == 0 || expectedEpoch == MAX_U32 { return InvalidArgument; }
      if newEpoch != expectedEpoch + 1 { return InvalidArgument; }
      var refresh := Refresh();
      if refresh != Ok { return refresh; }
      var current := snapshot.registration.value;
      if current.vaultId != vaultId || current.epoch != expectedEpoch { return Conflict; }
      status := PersistRegistration(Registration(vaultId, id, newEpoch, key));
    }

    method ClearRegistration() returns (status: Status)
      requires Valid()
      modifies this
      ensures Valid() && ready == old(ready)
      ensures status == Ok ==> ready && record.None? && history == [] && !forgotten
                               && snapshot == Snapshot(old(snapshot).deviceId, None)
      ensures status != Ok ==> FlashUnchanged(old(record), old(history))
                               && snapshot == old(snapshot) && forgotten == old(forgotten)
      ensures deviceIdRecord == old(deviceIdRecord)
    {
      if !ready { return Io; }
      var failed: bool := *;
      if failed { return Io; }
      record := None;
      history, forgotten := [], false;
      snapshot := Snapshot(snapshot.deviceId, None);
      recoveryResetAvailable, deviceIdRecoveryRequired := false, false;
      status := Ok;
    }

    /** The confirmed recovery of a damaged record; keeps the id the Device has been showing. */
    method ClearCorruptRegistrationForRecovery() returns (status: Status)
      requires Valid()
      modifies this
      ensures Valid()
      ensures status == Ok ==> ready && record.None? && history == [] && !forgotten
                               && snapshot == Snapshot(old(snapshot).deviceId, None)
      ensures status != Ok ==> FlashUnchanged(old(record), old(history)) && ready == old(ready)
                               && snapshot == old(snapshot) && forgotten == old(forgotten)
      ensures status != Ok ==> deviceIdRecord == old(deviceIdRecord)
    {
      if ready {
        status := ClearRegistration();
        return;
      }
      if !recoveryResetAvailable || snapshot.deviceId == 0 { return Io; }
      var failed: bool := *;
      if failed { return Io; }
      if deviceIdRecoveryRequired { deviceIdRecord := Some(BigEndian(snapshot.deviceId, 16)); }
      record := None;
      history, forgotten := [], false;
      snapshot := Snapshot(snapshot.deviceId, None);
      recoveryResetAvailable, deviceIdRecoveryRequired, ready := false, false, true;
      status := Ok;
    }
  }

  /** One effect of any store operation on the line of registrations. */
  predicate Grows(before: seq<Registration>, after: seq<Registration>) {
    after == before || (|after| == |before| + 1 && after[..|before|] == before && Chain(after))
  }

  /** The line of registrations at successive moments, with no clearing in between. */
  ghost predicate UnclearedRun(run: seq<seq<Registration>>) {
    && (forall i :: 0 <= i < |run| ==> Chain(run[i]))
    && (forall i :: 0 <= i < |run| - 1 ==> Grows(run[i], run[i + 1]))
  }

  lemma {:induction false} RunsOnlyAppend(run: seq<seq<Registration>>, i: nat, j: nat)
    requires UnclearedRun(run) && i <= j < |run|
    ensures |run[i]| <= |run[j]| && run[j][..|run[i]|] == run[i]
    decreases j - i
  {
    if i < j {
      RunsOnlyAppend(run, i, j - 1);
      assert Grows(run[j - 1], run[j - 1 + 1]);
      assert run[j][..|run[i]|] == run[j - 1][..|run[i]|];
    }
  }

  predicate Shows(s: DeviceSnapshot, r: Registration) {
    s.registrationPresent && s.registrationId == r.id && s.registrationEpoch == r.epoch && s.key == r.key
  }

  /** However browsers race, an epoch names one registration, for as long as nothing is cleared. */
  lemma EpochNamesOneRegistration(run: seq<seq<Registration>>, i: nat, j: nat, m: nat, n: nat)
    requires UnclearedRun(run) && i < |run| && j < |run| && m < |run[i]| && n < |run[j]|
    requires run[i][m].epoch == run[j][n].epoch
    ensures run[i][m] == run[j][n]
  {
    if i <= j {
      RunsOnlyAppend(run, i, j);
      assert run[j][..|run[i]|][m] == run[j][m];
    } else {
      RunsOnlyAppend(run, j, i);
      assert run[i][..|run[j]|][n] == run[i][n];
    }
  }

  /** Once replaced, a registration never again passes the unlock or re-key binding check. */
  lemma SupersededNeverMatches(run: seq<seq<Registration>>, i: nat, j: nat, m: nat, c: BeginContext, s: DeviceSnapshot)
    requires UnclearedRun(run) && i <= j < |run| && m < |run[i]| - 1
    requires UsesRegistration(c.operation) && c.registrationEpoch == run[i][m].epoch
    requires run[j] != [] && Shows(s, run[j][|run[j]| - 1])
    ensures !BeginMatches(c, s)
  {
    RunsOnlyAppend(run, i, j);
  }
}
