/** The Device's clock: an anchor, projected forward by the monotonic timer, moved by NTP samples. */
module TrustedClock {
  import opened Vocabulary

  const MAX_I64: nat := 0x7FFF_FFFF_FFFF_FFFF
  const MICROS: nat := 1_000_000
  const MAX_NTP_JUMP: nat := 300
  const RESYNC_INTERVAL: nat := 6 * 60 * 60
  const STALE_AFTER: nat := 24 * 60 * 60

  type Micros = x: int | 0 <= x <= MAX_I64

  datatype Source = NoSource | Ntp | Usb

  datatype Anchor = Anchor(unix: u64, at: Micros)

  /** The anchor carried forward to `t`, in whole seconds. */
  function Projected(a: Anchor, t: Micros): nat
    requires a.at <= t
  {
    a.unix + (t - a.at) / MICROS
  }

  /** A later NTP sample within the jump limit of the projection, which must itself be representable. */
  predicate Accepts(a: Anchor, sample: Anchor, jump: nat) {
    && a.at <= sample.at && Projected(a, sample.at) <= MAX_U64
    && Projected(a, sample.at) - jump <= sample.unix <= Projected(a, sample.at) + jump
  }

  /** The unrounded offset between Unix and monotonic time, in microseconds. */
  function Offset(a: Anchor): int {
    a.unix * MICROS - a.at
  }

  lemma ProjectionFromOffset(a: Anchor, t: Micros)
    requires a.at <= t
    ensures Projected(a, t) == (Offset(a) + t) / MICROS
  {
  }

  /** One sample moves the offset up by at most the limit, down by at most that and a lost fraction. */
  lemma SampleMovesOffset(a: Anchor, sample: Anchor, jump: nat)
    requires Accepts(a, sample, jump)
    ensures -(jump * MICROS + MICROS - 1) <= Offset(sample) - Offset(a) <= jump * MICROS
  {
    var p := Projected(a, sample.at);
    ProjectionFromOffset(a, sample.at);
    assert p * MICROS <= Offset(a) + sample.at < p * MICROS + MICROS;
  }

  ghost predicate Accepted(anchors: seq<Anchor>, jump: nat) {
    anchors != [] && forall i :: 0 <= i < |anchors| - 1 ==> Accepts(anchors[i], anchors[i + 1], jump)
  }

  lemma {:induction false} OffsetsDrift(anchors: seq<Anchor>, jump: nat)
    requires Accepted(anchors, jump)
    ensures var k := |anchors| - 1;
            && -(k * (jump * MICROS + MICROS - 1)) <= Offset(anchors[k]) - Offset(anchors[0]) <= k * (jump * MICROS)
            && anchors[0].at <= anchors[k].at
  {
    var k := |anchors| - 1;
    if k > 0 {
      OffsetsDrift(anchors[..k], jump);
      assert Accepts(anchors[k - 1], anchors[k - 1 + 1], jump);
      SampleMovesOffset(anchors[k - 1], anchors[k], jump);
    }
  }

  /**
   After `k` accepted samples, however they lie, a reading is at most `k` limits ahead of the first
   anchor's own projection, and at most `k` limits and `k` lost seconds behind it.
   */
  lemma DriftIsBounded(anchors: seq<Anchor>, t: Micros, jump: nat)
    requires Accepted(anchors, jump) && anchors[|anchors| - 1].at <= t
    ensures var k := |anchors| - 1;
            && anchors[0].at <= t
            && -(k * (jump + 1)) <= Projected(anchors[k], t) - Projected(anchors[0], t) <= k * jump
  {
    var k := |anchors| - 1;
    OffsetsDrift(anchors, jump);
    ProjectionFromOffset(anchors[k], t);
    ProjectionFromOffset(anchors[0], t);
    FloorsDiffer(Offset(anchors[0]) + t, Offset(anchors[k]) + t, k, jump);
  }

  lemma FloorsDiffer(x: int, y: int, k: nat, jump: nat)
    requires -(k * (jump * MICROS + MICROS - 1)) <= y - x <= k * (jump * MICROS)
    ensures -(k * (jump + 1)) <= y / MICROS - x / MICROS <= k * jump
  {
  }

  /** Both bounds are met by a single sample, whatever the limit. */
  lemma BoundsAreTight(unix: u64, jump: nat)
    requires jump <= unix && unix + jump + 1 <= MAX_U64
    ensures Accepted([Anchor(unix, 0), Anchor(unix + jump, 0)], jump)
    ensures Projected(Anchor(unix + jump, 0), 0) - Projected(Anchor(unix, 0), 0) == jump
    ensures Accepted([Anchor(unix, 0), Anchor(unix - jump, 999_999)], jump)
    ensures Projected(Anchor(unix - jump, 999_999), 1_000_000) - Projected(Anchor(unix, 0), 1_000_000) == -(jump + 1)
  {
  }

  datatype Readiness = NotSynced | Ready | Stale

  datatype Snapshot = Snapshot(readiness: Readiness, source: Source, lastSync: u64, age: nat, resyncDue: bool)

  class TrustedClock {
    var synchronized: bool
    var baseUnix: u64
    var baseMonotonic: Micros
    var source: Source

    /** Every anchor since the last host synchronization or boot. */
    ghost var anchors: seq<Anchor>

    ghost predicate Valid()
      reads this
    {
      && (synchronized <==> anchors != [])
      && (synchronized ==> Accepted(anchors, MAX_NTP_JUMP) && anchors[|anchors| - 1] == Anchor(baseUnix, baseMonotonic))
    }

    constructor ()
      ensures Valid() && anchors == []
    {
      synchronized, baseUnix, baseMonotonic, source, anchors := false, 0, 0, NoSource, [];
    }

    method MarkSynchronized(unix: u64, at: Micros, from: Source)
      modifies this
      ensures Valid() && anchors == [Anchor(unix, at)] && source == from
    {
      synchronized, baseUnix, baseMonotonic, source := true, unix, at, from;
      anchors := [Anchor(unix, at)];
    }

    /** Rejection leaves everything as it was. */
    method AcceptNtpSample(unix: u64, at: Micros) returns (accepted: bool)
      requires Valid()
      modifies this
      ensures Valid()
      ensures accepted <==> old(anchors) == [] || Accepts(old(anchors)[|old(anchors)| - 1], Anchor(unix, at), MAX_NTP_JUMP)
      ensures accepted ==> anchors == old(anchors) + [Anchor(unix, at)] && source == Ntp
      ensures !accepted ==> unchanged(this)
    {
      if synchronized {
        if at < baseMonotonic { return false; }
        var elapsed := (at - baseMonotonic) / MICROS;
        if baseUnix > MAX_U64 - elapsed { return false; }
        var projected := baseUnix + elapsed;
        var delta := if unix >= projected then unix - projected else projected - unix;
        if delta > MAX_NTP_JUMP { return false; }
      }
      synchronized, baseUnix, baseMonotonic, source := true, unix, at, Ntp;
      anchors := anchors + [Anchor(unix, at)];
      accepted := true;
    }

    /** The reading, none when stale; with its distance from the first anchor's own projection. */
    method CurrentUnixSeconds(t: Micros) returns (now: Option<u64>)
      requires Valid()
      ensures now.Some? ==>
                var k := |anchors| - 1;
                && anchors != [] && anchors[0].at <= t && baseMonotonic <= t
                && now.value == Projected(Anchor(baseUnix, baseMonotonic), t)
                && -(k * (MAX_NTP_JUMP + 1)) <= now.value - Projected(anchors[0], t) <= k * MAX_NTP_JUMP
      ensures now.None? <==> !synchronized || t < baseMonotonic || t - baseMonotonic > STALE_AFTER * MICROS
                             || baseUnix + (t - baseMonotonic) / MICROS > MAX_U64
    {
      if !synchronized { return None; }
      if t < baseMonotonic || t - baseMonotonic > STALE_AFTER * MICROS { return None; }
      var elapsed := (t - baseMonotonic) / MICROS;
      if baseUnix > MAX_U64 - elapsed { return None; }
      DriftIsBounded(anchors, t, MAX_NTP_JUMP);
      now := Some(baseUnix + elapsed);
    }

    method TakeSnapshot(t: Micros) returns (s: Snapshot)
      requires Valid()
      ensures s.readiness == NotSynced <==> !synchronized
      ensures s.readiness == Ready <==> synchronized && baseMonotonic <= t && t - baseMonotonic <= STALE_AFTER * MICROS
      ensures s.readiness == Stale ==> s.resyncDue
      ensures synchronized ==> s.source == source && s.lastSync == baseUnix
      ensures s.readiness == Ready ==> (s.resyncDue <==> t - baseMonotonic >= RESYNC_INTERVAL * MICROS)
    {
      if !synchronized { return Snapshot(NotSynced, NoSource, 0, 0, false); }
      if t < baseMonotonic { return Snapshot(Stale, source, baseUnix, 0, true); }
      var elapsed := t - baseMonotonic;
      s := Snapshot(if elapsed > STALE_AFTER * MICROS then Stale else Ready, source, baseUnix, elapsed / MICROS,
                    elapsed >= RESYNC_INTERVAL * MICROS);
    }
  }
}
