/**
 The Device from boot to boot: any sequence of protocol lines, button events, expiries and power
 cycles, with the line of registrations it has had since they were last cleared.
 */
module DeviceLife {
  import opened Vocabulary
  import opened Presence
  import opened SessionBinding
  import opened AttemptCoordination
  import opened VmkSink
  import opened DeviceView
  import C = CommitProtocol
  import opened StagedSession
  import opened CanonicalProtocol
  import R = RegistrationStore
  import V = VaultRuntime

  /** After one line: the registrations since the last clearing, and what sessions may be bound to. */
  datatype Moment = Moment(registrations: seq<R.Registration>, shown: Option<DeviceSnapshot>)

  function Lines(past: seq<Moment>): (lines: seq<seq<R.Registration>>)
    ensures |lines| == |past| && forall k :: 0 <= k < |past| ==> lines[k] == past[k].registrations
  {
    seq(|past|, k requires 0 <= k < |past| => past[k].registrations)
  }

  /** A snapshot shows the latest registration of its line, or none. */
  ghost predicate Faithful(m: Moment) {
    m.shown.Some? && m.shown.value.registrationPresent ==>
      m.registrations != [] && R.Shows(m.shown.value, m.registrations[|m.registrations| - 1])
  }

  ghost predicate Recorded(past: seq<Moment>) {
    && past != [] && R.UnclearedRun(Lines(past))
    && forall k :: 0 <= k < |past| ==> Faithful(past[k])
  }

  class Device {
    var handler: CanonicalProtocolHandler
    ghost var past: seq<Moment>

    ghost function Now(): Moment
      reads this, handler.session.sink, handler.session.sink.runtime, handler.session.sink.registration
    {
      Moment(handler.session.sink.registration.history, handler.session.sink.Snapshot())
    }

    ghost predicate Valid()
      reads this, handler, handler.healthy, handler.session, handler.session.coordinator
      reads handler.session.coordinator.presence, handler.session.coordinator.presence.gate
      reads handler.session.coordinator.crypto, handler.session.sink, handler.session.sink.runtime
      reads handler.session.sink.runtime.persistence, handler.session.sink.registration
    {
      && handler.Safe() && Recorded(past)
      && past[|past| - 1].registrations == handler.session.sink.registration.history
    }

    constructor (h: CanonicalProtocolHandler)
      requires h.Safe()
      ensures Valid() && handler == h && past == [Now()]
    {
      handler := h;
      new;
      NowIsFaithful();
      past := [Now()];
    }

    lemma NowIsFaithful()
      requires handler.Safe()
      ensures Faithful(Now()) && R.Chain(Now().registrations)
    {
    }

    /** Notes the moment; `cleared` starts a new line. */
    ghost method Note(cleared: bool)
      requires handler.Safe() && Recorded(past)
      requires cleared || R.Grows(past[|past| - 1].registrations, handler.session.sink.registration.history)
      modifies this`past
      ensures Valid() && past == if cleared then [Now()] else old(past) + [Now()]
    {
      NowIsFaithful();
      past := if cleared then [Now()] else past + [Now()];
    }

    /** A line either adds a moment to the line of registrations or, confirmed, starts a new one. */
    method HandleLine(line: Line, now: u64) returns (reply: Reply)
      requires Valid()
      modifies this`past, handler, handler.healthy, handler.session, handler.session.coordinator
      modifies handler.session.coordinator.presence.gate, handler.session.coordinator.crypto
      modifies handler.session.sink, handler.session.sink.runtime, handler.session.sink.runtime.persistence
      modifies handler.session.sink.registration
      ensures Valid() && handler == old(handler) && handler.DeviceMoved(LineCause(line, old(handler.session.context)))
      ensures past == old(past) + [Now()]
              || (past == [Now()] && Now().registrations == [] && handler.ResetConfirmed(old(handler.Gate()), now))
    {
      hide Recorded, CanonicalProtocolHandler.Safe;
      ghost var before := handler.session.sink.registration.history;
      reply := handler.HandleLine(line, now);
      NowIsFaithful();
      Note(!(before <= handler.session.sink.registration.history));
    }

    method Housekeeping(now: u64)
      requires Valid()
      modifies handler, handler.healthy, handler.session, handler.session.coordinator
      modifies handler.session.coordinator.presence.gate, handler.session.coordinator.crypto
      modifies handler.session.sink, handler.session.sink.runtime
      ensures Valid() && handler.DeviceMoved(NoCause)
    {
      hide Recorded;
      handler.Housekeeping(now);
    }

    method ObserveButton(pressed: bool)
      requires Valid()
      modifies handler.session.coordinator`log, handler.session.coordinator.presence.gate
      ensures Valid()
    {
      hide Recorded;
      handler.ObserveButton(pressed);
    }

    method PressButton(now: u64)
      requires Valid()
      modifies handler.session.coordinator`log, handler.session.coordinator.presence, handler.session.coordinator.presence.gate
      ensures Valid()
    {
      hide Recorded;
      var confirmed := handler.PressButton(now);
    }

    /** The registration record wears out. */
    method Wear(damaged: seq<byte>)
      requires Valid() && handler.session.sink.registration.record.Some?
      requires R.Decode(damaged, handler.session.sink.registration.onCurve).None?
      modifies handler.session.sink.registration`record
      ensures Valid()
    {
      hide Recorded;
      handler.session.sink.registration.Decay(damaged);
    }

    /** Everything in RAM is built anew from flash; to the protocol, a boot. */
    method PowerCycle()
      requires Valid()
      modifies this, handler.session.sink.runtime, handler.session.sink.registration
      ensures Valid() && past == old(past) + [Now()] && fresh(handler)
      ensures handler.NothingLive() && handler.session.sink.runtime.vmk.None?
      ensures old(handler.session.sink.registration.deviceIdRecord).Some? ==> C.Drifts(old(handler.Seen()), handler.Seen())
    {
      hide Recorded, CanonicalProtocolHandler.Safe, CanonicalProtocolHandler.NothingLive;
      HandlerHasDevice();
      var sink := handler.session.sink;
      handler := Boot(sink.runtime, sink.registration, handler.session.coordinator.crypto);
      NowIsFaithful();
      Note(false);
    }

    /** What a boot can show: flash as it is, nothing, or a Device to be reprovisioned. */
    ghost predicate Booted(runtime: V.Runtime)
      reads runtime, runtime.persistence
    {
      match runtime.state
      case Unprovisioned => runtime.envelope.None? && runtime.Persistent().None? && !runtime.recoveryResetAllowed
      case Locked => runtime.envelope.Some? && runtime.envelope == runtime.Persistent() && !runtime.recoveryResetAllowed
      case Reprovision => runtime.envelope.None? && runtime.Persistent().None? && runtime.recoveryResetAllowed
      case Failed => runtime.envelope.None?
      case Unlocked => false
    }

    lemma HandlerHasDevice()
      requires handler.Safe()
      ensures handler.session.sink.DeviceValid()
    {
    }

    method Boot(runtime: V.Runtime, registration: R.Store, crypto: DeviceSession) returns (h: CanonicalProtocolHandler)
      requires runtime.Valid() && registration.Valid()
      modifies runtime, registration
      ensures fresh(h) && fresh(h.session) && fresh(h.session.coordinator) && fresh(h.session.sink)
      ensures h.session.sink.runtime == runtime && h.session.sink.registration == registration
      ensures h.Safe() && h.NothingLive() && runtime.vmk.None?
      ensures runtime.Persistent() == old(runtime.Persistent()) && registration.Kept()
      ensures old(registration.deviceIdRecord).Some? ==> registration.deviceIdRecord == old(registration.deviceIdRecord)
      ensures Booted(runtime) && !h.session.sink.pending
    {
      hide Armed, FreshEdge, V.Opens, V.WellFramed, R.Chain, R.Decode;
      runtime.Initialize();
      var status := registration.Initialize();
      var sink := new CanonicalVmkSink(runtime, registration);
      var coordinator := NewCoordinator(crypto.onCurve, crypto.verifies, crypto.opens);
      var staged := new StagedSessionHandler(coordinator, sink);
      h := new CanonicalProtocolHandler(staged);
    }

    method NewCoordinator(curve: Key65 -> bool, verify: (Key65, Transcript, Signature) -> bool,
                          open: (Transcript, Sealed) -> Option<Vmk>) returns (c: AttemptCoordinator)
      ensures fresh(c) && fresh(c.presence) && fresh(c.presence.gate) && fresh(c.crypto)
      ensures c.Valid() && !c.active && c.presence.View() == Idle
    {
      var presence := new CanonicalPresence();
      var session := new DeviceSession(curve, verify, open);
      c := new AttemptCoordinator(presence, session);
    }

    // ----- what follows for any sequence of lines and boots without a clearing -----

    lemma EpochNamesOneRegistration(i: nat, j: nat, m: nat, n: nat)
      requires Valid() && i < |past| && j < |past| && m < |past[i].registrations| && n < |past[j].registrations|
      requires past[i].registrations[m].epoch == past[j].registrations[n].epoch
      ensures past[i].registrations[m] == past[j].registrations[n]
    {
      R.EpochNamesOneRegistration(Lines(past), i, j, m, n);
    }

    /** Epochs start at 1 and rise by one with each replacement. */
    lemma EpochsCountReplacements(i: nat, j: nat)
      requires Valid() && i <= j < |past| && past[i].registrations != []
      ensures past[i].registrations[0].epoch == 1 && past[i].registrations <= past[j].registrations
      ensures var a, b := past[i].registrations, past[j].registrations;
              b[|b| - 1].epoch == a[|a| - 1].epoch + (|b| - |a|)
    {
      R.RunsOnlyAppend(Lines(past), i, j);
    }

    /** A binding admitted at one time is not admitted at any later time, once it was replaced. */
    lemma SupersededNeverMatches(i: nat, j: nat, c: BeginContext)
      requires Valid() && i <= j < |past| && UsesRegistration(c.operation)
      requires past[i].shown.Some? && BeginMatches(c, past[i].shown.value)
      requires past[i].registrations != past[j].registrations && past[j].shown.Some?
      ensures !BeginMatches(c, past[j].shown.value)
    {
      var lines := Lines(past);
      assert Faithful(past[i]) && Faithful(past[j]);
      R.RunsOnlyAppend(lines, i, j);
      assert |lines[i]| < |lines[j]|;
      if past[j].shown.value.registrationPresent {
        assert lines[j][..|lines[i]|][|lines[i]| - 1] == lines[j][|lines[i]| - 1];
        R.SupersededNeverMatches(lines, j, j, |lines[i]| - 1, c, past[j].shown.value);
      }
    }
  }
}
