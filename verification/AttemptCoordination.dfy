/**
 The session attempt as the firmware keeps it: the ephemeral-key session, the coordinator that
 binds it to a context and to the presence gate, and both proved to take the machine's steps.
 */
module AttemptCoordination {
  import opened Vocabulary
  import opened Presence
  import opened SessionBinding
  import opened SessionMachine

  const MAX_DEVICE_ID_BYTES: nat := 64

  datatype Descriptor = Descriptor(attemptId: AttemptId, challenge: nat, deviceKey: Key65, expiresAt: u64)

  /** Everything a signature or a sealed key is bound to; its encoding is injective. */
  datatype Transcript = Transcript(context: BeginContext, descriptor: Descriptor, webKey: Key65)

  type Signature = nat
  type Sealed = nat

  predicate OptionalKey(key: Key65, onCurve: Key65 -> bool) {
    key == 0 || onCurve(key)
  }

  predicate ContextValid(c: BeginContext, onCurve: Key65 -> bool) {
    && 0 < |c.deviceId| <= MAX_DEVICE_ID_BYTES && c.registrationId != 0
    && OptionalKey(c.currentKey, onCurve) && OptionalKey(c.proposedKey, onCurve)
    && match c.operation
       case TrustedBrowserUnlock | VmkRekey => c.registrationEpoch > 0 && c.currentKey != 0
       case InitialProvisioning => c.registrationEpoch == 0 && c.currentKey == 0 && c.proposedKey != 0
       case Recovery | BrowserReplacement => c.registrationEpoch > 0 && c.proposedKey != 0
  }

  class DeviceSession {
    var attemptId: AttemptId
    var challenge: nat
    var deviceKey: Key65
    var expiresAt: u64
    var active: bool

    const onCurve: Key65 -> bool
    const verifies: (Key65, Transcript, Signature) -> bool
    const opens: (Transcript, Sealed) -> Option<Vmk>

    constructor (curve: Key65 -> bool, verify: (Key65, Transcript, Signature) -> bool,
                 open: (Transcript, Sealed) -> Option<Vmk>)
      ensures !active && onCurve == curve && verifies == verify && opens == open
    {
      onCurve, verifies, opens := curve, verify, open;
      attemptId, challenge, deviceKey, expiresAt, active := 0, 0, 0, 0, false;
    }

    method Reset()
      modifies this
      ensures !active && attemptId == 0 && challenge == 0 && deviceKey == 0 && expiresAt == 0
    {
      attemptId, challenge, deviceKey, expiresAt, active := 0, 0, 0, 0, false;
    }

    method Begin(now: u64) returns (d: Option<Descriptor>)
      modifies this
      ensures d.Some? <==> active
      ensures d.Some? ==> d.value == Descriptor(attemptId, challenge, deviceKey, expiresAt)
                          && expiresAt == DeadlineFrom(now, ATTEMPT_TTL_MS)
    {
      Reset();
      var failed: bool := *;
      if failed { return None; }
      attemptId, challenge, deviceKey := *, *, *;
      expiresAt := DeadlineFrom(now, ATTEMPT_TTL_MS);
      active := true;
      d := Some(Descriptor(attemptId, challenge, deviceKey, expiresAt));
    }

    predicate ActiveAt(now: u64)
      reads this
    {
      active && now < expiresAt
    }

    method Expire(now: u64) returns (expired: bool)
      modifies this
      ensures expired <==> old(active) && old(expiresAt) <= now
      ensures expired ==> !active
      ensures !expired ==> unchanged(this)
    {
      if !active || now < expiresAt { return false; }
      Reset();
      expired := true;
    }

    method MatchesAttempt(id: AttemptId, now: u64) returns (matches: bool)
      modifies this
      ensures matches <==> old(ActiveAt(now)) && id == old(attemptId)
      ensures matches ==> unchanged(this)
      ensures !matches ==> !active
    {
      if !ActiveAt(now) || id != attemptId {
        Reset();
        return false;
      }
      matches := true;
    }

    method VerifyBrkSignature(key: Key65, t: Transcript, signature: Signature, now: u64) returns (valid: bool)
      modifies this
      ensures valid <==> old(ActiveAt(now)) && verifies(key, t, signature)
      ensures valid ==> unchanged(this)
      ensures !valid ==> !active
    {
      if !ActiveAt(now) || !verifies(key, t, signature) {
        Reset();
        return false;
      }
      valid := true;
    }

    /** One shot: success and failure both destroy the ephemeral key. */
    method OpenVmk(t: Transcript, sealed: Sealed, now: u64) returns (vmk: Option<Vmk>)
      modifies this
      ensures !active
      ensures vmk == if old(ActiveAt(now)) then opens(t, sealed) else None
    {
      vmk := if ActiveAt(now) then opens(t, sealed) else None;
      Reset();
    }
  }

  ghost function AuthorizeEvent(was: Machine<BeginContext>, ok: bool, now: u64): Event<BeginContext> {
    SessionMachine.Authorize(
      if was.attempt.Started? then was.attempt.context.operation else TrustedBrowserUnlock, ok, now)
  }

  datatype AttemptState = NotStarted | AwaitingAuthorization | AwaitingPresence

  class AttemptCoordinator {
    const presence: CanonicalPresence
    const crypto: DeviceSession
    var context: Option<BeginContext>
    var descriptor: Descriptor
    var transcript: Option<Transcript>
    var active: bool
    var state: AttemptState

    /** The signature that authorized the attempt, where one was needed. */
    ghost var signature: Option<Signature>

    /** What has happened to the attempt and the gate, from either thread. */
    ghost var log: seq<Event<BeginContext>>

    ghost function View(): Machine<BeginContext>
      reads this, presence, presence.gate, crypto
    {
      Machine(
        if !active || context.None? then NoAttempt
        else if state == AwaitingAuthorization then Started(context.value, descriptor.attemptId, descriptor.expiresAt)
        else Authorized(context.value, descriptor.attemptId, descriptor.expiresAt),
        presence.View(), presence.buttonPressGeneration)
    }

    ghost predicate Valid()
      reads this, presence, presence.gate, crypto
    {
      Consistent() && View() == Replay(log)
    }

    ghost predicate Consistent()
      reads this, presence, presence.gate, crypto
    {
      && presence.Valid()
      && (active <==> crypto.active) && (active <==> state != NotStarted)
      && (active ==>
            && context.Some? && ContextValid(context.value, crypto.onCurve)
            && crypto.attemptId == descriptor.attemptId && crypto.expiresAt == descriptor.expiresAt)
      && (state == AwaitingPresence ==>
            && transcript.Some? && transcript.value.context == context.value && transcript.value.descriptor == descriptor
            && (UsesRegistration(context.value.operation) ==>
                  signature.Some? && crypto.verifies(context.value.currentKey, transcript.value, signature.value)))
    }

    constructor (p: CanonicalPresence, s: DeviceSession)
      requires p.Valid() && p.View() == Idle && p.buttonPressGeneration == 0 && !s.active
      ensures Valid() && !active && presence == p && crypto == s && log == []
    {
      presence, crypto := p, s;
      context, descriptor, transcript, active, state := None, Descriptor(0, 0, 0, 0), None, false, NotStarted;
      signature, log := None, [];
    }

    /** The gate was moved by the button, the clock or a reset: the attempt takes note. */
    ghost method Note(e: Event<BeginContext>)
      requires Consistent() && View() == Step(Replay(log), e)
      modifies this`log
      ensures Valid() && log == old(log) + [e]
    {
      ReplayAppends(log, e);
      log := log + [e];
    }

    method WipeStaged()
      modifies this
      ensures log == old(log)
      ensures context.None? && transcript.None? && !active && state == NotStarted
    {
      context, descriptor, transcript, active, state := None, Descriptor(0, 0, 0, 0), None, false, NotStarted;
      signature := None;
    }

    /** Ends any attempt and clears the gate, whoever had it. */
    method Drop()
      modifies this, crypto, presence.gate
      ensures Consistent() && !active && log == old(log)
      ensures presence.View() == Idle && View() == Machine(NoAttempt, Idle, presence.buttonPressGeneration)
    {
      crypto.Reset();
      presence.CancelPresence();
      WipeStaged();
    }

    method Cancel()
      requires Valid()
      modifies this, crypto, presence.gate
      ensures Valid() && !active && presence.View() == Idle
      ensures log == old(log) + [SessionMachine.Cancel]
    {
      Drop();
      Note(SessionMachine.Cancel);
    }

    method Begin(c: BeginContext, now: u64) returns (d: Option<Descriptor>)
      requires Valid()
      modifies this, crypto, presence.gate
      ensures Valid() && presence.View() == Idle
      ensures log == old(log) + [SessionMachine.Begin(c, if d.Some? then Some(d.value.attemptId) else None, now)]
      ensures d.Some? <==> active
      ensures d.Some? ==> descriptor == d.value && context == Some(c) && state == AwaitingAuthorization
                          && ContextValid(c, crypto.onCurve) && d.value.expiresAt == DeadlineFrom(now, ATTEMPT_TTL_MS)
    {
      Drop();
      if !ContextValid(c, crypto.onCurve) {
        d := None;
      } else {
        d := crypto.Begin(now);
        if d.Some? {
          context, descriptor, transcript := Some(c), d.value, None;
          active, state := true, AwaitingAuthorization;
        }
      }
      Note(SessionMachine.Begin(c, if d.Some? then Some(d.value.attemptId) else None, now));
    }

    /** Unlock and re-key need the current browser's signature; a supplied one is never ignored. */
    method Authorize(webKey: Key65, brkSignature: Option<Signature>, now: u64) returns (ok: bool)
      requires Valid()
      modifies this, crypto, presence.gate
      ensures Valid()
      ensures ok ==> old(View()).attempt.Started? && now < old(View()).attempt.expiresAt
      ensures log == old(log) + [AuthorizeEvent(old(View()), ok, now)]
      ensures ok <==> active
      ensures !ok ==> presence.View() == Idle
      ensures ok ==> state == AwaitingPresence && context == old(context) && descriptor == old(descriptor)
                     && presence.View() == Begun(ForSession(context.value.operation), descriptor.attemptId, now,
                                                 presence.buttonPressGeneration)
      ensures ok ==> crypto.onCurve(webKey)
      ensures ok && (brkSignature.Some? || UsesRegistration(old(View()).attempt.context.operation)) ==>
                && brkSignature.Some?
                && crypto.verifies(old(View()).attempt.context.currentKey,
                                   Transcript(old(View()).attempt.context, descriptor, webKey), brkSignature.value)
    {
      var t := CheckAuthorization(webKey, brkSignature, now);
      ok := t.Some?;
      if ok {
        presence.BeginPresence(ForSession(context.value.operation), descriptor.attemptId, now);
        transcript, state := t, AwaitingPresence;
        signature := brkSignature;
      } else {
        Drop();
      }
      Note(AuthorizeEvent(old(View()), ok, now));
    }

    /** The checks before presence is asked for; None when any of them fails. */
    method CheckAuthorization(webKey: Key65, brkSignature: Option<Signature>, now: u64) returns (t: Option<Transcript>)
      requires Valid()
      modifies crypto
      ensures t.Some? ==>
                && active && state == AwaitingAuthorization && now < descriptor.expiresAt
                && t.value == Transcript(context.value, descriptor, webKey) && unchanged(crypto)
                && crypto.onCurve(webKey)
                && (brkSignature.Some? || UsesRegistration(context.value.operation) ==>
                      brkSignature.Some? && crypto.verifies(context.value.currentKey, t.value, brkSignature.value))
    {
      if !active || state != AwaitingAuthorization { return None; }
      var current := crypto.MatchesAttempt(descriptor.attemptId, now);
      if !current { return None; }
      t := Some(Transcript(context.value, descriptor, webKey));
      if !crypto.onCurve(descriptor.deviceKey) || !crypto.onCurve(webKey) { return None; }
      if UsesRegistration(context.value.operation) || brkSignature.Some? {
        if brkSignature.None? || context.value.currentKey == 0 { return None; }
        var valid := crypto.VerifyBrkSignature(context.value.currentKey, t.value, brkSignature.value, now);
        if !valid { return None; }
      }
    }

    /** Hands out the key at most once, and ends the attempt whatever happens. */
    method Complete(sealed: Sealed, now: u64) returns (vmk: Option<Vmk>)
      requires Valid()
      modifies this, crypto, presence.gate
      ensures Valid() && !active && presence.View() == Idle
      ensures log == old(log) + [SessionMachine.Complete(vmk, now)]
      ensures vmk.Some? ==> JustGaveOut(log, vmk.value)
      ensures vmk.Some? ==> Consumable(old(presence.View()), old(descriptor).attemptId, now)
      ensures vmk.Some? ==> old(state) == AwaitingPresence && vmk == crypto.opens(old(transcript).value, sealed)
    {
      vmk := None;
      var current := false;
      if active && state == AwaitingPresence {
        current := crypto.MatchesAttempt(descriptor.attemptId, now);
      }
      var consumed := false;
      if current {
        consumed := presence.ConsumePresence(descriptor.attemptId, now);
      }
      if consumed {
        vmk := crypto.OpenVmk(transcript.value, sealed, now);
        WipeStaged();
        if vmk.Some? { ReleaseIsJustified(log, SessionMachine.Complete(vmk, now)); }
      } else {
        Drop();
      }
      Note(SessionMachine.Complete(vmk, now));
    }

    method Expire(now: u64) returns (expired: bool)
      requires Valid()
      modifies this, crypto, presence.gate
      ensures Valid() && log == old(log) + [ExpireAttempt(now)]
      ensures expired <==> old(active) && old(descriptor).expiresAt <= now
      ensures expired ==> !active && presence.View() == Idle
      ensures !expired ==> unchanged(crypto, presence.gate) && SameAttempt(old(View()), old(state), old(context), old(descriptor))
    {
      expired := false;
      if active {
        var cryptoExpired := crypto.Expire(now);
        if cryptoExpired || now >= descriptor.expiresAt {
          Drop();
          expired := true;
        }
      }
      Note(ExpireAttempt(now));
    }

    ghost predicate SameAttempt(was: Machine<BeginContext>, wasState: AttemptState, wasContext: Option<BeginContext>,
                                wasDescriptor: Descriptor)
      reads this, presence, presence.gate, crypto
    {
      View() == was && state == wasState && context == wasContext && descriptor == wasDescriptor
      && active == (wasState != NotStarted)
    }
  }
}
