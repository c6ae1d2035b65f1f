/** The session operations: every step re-checks that the attempt's binding still describes the Device. */
module StagedSession {
  import opened Vocabulary
  import opened Presence
  import opened SessionBinding
  import opened AttemptCoordination
  import opened VmkSink
  import opened DeviceView
  import M = SessionMachine
  import V = VaultRuntime

  datatype Reply = Success | Began(descriptor: Descriptor) | StateIs(name: string) | Failure(code: string)

  datatype Authorization = Authorization(attemptId: AttemptId, webKey: Key65, signature: Option<Signature>)
  datatype Delivery = Delivery(attemptId: AttemptId, sealed: Sealed)

  /** Parameters that did not parse are None. */
  datatype SessionRequest =
    | BeginSession(operationKnown: bool, context: Option<BeginContext>)
    | AuthorizeSession(authorization: Option<Authorization>)
    | SessionStatus(attemptId: Option<AttemptId>)
    | CompleteSession(delivery: Option<Delivery>)
    | CancelSession(attemptId: Option<AttemptId>)
    | UnknownSessionOperation

  /** What a completed session can make the Device do. */
  function KeyCause(context: Option<BeginContext>): Cause {
    if context.Some? then Delivered(context.value) else NoCause
  }

  class StagedSessionHandler {
    const coordinator: AttemptCoordinator
    const sink: CanonicalVmkSink
    var context: Option<BeginContext>

    ghost predicate Valid()
      reads this, coordinator, coordinator.presence, coordinator.presence.gate, coordinator.crypto
      reads sink, sink.runtime, sink.runtime.persistence, sink.registration
    {
      coordinator.Valid() && sink.Valid() && ContextMatches()
    }

    ghost predicate ContextMatches()
      reads this, coordinator
    {
      (context.Some? <==> coordinator.active) && (context.Some? ==> context == coordinator.context)
    }

    /** An attempt at a first installation was begun on an installable Device, which it still is. */
    ghost predicate Prepared()
      reads this, sink, sink.runtime
    {
      context.Some? && context.value.operation == InitialProvisioning ==> sink.runtime.state in {V.Unprovisioned, V.Reprovision}
    }

    predicate CurrentBindingMatches()
      reads this, sink, sink.runtime, sink.registration
    {
      context.Some? && sink.Snapshot().Some? && BeginMatches(context.value, sink.Snapshot().value)
    }

    predicate Current(id: AttemptId)
      reads this, coordinator
    {
      context.Some? && coordinator.active && id == coordinator.descriptor.attemptId
    }

    constructor (c: AttemptCoordinator, s: CanonicalVmkSink)
      requires c.Valid() && s.Valid() && !c.active
      ensures Valid() && coordinator == c && sink == s && context.None?
    {
      coordinator, sink, context := c, s, None;
    }

    method Disconnect()
      requires Valid()
      modifies this, coordinator, coordinator.presence.gate, coordinator.crypto
      ensures Valid() && !coordinator.active && coordinator.presence.View() == Idle
      ensures coordinator.log == old(coordinator.log) + [M.Cancel]
    {
      hide M.Replay, M.Step, M.JustGaveOut, Armed, FreshEdge, V.Opens, V.WellFramed;
      coordinator.Cancel();
      context := None;
    }

    method FailClosed(code: string) returns (reply: Reply)
      requires Valid()
      modifies this, coordinator, coordinator.presence.gate, coordinator.crypto
      ensures Valid() && reply == Failure(code) && !coordinator.active && coordinator.presence.View() == Idle
      ensures coordinator.log == old(coordinator.log) + [M.Cancel]
    {
      Disconnect();
      reply := Failure(code);
    }

    method Expire(now: u64) returns (expired: bool)
      requires Valid()
      modifies this, coordinator, coordinator.presence.gate, coordinator.crypto
      ensures Valid() && coordinator.log == old(coordinator.log) + [M.ExpireAttempt(now)]
      ensures expired ==> old(coordinator.active) && !coordinator.active && coordinator.presence.View() == Idle
      ensures coordinator.active ==> now < coordinator.descriptor.expiresAt
      ensures expired ==> old(coordinator.descriptor).expiresAt <= now
      ensures !expired ==>
                && coordinator.active == old(coordinator.active) && coordinator.state == old(coordinator.state)
                && coordinator.descriptor == old(coordinator.descriptor) && context == old(context)
                && unchanged(coordinator.presence.gate)
      ensures context in {None, old(context)}
    {
      hide M.Replay, M.Step, M.JustGaveOut, Armed, FreshEdge, V.Opens, V.WellFramed;
      expired := coordinator.Expire(now);
      if expired { context := None; }
    }

    method Begin(parsed: Option<BeginContext>, now: u64) returns (reply: Reply)
      requires Valid()
      modifies this, coordinator, coordinator.presence.gate, coordinator.crypto
      ensures Valid() && coordinator.presence.View() == Idle
      ensures reply.Failure? <==> !coordinator.active
      ensures coordinator.active ==>
                && parsed.Some? && context == parsed && CurrentBindingMatches()
                && coordinator.state == AwaitingAuthorization && reply == Began(coordinator.descriptor)
                && coordinator.descriptor.expiresAt == DeadlineFrom(now, ATTEMPT_TTL_MS)
      ensures old(coordinator.log) <= coordinator.log
    {
      hide M.Replay, M.Step, M.JustGaveOut, Armed, FreshEdge, V.Opens, V.WellFramed;
      coordinator.Cancel();
      context := None;
      if parsed.None? { return Failure("invalid_request"); }
      var snapshot := sink.Snapshot();
      if snapshot.None? { return Failure("invalid_state"); }
      if !BeginMatches(parsed.value, snapshot.value) { return Failure("binding_mismatch"); }
      var d := coordinator.Begin(parsed.value, now);
      if d.None? { return Failure("invalid_request"); }
      context := parsed;
      reply := Began(d.value);
    }

    /** Presence is asked for only under a binding that still holds and a signature that verifies. */
    method Authorize(request: Option<Authorization>, now: u64) returns (reply: Reply)
      requires Valid()
      modifies this, coordinator, coordinator.presence.gate, coordinator.crypto
      ensures Valid()
      ensures reply.Failure? <==> !coordinator.active
      ensures !coordinator.active ==> coordinator.presence.View() == Idle
      ensures coordinator.active ==>
                && old(coordinator.active) && context == old(context) && CurrentBindingMatches()
                && coordinator.state == AwaitingPresence && now < coordinator.descriptor.expiresAt
                && coordinator.presence.View() == Begun(ForSession(context.value.operation), coordinator.descriptor.attemptId,
                                                        now, coordinator.presence.buttonPressGeneration)
                && (UsesRegistration(context.value.operation) ==>
                      && request.Some? && request.value.signature.Some?
                      && coordinator.crypto.verifies(sink.Snapshot().value.key,
                                                     Transcript(context.value, coordinator.descriptor, request.value.webKey),
                                                     request.value.signature.value))
      ensures old(coordinator.log) <= coordinator.log
    {
      hide M.Replay, M.Step, M.JustGaveOut, Armed, FreshEdge, V.Opens, V.WellFramed;
      if request.None? {
        reply := FailClosed("invalid_request");
      } else if !Current(request.value.attemptId) {
        reply := FailClosed("stale_attempt");
      } else if !CurrentBindingMatches() {
        reply := FailClosed("binding_mismatch");
      } else {
        var ok := coordinator.Authorize(request.value.webKey, request.value.signature, now);
        if ok { return Success; }
        context := None;
        reply := Failure("authentication_failed");
      }
    }

    method Status(id: Option<AttemptId>, now: u64) returns (reply: Reply)
      requires Valid()
      modifies this, coordinator, coordinator.presence.gate, coordinator.crypto
      ensures Valid() && old(coordinator.log) <= coordinator.log
      ensures !coordinator.active ==> coordinator.presence.View() == Idle
      ensures coordinator.active ==>
                && reply.StateIs? && context == old(context) && CurrentBindingMatches()
                && coordinator.SameAttempt(old(coordinator.View()), old(coordinator.state), old(coordinator.context), old(coordinator.descriptor))
      ensures reply == StateIs("confirmed") ==> coordinator.state == AwaitingPresence && coordinator.presence.View().Confirmed?
    {
      hide M.Replay, M.Step, M.JustGaveOut, Armed, FreshEdge, V.Opens, V.WellFramed;
      if id.None? {
        reply := FailClosed("invalid_request");
      } else if !Current(id.value) {
        reply := FailClosed("stale_attempt");
      } else if !CurrentBindingMatches() {
        reply := FailClosed("binding_mismatch");
      } else {
        var expired := coordinator.Expire(now);
        if expired {
          context := None;
          return StateIs("expired");
        }
        reply := StateIs(match coordinator.state
                         case NotStarted => "cancelled"
                         case AwaitingAuthorization => "awaiting_authorization"
                         case AwaitingPresence =>
                           if coordinator.presence.PresenceConfirmed() then "confirmed" else "awaiting_presence");
      }
    }

    /** A key goes on to the sink only when the binding holds before and after it is opened. */
    method Complete(request: Option<Delivery>, now: u64) returns (reply: Reply)
      requires Valid() && Prepared()
      modifies this, coordinator, coordinator.presence.gate, coordinator.crypto, sink, sink.runtime, sink.registration
      ensures Valid() && !coordinator.active && coordinator.presence.View() == Idle
      ensures old(coordinator.log) <= coordinator.log
      ensures sink.runtime.Persistent() == old(sink.runtime.Persistent())
      ensures sink.pending ==> (old(sink.pending) && unchanged(sink)) || (reply == Success && M.JustGaveOut(coordinator.log, sink.pendingVmk))
      ensures !old(coordinator.active) ==> unchanged(sink) && unchanged(sink.runtime) && unchanged(sink.registration)
      ensures sink.runtime.vmk.Some? && sink.runtime.vmk != old(sink.runtime.vmk) ==>
                M.JustGaveOut(coordinator.log, sink.runtime.vmk.value)
      ensures sink.registration.Kept() || sink.registration.Appended()
      ensures old(sink.Snapshot()).None? ==> unchanged(sink.registration)
      ensures sink.Moved(KeyCause(old(context)))
    {
      hide M.Replay, M.Step, M.JustGaveOut, Armed, FreshEdge, V.Opens, V.WellFramed, Reaches;
      Stays(sink.Seen(), KeyCause(old(context)));
      if request.None? {
        reply := FailClosed("invalid_request");
      } else if !Current(request.value.attemptId) {
        reply := FailClosed("stale_attempt");
      } else if !CurrentBindingMatches() {
        reply := FailClosed("binding_mismatch");
      } else {
        reply := Deliver(request.value.sealed, now);
      }
    }

    method Deliver(sealed: Sealed, now: u64) returns (reply: Reply)
      requires Valid() && Prepared() && coordinator.active && CurrentBindingMatches()
      modifies this, coordinator, coordinator.presence.gate, coordinator.crypto, sink, sink.runtime, sink.registration
      ensures Valid() && !coordinator.active && coordinator.presence.View() == Idle
      ensures old(coordinator.log) <= coordinator.log
      ensures sink.runtime.Persistent() == old(sink.runtime.Persistent())
      ensures sink.pending ==> (old(sink.pending) && unchanged(sink)) || (reply == Success && M.JustGaveOut(coordinator.log, sink.pendingVmk))
      ensures sink.runtime.vmk.Some? && sink.runtime.vmk != old(sink.runtime.vmk) ==>
                M.JustGaveOut(coordinator.log, sink.runtime.vmk.value)
      ensures sink.registration.Kept() || sink.registration.Appended()
      ensures sink.Moved(KeyCause(old(context)))
    {
      hide M.Replay, M.Step, M.JustGaveOut, Armed, FreshEdge, V.Opens, V.WellFramed, BeginMatches, Reaches;
      var vmk := coordinator.Complete(sealed, now);
      if vmk.None? {
        Stays(sink.Seen(), KeyCause(old(context)));
        reply := Failure("session_rejected");
      } else {
        reply := HandOver(vmk.value, now);
      }
      context := None;
    }

    /** The opened key goes to the sink, under a binding that still holds. */
    method HandOver(vmk: Vmk, now: u64) returns (reply: Reply)
      requires sink.Valid() && Prepared() && context.Some?
      modifies sink, sink.runtime, sink.registration
      ensures sink.Valid() && sink.runtime.Persistent() == old(sink.runtime.Persistent())
      ensures sink.pending ==> (old(sink.pending) && unchanged(sink)) || (reply == Success && sink.pendingVmk == vmk)
      ensures sink.runtime.vmk.Some? && sink.runtime.vmk != old(sink.runtime.vmk) ==> sink.runtime.vmk == Some(vmk)
      ensures sink.registration.Kept() || sink.registration.Appended()
      ensures !old(CurrentBindingMatches()) ==> reply.Failure? && unchanged(sink) && unchanged(sink.runtime) && unchanged(sink.registration)
      ensures sink.Moved(KeyCause(context))
    {
      hide V.Opens, V.WellFramed, Reaches, BeginMatches;
      if !CurrentBindingMatches() {
        Stays(sink.Seen(), KeyCause(context));
        return Failure("binding_mismatch");
      }
      var installed := sink.InstallVmk(context.value, vmk, now);
      StepReaches(old(sink.Seen()), sink.Seen(), KeyCause(context));
      reply := if installed then Success else Failure("invalid_state");
    }

    method Cancel(id: Option<AttemptId>) returns (reply: Reply)
      requires Valid()
      modifies this, coordinator, coordinator.presence.gate, coordinator.crypto
      ensures Valid() && !coordinator.active && old(coordinator.log) <= coordinator.log
      ensures old(coordinator.active) ==> coordinator.presence.View() == Idle
      ensures coordinator.presence.View() in {Idle, old(coordinator.presence.View())}
    {
      hide M.Replay, M.Step, M.JustGaveOut, Armed, FreshEdge, V.Opens, V.WellFramed;
      if id.None? {
        reply := FailClosed("invalid_request");
      } else if context.None? || !coordinator.active {
        context := None;
        reply := Success;
      } else if id.value != coordinator.descriptor.attemptId {
        reply := FailClosed("stale_attempt");
      } else {
        coordinator.Cancel();
        context := None;
        reply := Success;
      }
    }
  }
}
