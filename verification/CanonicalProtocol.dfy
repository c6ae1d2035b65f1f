/**
 The Device's protocol handler: one line at a time, it moves the session attempt, the pending
 key, the two kinds of factory reset and the runtime, all of which share one presence gate.
 */
module CanonicalProtocol {
  import opened Vocabulary
  import opened Presence
  import opened SessionBinding
  import opened AttemptCoordination
  import opened VmkSink
  import opened DeviceView
  import C = CommitProtocol
  import opened StagedSession
  import M = SessionMachine
  import R = RegistrationStore
  import V = VaultRuntime

  datatype ResetDecision = NotRequired | Required | Unavailable

  /** Whether the Device needs the destructive recovery, from what RAM shows. */
  function ClassifyReset(m: V.Metadata, ready: bool, recoverable: bool, r: R.Snapshot): ResetDecision {
    if m.state == V.Failed || m.state == V.Reprovision then
      if !m.resetAllowed || (!ready && !recoverable) then Unavailable else Required
    else if !ready then
      if recoverable then Required else Unavailable
    else if m.vault.Some? != r.registration.Some? then Required
    else if m.vault.Some? && m.vault.value.vaultId != r.registration.value.vaultId then Required
    else NotRequired
  }

  datatype Check = CheckOk | Inactive | Mismatch | Late

  class FactoryResetAuthorization {
    var attemptId: AttemptId
    var deadline: u64
    var active: bool

    constructor ()
      ensures !active
    {
      attemptId, deadline, active := 0, 0, false;
    }

    method Begin(id: AttemptId, now: u64)
      modifies this
      ensures active && attemptId == id && deadline == DeadlineFrom(now, ATTEMPT_TTL_MS)
    {
      attemptId, deadline, active := id, DeadlineFrom(now, ATTEMPT_TTL_MS), true;
    }

    function CheckAt(id: AttemptId, now: u64): Check
      reads this
    {
      if !active then Inactive else if id != attemptId then Mismatch else if deadline <= now then Late else CheckOk
    }

    method Cancel()
      modifies this
      ensures !active
    {
      attemptId, deadline, active := 0, 0, false;
    }
  }

  /** A parsed line; ids and envelopes that did not parse are None. */
  datatype Line =
    | EmptyLine
    | Unusable(code: string)
    | SessionOperation(request: SessionRequest, tooLong: bool)
    | Hello
    | ResetBegin | ResetStatus(attemptId: Option<AttemptId>) | ResetCancel(attemptId: Option<AttemptId>)
    | ResetCommit(attemptId: Option<AttemptId>)
    | RecoveryBegin | RecoveryStatus(attemptId: Option<AttemptId>) | RecoveryComplete(attemptId: Option<AttemptId>)
    | VaultInstall(envelope: Option<V.Envelope>)
    | VaultUpdate(expected: u64, envelope: Option<V.Envelope>)
    | VaultRekey(expected: u64, envelope: Option<V.Envelope>)
    | DeviceLock
    | Other

  function SessionCause(request: SessionRequest, context: Option<BeginContext>): Cause {
    if request.CompleteSession? then KeyCause(context) else NoCause
  }

  function InstallCause(e: Option<V.Envelope>): Cause {
    if e.Some? then Asked(C.Install(VaultOf(e.value))) else NoCause
  }

  function UpdateCause(expected: u64, e: Option<V.Envelope>): Cause {
    if e.Some? then Asked(C.Update(expected, VaultOf(e.value))) else NoCause
  }

  function RekeyCause(expected: u64, e: Option<V.Envelope>): Cause {
    if e.Some? then Asked(C.Rekey(expected, VaultOf(e.value))) else NoCause
  }

  /** The one thing a line may make the Device do, the session's attempt being what it is. */
  function LineCause(line: Line, context: Option<BeginContext>): Cause {
    match line
    case SessionOperation(request, _) => SessionCause(request, context)
    case ResetCommit(_) => Asked(C.ResetCommit)
    case RecoveryComplete(_) => RecoveryAsked
    case VaultInstall(e) => InstallCause(e)
    case VaultUpdate(expected, e) => UpdateCause(expected, e)
    case VaultRekey(expected, e) => RekeyCause(expected, e)
    case _ => NoCause
  }

  class CanonicalProtocolHandler {
    const session: StagedSessionHandler
    const healthy: FactoryResetAuthorization
    var recoveryId: AttemptId
    var recoveryDeadline: u64
    var recoveryActive: bool

    ghost function Gate(): Gate
      reads session.coordinator.presence, session.coordinator.presence.gate
    {
      session.coordinator.presence.View()
    }

    /** At most one authorization of any kind is live. */
    ghost predicate AtMostOneLive()
      reads this, healthy, session.coordinator, session.sink
    {
      var attempt, pending, reset, recovery := session.coordinator.active, session.sink.pending, healthy.active, recoveryActive;
      && !(attempt && pending) && !(attempt && reset) && !(attempt && recovery)
      && !(pending && reset) && !(pending && recovery) && !(reset && recovery)
    }

    ghost predicate NothingLive()
      reads this, healthy, session.coordinator, session.sink
    {
      !session.coordinator.active && !session.sink.pending && !healthy.active && !recoveryActive
    }

    ghost predicate OwnedByAttempt(g: Gate)
      reads session, session.coordinator
    {
      && session.coordinator.state == AwaitingPresence && session.context.Some? && !g.Idle?
      && g.request.attemptId == session.coordinator.descriptor.attemptId
      && g.request.operation == ForSession(session.context.value.operation)
    }

    ghost predicate OwnedByReset(g: Gate)
      reads healthy
    {
      && healthy.active && !g.Idle? && g.request.attemptId == healthy.attemptId
      && g.request.operation == ForFactoryReset && g.request.expiresAt == healthy.deadline
    }

    ghost predicate OwnedByRecovery(g: Gate)
      reads this
    {
      && recoveryActive && !g.Idle? && g.request.attemptId == recoveryId
      && g.request.operation == ForFactoryReset && g.request.expiresAt == recoveryDeadline
    }

    /** An active gate asks about the one thing that is live. */
    ghost predicate GateOwned()
      reads this, healthy, session, session.coordinator, session.coordinator.presence, session.coordinator.presence.gate
    {
      Gate() == Idle || OwnedByAttempt(Gate()) || OwnedByReset(Gate()) || OwnedByRecovery(Gate())
    }

    /** What holds between any two lines. */
    ghost predicate Valid()
      reads this, healthy, session, session.coordinator, session.coordinator.presence, session.coordinator.presence.gate
      reads session.coordinator.crypto, session.sink, session.sink.runtime, session.sink.runtime.persistence
      reads session.sink.registration
    {
      && session.Valid() && session.Prepared()
      && AtMostOneLive() && GateOwned()
      && (session.sink.pending ==> session.sink.deadlineArmed)
    }

    constructor (s: StagedSessionHandler)
      requires s.Valid() && !s.coordinator.active && !s.sink.pending && s.coordinator.presence.View() == Idle
      ensures Valid() && NothingLive() && session == s
      ensures s.sink.runtime.vmk.None? ==> Safe()
    {
      session := s;
      healthy := new FactoryResetAuthorization();
      recoveryId, recoveryDeadline, recoveryActive := 0, 0, false;
    }

    function Decision(): ResetDecision
      reads session.sink.runtime, session.sink.registration
    {
      var registration := session.sink.registration;
      ClassifyReset(session.sink.runtime.Shown(), registration.ready, registration.recoveryResetAvailable, registration.snapshot)
    }

    ghost function Seen(): C.Device
      reads session.sink, session.sink.runtime, session.sink.runtime.persistence, session.sink.registration
    {
      session.sink.Seen()
    }

    /** Finitely many steps of the protocol's Device, its own or with this very cause. */
    twostate predicate DeviceMoved(cause: Cause)
      reads session.sink, session.sink.runtime, session.sink.runtime.persistence, session.sink.registration
    {
      session.sink.Moved(cause)
    }

    /** At most the waiting key of an installation has gone. */
    twostate predicate OnlyCancelled()
      reads session.sink, session.sink.runtime, session.sink.runtime.persistence, session.sink.registration
    {
      Seen() == old(Seen()) || Seen() == old(Seen()).(install := None)
    }

    twostate lemma CancelledMoves(cause: Cause)
      requires OnlyCancelled()
      ensures DeviceMoved(cause)
    {
      session.sink.OnlyCancelled(cause);
    }

    twostate lemma DriftMoves(cause: Cause)
      requires C.Drifts(old(Seen()), Seen())
      ensures DeviceMoved(cause)
    {
      session.sink.Stepped(cause);
    }

    method CancelGate()
      requires session.Valid()
      modifies session.coordinator`log, session.coordinator.presence.gate
      ensures session.Valid() && Gate() == Idle && old(session.coordinator.log) <= session.coordinator.log
    {
      session.coordinator.presence.CancelPresence();
      session.coordinator.Note(M.ResetCancel);
    }

    method CancelHealthyFactoryReset()
      requires session.Valid()
      modifies healthy, session.coordinator`log, session.coordinator.presence.gate
      ensures session.Valid() && !healthy.active && old(session.coordinator.log) <= session.coordinator.log
      ensures Gate() == if old(healthy.active) then Idle else old(Gate())
    {
      hide M.Replay, M.Step, M.JustGaveOut, M.GivenOut, Armed, FreshEdge, V.Opens, V.WellFramed, R.Chain, R.Decode, Reaches;
      if healthy.active { CancelGate(); }
      healthy.Cancel();
    }

    method CancelRecoveryReset()
      requires session.Valid()
      modifies this, session.coordinator`log, session.coordinator.presence.gate
      ensures session.Valid() && !recoveryActive && old(session.coordinator.log) <= session.coordinator.log
      ensures Gate() == if old(recoveryActive) then Idle else old(Gate())
    {
      hide M.Replay, M.Step, M.JustGaveOut, M.GivenOut, Armed, FreshEdge, V.Opens, V.WellFramed, R.Chain, R.Decode, Reaches;
      if recoveryActive { CancelGate(); }
      recoveryId, recoveryDeadline, recoveryActive := 0, 0, false;
    }

    /** Ends everything that is live and clears the gate; flash and the runtime stay as they are. */
    method Disconnect()
      requires session.Valid()
      modifies this, healthy, session, session.sink, session.coordinator, session.coordinator.presence.gate, session.coordinator.crypto
      ensures Valid() && NothingLive() && Gate() == Idle
      ensures old(session.coordinator.log) <= session.coordinator.log
      ensures OnlyCancelled()
    {
      hide M.Replay, M.Step, M.JustGaveOut, M.GivenOut, Armed, FreshEdge, V.Opens, V.WellFramed, R.Chain, R.Decode, Reaches;
      session.Disconnect();
      session.sink.CancelPending();
      CancelHealthyFactoryReset();
      CancelRecoveryReset();
    }

    method LockSecurityBoundary() returns (status: V.Status)
      requires session.Valid()
      modifies this, healthy, session, session.sink, session.coordinator, session.coordinator.presence.gate, session.coordinator.crypto
      modifies session.sink.runtime
      ensures Valid() && NothingLive() && Gate() == Idle && session.sink.runtime.vmk.None?
      ensures old(session.coordinator.log) <= session.coordinator.log
      ensures session.sink.Kept() == old(session.sink.Kept())
      ensures status == V.Ok <==> old(session.sink.runtime.state) != V.Failed
      ensures C.Drifts(old(Seen()), Seen())
    {
      hide M.Replay, M.Step, M.JustGaveOut, M.GivenOut, Armed, FreshEdge, V.Opens, V.WellFramed, R.Chain, R.Decode, Reaches;
      Disconnect();
      status := session.sink.runtime.Lock();
    }

    /** Every live authorization has time left. */
    ghost predicate InTime(now: u64)
      reads this, healthy, session.coordinator, session.sink
    {
      && (session.coordinator.active ==> now < session.coordinator.descriptor.expiresAt)
      && (session.sink.pending ==> now < session.sink.pendingExpiresAt)
      && (healthy.active ==> now < healthy.deadline)
      && (recoveryActive ==> now < recoveryDeadline)
    }

    /** Nothing has become live, and what still is has not changed. */
    twostate predicate OnlyEnded()
      reads this, healthy, session.coordinator, session.sink
    {
      && (session.coordinator.active ==> old(session.coordinator.active)
                                         && session.coordinator.descriptor == old(session.coordinator.descriptor))
      && (session.sink.pending ==> unchanged(session.sink))
      && (healthy.active ==> unchanged(healthy))
      && (recoveryActive ==> old(recoveryActive) && recoveryId == old(recoveryId) && recoveryDeadline == old(recoveryDeadline))
    }

    /** Whatever had time left is still live. */
    twostate predicate OnlyLateEnded(now: u64)
      reads this, healthy, session.coordinator, session.sink
    {
      && (old(session.coordinator.active) && now < old(session.coordinator.descriptor).expiresAt ==> session.coordinator.active)
      && (old(session.sink.pending) && now < old(session.sink.pendingExpiresAt) ==> session.sink.pending)
      && (old(healthy.active) && now < old(healthy.deadline) ==> healthy.active)
      && (old(recoveryActive) && now < old(recoveryDeadline) ==> recoveryActive)
    }

    /** A line leaves nothing live that is already overdue. */
    twostate predicate StaysInTime(now: u64)
      reads this, healthy, session.coordinator, session.sink
    {
      old(InTime(now)) && now < MAX_U64 ==> InTime(now)
    }

    method ExpireResets(now: u64)
      requires Valid()
      modifies this, healthy, session.coordinator`log, session.coordinator.presence.gate
      ensures Valid() && OnlyEnded() && Gate() in {Idle, old(Gate())}
      ensures healthy.active ==> now < healthy.deadline
      ensures recoveryActive ==> now < recoveryDeadline
      ensures old(session.coordinator.log) <= session.coordinator.log
      ensures OnlyLateEnded(now)
    {
      if healthy.active && healthy.deadline <= now { CancelHealthyFactoryReset(); }
      if recoveryActive && recoveryDeadline <= now { CancelRecoveryReset(); }
    }

    method ExpireAuthorizations(now: u64)
      requires Valid()
      modifies this, healthy, session, session.sink, session.coordinator, session.coordinator.presence.gate, session.coordinator.crypto
      ensures Valid() && InTime(now) && OnlyEnded() && Gate() in {Idle, old(Gate())}
      ensures old(session.coordinator.log) <= session.coordinator.log
      ensures OnlyLateEnded(now)
      ensures OnlyCancelled()
      ensures session.context in {None, old(session.context)}
    {
      hide M.Replay, M.Step, M.JustGaveOut, M.GivenOut, Armed, FreshEdge, V.Opens, V.WellFramed, R.Chain, R.Decode, Reaches;
      var late := session.Expire(now);
      assert Valid();
      var expired := session.sink.ExpirePending(now);
      ExpireResets(now);
    }

    ghost function Log(): seq<M.Event<BeginContext>>
      reads session.coordinator
    {
      session.coordinator.log
    }

    /** Every key in RAM, resident or pending, was handed out by a confirmed attempt. */
    ghost predicate KeysAccounted()
      reads session.coordinator, session.sink, session.sink.runtime
    {
      && (session.sink.pending ==> M.GivenOut(Log(), session.sink.pendingVmk))
      && (session.sink.runtime.vmk.Some? ==> M.GivenOut(Log(), session.sink.runtime.vmk.value))
    }

    /** The invariant of the whole run. */
    ghost predicate Safe()
      reads this, healthy, session, session.coordinator, session.coordinator.presence, session.coordinator.presence.gate
      reads session.coordinator.crypto, session.sink, session.sink.runtime, session.sink.runtime.persistence
      reads session.sink.registration
    {
      Valid() && KeysAccounted()
    }

    /** Keys were kept, dropped, moved from pending to resident, or have just been handed out. */
    twostate predicate KeysExplained()
      reads session.coordinator, session.sink, session.sink.runtime
    {
      && old(Log()) <= Log()
      && (session.sink.pending ==>
            || (old(session.sink.pending) && session.sink.pendingVmk == old(session.sink.pendingVmk))
            || M.JustGaveOut(Log(), session.sink.pendingVmk))
      && (session.sink.runtime.vmk.Some? ==>
            || session.sink.runtime.vmk == old(session.sink.runtime.vmk)
            || (old(session.sink.pending) && session.sink.runtime.vmk.value == old(session.sink.pendingVmk))
            || M.JustGaveOut(Log(), session.sink.runtime.vmk.value))
    }

    lemma JustIsGivenOut(log: seq<M.Event<BeginContext>>, vmk: Vmk)
      requires M.JustGaveOut(log, vmk)
      ensures M.GivenOut(log, vmk)
    {
      var b: int, a: int, p: int :| M.LastJustified(log, b, a, p);
      assert M.Justified(log, |log| - 1, b, a, p);
    }

    twostate lemma AccountForKeys()
      requires old(KeysAccounted()) && KeysExplained()
      ensures KeysAccounted()
    {
      forall vmk | M.GivenOut(old(Log()), vmk) ensures M.GivenOut(Log(), vmk) {
        M.GivenOutStays(old(Log()), Log(), vmk);
      }
      forall vmk | M.JustGaveOut(Log(), vmk) ensures M.GivenOut(Log(), vmk) {
        JustIsGivenOut(Log(), vmk);
      }
    }

    ghost predicate ResetConfirmed(g: Gate, now: u64) {
      g.Confirmed? && g.request.operation == ForFactoryReset && now < g.request.expiresAt
    }

    /** RAM has the key, resident or pending. */
    ghost predicate Holds(vmk: Vmk)
      reads session.sink, session.sink.runtime
    {
      session.sink.runtime.vmk == Some(vmk) || (session.sink.pending && session.sink.pendingVmk == vmk)
    }

    /**
     The Vault in flash only ever moves by an installation or by the next generation, both sealed
     under a key that was in RAM beforehand, or goes by a factory reset that was confirmed in time.
     */
    twostate predicate VaultMoves(now: u64)
      reads session.sink, session.sink.runtime, session.sink.runtime.persistence
    {
      var was, here := old(session.sink.runtime.Persistent()), session.sink.runtime.Persistent();
      || here == was
      || (here.Some? && old(Holds(here.value.sealedBy))
          && (was.Some? ==> V.NextOf(was.value, was.value.generation, here.value)))
      || (here.None? && ResetConfirmed(old(Gate()), now))
    }

    /** The registration only ever moves one epoch up, or goes by a confirmed factory reset. */
    twostate predicate RegistrationMoves(now: u64)
      reads session.sink.registration
    {
      || session.sink.registration.Kept()
      || session.sink.registration.Appended()
      || (session.sink.registration.history == [] && session.sink.registration.record.None? && ResetConfirmed(old(Gate()), now))
    }

    /** What a reply promises about the line it answers. */
    twostate predicate Means(line: Line, reply: Reply)
      reads this, healthy, session, session.coordinator, session.sink
      reads session.sink.runtime, session.sink.runtime.persistence, session.sink.registration
    {
      match line
      case VaultInstall(e) => reply == Success ==> e.Some? && session.sink.runtime.Persistent() == e
      case VaultUpdate(_, e) => reply == Success ==> e.Some? && session.sink.runtime.Persistent() == e
      case VaultRekey(_, e) => reply == Success ==> e.Some? && session.sink.runtime.Persistent() == e
      case ResetCommit(_) => reply == Success ==> session.sink.Kept() == (None, None)
      case RecoveryComplete(_) => reply == Success ==> session.sink.Kept() == (None, None)
      case ResetBegin => session.sink.Kept() == old(session.sink.Kept()) && (reply == Success ==> healthy.active)
      case RecoveryBegin => session.sink.Kept() == old(session.sink.Kept()) && (reply == Success ==> recoveryActive)
      case DeviceLock => NothingLive() && session.sink.runtime.vmk.None? && session.sink.Kept() == old(session.sink.Kept())
      case Unusable(_) => NothingLive() && session.sink.Kept() == old(session.sink.Kept())
      case SessionOperation(_, _) => session.sink.runtime.Persistent() == old(session.sink.runtime.Persistent())
      case _ => session.sink.Kept() == old(session.sink.Kept())
    }

    /** What a confirmed reset has behind it. */
    lemma ConfirmedResetWasAskedFor(now: u64) returns (r: int, p: int)
      requires Safe() && ResetConfirmed(Gate(), now)
      ensures M.ConfirmedAt(Log(), r, p) && Log()[r].ResetBegin? && now < DeadlineFrom(Log()[r].now, ATTEMPT_TTL_MS)
    {
      var b;
      b, r, p := M.EveryStateIsExplained(Log());
    }

    /**
     A registration that RAM has forgotten while flash keeps it: `hello` asks for the recovery reset
     or is not answered, no session can begin, and by `HandleLine` no line but the recovery's last
     one changes that.
     */
    lemma ForgottenNeedsRecovery()
      requires Safe() && session.sink.registration.forgotten
      ensures session.sink.Snapshot().None? && Decision() != NotRequired && session.sink.registration.record.Some?
      ensures session.sink.registration.ready && session.sink.runtime.state in {V.Locked, V.Unlocked} ==> Decision() == Required
    {
    }

    // ----- session lines -----

    method CancelResets()
      requires Safe()
      modifies this, healthy, session.coordinator`log, session.coordinator.presence.gate
      ensures Safe() && !healthy.active && !recoveryActive
      ensures OnlyEnded()
    {
      CancelHealthyFactoryReset();
      CancelRecoveryReset();
      AccountForKeys();
    }

    method SessionLine(request: SessionRequest, tooLong: bool, now: u64) returns (reply: Reply)
      requires Safe()
      modifies this, healthy, session, session.sink, session.coordinator, session.coordinator.presence.gate, session.coordinator.crypto
      modifies session.sink.runtime, session.sink.registration
      ensures Safe()
      ensures session.sink.runtime.Persistent() == old(session.sink.runtime.Persistent())
      ensures session.sink.registration.Kept() || session.sink.registration.Appended()
      ensures StaysInTime(now)
      ensures old(session.sink.Snapshot()).None? ==> unchanged(session.sink.registration)
      ensures DeviceMoved(SessionCause(request, old(session.context)))
    {
      hide M.Replay, M.Step, M.JustGaveOut, M.GivenOut, Armed, FreshEdge, V.Opens, V.WellFramed, R.Chain, R.Decode, Reaches, C.Drifts, CanonicalVmkSink.Seen, CanonicalProtocolHandler.Safe;
      Stays(Seen(), SessionCause(request, old(session.context)));
      CancelResets();
      if tooLong || (request.BeginSession? && !request.operationKnown) {
        EndAll();
        CancelledMoves(SessionCause(request, old(session.context)));
        return Failure(if tooLong then "message_too_large" else "invalid_request");
      }
      match request
      case BeginSession(_, context) => reply := BeginSession(context, now);
      case AuthorizeSession(authorization) => reply := AuthorizeSession(authorization, now);
      case SessionStatus(id) => reply := SessionStatus(id, now);
      case CompleteSession(delivery) => reply := CompleteSession(delivery, now);
      case CancelSession(id) =>
        reply := CancelSession(id);
        CancelledMoves(SessionCause(request, old(session.context)));
      case UnknownSessionOperation =>
        EndAttempt();
        reply := Failure("unsupported_op");
    }

    method EndAll()
      requires Safe()
      modifies this, healthy, session, session.sink, session.coordinator, session.coordinator.presence.gate, session.coordinator.crypto
      ensures Safe() && NothingLive() && Gate() == Idle
      ensures OnlyCancelled()
    {
      hide M.Replay, M.Step, M.JustGaveOut, M.GivenOut, Armed, FreshEdge, V.Opens, V.WellFramed, R.Chain, R.Decode, Reaches;
      Disconnect();
      AccountForKeys();
    }

    method EndAttempt()
      requires Safe() && !healthy.active && !recoveryActive
      modifies session, session.coordinator, session.coordinator.presence.gate, session.coordinator.crypto
      ensures Safe() && !session.coordinator.active
      ensures OnlyEnded()
    {
      hide M.Replay, M.Step, M.JustGaveOut, M.GivenOut, Armed, FreshEdge, V.Opens, V.WellFramed, R.Chain, R.Decode, Reaches;
      session.Disconnect();
      AccountForKeys();
    }

    method BeginSession(context: Option<BeginContext>, now: u64) returns (reply: Reply)
      requires Safe() && !healthy.active && !recoveryActive
      modifies session, session.coordinator, session.coordinator.presence.gate, session.coordinator.crypto
      modifies session.sink, session.sink.runtime
      ensures Safe() && session.sink.Kept() == old(session.sink.Kept())
      ensures session.coordinator.active ==> reply.Began? && !session.sink.pending
      ensures StaysInTime(now)
      ensures DeviceMoved(NoCause)
    {
      hide M.Replay, M.Step, M.JustGaveOut, M.GivenOut, Armed, FreshEdge, V.Opens, V.WellFramed, R.Chain, R.Decode, Reaches;
      Stays(Seen(), NoCause);
      reply := session.Begin(context, now);
      AccountForKeys();
      if session.coordinator.active {
        var prepared := PrepareBegun();
        DriftMoves(NoCause);
        if !prepared { reply := Failure("invalid_state"); }
      }
    }

    /** The new attempt survives only if the sink could prepare for it. */
    method PrepareBegun() returns (prepared: bool)
      requires session.Valid() && KeysAccounted() && session.coordinator.active && Gate() == Idle
      requires !healthy.active && !recoveryActive
      modifies session, session.sink, session.coordinator, session.coordinator.presence.gate, session.coordinator.crypto
      modifies session.sink.runtime
      ensures Safe() && !session.sink.pending && session.sink.Kept() == old(session.sink.Kept())
      ensures prepared <==> session.coordinator.active
      ensures session.coordinator.descriptor == old(session.coordinator.descriptor) || !session.coordinator.active
      ensures C.Drifts(old(Seen()), Seen())
    {
      hide M.Replay, M.Step, M.JustGaveOut, M.GivenOut, Armed, FreshEdge, V.Opens, V.WellFramed, R.Chain, R.Decode, Reaches;
      prepared := session.sink.PrepareAttempt(session.context.value.operation);
      if !prepared { session.Disconnect(); }
      AccountForKeys();
    }

    method AuthorizeSession(authorization: Option<Authorization>, now: u64) returns (reply: Reply)
      requires Safe() && !healthy.active && !recoveryActive
      modifies session, session.coordinator, session.coordinator.presence.gate, session.coordinator.crypto
      ensures Safe() && (reply.Failure? <==> !session.coordinator.active)
      ensures reply == Success ==> session.CurrentBindingMatches() && OwnedByAttempt(Gate())
      ensures StaysInTime(now)
    {
      hide M.Replay, M.Step, M.JustGaveOut, M.GivenOut, Armed, FreshEdge, V.Opens, V.WellFramed, R.Chain, R.Decode, Reaches;
      reply := session.Authorize(authorization, now);
      AccountForKeys();
    }

    method SessionStatus(id: Option<AttemptId>, now: u64) returns (reply: Reply)
      requires Safe() && !healthy.active && !recoveryActive
      modifies session, session.coordinator, session.coordinator.presence.gate, session.coordinator.crypto
      ensures Safe() && (reply == StateIs("confirmed") ==> Gate().Confirmed? && OwnedByAttempt(Gate()))
      ensures StaysInTime(now)
    {
      hide M.Replay, M.Step, M.JustGaveOut, M.GivenOut, Armed, FreshEdge, V.Opens, V.WellFramed, R.Chain, R.Decode, Reaches;
      reply := session.Status(id, now);
      AccountForKeys();
    }

    method CompleteSession(delivery: Option<Delivery>, now: u64) returns (reply: Reply)
      requires Safe() && !healthy.active && !recoveryActive
      modifies session, session.coordinator, session.coordinator.presence.gate, session.coordinator.crypto
      modifies session.sink, session.sink.runtime, session.sink.registration
      ensures Safe() && !session.coordinator.active
      ensures session.sink.runtime.Persistent() == old(session.sink.runtime.Persistent())
      ensures session.sink.registration.Kept() || session.sink.registration.Appended()
      ensures StaysInTime(now)
      ensures old(session.sink.Snapshot()).None? ==> unchanged(session.sink.registration)
      ensures DeviceMoved(KeyCause(old(session.context)))
    {
      hide M.Replay, M.Step, M.JustGaveOut, M.GivenOut, Armed, FreshEdge, V.Opens, V.WellFramed, R.Chain, R.Decode, Reaches;
      reply := session.Complete(delivery, now);
      if reply == Success { session.sink.ArmPendingDeadline(now); }
      AccountForKeys();
    }

    method CancelSession(id: Option<AttemptId>) returns (reply: Reply)
      requires Safe() && !healthy.active && !recoveryActive
      modifies session, session.coordinator, session.coordinator.presence.gate, session.coordinator.crypto
      modifies session.sink
      ensures Safe() && NothingLive()
      ensures OnlyCancelled()
    {
      hide M.Replay, M.Step, M.JustGaveOut, M.GivenOut, Armed, FreshEdge, V.Opens, V.WellFramed, R.Chain, R.Decode, Reaches;
      reply := session.Cancel(id);
      session.sink.CancelPending();
      AccountForKeys();
    }

    // ----- factory reset of a working Device -----

    method FreshAttemptId() returns (id: AttemptId)
      ensures id != 0
    {
      var drawn: int := *;
      id := if drawn > 0 then drawn else 1;
    }

    method BeginFactoryReset(now: u64) returns (reply: Reply)
      requires Safe()
      modifies this, healthy, session, session.sink, session.coordinator, session.coordinator.presence.gate, session.coordinator.crypto
      ensures Safe()
      ensures reply == Success <==> Decision() == NotRequired && session.sink.runtime.state == V.Unlocked
      ensures reply == Success ==> healthy.active && OwnedByReset(Gate()) && Gate().Awaiting? && Gate().samples == []
      ensures StaysInTime(now)
      ensures DeviceMoved(NoCause)
    {
      hide M.Replay, M.Step, M.JustGaveOut, M.GivenOut, Armed, FreshEdge, V.Opens, V.WellFramed, R.Chain, R.Decode, Reaches;
      Stays(Seen(), NoCause);
      if Decision() != NotRequired || session.sink.runtime.state != V.Unlocked { return Failure("invalid_state"); }
      EndAll();
      var id := FreshAttemptId();
      AskForReset(id, now);
      healthy.Begin(id, now);
      CancelledMoves(NoCause);
      reply := Success;
    }

    /** Opens the gate for a reset that is about to become live. */
    method AskForReset(id: AttemptId, now: u64)
      requires Safe() && NothingLive()
      modifies session.coordinator`log, session.coordinator.presence.gate
      ensures session.Valid() && KeysAccounted() && NothingLive()
      ensures Gate() == Begun(ForFactoryReset, id, now, session.coordinator.presence.buttonPressGeneration)
    {
      session.coordinator.presence.BeginPresence(ForFactoryReset, id, now);
      session.coordinator.Note(M.ResetBegin(id, now));
      AccountForKeys();
    }

    method StatusFactoryReset(id: Option<AttemptId>, now: u64) returns (reply: Reply)
      requires Safe()
      modifies healthy, session.coordinator`log, session.coordinator.presence.gate
      ensures Safe() && (reply == StateIs("confirmed") ==> Gate().Confirmed? && OwnedByReset(Gate()))
      ensures StaysInTime(now)
    {
      if id.None? { return Failure("invalid_request"); }
      var check := healthy.CheckAt(id.value, now);
      if check == Late {
        CancelHealthyFactoryReset();
        AccountForKeys();
        return Failure("expired");
      }
      if check != CheckOk { return Failure("invalid_state"); }
      reply := StateIs(if session.coordinator.presence.PresenceConfirmed() then "confirmed" else "awaiting_confirmation");
    }

    method CancelFactoryReset(id: Option<AttemptId>, now: u64) returns (reply: Reply)
      requires Safe()
      modifies healthy, session.coordinator`log, session.coordinator.presence.gate
      ensures Safe() && (reply == Success ==> NothingLive() && Gate() == Idle)
      ensures StaysInTime(now)
    {
      if id.None? { return Failure("invalid_request"); }
      var check := healthy.CheckAt(id.value, now);
      if check == Inactive || check == Mismatch { return Failure("invalid_state"); }
      CancelHealthyFactoryReset();
      AccountForKeys();
      reply := if check == Late then Failure("expired") else Success;
    }

    /** Uses up a confirmation for a reset. */
    method ConsumeForReset(id: AttemptId, now: u64) returns (consumed: bool)
      requires session.Valid() && GateOwned() && !session.coordinator.active
      modifies session.coordinator`log, session.coordinator.presence.gate
      ensures session.Valid() && GateOwned() && old(Log()) <= Log()
      ensures consumed <==> Consumable(old(Gate()), id, now)
      ensures consumed ==> Gate() == Idle
    {
      consumed := session.coordinator.presence.ConsumePresence(id, now);
      session.coordinator.Note(M.ResetConsume(id, now));
    }

    /** The confirmation is used up before anything is destroyed, and the authorization with it. */
    method CommitFactoryReset(id: Option<AttemptId>, now: u64) returns (reply: Reply)
      requires Safe()
      modifies this, healthy, session, session.sink, session.coordinator, session.coordinator.presence.gate, session.coordinator.crypto
      modifies session.sink.runtime, session.sink.runtime.persistence, session.sink.registration
      ensures Safe() && VaultMoves(now) && RegistrationMoves(now)
      ensures reply == Success ==> session.sink.runtime.Persistent().None? && session.sink.registration.record.None?
      ensures session.sink.Kept() != old(session.sink.Kept()) ==> ResetConfirmed(old(Gate()), now) && NothingLive()
      ensures StaysInTime(now)
      ensures session.sink.Kept() != old(session.sink.Kept()) ==> old(Decision()) == NotRequired && old(session.sink.runtime.state) == V.Unlocked
      ensures old(Decision()) != NotRequired ==> unchanged(session.sink.registration)
      ensures DeviceMoved(Asked(C.ResetCommit))
    {
      hide CanonicalProtocolHandler.Safe, Reaches, CanonicalVmkSink.Seen;
      Stays(Seen(), Asked(C.ResetCommit));
      var refusal := ConfirmFactoryReset(id, now);
      if refusal.Some? { return Failure(refusal.value); }
      reply := CommitConfirmed();
    }

    /** Uses up the confirmation of the live factory reset, which ends with it. */
    method ConfirmFactoryReset(id: Option<AttemptId>, now: u64) returns (refusal: Option<string>)
      requires Safe()
      modifies healthy, session.coordinator`log, session.coordinator.presence.gate
      ensures Safe() && StaysInTime(now)
      ensures refusal.None? ==> ResetConfirmed(old(Gate()), now) && NothingLive()
    {
      hide M.Replay, M.Step, M.JustGaveOut, M.GivenOut, Armed, FreshEdge, V.Opens, V.WellFramed, R.Chain, R.Decode;
      if id.None? { return Some("invalid_request"); }
      var check := healthy.CheckAt(id.value, now);
      if check == Late {
        CancelHealthyFactoryReset();
        AccountForKeys();
        return Some("expired");
      }
      if check != CheckOk { return Some("invalid_state"); }
      var consumed := ConsumeForReset(id.value, now);
      AccountForKeys();
      if !consumed { return Some("presence_required"); }
      healthy.Cancel();
      refusal := None;
    }

    method CommitConfirmed() returns (reply: Reply)
      requires Safe() && NothingLive()
      modifies this, healthy, session, session.sink, session.coordinator, session.coordinator.presence.gate, session.coordinator.crypto
      modifies session.sink.runtime, session.sink.runtime.persistence, session.sink.registration
      ensures Safe() && NothingLive()
      ensures session.sink.runtime.Persistent() in {None, old(session.sink.runtime.Persistent())}
      ensures session.sink.registration.Kept() || (session.sink.registration.history == [] && session.sink.registration.record.None?)
      ensures reply == Success ==> session.sink.runtime.Persistent().None? && session.sink.registration.record.None?
      ensures session.sink.Kept() != old(session.sink.Kept()) ==> old(Decision()) == NotRequired && old(session.sink.runtime.state) == V.Unlocked
      ensures old(Decision()) != NotRequired ==> unchanged(session.sink.registration)
      ensures DeviceMoved(Asked(C.ResetCommit))
    {
      hide M.Replay, M.Step, M.JustGaveOut, M.GivenOut, Armed, FreshEdge, V.Opens, V.WellFramed, R.Chain, R.Decode, Reaches;
      Stays(Seen(), Asked(C.ResetCommit));
      if Decision() != NotRequired || session.sink.runtime.state != V.Unlocked { return Failure("invalid_state"); }
      EndAll();
      reply := EraseWorkingDevice();
    }

    method EraseWorkingDevice() returns (reply: Reply)
      requires Safe() && NothingLive() && Decision() == NotRequired && session.sink.runtime.state == V.Unlocked
      modifies session.sink.runtime, session.sink.runtime.persistence, session.sink.registration
      ensures Safe()
      ensures session.sink.runtime.Persistent() in {None, old(session.sink.runtime.Persistent())}
      ensures session.sink.registration.Kept() || (session.sink.registration.history == [] && session.sink.registration.record.None?)
      ensures reply == Success ==> session.sink.runtime.Persistent().None? && session.sink.registration.record.None?
      ensures DeviceMoved(Asked(C.ResetCommit))
    {
      hide M.Replay, M.Step, M.JustGaveOut, M.GivenOut, Armed, FreshEdge, V.Opens, V.WellFramed, R.Chain, R.Decode, Reaches;
      var erased := session.sink.runtime.FactoryReset();
      if erased != V.Ok {
        session.sink.Stepped(Asked(C.ResetCommit));
        return Failure("reset_failed");
      }
      var cleared := session.sink.registration.ClearRegistration();
      session.sink.Stepped(Asked(C.ResetCommit));
      reply := if cleared == R.Ok then Success else Failure("reset_failed");
    }

    // ----- recovery reset of a broken Device -----

    method BeginRecoveryReset(now: u64) returns (reply: Reply)
      requires Safe()
      modifies this, healthy, session, session.sink, session.coordinator, session.coordinator.presence.gate, session.coordinator.crypto
      modifies session.sink.runtime
      ensures Safe() && session.sink.Kept() == old(session.sink.Kept())
      ensures reply == Success ==> old(Decision()) == Required && recoveryActive && OwnedByRecovery(Gate()) && Gate().Awaiting?
      ensures StaysInTime(now)
      ensures DeviceMoved(NoCause)
    {
      hide M.Replay, M.Step, M.JustGaveOut, M.GivenOut, Armed, FreshEdge, V.Opens, V.WellFramed, R.Chain, R.Decode, Reaches, C.Drifts, CanonicalVmkSink.Seen;
      Stays(Seen(), NoCause);
      if Decision() != Required { return Failure("invalid_state"); }
      EndAll();
      CancelledMoves(NoCause);
      ghost var idle := Seen();
      reply := StartRecoveryReset(now);
      ReachesOn(old(Seen()), idle, Seen(), NoCause);
    }

    method StartRecoveryReset(now: u64) returns (reply: Reply)
      requires Safe() && NothingLive()
      modifies this, session.coordinator`log, session.coordinator.presence.gate, session.sink.runtime
      ensures Safe() && session.sink.Kept() == old(session.sink.Kept())
      ensures reply == Success ==> recoveryActive && OwnedByRecovery(Gate()) && Gate().Awaiting?
      ensures StaysInTime(now)
      ensures DeviceMoved(NoCause)
    {
      hide CanonicalProtocolHandler.Safe, Reaches, CanonicalVmkSink.Seen;
      var boundary := EnterRecoveryBoundary();
      if !boundary { return Failure("invalid_state"); }
      AskForRecovery(now);
      reply := Success;
    }

    /** Opens the gate for a recovery reset, which becomes live. */
    method AskForRecovery(now: u64)
      requires Safe() && NothingLive()
      modifies this, session.coordinator`log, session.coordinator.presence.gate
      ensures Safe() && recoveryActive && OwnedByRecovery(Gate()) && Gate().Awaiting? && StaysInTime(now)
    {
      hide M.Replay, M.Step, M.JustGaveOut, M.GivenOut, Armed, FreshEdge, V.Opens, V.WellFramed, R.Chain, R.Decode;
      var id := FreshAttemptId();
      AskForReset(id, now);
      recoveryId, recoveryDeadline, recoveryActive := id, DeadlineFrom(now, ATTEMPT_TTL_MS), true;
    }

    method EnterRecoveryBoundary() returns (entered: bool)
      requires Safe() && NothingLive()
      modifies session.sink.runtime
      ensures Safe() && NothingLive() && session.sink.Kept() == old(session.sink.Kept())
      ensures session.sink.runtime.vmk.None?
      ensures DeviceMoved(NoCause)
    {
      hide Reaches;
      Stays(Seen(), NoCause);
      if session.sink.runtime.state == V.Failed { return session.sink.runtime.recoveryResetAllowed; }
      var status := session.sink.runtime.Lock();
      DriftMoves(NoCause);
      entered := status == V.Ok;
    }

    method StatusRecoveryReset(id: Option<AttemptId>, now: u64) returns (reply: Reply)
      requires Safe()
      modifies this, session.coordinator`log, session.coordinator.presence.gate
      ensures Safe() && (reply == StateIs("confirmed") ==> Gate().Confirmed? && OwnedByRecovery(Gate()))
      ensures StaysInTime(now)
    {
      if id.None? { return Failure("invalid_request"); }
      if !recoveryActive || id.value != recoveryId { return Failure("invalid_state"); }
      if recoveryDeadline <= now {
        CancelRecoveryReset();
        AccountForKeys();
        return Failure("expired");
      }
      reply := StateIs(if session.coordinator.presence.PresenceConfirmed() then "confirmed" else "awaiting_confirmation");
    }

    /** Registration first, Vault second: a power loss in between is still recoverable. */
    method CompleteRecoveryReset(id: Option<AttemptId>, now: u64) returns (reply: Reply)
      requires Safe()
      modifies this, session.coordinator`log, session.coordinator.presence.gate
      modifies session.sink.runtime, session.sink.runtime.persistence, session.sink.registration
      ensures Safe() && VaultMoves(now) && RegistrationMoves(now)
      ensures reply == Success ==> session.sink.runtime.Persistent().None? && session.sink.registration.record.None?
      ensures session.sink.Kept() != old(session.sink.Kept()) ==> ResetConfirmed(old(Gate()), now) && NothingLive()
      ensures StaysInTime(now)
      ensures session.sink.Kept() != old(session.sink.Kept()) ==> old(Decision()) == Required
      ensures DeviceMoved(RecoveryAsked)
    {
      hide CanonicalProtocolHandler.Safe, Reaches, CanonicalVmkSink.Seen;
      Stays(Seen(), RecoveryAsked);
      var refusal := ConfirmRecovery(id, now);
      if refusal.Some? { return Failure(refusal.value); }
      reply := CompleteConfirmed();
    }

    /** Uses up the confirmation of the live recovery reset, which ends with it. */
    method ConfirmRecovery(id: Option<AttemptId>, now: u64) returns (refusal: Option<string>)
      requires Safe()
      modifies this, session.coordinator`log, session.coordinator.presence.gate
      ensures Safe() && StaysInTime(now)
      ensures refusal.None? ==> ResetConfirmed(old(Gate()), now) && NothingLive()
    {
      hide M.Replay, M.Step, M.JustGaveOut, M.GivenOut, Armed, FreshEdge, V.Opens, V.WellFramed, R.Chain, R.Decode;
      if id.None? { return Some("invalid_request"); }
      if !recoveryActive || id.value != recoveryId { return Some("invalid_state"); }
      if recoveryDeadline <= now {
        CancelRecoveryReset();
        AccountForKeys();
        return Some("expired");
      }
      var consumed := ConsumeForReset(id.value, now);
      AccountForKeys();
      if !consumed { return Some("presence_required"); }
      recoveryId, recoveryDeadline, recoveryActive := 0, 0, false;
      refusal := None;
    }

    method CompleteConfirmed() returns (reply: Reply)
      requires Safe() && NothingLive()
      modifies session.sink.runtime, session.sink.runtime.persistence, session.sink.registration
      ensures Safe() && DeviceMoved(RecoveryAsked)
      ensures session.sink.runtime.Persistent() in {None, old(session.sink.runtime.Persistent())}
      ensures session.sink.registration.Kept() || (session.sink.registration.history == [] && session.sink.registration.record.None?)
      ensures reply == Success ==> session.sink.runtime.Persistent().None? && session.sink.registration.record.None?
      ensures session.sink.Kept() != old(session.sink.Kept()) ==> old(Decision()) == Required
    {
      hide CanonicalProtocolHandler.Safe, CanonicalProtocolHandler.NothingLive, Reaches, CanonicalVmkSink.Seen;
      Stays(Seen(), RecoveryAsked);
      if Decision() != Required { return Failure("invalid_state"); }
      reply := EraseBrokenDevice();
    }

    method EraseBrokenDevice() returns (reply: Reply)
      requires Safe() && NothingLive()
      modifies session.sink.runtime, session.sink.runtime.persistence, session.sink.registration
      ensures Safe()
      ensures session.sink.runtime.Persistent() in {None, old(session.sink.runtime.Persistent())}
      ensures session.sink.registration.Kept() || (session.sink.registration.history == [] && session.sink.registration.record.None?)
      ensures session.sink.registration.record.Some? ==> session.sink.runtime.Persistent() == old(session.sink.runtime.Persistent())
      ensures reply == Success ==> session.sink.runtime.Persistent().None? && session.sink.registration.record.None?
      ensures DeviceMoved(RecoveryAsked)
    {
      hide M.Replay, M.Step, M.JustGaveOut, M.GivenOut, Armed, FreshEdge, V.Opens, V.WellFramed, R.Chain, R.Decode, Reaches, CanonicalVmkSink.Seen;
      var erased := WipeDevice();
      reply := if erased then Success else Failure("reset_failed");
    }

    /** The registration and, once that is gone, the Vault. */
    method WipeDevice() returns (erased: bool)
      requires session.sink.Valid() && !session.sink.pending
      modifies session.sink.runtime, session.sink.runtime.persistence, session.sink.registration
      ensures session.sink.Valid() && DeviceMoved(RecoveryAsked)
      ensures session.sink.runtime.Persistent() in {None, old(session.sink.runtime.Persistent())}
      ensures session.sink.registration.Kept() || (session.sink.registration.history == [] && session.sink.registration.record.None?)
      ensures session.sink.registration.record.Some? ==> session.sink.runtime.Persistent() == old(session.sink.runtime.Persistent())
      ensures erased ==> session.sink.runtime.Persistent().None? && session.sink.registration.record.None?
      ensures session.sink.runtime.vmk.None? || session.sink.runtime.vmk == old(session.sink.runtime.vmk)
      ensures session.sink.runtime.state in {V.Unprovisioned, V.Failed, old(session.sink.runtime.state)}
    {
      hide V.Opens, V.WellFramed, R.Chain, R.Decode, Reaches;
      Stays(Seen(), RecoveryAsked);
      var cleared: R.Status;
      if !session.sink.registration.ready && session.sink.registration.recoveryResetAvailable {
        cleared := session.sink.registration.ClearCorruptRegistrationForRecovery();
      } else {
        cleared := session.sink.registration.ClearRegistration();
      }
      if cleared != R.Ok { return false; }
      var status := session.sink.runtime.FactoryReset();
      session.sink.Stepped(RecoveryAsked);
      erased := status == V.Ok;
    }

    // ----- Vault lines -----

    method InstallVault(e: Option<V.Envelope>, now: u64) returns (reply: Reply)
      requires Safe()
      modifies session.sink, session.sink.runtime, session.sink.runtime.persistence, session.sink.registration
      ensures Safe() && VaultMoves(now) && RegistrationMoves(now)
      ensures reply == Success ==>
                && e.Some? && old(session.sink.NothingKept()) && session.sink.runtime.Persistent() == e
                && old(session.sink.pendingContext).Some?
                && session.sink.registration.history == [Proposed(old(session.sink.pendingContext).value.(registrationEpoch := 1))]
      ensures StaysInTime(now)
      ensures old(session.sink.registration.forgotten) ==> unchanged(session.sink.registration)
      ensures DeviceMoved(InstallCause(e))
    {
      hide M.Replay, M.Step, M.JustGaveOut, M.GivenOut, Armed, FreshEdge, R.Chain, R.Decode, Reaches;
      Stays(Seen(), InstallCause(e));
      if e.None? {
        session.sink.CancelPending();
        CancelledMoves(InstallCause(e));
        return Failure("invalid_request");
      }
      if !session.sink.pending { return Failure("invalid_state"); }
      if session.sink.pendingContext.value.operation == VmkRekey {
        session.sink.CancelPending();
        CancelledMoves(InstallCause(e));
        return Failure("invalid_state");
      }
      var installed := session.sink.InstallVault(e.value, now);
      session.sink.Stepped(InstallCause(e));
      AccountForKeys();
      reply := if installed then Success else Failure("invalid_state");
    }

    method UpdateVault(expected: u64, e: Option<V.Envelope>, now: u64) returns (reply: Reply)
      requires Safe()
      modifies this, healthy, session, session.sink, session.coordinator, session.coordinator.presence.gate, session.coordinator.crypto
      modifies session.sink.runtime, session.sink.runtime.persistence
      ensures Safe() && VaultMoves(now)
      ensures reply == Success ==> e.Some? && session.sink.runtime.Persistent() == e && old(session.sink.runtime.state) == V.Unlocked
      ensures StaysInTime(now)
      ensures DeviceMoved(UpdateCause(expected, e))
    {
      hide M.Replay, M.Step, M.JustGaveOut, M.GivenOut, Armed, FreshEdge, R.Chain, R.Decode, Reaches, C.Drifts, V.Opens, V.WellFramed;
      Stays(Seen(), UpdateCause(expected, e));
      if e.None? { return Failure("invalid_request"); }
      var status, lockDue := SaveVault(expected, e.value, now);
      if lockDue {
        ghost var updated := Seen();
        status := LockSecurityBoundary();
        AccountForKeys();
        StepReaches(updated, Seen(), UpdateCause(expected, e));
        ReachesOn(old(Seen()), updated, Seen(), UpdateCause(expected, e));
      }
      reply := if status == V.Ok then Success else Failure("update_failed");
    }

    /** The update itself, before a lock that the new auto-lock policy may make due. */
    method SaveVault(expected: u64, e: V.Envelope, now: u64) returns (status: V.Status, lockDue: bool)
      requires Safe()
      modifies session.sink.runtime, session.sink.runtime.persistence
      ensures Safe() && VaultMoves(now) && DeviceMoved(UpdateCause(expected, Some(e)))
      ensures status == V.Ok ==> session.sink.runtime.Persistent() == Some(e) && old(session.sink.runtime.state) == V.Unlocked
      ensures lockDue ==> status == V.Ok && session.sink.runtime.state == V.Unlocked
    {
      hide M.Replay, M.Step, M.JustGaveOut, M.GivenOut, Armed, FreshEdge, R.Chain, R.Decode, Reaches;
      status, lockDue := session.sink.UpdateVault(expected, e, now);
      AccountForKeys();
    }

    method RekeyVault(expected: u64, e: Option<V.Envelope>, now: u64) returns (reply: Reply)
      requires Safe()
      modifies this, healthy, session, session.sink, session.coordinator, session.coordinator.presence.gate, session.coordinator.crypto
      modifies session.sink.runtime, session.sink.runtime.persistence
      ensures Safe() && VaultMoves(now)
      ensures reply == Success ==> e.Some? && session.sink.runtime.Persistent() == e && !session.sink.pending
      ensures StaysInTime(now)
      ensures DeviceMoved(RekeyCause(expected, e))
    {
      hide M.Replay, M.Step, M.JustGaveOut, M.GivenOut, Armed, FreshEdge, V.Opens, V.WellFramed, R.Chain, R.Decode, Reaches, C.Drifts, CanonicalVmkSink.Seen;
      var installed := SaveRekeyed(expected, e, now);
      if !installed { return Failure(if e.None? then "invalid_request" else "invalid_state"); }
      if session.sink.runtime.AutomaticLockDue(now) {
        ghost var rekeyed := Seen();
        var status := LockSecurityBoundary();
        StepReaches(rekeyed, Seen(), RekeyCause(expected, e));
        ReachesOn(old(Seen()), rekeyed, Seen(), RekeyCause(expected, e));
        AccountForKeys();
      }
      reply := Success;
    }

    /** The re-key itself, before a lock that may be due. */
    method SaveRekeyed(expected: u64, e: Option<V.Envelope>, now: u64) returns (installed: bool)
      requires Safe()
      modifies session.sink, session.sink.runtime, session.sink.runtime.persistence
      ensures Safe() && VaultMoves(now) && !session.sink.pending && DeviceMoved(RekeyCause(expected, e))
      ensures installed ==> e.Some? && session.sink.runtime.Persistent() == e
    {
      hide M.Replay, M.Step, M.JustGaveOut, M.GivenOut, Armed, FreshEdge, R.Chain, R.Decode, Reaches;
      if e.None? {
        session.sink.CancelPending();
        CancelledMoves(RekeyCause(expected, e));
        AccountForKeys();
        return false;
      }
      installed := session.sink.InstallRekeyedVault(expected, e.value, now);
      session.sink.Stepped(RekeyCause(expected, e));
      AccountForKeys();
    }

    method LockDevice() returns (reply: Reply)
      requires Safe()
      modifies this, healthy, session, session.sink, session.coordinator, session.coordinator.presence.gate, session.coordinator.crypto
      modifies session.sink.runtime
      ensures Safe() && NothingLive() && session.sink.runtime.vmk.None? && session.sink.Kept() == old(session.sink.Kept())
      ensures reply == Success <==> old(session.sink.runtime.state) != V.Failed
      ensures DeviceMoved(NoCause)
    {
      var status := LockSecurityBoundary();
      AccountForKeys();
      DriftMoves(NoCause);
      reply := if status == V.Ok then Success else Failure("invalid_state");
    }

    /** Every authorization past its deadline is gone afterwards, and an overdue unlocked Vault is locked. */
    method Housekeeping(now: u64)
      requires Safe()
      modifies this, healthy, session, session.sink, session.coordinator, session.coordinator.presence.gate, session.coordinator.crypto
      modifies session.sink.runtime
      ensures Safe() && InTime(now) && OnlyEnded() && Gate() in {Idle, old(Gate())}
      ensures !session.sink.runtime.AutomaticLockDue(now)
      ensures session.sink.Kept() == old(session.sink.Kept())
      ensures unchanged(session.sink.runtime) || session.sink.runtime.vmk.None?
      ensures !old(session.sink.runtime.AutomaticLockDue(now)) ==> OnlyLateEnded(now) && unchanged(session.sink.runtime)
      ensures DeviceMoved(NoCause)
      ensures session.context in {None, old(session.context)}
    {
      hide M.Replay, M.Step, M.JustGaveOut, M.GivenOut, Armed, FreshEdge, V.Opens, V.WellFramed, R.Chain, R.Decode, Reaches, C.Drifts, CanonicalVmkSink.Seen;
      ExpireAuthorizations(now);
      AccountForKeys();
      CancelledMoves(NoCause);
      if session.sink.runtime.AutomaticLockDue(now) {
        ghost var expired := Seen();
        var locked := LockSecurityBoundary();
        StepReaches(expired, Seen(), NoCause);
        ReachesOn(old(Seen()), expired, Seen(), NoCause);
        AccountForKeys();
      }
    }

    /**
     One line. Whatever it says and whatever fails underneath, the whole-run invariant holds
     afterwards, and what is in flash has moved only as it may.
     */
    method HandleLine(line: Line, now: u64) returns (reply: Reply)
      requires Safe()
      modifies this, healthy, session, session.sink, session.coordinator, session.coordinator.presence.gate, session.coordinator.crypto
      modifies session.sink.runtime, session.sink.runtime.persistence, session.sink.registration
      ensures Safe() && VaultMoves(now) && RegistrationMoves(now)
      ensures now < MAX_U64 ==> InTime(now)
      ensures Means(line, reply)
      ensures old(session.sink.registration.forgotten) && !line.RecoveryComplete? ==> unchanged(session.sink.registration)
      ensures DeviceMoved(LineCause(line, old(session.context)))
    {
      hide M.Replay, M.Step, M.JustGaveOut, M.GivenOut, Armed, FreshEdge, V.Opens, V.WellFramed, R.Chain, R.Decode, Reaches, C.Drifts, CanonicalVmkSink.Seen, CanonicalProtocolHandler.Safe;
      Housekeeping(now);
      ghost var kept := Seen();
      ghost var context := session.context;
      reply := Dispatch(line, now);
      if LineCause(line, context) == NoCause { AnyCauseReaches(kept, Seen(), LineCause(line, old(session.context))); }
      AnyCauseReaches(old(Seen()), kept, LineCause(line, old(session.context)));
      ReachesOn(old(Seen()), kept, Seen(), LineCause(line, old(session.context)));
    }

    method Dispatch(line: Line, now: u64) returns (reply: Reply)
      requires Safe()
      modifies this, healthy, session, session.sink, session.coordinator, session.coordinator.presence.gate, session.coordinator.crypto
      modifies session.sink.runtime, session.sink.runtime.persistence, session.sink.registration
      ensures Safe() && VaultMoves(now) && RegistrationMoves(now)
      ensures StaysInTime(now)
      ensures Means(line, reply)
      ensures old(session.sink.registration.forgotten) && !line.RecoveryComplete? ==> unchanged(session.sink.registration)
      ensures DeviceMoved(LineCause(line, old(session.context)))
    {
      hide M.Replay, M.Step, M.JustGaveOut, M.GivenOut, Armed, FreshEdge, V.Opens, V.WellFramed, R.Chain, R.Decode, Reaches, C.Drifts, CanonicalVmkSink.Seen, CanonicalProtocolHandler.Safe;
      Stays(Seen(), LineCause(line, old(session.context)));
      if session.sink.registration.forgotten { ForgottenNeedsRecovery(); }
      match line
      case EmptyLine => reply := Failure("invalid_request");
      case Unusable(code) =>
        EndAll();
        CancelledMoves(LineCause(line, old(session.context)));
        reply := Failure(code);
      case SessionOperation(request, tooLong) => reply := SessionLine(request, tooLong, now);
      case Hello => reply := if Decision() == Unavailable then Failure("invalid_state") else Success;
      case ResetBegin | ResetStatus(_) | ResetCancel(_) | ResetCommit(_) | RecoveryBegin | RecoveryStatus(_) | RecoveryComplete(_) =>
        reply := ResetLine(line, now);
      case DeviceLock => reply := LockDevice();
      case Other => reply := Failure("unsupported_op");
      case _ => reply := VaultLine(line, now);
    }

    predicate IsReset(line: Line) {
      line.ResetBegin? || line.ResetStatus? || line.ResetCancel? || line.ResetCommit? || line.RecoveryBegin?
      || line.RecoveryStatus? || line.RecoveryComplete?
    }

    method ResetLine(line: Line, now: u64) returns (reply: Reply)
      requires Safe() && IsReset(line)
      modifies this, healthy, session, session.sink, session.coordinator, session.coordinator.presence.gate, session.coordinator.crypto
      modifies session.sink.runtime, session.sink.runtime.persistence, session.sink.registration
      ensures Safe() && VaultMoves(now) && RegistrationMoves(now)
      ensures StaysInTime(now)
      ensures Means(line, reply)
      ensures old(session.sink.registration.forgotten) && !line.RecoveryComplete? ==> unchanged(session.sink.registration)
      ensures DeviceMoved(LineCause(line, old(session.context)))
    {
      hide M.Replay, M.Step, M.JustGaveOut, M.GivenOut, Armed, FreshEdge, V.Opens, V.WellFramed, R.Chain, R.Decode, Reaches, C.Drifts, CanonicalVmkSink.Seen, CanonicalProtocolHandler.Safe;
      Stays(Seen(), LineCause(line, old(session.context)));
      if session.sink.registration.forgotten { ForgottenNeedsRecovery(); }
      match line
      case ResetBegin => reply := BeginFactoryReset(now);
      case ResetStatus(id) => reply := StatusFactoryReset(id, now);
      case ResetCancel(id) => reply := CancelFactoryReset(id, now);
      case ResetCommit(id) => reply := CommitFactoryReset(id, now);
      case RecoveryBegin => reply := BeginRecoveryReset(now);
      case RecoveryStatus(id) => reply := StatusRecoveryReset(id, now);
      case RecoveryComplete(id) => reply := CompleteRecoveryReset(id, now);
    }

    method VaultLine(line: Line, now: u64) returns (reply: Reply)
      requires Safe() && (line.VaultInstall? || line.VaultUpdate? || line.VaultRekey?)
      modifies this, healthy, session, session.sink, session.coordinator, session.coordinator.presence.gate, session.coordinator.crypto
      modifies session.sink.runtime, session.sink.runtime.persistence, session.sink.registration
      ensures Safe() && VaultMoves(now) && RegistrationMoves(now)
      ensures StaysInTime(now)
      ensures Means(line, reply)
      ensures old(session.sink.registration.forgotten) && !line.RecoveryComplete? ==> unchanged(session.sink.registration)
      ensures DeviceMoved(LineCause(line, old(session.context)))
    {
      hide M.Replay, M.Step, M.JustGaveOut, M.GivenOut, Armed, FreshEdge, V.Opens, V.WellFramed, R.Chain, R.Decode, Reaches, C.Drifts, CanonicalVmkSink.Seen;
      match line
      case VaultInstall(e) => reply := InstallVault(e, now);
      case VaultUpdate(expected, e) => reply := UpdateVault(expected, e, now);
      case VaultRekey(expected, e) => reply := RekeyVault(expected, e, now);
    }

    // ----- the button and the clock, on the other thread -----

    method ObserveButton(pressed: bool)
      requires Safe()
      modifies session.coordinator`log, session.coordinator.presence.gate
      ensures Safe()
    {
      hide Armed, FreshEdge, M.Replay, M.GivenOut, M.JustGaveOut, V.Opens, V.WellFramed, R.Chain, R.Decode, Reaches;
      session.coordinator.presence.ObserveButtonState(pressed);
      session.coordinator.Note(M.Sample(pressed));
      AccountForKeys();
    }

    method PressButton(now: u64) returns (confirmed: bool)
      requires Safe()
      modifies session.coordinator`log, session.coordinator.presence, session.coordinator.presence.gate
      ensures Safe() && (confirmed ==> Gate().Confirmed?)
    {
      hide Armed, FreshEdge, M.Replay, M.GivenOut, M.JustGaveOut, V.Opens, V.WellFramed, R.Chain, R.Decode, Reaches;
      confirmed := session.coordinator.presence.ButtonPressed(now);
      session.coordinator.Note(M.Press(now));
      AccountForKeys();
    }

    method ExpireGate(now: u64) returns (late: bool)
      requires Safe()
      modifies session.coordinator`log, session.coordinator.presence.gate
      ensures Safe() && (late <==> Overdue(old(Gate()), now))
    {
      hide Armed, FreshEdge, M.Replay, M.GivenOut, M.JustGaveOut, V.Opens, V.WellFramed, R.Chain, R.Decode, Reaches;
      late := session.coordinator.presence.Expire(now);
      session.coordinator.Note(M.ExpireGate(now));
      AccountForKeys();
    }
  }
}
