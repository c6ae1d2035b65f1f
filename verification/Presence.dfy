/**
 The physical-presence gate. The specification keeps the whole history of button samples; the
 classes keep the counters and flags of the firmware and are proved to agree with it.
 */
module Presence {
  import opened Vocabulary

  const ATTEMPT_TTL_MS: u64 := 30_000

  type AttemptId = nat

  datatype SessionOperation =
    TrustedBrowserUnlock | InitialProvisioning | Recovery | BrowserReplacement | VmkRekey

  datatype PresenceOperation = ForSession(operation: SessionOperation) | ForFactoryReset

  datatype Request = Request(
    operation: PresenceOperation, attemptId: AttemptId, expiresAt: u64, generationAtStart: u64)

  /**
   `samples` are the button states observed since the request began; `spent` is how many of
   them had been observed when a press edge was last used up.
   */
  datatype Gate =
    | Idle
    | Awaiting(request: Request, samples: seq<bool>, spent: nat)
    | Confirmed(request: Request)

  /** Two consecutive released samples. */
  ghost predicate Armed(samples: seq<bool>) {
    exists i :: 0 < i < |samples| && !samples[i - 1] && !samples[i]
  }

  /** The button has been down since sample `k`, and was up just before. */
  ghost predicate PressRunFrom(samples: seq<bool>, k: int) {
    0 < k < |samples| && !samples[k - 1] && forall j :: k <= j < |samples| ==> samples[j]
  }

  /** The current press began after arming and no edge has been used up since. */
  ghost predicate FreshEdge(samples: seq<bool>, spent: nat) {
    exists k :: spent <= k && PressRunFrom(samples, k) && Armed(samples[..k])
  }

  function Begun(operation: PresenceOperation, id: AttemptId, now: u64, generation: u64): Gate {
    Awaiting(Request(operation, id, DeadlineFrom(now, ATTEMPT_TTL_MS), generation), [], 0)
  }

  function Observed(g: Gate, pressed: bool): Gate {
    if g.Awaiting? then g.(samples := g.samples + [pressed]) else g
  }

  predicate Overdue(g: Gate, now: u64) {
    !g.Idle? && g.request.expiresAt <= now
  }

  function Expired(g: Gate, now: u64): Gate {
    if Overdue(g, now) then Idle else g
  }

  ghost function Pressed(g: Gate, now: u64, generation: u64): Gate {
    var h := Expired(g, now);
    if !h.Awaiting? || !FreshEdge(h.samples, h.spent) then h
    else if generation <= h.request.generationAtStart then h.(spent := |h.samples|)
    else Confirmed(h.request)
  }

  predicate Consumable(g: Gate, id: AttemptId, now: u64) {
    g.Confirmed? && g.request.attemptId == id && now < g.request.expiresAt
  }

  function Consumed(g: Gate, now: u64): Gate {
    if g.Confirmed? then Idle else Expired(g, now)
  }

  lemma ArmedExtends(s: seq<bool>, pressed: bool)
    ensures Armed(s + [pressed]) <==> Armed(s) || (|s| > 0 && !s[|s| - 1] && !pressed)
  {
    var t := s + [pressed];
    if i :| 0 < i < |t| && !t[i - 1] && !t[i] && i < |s| {
      assert !s[i - 1] && !s[i];
    }
    if i :| 0 < i < |s| && !s[i - 1] && !s[i] {
      assert !t[i - 1] && !t[i];
    }
    if |s| > 0 && !s[|s| - 1] && !pressed {
      assert !t[|s| - 1] && !t[|s|];
    }
  }

  lemma ArmedPrefix(s: seq<bool>, k: nat)
    requires k <= |s| && Armed(s[..k])
    ensures Armed(s)
  {
    var i :| 0 < i < k && !s[..k][i - 1] && !s[..k][i];
    assert !s[i - 1] && !s[i];
  }

  lemma FreshEdgeExtends(s: seq<bool>, pressed: bool, spent: nat)
    requires spent <= |s|
    ensures FreshEdge(s + [pressed], spent) <==>
            pressed && Armed(s) && (!s[|s| - 1] || FreshEdge(s, spent))
  {
    var t := s + [pressed];
    if FreshEdge(t, spent) {
      var k :| spent <= k && PressRunFrom(t, k) && Armed(t[..k]);
      assert t[..k] == s[..k];
      ArmedPrefix(s, k);
      assert t[|s|] == pressed;
      if k < |s| {
        assert PressRunFrom(s, k);
      } else {
        assert t[k - 1] == s[|s| - 1];
      }
    }
    if pressed && Armed(s) {
      if !s[|s| - 1] {
        assert t[..|s|] == s;
        assert PressRunFrom(t, |s|);
      } else if FreshEdge(s, spent) {
        var k :| spent <= k && PressRunFrom(s, k) && Armed(s[..k]);
        assert t[..k] == s[..k];
        assert PressRunFrom(t, k);
      }
    }
  }

  /** Released twice running, up to just before sample `k`, and down ever since. */
  ghost predicate Gesture(samples: seq<bool>, spent: nat, r: int, k: int) {
    && 0 < r < k < |samples| && spent <= k
    && !samples[r - 1] && !samples[r] && !samples[k - 1]
    && forall j :: k <= j < |samples| ==> samples[j]
  }

  /** Exactly what makes a press confirm a waiting request. */
  lemma PressConfirmsIff(g: Gate, now: u64, generation: u64)
    requires g.Awaiting?
    ensures Pressed(g, now, generation).Confirmed? <==>
            && now < g.request.expiresAt && g.request.generationAtStart < generation
            && exists r, k :: Gesture(g.samples, g.spent, r, k)
  {
    if k :| g.spent <= k && PressRunFrom(g.samples, k) && Armed(g.samples[..k]) {
      var r :| 0 < r < k && !g.samples[..k][r - 1] && !g.samples[..k][r];
      assert Gesture(g.samples, g.spent, r, k);
    }
    if r, k :| Gesture(g.samples, g.spent, r, k) {
      assert !g.samples[..k][r - 1] && !g.samples[..k][r];
      assert Armed(g.samples[..k]) && PressRunFrom(g.samples, k);
    }
  }

  /** A button that is never seen released twice running, held or bouncing, confirms nothing. */
  lemma HeldButtonNeverConfirms(g: Gate, now: u64, generation: u64)
    requires g.Awaiting? && forall i :: 0 < i < |g.samples| ==> g.samples[i - 1] || g.samples[i]
    ensures !Pressed(g, now, generation).Confirmed?
  {
    PressConfirmsIff(g, now, generation);
  }

  datatype PresenceState = StateIdle | StateAwaiting | StateConfirmed

  class UserPresenceGate {
    var state: PresenceState
    var operation: PresenceOperation
    var attemptId: AttemptId
    var expiresAt: u64
    var generationAtStart: u64
    var neutralSamples: nat
    var inputArmed: bool
    var lastInputPressed: bool
    var postArmPressEdge: bool

    ghost var samples: seq<bool>
    ghost var spent: nat

    ghost function View(): Gate
      reads this
    {
      var request := Request(operation, attemptId, expiresAt, generationAtStart);
      match state
      case StateIdle => Gate.Idle
      case StateAwaiting => Gate.Awaiting(request, samples, spent)
      case StateConfirmed => Gate.Confirmed(request)
    }

    /** The counters and flags are exactly what the sample history says. */
    ghost predicate Valid()
      reads this
    {
      state == StateAwaiting ==>
        && spent <= |samples|
        && inputArmed == Armed(samples)
        && lastInputPressed == (samples != [] && samples[|samples| - 1])
        && (!inputArmed ==> neutralSamples == if samples != [] && !lastInputPressed then 1 else 0)
        && postArmPressEdge == FreshEdge(samples, spent)
    }

    constructor ()
      ensures Valid() && View() == Idle
    {
      state := StateIdle;
      operation, attemptId, expiresAt, generationAtStart := ForSession(TrustedBrowserUnlock), 0, 0, 0;
      neutralSamples, inputArmed, lastInputPressed, postArmPressEdge := 0, false, false, false;
      samples, spent := [], 0;
    }

    method Clear()
      modifies this
      ensures Valid() && View() == Idle
      ensures samples == [] && spent == 0 && neutralSamples == 0
      ensures !inputArmed && !lastInputPressed && !postArmPressEdge
    {
      state := StateIdle;
      operation, attemptId, expiresAt, generationAtStart := ForSession(TrustedBrowserUnlock), 0, 0, 0;
      neutralSamples, inputArmed, lastInputPressed, postArmPressEdge := 0, false, false, false;
      samples, spent := [], 0;
    }

    method Begin(newOperation: PresenceOperation, id: AttemptId, now: u64, generation: u64)
      modifies this
      ensures Valid() && View() == Begun(newOperation, id, now, generation)
    {
      Clear();
      operation := newOperation;
      attemptId := id;
      expiresAt := DeadlineFrom(now, ATTEMPT_TTL_MS);
      generationAtStart := generation;
      state := StateAwaiting;
    }

    method ObserveInputState(pressed: bool)
      requires Valid()
      modifies this
      ensures Valid() && View() == Observed(old(View()), pressed)
    {
      if state != StateAwaiting { return; }
      ArmedExtends(samples, pressed);
      FreshEdgeExtends(samples, pressed, spent);
      samples := samples + [pressed];
      if !inputArmed {
        postArmPressEdge := false;
        lastInputPressed := pressed;
        if pressed {
          neutralSamples := 0;
          return;
        }
        if neutralSamples < 2 { neutralSamples := neutralSamples + 1; }
        if neutralSamples >= 2 {
          inputArmed := true;
          lastInputPressed := false;
        }
        return;
      }
      if pressed && !lastInputPressed {
        postArmPressEdge := true;
      } else if !pressed {
        postArmPressEdge := false;
      }
      lastInputPressed := pressed;
    }

    method ConfirmCurrent(now: u64, generation: u64) returns (confirmed: bool)
      requires Valid()
      modifies this
      ensures Valid() && View() == Pressed(old(View()), now, generation)
      ensures confirmed <==> View().Confirmed? && !old(View()).Confirmed?
    {
      var late := Expire(now);
      if late || state != StateAwaiting { return false; }
      if !inputArmed || !postArmPressEdge { return false; }
      postArmPressEdge := false;
      spent := |samples|;
      if generation <= generationAtStart { return false; }
      state := StateConfirmed;
      return true;
    }

    method ConsumeConfirmation(id: AttemptId, now: u64) returns (consumed: bool)
      requires Valid()
      modifies this
      ensures Valid() && View() == Consumed(old(View()), now)
      ensures consumed <==> Consumable(old(View()), id, now)
    {
      var late := Expire(now);
      if late || state != StateConfirmed { return false; }
      consumed := id == attemptId;
      Clear();
    }

    method Expire(now: u64) returns (late: bool)
      requires Valid()
      modifies this
      ensures Valid() && View() == Expired(old(View()), now)
      ensures late <==> Overdue(old(View()), now)
    {
      if state == StateIdle || now < expiresAt { return false; }
      Clear();
      return true;
    }
  }

  /** Owns the gate and counts presses; every method holds its mutex for its whole body. */
  class CanonicalPresence {
    const gate: UserPresenceGate
    var buttonPressGeneration: u64

    ghost predicate Valid()
      reads this, gate
    {
      gate.Valid()
    }

    ghost function View(): Gate
      reads this, gate
    {
      gate.View()
    }

    constructor ()
      ensures Valid() && View() == Idle && fresh(gate) && buttonPressGeneration == 0
    {
      gate := new UserPresenceGate();
      buttonPressGeneration := 0;
    }

    method BeginPresence(operation: PresenceOperation, id: AttemptId, now: u64)
      requires Valid()
      modifies gate
      ensures Valid() && View() == Begun(operation, id, now, buttonPressGeneration)
    {
      gate.Begin(operation, id, now, buttonPressGeneration);
    }

    method ConsumePresence(id: AttemptId, now: u64) returns (consumed: bool)
      requires Valid()
      modifies gate
      ensures Valid() && View() == Consumed(old(View()), now)
      ensures consumed <==> Consumable(old(View()), id, now)
    {
      consumed := gate.ConsumeConfirmation(id, now);
    }

    method CancelPresence()
      modifies gate
      ensures Valid() && View() == Idle
    {
      gate.Clear();
    }

    predicate PresenceConfirmed()
      reads this, gate
      ensures PresenceConfirmed() <==> View().Confirmed?
    {
      gate.state == StateConfirmed
    }

    method ObserveButtonState(pressed: bool)
      requires Valid()
      modifies gate
      ensures Valid() && View() == Observed(old(View()), pressed)
    {
      gate.ObserveInputState(pressed);
    }

    method ButtonPressed(now: u64) returns (confirmed: bool)
      requires Valid()
      modifies this, gate
      ensures Valid() && buttonPressGeneration == NextGeneration(old(buttonPressGeneration))
      ensures View() == Pressed(old(View()), now, buttonPressGeneration)
      ensures confirmed <==> View().Confirmed? && !old(View()).Confirmed?
    {
      if buttonPressGeneration != MAX_U64 { buttonPressGeneration := buttonPressGeneration + 1; }
      if gate.state == StateIdle { return false; }
      confirmed := gate.ConfirmCurrent(now, buttonPressGeneration);
    }

    method Expire(now: u64) returns (late: bool)
      requires Valid()
      modifies gate
      ensures Valid() && View() == Expired(old(View()), now)
      ensures late <==> Overdue(old(View()), now)
    {
      late := gate.Expire(now);
    }
  }

  function NextGeneration(g: u64): u64 {
    if g == MAX_U64 then g else g + 1
  }

  datatype Sighting = Sighting(pressed: bool, deciding: bool, now: u64)

  /** The button has been up since sighting `k`, which followed a press or began the quarantine. */
  ghost predicate UpSince(seen: seq<Sighting>, k: int) {
    0 <= k < |seen| && (k > 0 ==> seen[k - 1].pressed) && forall j :: k <= j < |seen| ==> !seen[j].pressed
  }

  /** The latest sighting ends the quarantine: up for longer than a click could still be open. */
  ghost predicate Settled(seen: seq<Sighting>, timeout: nat) {
    exists k :: UpSince(seen, k) && k < |seen| - 1 && !seen[|seen| - 1].deciding
                && seen[|seen| - 1].now > seen[k].now + timeout
  }

  /** Keeps the gesture that confirmed a request from also acting on the menu. */
  class PresenceGestureQuarantine {
    var active: bool
    var releaseObserved: bool
    var releaseObservedAt: u64
    var clickDecisionTimeout: nat

    ghost var seen: seq<Sighting>

    ghost predicate Valid()
      reads this
    {
      active ==>
        if releaseObserved then
          exists k :: UpSince(seen, k) && seen[k].now == releaseObservedAt
        else seen == [] || seen[|seen| - 1].pressed
    }

    constructor ()
      ensures Valid() && !active
    {
      active, releaseObserved, releaseObservedAt, clickDecisionTimeout, seen := false, false, 0, 0, [];
    }

    method Begin(now: u64, timeout: nat)
      modifies this
      ensures Valid() && active && seen == [] && clickDecisionTimeout == timeout
    {
      active, releaseObserved, releaseObservedAt, clickDecisionTimeout, seen := true, false, now, timeout, [];
    }

    method Observe(pressed: bool, deciding: bool, now: u64)
      requires Valid()
      modifies this
      ensures Valid()
      ensures !old(active) ==> !active
      ensures old(active) ==> var longer := old(seen) + [Sighting(pressed, deciding, now)];
                              && (active <==> !Settled(longer, old(clickDecisionTimeout)))
                              && (active ==> seen == longer && clickDecisionTimeout == old(clickDecisionTimeout))
    {
      if !active { return; }
      ghost var before := seen;
      seen := seen + [Sighting(pressed, deciding, now)];
      if pressed {
        releaseObserved := false;
        return;
      }
      if !releaseObserved {
        releaseObserved := true;
        releaseObservedAt := now;
        assert UpSince(seen, |before|);
        return;
      }
      ghost var k :| UpSince(before, k) && before[k].now == releaseObservedAt;
      assert UpSince(seen, k) && seen[k].now == releaseObservedAt;
      if deciding { return; }
      if now < releaseObservedAt { return; }
      if now - releaseObservedAt <= clickDecisionTimeout { return; }
      Cancel();
    }

    method Cancel()
      modifies this
      ensures Valid() && !active
    {
      active, releaseObserved, releaseObservedAt, clickDecisionTimeout := false, false, 0, 0;
    }
  }
}
