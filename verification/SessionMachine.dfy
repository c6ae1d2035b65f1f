/**
 The attempt state machine and the presence gate together, as one step function over the events
 of both threads, and what every Vault key it ever hands out has behind it.
 */
module SessionMachine {
  import opened Vocabulary
  import opened Presence

  type Vmk = nat

  /** `context` is what the attempt is bound to; the machine never looks inside it. */
  datatype Attempt<C> =
    | NoAttempt
    | Started(context: C, id: AttemptId, expiresAt: u64)
    | Authorized(context: C, id: AttemptId, expiresAt: u64)

  datatype Machine<C> = Machine(attempt: Attempt<C>, gate: Gate, generation: u64)

  /**
   Everything that can happen, from either thread, in the order in which the gate's mutex
   and the protocol task serialize it. Times are what the acting thread read beforehand, so
   they need not grow along a run.
   */
  datatype Event<C> =
    | Begin(context: C, drawn: Option<AttemptId>, now: u64)
    | Authorize(operation: SessionOperation, accepted: bool, now: u64)
    | Complete(delivered: Option<Vmk>, now: u64)
    | ExpireAttempt(now: u64)
    | Cancel
    | Sample(pressed: bool)
    | Press(now: u64)
    | ExpireGate(now: u64)
    | ResetBegin(resetId: AttemptId, now: u64)
    | ResetConsume(resetId: AttemptId, now: u64)
    | ResetCancel

  ghost function Step<C>(m: Machine<C>, e: Event<C>): Machine<C> {
    match e
    case Begin(context, drawn, now) =>
      m.(gate := Idle,
         attempt := if drawn.Some? then Started(context, drawn.value, DeadlineFrom(now, ATTEMPT_TTL_MS)) else NoAttempt)
    case Authorize(operation, accepted, now) =>
      if m.attempt.Started? && now < m.attempt.expiresAt && accepted then
        m.(attempt := Authorized(m.attempt.context, m.attempt.id, m.attempt.expiresAt),
           gate := Begun(ForSession(operation), m.attempt.id, now, m.generation))
      else m.(attempt := NoAttempt, gate := Idle)
    case Complete(_, _) => m.(attempt := NoAttempt, gate := Idle)
    case ExpireAttempt(now) =>
      if m.attempt != NoAttempt && m.attempt.expiresAt <= now then m.(attempt := NoAttempt, gate := Idle) else m
    case Cancel => m.(attempt := NoAttempt, gate := Idle)
    case Sample(pressed) => m.(gate := Observed(m.gate, pressed))
    case Press(now) =>
      var g := NextGeneration(m.generation);
      m.(generation := g, gate := Pressed(m.gate, now, g))
    case ExpireGate(now) => m.(gate := Expired(m.gate, now))
    case ResetBegin(id, now) => m.(attempt := NoAttempt, gate := Begun(ForFactoryReset, id, now, m.generation))
    case ResetConsume(_, now) => m.(gate := Consumed(m.gate, now))
    case ResetCancel => m.(gate := Idle)
  }

  /** The key a `Complete` hands out. */
  function Released<C>(m: Machine<C>, e: Event<C>): Option<Vmk> {
    if e.Complete? && m.attempt.Authorized? && e.now < m.attempt.expiresAt && Consumable(m.gate, m.attempt.id, e.now)
    then e.delivered else None
  }

  ghost function Replay<C>(events: seq<Event<C>>): Machine<C> {
    if events == [] then Machine(NoAttempt, Idle, 0)
    else Step(Replay(events[..|events| - 1]), events[|events| - 1])
  }

  lemma ReplayAppends<C>(events: seq<Event<C>>, e: Event<C>)
    ensures Replay(events + [e]) == Step(Replay(events), e)
  {
    assert (events + [e])[..|events|] == events;
  }

  function Samples<C>(events: seq<Event<C>>): seq<bool> {
    if events == [] then []
    else
      var rest := Samples(events[..|events| - 1]);
      var e := events[|events| - 1];
      if e.Sample? then rest + [e.pressed] else rest
  }

  predicate Disturbs<C>(e: Event<C>) {
    e.Begin? || e.Authorize? || e.Complete? || e.Cancel? || e.ResetBegin?
  }

  /** Event `b` began attempt `id`. */
  predicate BeganAt<C>(events: seq<Event<C>>, b: int, id: AttemptId, expiresAt: u64) {
    && 0 <= b < |events| && events[b].Begin? && events[b].drawn == Some(id)
    && expiresAt == DeadlineFrom(events[b].now, ATTEMPT_TTL_MS)
  }

  /** Event `a` authorized the attempt begun at `b`, in time. */
  predicate AuthorizedAt<C>(events: seq<Event<C>>, b: int, a: int) {
    && 0 <= b < a < |events| && events[b].Begin? && events[a].Authorize? && events[a].accepted
    && events[a].now < DeadlineFrom(events[b].now, ATTEMPT_TTL_MS)
  }

  /** Since `b`, nothing but the authorization at `a` has begun, moved on or ended an attempt. */
  predicate UndisturbedExcept<C>(events: seq<Event<C>>, b: int, a: int) {
    forall j :: b < j < |events| && j != a && 0 <= j ==> !Disturbs(events[j])
  }

  /**
   Event `p` is a press, in time for the authorization at `a`, whose samples since `a` show two
   consecutive releases, then a release-to-press edge, with the button still down.
   */
  ghost predicate ConfirmedAt<C>(events: seq<Event<C>>, a: int, p: int) {
    && 0 <= a < p < |events| && (events[a].Authorize? || events[a].ResetBegin?) && events[p].Press?
    && events[p].now < DeadlineFrom(events[a].now, ATTEMPT_TTL_MS)
    && FreshEdge(Samples(events[a + 1..p]), 0)
  }

  /** How the current state came about. */
  ghost predicate Explained<C>(events: seq<Event<C>>, b: int, a: int, p: int) {
    var m := Replay(events);
    && (m.attempt.Started? ==>
          BeganAt(events, b, m.attempt.id, m.attempt.expiresAt) && UndisturbedExcept(events, b, b))
    && (m.attempt.Authorized? ==>
          && BeganAt(events, b, m.attempt.id, m.attempt.expiresAt)
          && AuthorizedAt(events, b, a) && UndisturbedExcept(events, b, a))
    && (!m.gate.Idle? ==> GateExplained(events, a, p, m.gate))
  }

  /** The gate was opened by event `a`, and has seen the samples since. */
  ghost predicate GateExplained<C>(events: seq<Event<C>>, a: int, p: int, g: Gate)
    requires !g.Idle?
  {
    && 0 <= a < |events| && (events[a].Authorize? || events[a].ResetBegin?)
    && g.request.expiresAt == DeadlineFrom(events[a].now, ATTEMPT_TTL_MS)
    && (g.request.operation == ForFactoryReset <==> events[a].ResetBegin?)
    && (events[a].ResetBegin? ==> events[a].resetId == g.request.attemptId)
    && (g.Awaiting? ==> g.samples == Samples(events[a + 1..]) && g.spent <= |g.samples|)
    && (g.Confirmed? ==> ConfirmedAt(events, a, p))
  }

  lemma GateStaysExplained<C>(before: seq<Event<C>>, e: Event<C>, a: int, p: int, m: Machine<C>)
    requires !m.gate.Idle? && GateExplained(before, a, p, m.gate) && !e.Authorize? && !e.ResetBegin?
    ensures var g := Step(m, e).gate;
            !g.Idle? ==> GateExplained(before + [e], a, if e.Press? && !m.gate.Confirmed? then |before| else p, g)
  {
    var events, n := before + [e], |before|;
    assert events[a + 1..] == before[a + 1..] + [e];
    assert events[a + 1..n] == before[a + 1..];
    assert (before[a + 1..] + [e])[..n - a - 1] == before[a + 1..];
    if m.gate.Confirmed? {
      assert events[a + 1..p] == before[a + 1..p];
    } else if m.gate.Awaiting? && e.Press? && FreshEdge(m.gate.samples, m.gate.spent) {
      FreshEdgeForgetsSpent(m.gate.samples, m.gate.spent);
    }
  }

  lemma FreshEdgeForgetsSpent(samples: seq<bool>, spent: nat)
    requires FreshEdge(samples, spent)
    ensures FreshEdge(samples, 0)
  {
    var k :| spent <= k && PressRunFrom(samples, k) && Armed(samples[..k]);
    assert 0 <= k && PressRunFrom(samples, k) && Armed(samples[..k]);
  }

  lemma EventExplains<C>(before: seq<Event<C>>, e: Event<C>, b: int, a: int, p: int)
    returns (b': int, a': int, p': int)
    requires Explained(before, b, a, p)
    ensures Explained(before + [e], b', a', p')
  {
    var events := before + [e];
    var n := |before|;
    assert events[..n] == before && events[n] == e;
    assert Replay(events) == Step(Replay(before), e);
    b' := if e.Begin? then n else b;
    a' := if e.Authorize? || e.ResetBegin? then n else a;
    var was, now := Replay(before), Replay(events);
    p' := if e.Press? && !was.gate.Confirmed? then n else p;
    forall j | 0 <= j < n ensures events[j] == before[j] {}
    if e.Authorize? || e.ResetBegin? {
      assert events[n + 1..] == [];
    } else if !was.gate.Idle? {
      GateStaysExplained(before, e, a, p, was);
    }
  }

  lemma {:induction false} EveryStateIsExplained<C>(events: seq<Event<C>>) returns (b: int, a: int, p: int)
    ensures Explained(events, b, a, p)
  {
    if events == [] {
      b, a, p := 0, 0, 0;
    } else {
      var before := events[..|events| - 1];
      b, a, p := EveryStateIsExplained(before);
      b, a, p := EventExplains(before, events[|events| - 1], b, a, p);
      assert before + [events[|events| - 1]] == events;
    }
  }

  /** Event `i` hands out a key for the attempt begun at `b`, authorized at `a`, confirmed at `p`. */
  ghost predicate Justified<C>(events: seq<Event<C>>, i: int, b: int, a: int, p: int) {
    && 0 <= b < a < p < i < |events| && events[i].Complete?
    && AuthorizedAt(events, b, a) && ConfirmedAt(events, a, p)
    && events[b].drawn.Some?
    && UndisturbedExcept(events[..i], b, a)
    && events[i].now < DeadlineFrom(events[b].now, ATTEMPT_TTL_MS)
    && events[i].now < DeadlineFrom(events[a].now, ATTEMPT_TTL_MS)
  }

  /** Every key handed out follows its own authorization, two releases, a fresh press, in time. */
  lemma EveryKeyIsJustified<C>(events: seq<Event<C>>, i: nat) returns (b: int, a: int, p: int)
    requires i < |events| && Released(Replay(events[..i]), events[i]).Some?
    ensures Justified(events, i, b, a, p)
  {
    var before := events[..i];
    b, a, p := EveryStateIsExplained(before);
    assert forall j :: 0 <= j < i ==> before[j] == events[j];
    assert events[a + 1..p] == before[a + 1..p];
  }

  /** A confirmed reset, too, was asked for first and then confirmed by a fresh press in time. */
  lemma ConfirmedResetIsFresh<C>(events: seq<Event<C>>) returns (r: int, p: int)
    requires var g := Replay(events).gate; g.Confirmed? && g.request.operation == ForFactoryReset
    ensures ConfirmedAt(events, r, p) && events[r].ResetBegin? && events[r].resetId == Replay(events).gate.request.attemptId
  {
    var b;
    b, r, p := EveryStateIsExplained(events);
  }

  /** The last event handed out a key, and that key is justified. */
  ghost predicate JustGaveOut<C>(events: seq<Event<C>>, vmk: Vmk) {
    && events != [] && events[|events| - 1].Complete? && events[|events| - 1].delivered == Some(vmk)
    && exists b: int, a: int, p: int :: LastJustified(events, b, a, p)
  }

  ghost predicate LastJustified<C>(events: seq<Event<C>>, b: int, a: int, p: int) {
    events != [] && Justified(events, |events| - 1, b, a, p)
  }

  lemma ReleaseIsJustified<C>(events: seq<Event<C>>, e: Event<C>)
    requires Released(Replay(events), e).Some?
    ensures JustGaveOut(events + [e], Released(Replay(events), e).value)
  {
    assert (events + [e])[..|events|] == events;
    var b, a, p := EveryKeyIsJustified(events + [e], |events|);
    assert LastJustified(events + [e], b, a, p);
  }

  /** The key was handed out at some point, with everything that takes. */
  ghost predicate GivenOut<C>(events: seq<Event<C>>, vmk: Vmk) {
    exists i: int, b: int, a: int, p: int :: Justified(events, i, b, a, p) && events[i].delivered == Some(vmk)
  }

  lemma GivenOutStays<C>(events: seq<Event<C>>, longer: seq<Event<C>>, vmk: Vmk)
    requires events <= longer && GivenOut(events, vmk)
    ensures GivenOut(longer, vmk)
  {
    var i: int, b: int, a: int, p: int :| Justified(events, i, b, a, p) && events[i].delivered == Some(vmk);
    assert longer[..i] == events[..i] && longer[a + 1..p] == events[a + 1..p];
    assert Justified(longer, i, b, a, p);
  }

  /** The windows of two keys are disjoint: one key per attempt, one attempt per press. */
  lemma KeysShareNothing<C>(events: seq<Event<C>>, i: int, b: int, a: int, p: int, j: int, c: int, d: int, q: int)
    requires Justified(events, i, b, a, p) && Justified(events, j, c, d, q) && i < j
    ensures b < a < p < i < c < d < q < j
  {
    assert events[..j][i] == events[i];
  }

  // ----- presses after the attempt's own deadline -----

  /**
   The gate only checks its own deadline, counted from the authorization, so a justified press
   may be late for the attempt, but by less than those two deadlines are apart.
   */
  lemma LatenessIsBounded<C>(events: seq<Event<C>>, i: int, b: int, a: int, p: int)
    requires Justified(events, i, b, a, p)
    ensures var late := events[p].now - DeadlineFrom(events[b].now, ATTEMPT_TTL_MS);
            && late < DeadlineFrom(events[a].now, ATTEMPT_TTL_MS) - DeadlineFrom(events[b].now, ATTEMPT_TTL_MS)
            && late < ATTEMPT_TTL_MS
            && (events[b].now <= events[a].now ==> late < events[a].now - events[b].now || late < 0)
  {
  }

  /** Some run hands out a key for an attempt begun and authorized at these times, pressed too late. */
  ghost predicate LatePressPossible(began: u64, authorized: u64) {
    exists events: seq<Event<int>>, i: nat, b: int, a: int, p: int :: HandsOutLate(events, i, b, a, p, began, authorized)
  }

  ghost predicate HandsOutLate(events: seq<Event<int>>, i: nat, b: int, a: int, p: int, began: u64, authorized: u64) {
    && i < |events| && Released(Replay(events[..i]), events[i]).Some? && Justified(events, i, b, a, p)
    && events[b].now == began && events[a].now == authorized
    && DeadlineFrom(began, ATTEMPT_TTL_MS) <= events[p].now
  }

  /** Whether a late press can count is decided when the attempt is authorized. */
  lemma LatePressPossibleIff(began: u64, authorized: u64)
    ensures LatePressPossible(began, authorized) <==>
            authorized < DeadlineFrom(began, ATTEMPT_TTL_MS) < DeadlineFrom(authorized, ATTEMPT_TTL_MS)
  {
    if authorized < DeadlineFrom(began, ATTEMPT_TTL_MS) < DeadlineFrom(authorized, ATTEMPT_TTL_MS) {
      var events := GestureUnderWay(began, authorized);
      LatePressCounts(began, authorized, events);
    }
  }

  function Stamp<C>(e: Event<C>): Option<u64> {
    match e
    case Begin(_, _, now) => Some(now)
    case Authorize(_, _, now) => Some(now)
    case Complete(_, now) => Some(now)
    case ExpireAttempt(now) => Some(now)
    case Press(now) => Some(now)
    case ExpireGate(now) => Some(now)
    case ResetBegin(_, now) => Some(now)
    case ResetConsume(_, now) => Some(now)
    case _ => None
  }

  /** Clocks read in the order in which the events take effect. */
  ghost predicate InClockOrder<C>(events: seq<Event<C>>) {
    forall j, k :: 0 <= j < k < |events| && Stamp(events[j]).Some? && Stamp(events[k]).Some? ==>
      Stamp(events[j]).value <= Stamp(events[k]).value
  }

  /** In a run with clocks in order, every key was confirmed before its attempt's own deadline. */
  lemma OrderedClocksAreNeverLate<C>(events: seq<Event<C>>, i: nat) returns (b: int, a: int, p: int)
    requires InClockOrder(events) && i < |events| && Released(Replay(events[..i]), events[i]).Some?
    ensures Justified(events, i, b, a, p) && events[p].now < DeadlineFrom(events[b].now, ATTEMPT_TTL_MS)
  {
    b, a, p := EveryKeyIsJustified(events, i);
    assert Stamp(events[p]).value <= Stamp(events[i]).value;
  }

  lemma TwoReleasesThenPress()
    ensures FreshEdge([false, false, true], 0)
  {
    var samples := [false, false, true];
    assert samples[..2] == [false, false] && ![false, false][0] && ![false, false][1];
    assert Armed(samples[..2]) && PressRunFrom(samples, 2);
  }

  /** An attempt begun and authorized at these times, after two releases and a press. */
  lemma GestureUnderWay(began: u64, authorized: u64) returns (events: seq<Event<int>>)
    requires authorized < DeadlineFrom(began, ATTEMPT_TTL_MS)
    ensures |events| == 5 && events[0] == Begin(0, Some(9), began)
    ensures Replay(events) == Machine(Authorized(0, 9, DeadlineFrom(began, ATTEMPT_TTL_MS)),
                                      Awaiting(Request(ForSession(TrustedBrowserUnlock), 9, DeadlineFrom(authorized, ATTEMPT_TTL_MS), 0),
                                               [false, false, true], 0), 0)
    ensures events[1] == Authorize(TrustedBrowserUnlock, true, authorized) && forall j :: 1 < j < 5 ==> events[j].Sample?
  {
    var s1: seq<Event<int>> := [Begin(0, Some(9), began)];
    var s2 := s1 + [Authorize(TrustedBrowserUnlock, true, authorized)];
    assert Replay(s1) == Step(Machine(NoAttempt, Idle, 0), s1[0]) by { assert s1[..0] == []; }
    ReplayAppends(s1, s2[1]);
    ReplayAppends(s2, Sample(false));
    ReplayAppends(s2 + [Sample(false)], Sample(false));
    events := s2 + [Sample(false)] + [Sample(false)] + [Sample(true)];
    ReplayAppends(s2 + [Sample(false)] + [Sample(false)], Sample(true));
    hide Replay;
    assert [] + [false] == [false] && [false] + [false] == [false, false] && [false, false] + [true] == [false, false, true];
  }

  /** Pressed at the attempt's deadline, completed with the earlier reading of the other thread. */
  lemma LatePressCounts(began: u64, authorized: u64, gesture: seq<Event<int>>)
    requires authorized < DeadlineFrom(began, ATTEMPT_TTL_MS) < DeadlineFrom(authorized, ATTEMPT_TTL_MS)
    requires |gesture| == 5 && gesture[0] == Begin(0, Some(9), began)
    requires gesture[1] == Authorize(TrustedBrowserUnlock, true, authorized) && forall j :: 1 < j < 5 ==> gesture[j].Sample?
    requires Replay(gesture) == Machine(Authorized(0, 9, DeadlineFrom(began, ATTEMPT_TTL_MS)),
                                        Awaiting(Request(ForSession(TrustedBrowserUnlock), 9, DeadlineFrom(authorized, ATTEMPT_TTL_MS), 0),
                                                 [false, false, true], 0), 0)
    ensures LatePressPossible(began, authorized)
  {
    var press: Event<int> := Press(DeadlineFrom(began, ATTEMPT_TTL_MS));
    var pressed := gesture + [press];
    ReplayAppends(gesture, press);
    hide Replay, FreshEdge;
    TwoReleasesThenPress();
    var events := pressed + [Complete(Some(42), authorized)];
    assert events[..6] == pressed;
    assert Released(Replay(events[..6]), events[6]) == Some(42);
    var b, a, p := EveryKeyIsJustified(events, 6);
    assert events[b].Begin? ==> b == 0;
    assert events[a].Authorize? ==> a == 1;
    assert events[p].Press? ==> p == 5;
    assert HandsOutLate(events, 6, b, a, p, began, authorized);
  }
}
