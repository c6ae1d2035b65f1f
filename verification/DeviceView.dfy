/**
 The firmware's device in the commit protocol's terms: what is in flash and what RAM shows, and
 the steps which the protocol, the replacement of browsers and the recovery reset allow.
 */
module DeviceView {
  import opened Vocabulary
  import opened Presence
  import opened SessionBinding
  import opened Bytes
  import B = BrowserState
  import C = CommitProtocol
  import F = BrowserReplacement
  import R = RegistrationStore
  import V = VaultRuntime

  function VaultOf(e: V.Envelope): B.Vault {
    B.Vault(e.vaultId, e.generation, e.format, e.body)
  }

  function VaultIn(e: Option<V.Envelope>): Option<B.Vault> {
    if e.None? then None else Some(VaultOf(e.value))
  }

  function ShownIn(e: Option<V.Envelope>): Option<B.ShownVault> {
    if e.None? then None else Some(B.Show(VaultOf(e.value)))
  }

  function RegistrationIn(r: Option<R.Registration>): Option<B.Registration> {
    if r.None? then None else Some(B.Registration(r.value.id, r.value.epoch, r.value.key))
  }

  function StateOf(s: V.State): B.RuntimeState {
    match s
    case Unprovisioned => B.Unprovisioned
    case Reprovision => B.ReprovisionRequired
    case Locked => B.Locked
    case Unlocked => B.Unlocked
    case Failed => B.Failed
  }

  /** The installation a pending key is waiting for; a re-key waits for none. */
  function InstallOf(pending: bool, c: Option<BeginContext>): Option<C.PendingInstall> {
    if pending && c.Some? && c.value.operation != VmkRekey then
      Some(C.PendingInstall(c.value.vaultId, B.Registration(c.value.registrationId, 1, c.value.proposedKey)))
    else None
  }

  function IdOf(record: Option<seq<byte>>): B.DeviceId {
    if record.Some? then BigValue(record.value) else 0
  }

  // ----- steps -----

  /** Why the Device may move at all, other than by itself. */
  datatype Cause =
    | NoCause
    | Asked(request: C.Request)
    | Delivered(context: BeginContext)
    | RecoveryAsked

  /** The session delivers the key for a first installation. */
  predicate Delivers(c: BeginContext, d: C.Device, e: C.Device) {
    C.Serves(d, C.Deliver(c.vaultId, B.Registration(c.registrationId, 1, c.proposedKey)), e)
  }

  /** A browser state whose replacement the context asks for; only what the Device checks matters. */
  function Replacing(c: BeginContext): B.State {
    B.State(B.Vault(c.vaultId, c.expectedGeneration, 0, 0), 0, B.Registration(c.registrationId, c.registrationEpoch, c.proposedKey),
            B.ReplacementPending, 0, None)
  }

  predicate Answers(q: C.Request, d: C.Device, e: C.Device) {
    C.Serves(d, q, e) || (q.Update? && C.UpdateUnread(d, q, e))
  }

  /** A step of the Device's own, or one that has this very cause. */
  predicate DeviceStep(d: C.Device, e: C.Device, cause: Cause) {
    || C.Drifts(d, e)
    || match cause
       case NoCause => false
       case Asked(q) => Answers(q, d, e)
       case Delivered(c) => Delivers(c, d, e) || F.ReplaceServed(d, Replacing(c), e)
       case RecoveryAsked => C.Wiped(d, e)
  }

  ghost predicate Path(run: seq<C.Device>, cause: Cause) {
    run != [] && forall k :: 0 < k < |run| ==> DeviceStep(run[k - 1], run[k], cause)
  }

  ghost predicate PathBetween(run: seq<C.Device>, d: C.Device, e: C.Device, cause: Cause) {
    Path(run, cause) && run[0] == d && run[|run| - 1] == e
  }

  /** Finitely many of the Device's steps lead from one state to the other. */
  ghost predicate Reaches(d: C.Device, e: C.Device, cause: Cause) {
    exists run :: PathBetween(run, d, e, cause)
  }

  lemma Stays(d: C.Device, cause: Cause)
    ensures Reaches(d, d, cause)
  {
    assert PathBetween([d], d, d, cause);
  }

  lemma StepReaches(d: C.Device, e: C.Device, cause: Cause)
    requires DeviceStep(d, e, cause)
    ensures Reaches(d, e, cause)
  {
    assert PathBetween([d, e], d, e, cause);
  }

  lemma PathsJoin(a: seq<C.Device>, b: seq<C.Device>, cause: Cause)
    requires Path(a, cause) && Path(b, cause) && a[|a| - 1] == b[0]
    ensures Path(a + b[1..], cause) && (a + b[1..])[0] == a[0] && (a + b[1..])[|a| + |b| - 2] == b[|b| - 1]
  {
    var run := a + b[1..];
    forall k | 0 < k < |run| ensures DeviceStep(run[k - 1], run[k], cause) {
      if k >= |a| {
        assert run[k - 1] == b[k - |a|] && run[k] == b[k - |a| + 1];
        assert DeviceStep(b[k - |a| + 1 - 1], b[k - |a| + 1], cause);
      }
    }
  }

  lemma ReachesOn(d: C.Device, e: C.Device, f: C.Device, cause: Cause)
    requires Reaches(d, e, cause) && Reaches(e, f, cause)
    ensures Reaches(d, f, cause)
  {
    hide DeviceStep;
    var a :| PathBetween(a, d, e, cause);
    var b :| PathBetween(b, e, f, cause);
    PathsJoin(a, b, cause);
    assert PathBetween(a + b[1..], d, f, cause);
  }

  /** What the Device does by itself it may do whatever the cause. */
  lemma AnyCauseReaches(d: C.Device, e: C.Device, cause: Cause)
    requires Reaches(d, e, NoCause)
    ensures Reaches(d, e, cause)
  {
    hide C.Drifts, C.Wiped, Answers, Delivers;
    var run :| PathBetween(run, d, e, NoCause);
    forall k | 0 < k < |run| ensures DeviceStep(run[k - 1], run[k], cause) {
      assert DeviceStep(run[k - 1], run[k], NoCause);
    }
    assert PathBetween(run, d, e, cause);
  }
}
