# M5Authenticator in Dafny

A model of how M5Authenticator keeps one encrypted Vault consistent between a browser and a
Device, and of the code that carries it, with machine-checked proofs.

**The browser and the Device.** The browser journals a candidate, sends one request that may be
lost, refused, served, or served without a readable reply, and reconciles from a fresh `hello`.
`CommitProtocol` is that protocol as a transition system in which every durable write, request,
Device reaction and crash is a step of its own. `Reconciliation` says what one look at the Device
makes reconciliation write next; `CommitInvariant` and `CommitTheorems` prove what holds in every
run without a lost read-back, `UnreadUpdates` what holds in every run when updates may also fail to
be read back, `RecoveryRuns` when a copy may die once recovery resets are added, and `StuckDevices`
exhibits the Devices that stop reconciliation. `CanonicalManagement` is the browser class itself,
whose methods perform those steps one by one against `BrowserEnvironment`, which may fail or end the
process at any of them, lets the Device do anything `UnreadUpdates` allows, and records every effect
as a step of a run. `RecoveryReset` is the recovery controller, and `BrowserReplacement` any number
of browsers that import Recovery Packages, replace each other, journal and send updates that may not
be read back, clear the Device and install it again.

**The Device.** `Presence` is the button gate, `SessionMachine` the history of attempts, samples,
presses and expiries on two threads, `AttemptCoordination`, `StagedSession` and `SessionBinding`
the session, `RegistrationStore` and `VaultRuntime` what is kept in flash and RAM, `VmkSink` the
place where a delivered Vault key goes, and `CanonicalProtocol` the handler of protocol lines over
all of them. `DeviceView` shows that device in the commit protocol's terms: every protocol line,
housekeeping and boot moves it by finitely many steps which that very line, or the attempt it
completes, allows; `DeviceRefinement` says which request leads to which step, and that `hello`
agrees. `DeviceLife` strings lines, button events and boots together into whole runs.

**Underneath.** `Framing` is the input loop, `Base64Url`, `Base32`, `Transcript`, `Decimal` and
`SnapshotCodec` the codecs (over `Bits`, `Bytes` and `Division`), `AccountStore`, `Ranking` and
`ProbeScan` the account storage, `TrustedClock` the clock, and `NoticeClosure` the dependency
closure of the notice check.

Ids, keys and ciphertexts are numbers where they are only compared. Cryptography is uninterpreted:
an envelope names the key that sealed it, a session opens what a given function opens, a signature
verifies when a given predicate says so. Calls into flash, durable storage and the serial line may
fail at any time; local storage writes are atomic, the serial line is first-in first-out, and a
crash may fall between any two writes.

## What turned out not to hold

- **An update that cannot be read back.** When `vault.update` has written the new envelope but
  cannot read it back, the runtime fails with the old metadata in RAM and allows a recovery reset,
  so `hello` still shows the old generation. Reconciliation then drops the journaled candidate, and
  after the next boot no browser record matches the Device. The exact condition is proved for one
  update (`CommitTheorems.UpdateSettlesTrulyIffReadBack`), for the failure of `mutateVault`
  (`CanonicalManagement.CanonicalDeviceManagement.MutateVault`), and for runs: the Device is
  accounted for up to that write (`UnreadUpdates.AccountedUntilMisled`) and never after it
  (`UnreadUpdates.OrphanedForGood`). A re-key that fails in the same place answers no `hello` and is
  safe.
- **Partial Devices.** A Device left with a Vault and no registration, or the other way round, by a
  failed rollback or half a factory reset makes reconciliation stop in a conflict or at an open
  reset. `UnreadUpdates.ReconciliationSettlesAnywhere` says exactly when it does not; `StuckDevices`
  has a run to each.
- **A recovery intent can contradict the store.** A journaled candidate's generation overrides the
  stored one in the intent, and the cleanup then refuses it for good
  (`RecoveryReset.IntentMatchesStoreIff`, `RecoveryReset.JournaledUpdateMakesCleanupImpossible`).
- **A replacement compares generations, not contents.** A package exported before the Device was
  cleared can carry another content of the same generation, and its importer still becomes the
  trusted writer. Writers stay up to date exactly when no such package is accepted
  (`BrowserReplacement.WritersStayUpToDateIff`), that is, when the registration that the package
  names is the Device's current one
  (`BrowserReplacement.PackagesArePresentIffTheyNameTheRegistration`); importing drops its id, so
  the browser does not check that.
- **The press and the attempt's deadline.** Both threads read the clock before they take the gate's
  lock, and the gate checks only its own deadline, so a press stamped after the attempt's deadline
  can still count: exactly when the gate's deadline is the later one
  (`SessionMachine.LatePressPossibleIff`), and never when clock readings are in the order of the
  events (`SessionMachine.OrderedClocksAreNeverLate`).
- **A failed reread forgets.** A read failure inside `replace` clears the registration in RAM while
  flash keeps it; `forgotten` in `RegistrationStore.Store` marks that. Until the next boot or
  recovery reset the Device asks for the recovery reset and takes no session
  (`CanonicalProtocol.CanonicalProtocolHandler.ForgottenNeedsRecovery`).
- **The initial provisioning does not check the runtime state**, only that no Vault and no
  registration are shown, so a candidate can be journaled for a Device that must refuse it
  (`StuckDevices.JournaledInstallationServableIff`, `StuckDevices.CandidateTheDeviceRefuses`).
- **Base32 accepts a surplus letter** (`Base32.SurplusLetter`), so one secret has several texts.
- **The closure lists one name per path.** It is the set of reachable pairs exactly when no
  reachable path has two names (`NoticeClosure.ListIsCompleteIffOneNamePerPath`, and
  `NoticeClosure.EveryListIsCompleteIff` where paths share a name and version).

## Model

| member | source | states |
|---|---|---|
| `CommitTheorems.VerdictAtRest` | web/src/canonical-management.ts:787-864 | a reconciliation step that writes nothing is a finished one exactly under that condition, and a finished one means the records are in step with the Device |
| `CommitTheorems.OnlyReconciliationDeletesCopies` | web/src/canonical-management.ts:751-785 | the only step of the protocol that removes a browser copy is a reconciliation write decided on a clean `hello` |
| `CommitTheorems.OpenResetFinishesOrRestores` | web/src/canonical-management.ts:751-864 | with a reset intent of `factoryReset` open, reconciliation restarted after a crash behind any number of its writes finishes the cleanup (clean Device), restores the untouched binding without writing the store (complete Device), or changes nothing |
| `CommitTheorems.UnreadUpdateOrphansTheDevice` | firmware/components/m5auth_vault_runtime/runtime.cpp:360-386 | false of the code: after an update that became persistent but could not be read back, reconciliation drops the candidate and the rebooted Device matches no browser record |
| `CommitTheorems.UpdateSettlesTrulyIffReadBack` | firmware/components/m5auth_vault_runtime/runtime.cpp:334-386 | after any outcome of a `vault.update` that a complete `hello` reports, reconciliation finishes, and the settled store equals the Device if and only if `hello` shows the persistent Vault, that is, if the read-back succeeded |
| `CommitTheorems.ServedUpdateSettles` | web/src/canonical-management.ts:866-899 | an update served, lost or refused, followed by a complete `hello`, always settles with store and Device equal |
| `CommitTheorems.UnreadUpdateIsReachable` | firmware/components/m5auth_vault_runtime/runtime.cpp:360-372 | a concrete four-step run that reaches the failing read-back |
| `UnreadUpdates.EveryWorldIsReached` | web/src/canonical-management.ts:787-864 | every world that any run of one browser and one Device comes to, with requests or replies lost, crashes between any two durable writes, the Device drifting on its own, and updates that cannot be read back, satisfies the protocol's invariant, or would after a power cycle and a restart, or is an orphaned Device |
| `UnreadUpdates.AccountedUnlessOrphaned` | web/src/canonical-management.ts:1162-1215 | at every moment of every such run a provisioned Device holds, content and registration included, exactly the stored browser state or exactly the one journaled candidate for its Vault, or it is orphaned |
| `UnreadUpdates.OrphanedForGood` | web/src/canonical-management.ts:855-860 | a Device once orphaned, that is, holding a candidate the browser has dropped, stays so in every continuation |
| `UnreadUpdates.ReconciliationSettlesAnywhere` | web/src/canonical-management.ts:751-864 | from every world of every such run reconciliation terminates, and it ends without a conflict if and only if `hello` shows a complete binding, a clean Device, or no Vault while no reset is open; with a complete binding the store then equals the Device if and only if the Device was accounted for and `hello` showed what it has |
| `UnreadUpdates.AccountedUntilMisled` | web/src/canonical-management.ts:787-864 | in every run, with updates that cannot be read back included, the Device's Vault is the stored or the journaled one at every moment up to the first reconciliation write decided on a stale `hello`, and is neither right after that write |
| `UnreadUpdates.KeptUntilMisled` | web/src/canonical-management.ts:787-864 | until that write the invariant holds, or would hold after a power cycle of the Device and a restart of the browser |
| `UnreadUpdates.MisledWriteOrphans` | web/src/canonical-management.ts:855-860 | that write always orphans the Device |
| `UnreadUpdates.OnlyUnreadUpdatesMislead` | firmware/components/m5auth_vault_runtime/runtime.cpp:366-372 | without an unread update no run ever comes to such a write |
| `RecoveryRuns.CopiesDieOnlyNamedAndClean` | web/src/canonical-management.ts:751-833 | whatever the records were to begin with, and with recovery resets of the Device at any time, intents that name any number of Vaults, and unread updates all in one run: a browser copy dies only while the Device holds no Vault and no registration, nothing is on the line, and an intent of that Device or a journaled reset names the copy in exactly its generation |
| `RecoveryRuns.CleanIsAlwaysTrue` | web/src/canonical-management.ts:751-770 | in every such run a clean `hello` in use is still true of the Device |
| `RecoveryRuns.DeletesOnlyNamed` | web/src/canonical-recovery-reset.ts:235-243 | reconciliation and cleanup delete no copy that is not named in its generation |
| `StuckDevices.FirstInstallationServableIff` | firmware/components/m5auth_provisioning/canonical_v2_state.cpp:120-136 | a Device that shows neither Vault nor registration can take the key of a first installation if and only if its `hello` says unprovisioned or reprovision-required |
| `StuckDevices.JournaledInstallationServableIff` | web/src/canonical-management.ts:1061-1100 | so a candidate that `initialProvision` journals can be served by the Device just seen exactly under that condition, which it does not check |
| `StuckDevices.CandidateTheDeviceRefuses` | web/src/canonical-management.ts:1061-1068 | a concrete run that journals one for a Device in an error state |
| `StuckDevices.VaultWithoutRegistrationIsReachable` | firmware/components/m5auth_provisioning/canonical_v2_state.cpp:289-311 | a concrete run to a Device with a Vault and no registration, with which every reconciliation ends in a conflict |
| `StuckDevices.RegistrationWithoutVaultIsReachable` | firmware/components/m5auth_provisioning/canonical_protocol_v2.cpp:641-664 | a concrete run to a Device with a registration and no Vault, with which the open reset can be neither finished nor withdrawn |
| `Reconciliation.CrashedReconciliationResumes` | web/src/canonical-management.ts:787-864 | reconciliation interrupted after any number of its writes and started again ends in the same records and the same verdict |
| `Reconciliation.DecisionsShrink` | web/src/canonical-management.ts:787-864 | every write reconciliation decides on shortens the journal and intents, or is the one put that lets the next write do so |
| `Reconciliation.SettleOnlyDropsEntries` | web/src/canonical-management.ts:787-864 | reconciliation never adds or alters a journal entry |
| `Reconciliation.SettleLeavesOtherEntries` | web/src/canonical-management.ts:816-864 | reconciling the shown Vault never touches the journal entry of another Vault |
| `Reconciliation.CleanSettleDropsEntries` | web/src/canonical-management.ts:790-814 | reconciling a clean Device never brings a Vault into the store |
| `Reconciliation.SettleStoresOnlyJournaled` | web/src/canonical-management.ts:834-864 | whatever reconciliation puts into the store was journaled before |
| `Reconciliation.CleanupNeverPuts` | web/src/canonical-management.ts:751-785 | the cleanup behind an open reset only ever deletes, a copy first and its journal entry after it |
| `CanonicalManagement.CanonicalDeviceManagement.MutateVault` | web/src/canonical-management.ts:1162-1215 | a normal return means Device and store both hold the edited candidate; a failure with reliable storage leaves the candidate journaled, or both still holding the old Vault if and only if the last `hello` showed what the Device has, or else the candidate in flash behind a failed runtime that showed the old metadata, with the browser keeping the old Vault; the Device's reply is not trusted |
| `CanonicalManagement.CanonicalDeviceManagement.RotateVmk` | web/src/canonical-management.ts:535-623 | the same for a re-key, which also needs the right passphrase and carries the new recovery wrap and VMK wrap; here a failure without a journaled candidate always leaves both with the old Vault |
| `CanonicalManagement.CanonicalDeviceManagement.StageAndCommit` | web/src/canonical-management.ts:1185-1214 | one staged request and its reconciliation: committed on both sides, still journaled, old on both sides, or, for an update not read back, left behind in flash |
| `CanonicalManagement.CanonicalDeviceManagement.ResolvePendingOperation` | web/src/canonical-management.ts:866-899 | after a request whose outcome is unknown: returning normally means the candidate is committed on both sides; otherwise the same three cases, told apart by whether `hello` showed what the Device has |
| `CanonicalManagement.CanonicalDeviceManagement.InitialProvision` | web/src/canonical-management.ts:1061-1139 | a normal return means the Device holds exactly the new Vault in generation 1 under the new registration, and the store agrees; a failure that left no journal entry left nothing on either side |
| `CanonicalManagement.CanonicalDeviceManagement.RecoverImportedVaultToCleanDevice` | web/src/canonical-management.ts:378-437 | a normal return means the Device holds the imported Vault under a registration of epoch 1, and the store agrees |
| `CanonicalManagement.CanonicalDeviceManagement.FactoryReset` | web/src/canonical-management.ts:641-713 | needs firmware that asks for a confirmation; a normal return means Vault, registration, copy, journal entry and intent are all gone; a failure, after a best-effort cancel where nothing was sent, leaves either an open intent that can be resumed or the old binding whole |
| `CanonicalManagement.CanonicalDeviceManagement.CommitReset` | web/src/canonical-management.ts:677-712 | intent first, journal entry second, request third: a failure at any of them leaves a state that reconciliation resolves |
| `CanonicalManagement.CanonicalDeviceManagement.ResolveFactoryReset` | web/src/canonical-management.ts:901-931 | after a reset request of unknown outcome: done on both sides, still open, or undone with the old Vault whole |
| `CanonicalManagement.CanonicalDeviceManagement.ReconcileResetIntentForHello` | web/src/canonical-management.ts:751-785 | carries out exactly the decided cleanup; throws only where the decision is a conflict or storage fails |
| `CanonicalManagement.CanonicalDeviceManagement.ReconcilePendingForHello` | web/src/canonical-management.ts:787-864 | its writes, in its order, are exactly the decided ones, so that it ends where the specification's settling ends |
| `CanonicalManagement.CanonicalDeviceManagement.CleanAffected` | web/src/canonical-management.ts:756-766 | one affected Vault of an intent: skipped, cleaned, or refused for another generation |
| `CanonicalManagement.CanonicalDeviceManagement.Promote` | web/src/canonical-management.ts:835-853 | the matching candidate is put, by insertion or over its expected generation, before its entry is deleted |
| `CanonicalManagement.CanonicalDeviceManagement.RefreshHelloAndBrowserState` | web/src/canonical-management.ts:741-745 | returns only with everything reconciled to the `hello` just received and the matching state loaded; a browser in step stays in step |
| `CanonicalManagement.CanonicalDeviceManagement.ReloadBrowserState` | web/src/canonical-management.ts:933-952 | a state is loaded if and only if the shown Vault has a stored copy for this very Device |
| `CanonicalManagement.CanonicalDeviceManagement.RequireActiveWriter` | web/src/canonical-management.ts:1154-1160 | passes only for an active stored binding that matches an unlocked Device |
| `CanonicalManagement.ReplacementResolves` | web/src/canonical-management.ts:866-899 | reconciling a journaled update or re-key finishes with the store holding candidate or old Vault, whichever the Device has; a conflict keeps the entry |
| `CanonicalManagement.InstallationResolves` | web/src/canonical-management.ts:866-899 | the same for a journaled installation: on a clean Device nothing is left in the store, otherwise the Device holds the candidate and its registration |
| `CanonicalManagement.ResetResolves` | web/src/canonical-management.ts:901-931 | reconciling an open reset: done everywhere, restored with the store untouched, or blocked without a change |
| `RecoveryReset.IntentMatchesStoreIff` | web/src/canonical-recovery-reset.ts:195-226 | the intent that is built names every stored generation correctly if and only if no journaled candidate is ahead of its stored copy and no stored copy of the shown Vault differs from what `hello` shows |
| `RecoveryReset.StaleIntentBlocksForGood` | web/src/canonical-recovery-reset.ts:228-247 | an intent entry whose generation is not the stored one makes every later cleanup end in a conflict, with that copy kept |
| `RecoveryReset.JournaledUpdateMakesCleanupImpossible` | web/src/canonical-recovery-reset.ts:210-224 | false of the code: with a concrete journaled update, every intent built while the Device asks for recovery makes reconciliation with the clean Device end in a conflict |
| `RecoveryReset.CanonicalRecoveryResetController.BuildResetIntent` | web/src/canonical-recovery-reset.ts:195-226 | the intent lists each affected Vault exactly once, with the generation of the journaled candidate, else of the stored copy, else of `hello` |
| `RecoveryReset.CanonicalRecoveryResetController.CleanupFromResetIntent` | web/src/canonical-recovery-reset.ts:228-247 | returns only if every affected stored copy has the intent's generation, and has then removed exactly the affected copies, their entries and the intent; otherwise the intent is kept and only affected records are gone; with reliable storage it refuses only for a wrong generation |
| `RecoveryReset.CanonicalRecoveryResetController.Complete` | web/src/canonical-recovery-reset.ts:123-168 | deletes nothing before a clean `hello` of the same Device; whatever other tabs, which the browser lock keeps out of both its critical sections, did in between, it then finishes with exactly the cleaned records or keeps the intent; where they did nothing, it can finish if and only if the intent agrees with the store |
| `RecoveryReset.CleanupResumes` | web/src/canonical-recovery-reset.ts:228-247 | a cleanup cut short by a failing write or a crash can be taken up again to the same end |
| `BrowserReplacement.SingleWriterIsUpToDate` | web/src/canonical-management.ts:981-1059 | browsers import packages, replace each other, journal, send, update without a read-back, re-key, lose replies, clear the Device and install it again; as long as the Device only records replacements of packages from its present life, at any moment at most one browser may write, and its stored Vault is exactly the Device's, content included |
| `BrowserReplacement.WritersStayUpToDateIff` | web/src/canonical-management.ts:989-993 | false in general of the code, and exactly when: writers stay up to date in every run that accepts packages up to a given age, counted in clearings, if and only if that age is zero |
| `BrowserReplacement.PackagesArePresentIffTheyNameTheRegistration` | web/src/security/browser-vault.ts:474-480 | in terms of ids alone, which the package carries and the import drops: a run accepts no package from an earlier life if and only if every replacement is of a package whose previous registration is the Device's current one |
| `BrowserReplacement.PresentLifeIffPreviousIsCurrent` | web/src/security/browser-vault.ts:560-588 | the same for one pending copy whose epoch is the Device's next |
| `BrowserReplacement.ForeignPackageMisleads` | web/src/canonical-management.ts:989-993 | in any reachable fleet a package that shows the Device's generation and epoch with another content is from an earlier life, and completing it makes a trusted writer with the wrong content |
| `BrowserReplacement.PackageOfAnEarlierLife` | web/src/security/browser-vault.ts:560-588 | such a run from a first installation: export, update, export, clear, recover the older package, update, complete the newer one |
| `BrowserReplacement.OpenReplacementCompletes` | web/src/canonical-management.ts:981-1059 | a pending replacement whose registration is recorded, or whose epoch is the Device's next and whose Vault is the Device's, can always be completed by a power cycle and this browser alone |
| `BrowserReplacement.ClosedReplacementStaysPending` | web/src/canonical-management.ts:1021-1026 | every other pending replacement stays pending for the rest of the Device's life: its epoch went to another browser, or the Vault moved on |
| `BrowserReplacement.EveryReachedFleetHasInv` | web/src/canonical-management.ts:981-1059 | the invariant behind it holds in every reachable fleet of browsers |
| `BrowserReplacement.ReplacingBrowser.CompletePendingReplacement` | web/src/canonical-management.ts:981-1059 | refuses without a request, confirms without a request, or sends one; activated means stored, active and matching the `hello` just received; an interruption leaves the copy pending, and one the Device did record is confirmed at the next look |
| `Presence.ArmedExtends` | firmware/components/m5auth_session/user_presence.cpp:61-89 | the armed flag is the sample history: armed from the second of two consecutive releases on, and never disarmed |
| `Presence.FreshEdgeExtends` | firmware/components/m5auth_session/user_presence.cpp:61-89 | the edge flag is the sample history: set exactly when the present run of presses began after arming and has not been used up |
| `Presence.PressConfirmsIff` | firmware/components/m5auth_session/user_presence.cpp:91-106 | a press confirms a waiting request exactly in time, for a newer press, and after two consecutive releases followed by an unspent edge and the button down ever since |
| `Presence.HeldButtonNeverConfirms` | firmware/components/m5auth_session/user_presence.cpp:91-106 | so a button never seen released twice running, held since before the request or bouncing, confirms nothing |
| `Presence.UserPresenceGate.Begin` | firmware/components/m5auth_session/user_presence.cpp:46-59 | a request starts with no history, bound to the button-press count at that time |
| `Presence.UserPresenceGate.ObserveInputState` | firmware/components/m5auth_session/user_presence.cpp:61-89 | its counters and flags stay equal to what the sample history says |
| `Presence.UserPresenceGate.ConfirmCurrent` | firmware/components/m5auth_session/user_presence.cpp:91-106 | confirms exactly when waiting, in time, for a newer press, with a fresh edge, and uses the edge up otherwise |
| `Presence.UserPresenceGate.ConsumeConfirmation` | firmware/components/m5auth_session/user_presence.cpp:108-119 | a confirmation is used exactly once, by the request it was given to, before its deadline |
| `Presence.UserPresenceGate.Expire` | firmware/components/m5auth_session/user_presence.cpp:121-125 | goes exactly when overdue |
| `Presence.CanonicalPresence.BeginPresence` | firmware/components/m5auth_device_sticks3/canonical_device.cpp:228-235 | opens the gate for the one request named, at the present press count |
| `Presence.CanonicalPresence.ButtonPressed` | firmware/components/m5auth_device_sticks3/canonical_device.cpp:255-262 | counts the press and lets it confirm the request that was waiting when it happened |
| `Presence.PresenceGestureQuarantine.Observe` | firmware/components/m5auth_session/user_presence.cpp:173-192 | ends exactly at a sighting where the button has been up since its last release for longer than the click decision time and no click is being decided |
| `SessionMachine.EveryStateIsExplained` | firmware/components/m5auth_session/attempt_coordinator.cpp:64-215 | in every interleaving of session lines, samples, presses, resets and expiries, an active attempt has its begin, its authorize and, when confirmed, its press, in that order and undisturbed in between |
| `SessionMachine.EveryKeyIsJustified` | firmware/components/m5auth_session/attempt_coordinator.cpp:162-199 | each key given out follows, after that attempt's own authorize, two consecutive released samples, a fresh press edge and a confirmation before the gate's deadline |
| `SessionMachine.KeysShareNothing` | firmware/components/m5auth_session/attempt_coordinator.cpp:162-199 | two keys never share an attempt, an authorization or a press: their events lie wholly one after the other |
| `SessionMachine.LatePressPossibleIff` | firmware/components/m5auth_session/attempt_coordinator.cpp:64-160 | a press after the attempt's own deadline can still release its key, for given begin and authorize times, if and only if the gate's deadline, counted from the authorization, lies beyond the attempt's |
| `SessionMachine.LatenessIsBounded` | firmware/components/m5auth_session/user_presence.cpp:91-106 | and it is then late by less than the two deadlines are apart |
| `SessionMachine.OrderedClocksAreNeverLate` | firmware/components/m5auth_session/attempt_coordinator.cpp:162-199 | in a run whose clock readings never decrease, every key was confirmed before its attempt's own deadline |
| `SessionMachine.ConfirmedResetIsFresh` | firmware/components/m5auth_provisioning/canonical_protocol_v2.cpp:546-579 | a confirmed reset was asked for by its own begin and pressed afterwards |
| `SessionMachine.ReleaseIsJustified` | firmware/components/m5auth_session/attempt_coordinator.cpp:162-199 | the step that gives a key out has that whole chain behind it |
| `SessionMachine.GivenOutStays` | firmware/components/m5auth_session/attempt_coordinator.cpp:162-199 | a justification is never lost as the run goes on |
| `AttemptCoordination.AttemptCoordinator.Begin` | firmware/components/m5auth_session/attempt_coordinator.cpp:64-83 | a new attempt replaces any old one, closes the gate, and has the deadline of its session key |
| `AttemptCoordination.AttemptCoordinator.Authorize` | firmware/components/m5auth_session/attempt_coordinator.cpp:85-160 | presence is asked for only in time, under a valid key, and with a signature that verifies over this attempt's transcript where one is due; a failure ends the attempt |
| `AttemptCoordination.AttemptCoordinator.Complete` | firmware/components/m5auth_session/attempt_coordinator.cpp:162-199 | ends the attempt whatever happens; a key comes out only by using up this attempt's confirmation, and is what the transcript opens |
| `AttemptCoordination.AttemptCoordinator.Expire` | firmware/components/m5auth_session/attempt_coordinator.cpp:201-209 | ends the attempt and its gate exactly at the deadline, and otherwise changes nothing |
| `AttemptCoordination.AttemptCoordinator.CheckAuthorization` | firmware/components/m5auth_session/attempt_coordinator.cpp:92-146 | what authorization requires, checked before anything is staged |
| `AttemptCoordination.DeviceSession.Begin` | firmware/components/m5auth_session/session_crypto.cpp:449-502 | fresh values with a saturating deadline |
| `AttemptCoordination.DeviceSession.MatchesAttempt` | firmware/components/m5auth_session/session_crypto.cpp:518-531 | a wrong or late id destroys the session |
| `AttemptCoordination.DeviceSession.VerifyBrkSignature` | firmware/components/m5auth_session/session_crypto.cpp:533-549 | valid exactly when active, in time and verifying; otherwise the session is destroyed |
| `AttemptCoordination.DeviceSession.OpenVmk` | firmware/components/m5auth_session/session_crypto.cpp:551-617 | one attempt to open a key, and the session is gone either way |
| `SessionBinding.UnlockBindingExistsIff` | firmware/components/m5auth_provisioning/session_binding_v2.cpp:94-132 | and one at all exactly when it has an id, a Vault and a registration with a key |
| `SessionBinding.SameBytes` | firmware/components/m5auth_provisioning/session_binding_v2.cpp:14-21 | the accumulated difference is zero exactly for equal strings |
| `RegistrationStore.RecordRoundTrip` | firmware/components/m5auth_registration/registration.cpp:197-262 | a written record reads back as the registration exactly when that is storable, and as nothing otherwise |
| `RegistrationStore.RecordIsCanonical` | firmware/components/m5auth_registration/registration.cpp:197-262 | a record that reads back at all is the encoding of what it reads as |
| `RegistrationStore.Store.Initialize` | firmware/components/m5auth_registration/registration.cpp:104-146 | ready exactly when both records could be read; flash stays as it is; a corrupt registration allows the recovery reset |
| `RegistrationStore.Store.LoadOrCreateDeviceId` | firmware/components/m5auth_registration/registration.cpp:148-195 | an existing id record is never overwritten; a new id is recorded before it is used |
| `RegistrationStore.Store.InstallInitial` | firmware/components/m5auth_registration/registration.cpp:319-332 | only onto an empty record, only in epoch 1; any failure leaves flash as it was |
| `RegistrationStore.Store.Replace` | firmware/components/m5auth_registration/registration.cpp:334-351 | only over exactly the expected Vault and epoch, exactly one epoch up; any failure leaves flash as it was, though a failed reread makes RAM forget |
| `RegistrationStore.Store.ClearRegistration` | firmware/components/m5auth_registration/registration.cpp:353-372 | record and RAM together, or neither |
| `RegistrationStore.Store.ClearCorruptRegistrationForRecovery` | firmware/components/m5auth_registration/registration.cpp:374-411 | the recovery of a damaged record makes the store ready with the id the Device has been showing |
| `VaultRuntime.NvsPersistence.ReplaceEnvelope` | firmware/components/m5auth_vault_runtime/nvs_persistence.cpp:363-451 | the active Vault becomes the new one or stays the old one, wherever the power fails between the writes, and only over the expected generation |
| `VaultRuntime.NvsPersistence.Load` | firmware/components/m5auth_vault_runtime/nvs_persistence.cpp:278-343 | reports the active Vault, or why there is none |
| `VaultRuntime.Runtime.Initialize` | firmware/components/m5auth_vault_runtime/runtime.cpp:138-184 | every boot ends locked, empty, in need of reprovisioning, or failed; never unlocked |
| `VaultRuntime.Runtime.InstallEncryptedVault` | firmware/components/m5auth_vault_runtime/runtime.cpp:270-290 | only into an empty formatted store, validated under the key it was delivered with |
| `VaultRuntime.Runtime.Unlock` | firmware/components/m5auth_vault_runtime/runtime.cpp:292-308 | exactly when locked and the key opens the Vault; otherwise nothing changes |
| `VaultRuntime.Runtime.Lock` | firmware/components/m5auth_vault_runtime/runtime.cpp:310-316 | the key is gone whatever the state; an error stays an error |
| `VaultRuntime.Runtime.UpdateEncryptedVault` | firmware/components/m5auth_vault_runtime/runtime.cpp:334-386 | compare-and-set on the generation under the resident key: done, unchanged, or persistent and failed with the old metadata shown and a recovery reset allowed |
| `VaultRuntime.Runtime.RekeyEncryptedVault` | firmware/components/m5auth_vault_runtime/rekey.cpp:48-106 | the same under a new key after the boundary; its failed read-back does not allow a recovery reset |
| `VaultRuntime.Runtime.EnterVmkRekeyBoundary` | firmware/components/m5auth_vault_runtime/rekey.cpp:33-46 | destroys the key but keeps the age of the session |
| `VaultRuntime.Runtime.FactoryReset` | firmware/components/m5auth_vault_runtime/runtime.cpp:525-543 | the Vault is gone, or the runtime has failed with the Vault untouched or gone |
| `VmkSink.CanonicalVmkSink.PrepareAttempt` | firmware/components/m5auth_provisioning/canonical_v2_state.cpp:120-154 | drops any pending key, and locks the runtime where the operation destroys the resident key |
| `VmkSink.CanonicalVmkSink.InstallVmk` | firmware/components/m5auth_provisioning/canonical_v2_state.cpp:156-229 | a delivered key unlocks, replaces, or waits; it waits for a first installation only where flash and RAM hold nothing |
| `VmkSink.CanonicalVmkSink.InstallVault` | firmware/components/m5auth_provisioning/canonical_v2_state.cpp:266-363 | the rollback erase never destroys an earlier Vault, since there is none: installed exactly as asked and in time, or nothing registered and at most this very envelope left behind a failed runtime |
| `VmkSink.CanonicalVmkSink.InstallRekeyedVault` | firmware/components/m5auth_provisioning/canonical_v2_state.cpp:365-389 | exactly the next generation under exactly the pending key, in time, or nothing, or persistent and failed |
| `VmkSink.CanonicalVmkSink.ArmPendingDeadline` | firmware/components/m5auth_provisioning/canonical_v2_state.cpp:231-239 | a pending key gets its saturating deadline |
| `VmkSink.CanonicalVmkSink.ExpirePending` | firmware/components/m5auth_provisioning/canonical_v2_state.cpp:241-246 | and is wiped exactly when it has passed |
| `VmkSink.CanonicalVmkSink.PendingValid` | firmware/components/m5auth_provisioning/canonical_v2_state.cpp:257-264 | a pending key is only used by its own operation before its deadline |
| `StagedSession.StagedSessionHandler.Begin` | firmware/components/m5auth_provisioning/session_protocol_v2.cpp:292-310 | an attempt exists afterwards exactly if the reply is one, bound to what the Device shows now |
| `StagedSession.StagedSessionHandler.Authorize` | firmware/components/m5auth_provisioning/session_protocol_v2.cpp:311-333 | refused, with the attempt gone, unless the binding still holds and the required signature verifies under the Device's registered key |
| `StagedSession.StagedSessionHandler.Complete` | firmware/components/m5auth_provisioning/session_protocol_v2.cpp:350-387 | the binding is checked before and after the key is opened; the sink only gets a key just given out |
| `StagedSession.StagedSessionHandler.HandOver` | firmware/components/m5auth_provisioning/session_protocol_v2.cpp:372-380 | the sink is only touched under a binding that still holds, and only takes the key just opened |
| `StagedSession.StagedSessionHandler.Status` | firmware/components/m5auth_provisioning/session_protocol_v2.cpp:334-349 | reports `confirmed` only for a confirmed gate under a binding that still holds |
| `StagedSession.StagedSessionHandler.FailClosed` | firmware/components/m5auth_provisioning/session_protocol_v2.cpp:418-422 | any failure ends the attempt and its gate |
| `CanonicalProtocol.CanonicalProtocolHandler.HandleLine` | firmware/components/m5auth_provisioning/canonical_protocol_v2.cpp:440-893 | whatever a line says and whatever fails below, afterwards at most one of attempt, pending key, factory reset and recovery reset is live, it has time left (short of the clock's very last value), the gate belongs to it, every key in RAM was given out by a justified attempt, flash has moved only as it may, the reply is true, and the Device has moved by finitely many of its own steps and steps for this very request: this update, re-key or install, this attempt's key, this reset's erase |
| `CanonicalProtocol.CanonicalProtocolHandler.Dispatch` | firmware/components/m5auth_provisioning/canonical_protocol_v2.cpp:479-893 | the same for the operations themselves, after housekeeping |
| `CanonicalProtocol.CanonicalProtocolHandler.Housekeeping` | firmware/components/m5auth_provisioning/canonical_protocol_v2.cpp:399-417 | everything overdue is gone afterwards, an overdue unlocked Vault is locked, and what had time left is as it was |
| `CanonicalProtocol.CanonicalProtocolHandler.LockSecurityBoundary` | firmware/components/m5auth_provisioning/canonical_protocol_v2.cpp:383-397 | nothing is live, the gate is idle and the key is gone, even when locking fails |
| `CanonicalProtocol.CanonicalProtocolHandler.VaultLine` | firmware/components/m5auth_provisioning/canonical_protocol_v2.cpp:782-858 | the three Vault operations, with the same promises |
| `CanonicalProtocol.CanonicalProtocolHandler.SessionLine` | firmware/components/m5auth_provisioning/canonical_protocol_v2.cpp:481-525 | a session line ends both resets and leaves the Vault in flash alone |
| `CanonicalProtocol.CanonicalProtocolHandler.BeginFactoryReset` | firmware/components/m5auth_provisioning/canonical_protocol_v2.cpp:546-579 | begins exactly on an unlocked working Device, ending everything else, with a fresh gesture still to come |
| `CanonicalProtocol.CanonicalProtocolHandler.CommitFactoryReset` | firmware/components/m5auth_provisioning/canonical_protocol_v2.cpp:613-667 | flash changes only behind a confirmation in time on an unlocked working Device, which is used up first |
| `CanonicalProtocol.CanonicalProtocolHandler.BeginRecoveryReset` | firmware/components/m5auth_provisioning/canonical_protocol_v2.cpp:668-716 | begins only where the Device is classified as needing it, behind a boundary without a key |
| `CanonicalProtocol.CanonicalProtocolHandler.CompleteRecoveryReset` | firmware/components/m5auth_provisioning/canonical_protocol_v2.cpp:730-781 | flash changes only behind a confirmation in time on a Device still classified as needing it |
| `CanonicalProtocol.CanonicalProtocolHandler.ConfirmFactoryReset` | firmware/components/m5auth_provisioning/canonical_protocol_v2.cpp:618-629 | the live factory reset's confirmation is used up, in time, before anything else happens |
| `CanonicalProtocol.CanonicalProtocolHandler.ConfirmRecovery` | firmware/components/m5auth_provisioning/canonical_protocol_v2.cpp:732-744 | the same for the live recovery reset |
| `CanonicalProtocol.CanonicalProtocolHandler.ForgottenNeedsRecovery` | firmware/components/m5auth_registration/registration.cpp:334-351 | after a failed reread inside a replacement no session can begin and `hello` asks for the recovery reset or is refused; by `HandleLine`, only the recovery's last line ends that before the next boot |
| `CanonicalProtocol.CanonicalProtocolHandler.ConfirmedResetWasAskedFor` | firmware/components/m5auth_provisioning/canonical_protocol_v2.cpp:546-579 | behind every usable confirmation of a reset lie its own begin and a fresh press |
| `CanonicalProtocol.CanonicalProtocolHandler.InstallVault` | firmware/components/m5auth_provisioning/canonical_protocol_v2.cpp:782-804 | success means nothing was there before and exactly the envelope and the asked registration are now |
| `CanonicalProtocol.CanonicalProtocolHandler.UpdateVault` | firmware/components/m5auth_provisioning/canonical_protocol_v2.cpp:805-829 | success means exactly the envelope is persistent, and an overdue Vault has been locked |
| `CanonicalProtocol.CanonicalProtocolHandler.RekeyVault` | firmware/components/m5auth_provisioning/canonical_protocol_v2.cpp:830-858 | success means exactly the envelope is persistent and no key is left pending |
| `CanonicalProtocol.CanonicalProtocolHandler.LockDevice` | firmware/components/m5auth_provisioning/canonical_protocol_v2.cpp:871-875 | nothing live and no key afterwards, whether or not the runtime could lock |
| `CanonicalProtocol.CanonicalProtocolHandler.Disconnect` | firmware/components/m5auth_provisioning/canonical_protocol_v2.cpp:895-900 | ends everything live and leaves flash and the runtime alone |
| `CanonicalProtocol.CanonicalProtocolHandler.AccountForKeys` | firmware/components/m5auth_provisioning/canonical_protocol_v2.cpp:383-417 | a step that keeps, drops, moves or has just been handed a key keeps every key in RAM accounted for |
| `CanonicalProtocol.CanonicalProtocolHandler.PressButton` | firmware/components/m5auth_device_sticks3/canonical_device.cpp:255-262 | a press on the other thread keeps the invariant, and confirms only the gate's own request |
| `DeviceRefinement.ServeUpdate` | firmware/components/m5auth_vault_runtime/runtime.cpp:334-386 | the firmware's update takes only the steps the commit protocol allows its Device |
| `DeviceRefinement.ServeRekey` | firmware/components/m5auth_provisioning/canonical_v2_state.cpp:365-389 | the same for a re-key |
| `DeviceRefinement.ServeDelivery` | firmware/components/m5auth_provisioning/canonical_v2_state.cpp:156-229 | the same for a key delivered for a first installation |
| `DeviceRefinement.ServeInstall` | firmware/components/m5auth_provisioning/canonical_v2_state.cpp:266-363 | the same for the installation itself |
| `DeviceRefinement.ServeReset` | firmware/components/m5auth_provisioning/canonical_protocol_v2.cpp:641-664 | the same for the erase behind a confirmed factory reset |
| `DeviceRefinement.ServeReplacement` | firmware/components/m5auth_provisioning/canonical_v2_state.cpp:156-229 | the firmware's replacement takes only the steps the many-browser model allows |
| `DeviceRefinement.Lock` | firmware/components/m5auth_provisioning/canonical_protocol_v2.cpp:383-397 | locking is one of the Device's own steps |
| `DeviceRefinement.HelloIsTheProtocols` | firmware/components/m5auth_provisioning/canonical_protocol_v2.cpp:528-545 | what the handler answers to `hello` is what the commit protocol's Device answers, as long as RAM's registration is flash's |
| `DeviceLife.Device.HandleLine` | firmware/components/m5auth_registration/registration.cpp:319-372 | over any sequence of lines and boots, each line keeps the line of registrations or appends one, or, behind a confirmed reset, starts a new one |
| `DeviceLife.Device.PowerCycle` | firmware/components/m5auth_vault_runtime/runtime.cpp:138-184 | a boot rebuilds RAM from flash, loses no registration, and is one of the commit protocol's boots |
| `DeviceLife.Device.EpochNamesOneRegistration` | firmware/components/m5auth_registration/registration.cpp:334-351 | over any such sequence without a clearing, an epoch names one registration, however browsers race |
| `DeviceLife.Device.EpochsCountReplacements` | firmware/components/m5auth_registration/registration.cpp:319-351 | epochs start at 1 and rise by exactly one with each replacement |
| `DeviceLife.Device.SupersededNeverMatches` | firmware/components/m5auth_provisioning/session_binding_v2.cpp:109-129 | an unlock or re-key binding that the Device once admitted is never admitted again after its registration was replaced |
| `Framing.ScanIsLineSplitting` | firmware/main/app_main.cpp:841-896 | the byte-at-a-time scanner is plain line splitting: each line is judged as a whole, and an unfinished one is given up at the buffer's capacity |
| `Framing.ScanDiscarded` | firmware/main/app_main.cpp:816-839 | an oversized line costs one reply, and the next line starts right behind its newline |
| `Framing.ScanUnbroken` | firmware/main/app_main.cpp:846-861 | an unfinished line is collected until the buffer is full and then given up once |
| `Framing.ScanOnlyAppends` | firmware/main/app_main.cpp:791-978 | later bytes never change what earlier bytes meant |
| `Framing.OnlyHellosBeforeTheHandshake` | firmware/main/app_main.cpp:933-941 | until a handshake is established only valid `hello` frames reach the handler |
| `Framing.InputLoop.EventsDependOnBytesAlone` | firmware/main/app_main.cpp:791-978 | until a fault, frames and too-large replies are a function of the bytes alone, however they were cut by reads |
| `Framing.InputLoop.Turn` | firmware/main/app_main.cpp:791-978 | every pass of the loop keeps that; a disconnect starts over and a fault is final until then |
| `Framing.InputLoop.ReadMore` | firmware/main/app_main.cpp:863-876 | bytes are only added behind what is buffered |
| `Framing.InputLoop.DiscardMore` | firmware/main/app_main.cpp:816-839 | the rest of an oversized line goes, and what follows its newline stays |
| `Framing.InputLoop.GiveUpLine` | firmware/main/app_main.cpp:846-861 | one reply for a full buffer without a newline |
| `Framing.InputLoop.HandleLine` | firmware/main/app_main.cpp:878-978 | one outcome for the first complete line, and what follows it stays |
| `Framing.InputLoop.ConsumePrefix` | firmware/main/app_main.cpp:470-485 | the rest moves to the front and everything behind it is zero |
| `Framing.UsbProtocolTransport.WriteFrame` | firmware/main/usb_protocol_transport.cpp:51-80 | completed means the response and one newline went out; otherwise a prefix of them did |
| `Base64Url.Encode` | firmware/components/m5auth_session/session_protocol_v2.cpp:129-155 | the text spells the bytes in groups of six bits, the last one filled with zeros (section 5 of RFC 4648) |
| `Base64Url.Decode` | firmware/components/m5auth_session/session_protocol_v2.cpp:157-189 | succeeds exactly on the texts that spell some bytes, and returns those, though its accumulator wraps at 32 bits; the final comparison with a fresh encoding never fails |
| `Base64Url.EncodingIsUnique` | firmware/components/m5auth_session/session_protocol_v2.cpp:129-155 | bytes have one spelling |
| `Base64Url.DecodingIsUnique` | firmware/components/m5auth_session/session_protocol_v2.cpp:157-189 | a text spells one string of bytes |
| `Base32.Decode` | firmware/components/m5auth_totp/totp_core.cpp:23-51 | accepts exactly the texts whose letters spell non-empty bytes up to fewer than eight zero bits, padding only at the end, though its accumulator wraps |
| `Base32.EncodingsAreAccepted` | firmware/components/m5auth_totp/totp_core.cpp:23-51 | so every section 6 encoding of RFC 4648 is accepted, padded or not, as the bytes it encodes |
| `Base32.AcceptedAsOneSecret` | firmware/components/m5auth_totp/totp_core.cpp:23-51 | a text is accepted as one secret only |
| `Base32.SurplusLetter` | firmware/components/m5auth_totp/totp_core.cpp:43-50 | but a secret has more than one accepted text: exactly when a further letter fits among the unused bits, an `A` may follow |
| `Base32.SurplusIsAccepted` | firmware/components/m5auth_totp/totp_core.cpp:43-50 | a concrete pair of texts accepted as the same byte |
| `Bits.SymbolComesIn` | firmware/components/m5auth_session/session_protocol_v2.cpp:157-189 | shifting a symbol into the wrapping accumulator keeps the pending bits |
| `Bits.ByteLeaves` | firmware/components/m5auth_session/session_protocol_v2.cpp:157-189 | taking a byte out leaves exactly the bits behind it |
| `Bits.LeftoverIsFill` | firmware/components/m5auth_session/session_protocol_v2.cpp:157-189 | the final remainder is zero exactly when the text is a zero-filled spelling |
| `Transcript.EncodeTranscript` | firmware/components/m5auth_session/session_protocol_v2.cpp:82-127 | an encoding exists exactly for acceptable inputs, in the fixed layout |
| `Transcript.TranscriptIsInjective` | firmware/components/m5auth_session/session_protocol_v2.cpp:82-127 | equal transcripts mean equal inputs, field by field, despite the variable-length device id in the middle |
| `Transcript.AppendNumber` | firmware/components/m5auth_session/session_protocol_v2.cpp:12-23 | the shifting loop writes the big-endian spelling |
| `Decimal.ParseU64` | firmware/components/m5auth_provisioning/canonical_protocol_v2.cpp:129-143 | accepts exactly the canonical decimal spellings of 64-bit numbers, overflow excluded, and returns the number |
| `Decimal.SpellingIsCanonical` | firmware/components/m5auth_provisioning/session_protocol_v2.cpp:122-134 | the usual spelling is canonical and denotes the number |
| `Decimal.CanonicalIsSpelled` | firmware/components/m5auth_provisioning/session_protocol_v2.cpp:122-134 | a canonical text is the usual spelling of what it denotes |
| `SnapshotCodec.ValidateState` | firmware/components/m5auth_storage/state.cpp:204-237 | the flag arrays and maxima decide exactly validity: ids unique and below the next id, orders a permutation, selection live, sizes in bounds |
| `SnapshotCodec.DecodeState` | firmware/components/m5auth_storage/state.cpp:278-329 | returns a state exactly for the encodings of valid states, and then that state |
| `SnapshotCodec.DecodeInvertsEncode` | firmware/components/m5auth_storage/state.cpp:239-329 | encoder and decoder are inverse both ways on valid states and their encodings |
| `SnapshotCodec.ValidStatesFit` | firmware/components/m5auth_storage/state.cpp:239-276 | every valid state fits the snapshot size limit |
| `SnapshotCodec.Reader.ReadNumber` | firmware/components/m5auth_storage/state.cpp:40-60 | a little-endian number, or nothing and no progress |
| `SnapshotCodec.Reader.ReadText` | firmware/components/m5auth_storage/state.cpp:71-82 | a length-prefixed text within its limit, or nothing |
| `AccountStore.Store.ListAccounts` | firmware/components/m5auth_storage/storage.cpp:403-439 | lists the accounts in their order, whatever the order of the records |
| `AccountStore.Store.AddAccount` | firmware/components/m5auth_storage/storage.cpp:490-527 | appends at the end under a number never used before |
| `AccountStore.Store.UpdateAccount` | firmware/components/m5auth_storage/storage.cpp:529-568 | changes one account in place and nothing else |
| `AccountStore.Store.RenameAccount` | firmware/components/m5auth_storage/storage.cpp:570-598 | changes one name and nothing else |
| `AccountStore.Store.DeleteAccount` | firmware/components/m5auth_storage/storage.cpp:600-644 | the others keep their relative order, and the selection goes with its account |
| `AccountStore.Store.ReorderAccounts` | firmware/components/m5auth_storage/storage.cpp:646-688 | the list becomes exactly the one asked for, of the accounts there were; anything else changes nothing |
| `AccountStore.Store.ReplaceAccounts` | firmware/components/m5auth_storage/storage.cpp:441-488 | all accounts are replaced, in order, under numbers never used before |
| `AccountStore.Store.SetLastUsed` | firmware/components/m5auth_storage/storage.cpp:707-734 | only a listed account can be selected |
| `AccountStore.Store.SetWifi` | firmware/components/m5auth_storage/storage.cpp:754-794 | replaces the network and nothing else |
| `AccountStore.Store.Initialize` | firmware/components/m5auth_storage/storage.cpp:352-385 | an existing snapshot is never touched; an empty partition gets the fresh state |
| `AccountStore.Store.FactoryReset` | firmware/components/m5auth_storage/storage.cpp:850-858 | ready afterwards exactly with the fresh state |
| `AccountStore.Store.Save` | firmware/components/m5auth_storage/storage.cpp:84-110 | a valid state is never refused as invalid or too large |
| `AccountStore.DeleteKeepsValid` | firmware/components/m5auth_storage/storage.cpp:600-644 | renumbering the sorted rest keeps the state valid |
| `AccountStore.DeleteRanks` | firmware/components/m5auth_storage/storage.cpp:600-644 | and is exactly the list without the deleted account |
| `AccountStore.AddKeepsValid` | firmware/components/m5auth_storage/storage.cpp:490-527 | adding keeps the state valid and appends |
| `AccountStore.ReorderKeepsValid` | firmware/components/m5auth_storage/storage.cpp:646-688 | placing every account once keeps the state valid and gives the asked order |
| `AccountStore.ReplaceKeepsValid` | firmware/components/m5auth_storage/storage.cpp:441-488 | replacing keeps the state valid |
| `Ranking.SortByOrder` | firmware/components/m5auth_storage/storage.cpp:430-436 | the records sorted strictly by order, the same multiset |
| `Ranking.SortedPermutation` | firmware/components/m5auth_storage/storage.cpp:430-436 | sorted orders that permute 0..n-1 are 0..n-1 |
| `Ranking.SortedWithGap` | firmware/components/m5auth_storage/storage.cpp:627-636 | sorted orders missing one number are renumbered by closing the gap |
| `ProbeScan.ContainsPlainProbe` | firmware/components/m5auth_storage/storage.cpp:175-230 | reports the probe exactly when it occurs anywhere in a partition that could be read, and calls it unreadable only for a failed read before any occurrence |
| `ProbeScan.TailSuffices` | firmware/components/m5auth_storage/storage.cpp:190-226 | with one byte less than the probe carried over, the scanned window sees every occurrence that the new part completes |
| `TrustedClock.DriftIsBounded` | firmware/components/m5auth_time/trusted_time.cpp:32-60 | for any jump limit J, after k accepted NTP samples every reading lies between -k(J+1) and +kJ seconds of the first anchor's own projection |
| `TrustedClock.SampleMovesOffset` | firmware/components/m5auth_time/trusted_time.cpp:32-60 | one accepted sample moves the offset by at most J seconds up and less than J+1 seconds down |
| `TrustedClock.BoundsAreTight` | firmware/components/m5auth_time/trusted_time.cpp:32-60 | both bounds are reached, whatever the limit |
| `TrustedClock.TrustedClock.AcceptNtpSample` | firmware/components/m5auth_time/trusted_time.cpp:32-60 | accepts exactly a first sample or one within the jump limit of the projection; a refusal changes nothing |
| `TrustedClock.TrustedClock.CurrentUnixSeconds` | firmware/components/m5auth_time/trusted_time.cpp:89-115 | a reading is the projection, within the bound, and is refused exactly when unset, stale, backwards or overflowing |
| `TrustedClock.TrustedClock.TakeSnapshot` | firmware/components/m5auth_time/trusted_time.cpp:62-87 | ready exactly while not stale, and due for resync from its interval on |
| `NoticeClosure.ResolveNodePath` | scripts/verify_third_party_notices.py:28-39 | the loop that shortens the base finds the nearest listed ancestor candidate |
| `NoticeClosure.WebProductionDependencies` | scripts/verify_third_party_notices.py:42-99 | succeeds exactly when the root table is well formed, everything required resolves and no reachable package is in error; then it lists each reachable path once, under a name by which it is reached, with its version |
| `NoticeClosure.ListIsCompleteIffOneNamePerPath` | scripts/verify_third_party_notices.py:64-99 | where no two reachable paths share a name and version, every list the program can give is exactly the reachable pairs if and only if no reachable path is reached under two names |
| `NoticeClosure.EveryListIsCompleteIff` | scripts/verify_third_party_notices.py:64-99 | in full: the lists of all table orders are exactly the reachable pairs if and only if every reachable pair has a path reached under no other name |
| `NoticeClosure.OneNamePerPathIsComplete` | scripts/verify_third_party_notices.py:64-99 | one name per reachable path makes every list complete, without further conditions |
| `NoticeClosure.PlainNamesAreOnePerPath` | scripts/verify_third_party_notices.py:28-39 | which is so whenever no dependency name contains the path marker |
| `NoticeClosure.NameThatIsAPathHidesAnother` | scripts/verify_third_party_notices.py:66-82 | a concrete lock file on which the program succeeds and every list it can give misses a reachable pair |
| `NoticeClosure.ClosedHoldsReachable` | scripts/verify_third_party_notices.py:64-99 | a set closed under resolution holds every reachable package |

## Left out

- Cryptography (P-256, HKDF, AES-GCM, ECDSA, HMAC, Argon2) and with it TOTP generation: only that a
  given function opens, verifies or fails.
- JSON parsing and printing, memory exhaustion, and wiping of memory beyond the field's value.
- The LCD, labels, localization, help pages, DOM code, timing diagnostics frames and the
  screen-snapshot build.
- Wi-Fi, SNTP and the USB driver beyond results that may fail; release and attestation scripts.
- `initialize`, `requestUnlock`, `refresh` and `close` in the browser beyond the reconciliation they
  call, and user-interface calls into the runtime (`with_credential`, `with_wifi`, `set_last_used`,
  the last-used metadata): they only read, or touch fields nothing else here depends on.
- The recovery passphrase re-wrap racing an update: a put merges as the code does, but no step of
  its own changes the wrap.
- Failing reads of browser storage: only its writes fail or crash. One browser's commit protocol and
  the many-browser model are separate.
- UnreadUpdates.EveryWorldIsReached: recovery resets, which the browser's recovery controller asks for, are not
  among its steps; `RecoveryRuns` has them, for the question when a copy may die.
- UnreadUpdates.AccountedUnlessOrphaned: is about the same runs.
- UnreadUpdates.AccountedUntilMisled: is about the same runs.
- UnreadUpdates.ReconciliationSettlesAnywhere: is about the same runs; `RecoveryReset` has what reconciliation
  does with a recovery intent.
- VaultRuntime.NvsPersistence.ReplaceEnvelope: a commit that reports a failure and takes effect all the same
  is not modelled; a failed NVS write leaves flash as it was, and the two writes of a replacement
  are apart, with a power loss before, between or after them.
- The legacy storage schema counts as a Device without a Vault.
- `install_initial_vault` and `install_recovered_vault` are one method here, as are `set_wifi` and
  `clear_wifi`; they differ only in the expected generation and in the emptiness of the arguments.
- Damage to the registration record is damage that makes it unreadable; a flipped bit that yields
  another valid record is not modelled. Random ids are new and not zero.
- The mutexes: each gate operation, protocol line and runtime call is atomic, and the two threads
  interleave between them.
